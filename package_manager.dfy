/**
 * The package manager: the owner of the registry of packages and of at most
 * one event handler, with its board locators and its tool-requirement
 * resolver. The registry is filled by index merges, which are not part of
 * this model; every operation here only reads it, except `Clear`.
 */
module Manager {
  import opened Wrappers
  import opened Text
  import opened Cores
  import opened Errors
  import Resolution
  import opened Locator
  import opened Requirements

  /** A subscriber to the manager's download events, known by its identity. */
  datatype EventHandler = EventHandler(id: nat)

  class PackageManager {
    var packages: Packages
    var eventHandler: Option<EventHandler>

    /** `NewPackageManager`: an empty registry and no event handler. */
    constructor ()
      ensures packages == map[] && eventHandler == None
    {
      packages := map[];
      eventHandler := None;
    }

    /** Discards the whole registry; the event handler stays. */
    method Clear()
      modifies this
      ensures packages == map[]
      ensures eventHandler == old(eventHandler)
    {
      packages := map[];
    }

    /** The manager's registry, returned as a value. */
    function GetPackages(): (r: Packages)
      reads this
      ensures r == packages
    {
      packages
    }

    /**
     * Registers the single event handler. A second registration is refused
     * with an error (the source panics) and leaves the first in place.
     */
    method RegisterEventHandler(handler: EventHandler) returns (err: Option<Error>)
      modifies this
      ensures old(eventHandler).None? ==> err == None && eventHandler == Some(handler)
      ensures old(eventHandler).Some? ==> err == Some(HandlerAlreadyRegistered) && eventHandler == old(eventHandler)
      ensures packages == old(packages)
    {
      if eventHandler.Some? {
        return Some(HandlerAlreadyRegistered);
      }
      eventHandler := Some(handler);
      return None;
    }

    /**
     * `GetEventHandlers`: always exactly one entry, the value of the handler
     * slot, which is empty while no handler is registered.
     */
    function GetEventHandlers(): (r: seq<Option<EventHandler>>)
      reads this
      ensures |r| == 1 && r[0] == eventHandler
    {
      [eventHandler]
    }

    /** Every board of every installed platform release that satisfies `matches`. */
    method CollectInstalledBoards(matches: Board -> bool) returns (res: seq<Board>)
      ensures forall b :: b in res <==> IsInstalledBoard(packages, b) && matches(b)
    {
      var pkgs := packages;
      res := [];
      var names := pkgs.Keys;
      while names != {}
        invariant names <= pkgs.Keys
        invariant forall b :: b in res <==>
          (exists n :: n in pkgs && n !in names && IsInstalledBoardIn(pkgs[n], b)) && matches(b)
        decreases names
      {
        var n :| n in names;
        var targetPackage := pkgs[n];
        ghost var before := res;
        var archs := targetPackage.platforms.Keys;
        while archs != {}
          invariant archs <= targetPackage.platforms.Keys
          invariant forall b :: b in res <==>
            (b in before ||
             ((exists a :: a in targetPackage.platforms && a !in archs &&
                 IsInstalledBoardOf(targetPackage.platforms[a], b)) && matches(b)))
          decreases archs
        {
          var a :| a in archs;
          var targetPlatform := targetPackage.platforms[a];
          var platform := targetPlatform.GetInstalled();
          if platform.Some? {
            var found := BoardsOfRelease(platform.value, matches);
            res := res + found;
          }
          archs := archs - {a};
        }
        names := names - {n};
      }
    }

    /** `FindBoardsWithVidPid`: the installed boards that declare the USB id (vid, pid). */
    method FindBoardsWithVidPid(vid: string, pid: string) returns (res: seq<Board>)
      ensures forall b :: b in res <==> IsInstalledBoard(packages, b) && b.HasUsbID(vid, pid)
    {
      res := CollectInstalledBoards((b: Board) => b.HasUsbID(vid, pid));
    }

    /** `FindBoardsWithID`: the installed boards whose id is `id`, across all packages. */
    method FindBoardsWithID(id: string) returns (res: seq<Board>)
      ensures forall b :: b in res <==> IsInstalledBoard(packages, b) && b.boardId == id
    {
      res := CollectInstalledBoards((b: Board) => b.boardId == id);
    }

    /**
     * `FindBoardWithFQBN`: the shape check, then a search over the packages
     * named by the first segment and their platforms of the architecture
     * named by the second, returning at the first platform that is not
     * installed or that holds a board with the id named by the third.
     */
    method FindBoardWithFQBN(fqbn: string) returns (r: Result<Board, Error>)
      ensures r == Err(IncorrectFqbnFormat) <==> !WellShapedFqbn(Split(fqbn, ':'))
      ensures r.Ok? ==> IsInstalledBoard(packages, r.value) && r.value.boardId == Split(fqbn, ':')[2]
      ensures WellFormed(packages) ==> r == FqbnLookup(packages, fqbn)
    {
      var fqbnParts := Split(fqbn, ':');
      if |fqbnParts| < 3 || |fqbnParts| > 4 {
        return Err(IncorrectFqbnFormat);
      }
      var packageName, platformArch, boardID := fqbnParts[0], fqbnParts[1], fqbnParts[2];
      var pkgs := packages;
      var names := pkgs.Keys;
      while names != {}
        invariant names <= pkgs.Keys
        invariant WellFormed(pkgs) && packageName in pkgs && packageName !in names ==>
          FqbnLookup(pkgs, fqbn) == Err(BoardNotFound)
        decreases names
      {
        var n :| n in names;
        var targetPackage := pkgs[n];
        if targetPackage.name == packageName {
          assert WellFormed(pkgs) ==> PackageWellFormed(n, targetPackage) && n == packageName;
          var archs := targetPackage.platforms.Keys;
          while archs != {}
            invariant archs <= targetPackage.platforms.Keys
            invariant WellFormed(pkgs) && platformArch in targetPackage.platforms && platformArch !in archs ==>
              FqbnLookup(pkgs, fqbn) == Err(BoardNotFound)
            decreases archs
          {
            var a :| a in archs;
            var targetPlatform := targetPackage.platforms[a];
            if targetPlatform.architecture == platformArch {
              assert WellFormed(pkgs) ==> PlatformWellFormed(n, a, targetPlatform) && a == platformArch;
              match targetPlatform.GetInstalled()
              case None =>
                return Err(PlatformNotInstalled);
              case Some(platform) =>
                var board := FindBoardWithId(platform, boardID);
                if board.Some? {
                  assert IsInstalledBoardOf(targetPlatform, board.value);
                  assert IsInstalledBoardIn(targetPackage, board.value);
                  return Ok(board.value);
                }
            }
            archs := archs - {a};
          }
        }
        names := names - {n};
      }
      return Err(BoardNotFound);
    }

    /** `GetAllInstalledToolsReleases`: every installed release of every tool of every package. */
    method GetAllInstalledToolsReleases() returns (tools: seq<ToolRelease>)
      ensures forall r :: r in tools <==> IsInstalledToolRelease(packages, r)
    {
      var pkgs := packages;
      tools := [];
      var names := pkgs.Keys;
      while names != {}
        invariant names <= pkgs.Keys
        invariant forall r :: r in tools <==>
          exists n :: n in pkgs && n !in names && IsInstalledReleaseIn(pkgs[n], r)
        decreases names
      {
        var n :| n in names;
        var targetPackage := pkgs[n];
        ghost var before := tools;
        var toolNames := targetPackage.tools.Keys;
        while toolNames != {}
          invariant toolNames <= targetPackage.tools.Keys
          invariant forall r :: r in tools <==>
            (r in before ||
             exists t :: t in targetPackage.tools && t !in toolNames &&
               r in targetPackage.tools[t].releases.Values && r.IsInstalled())
          decreases toolNames
        {
          var t :| t in toolNames;
          var installed := InstalledReleasesOf(targetPackage.tools[t]);
          tools := tools + installed;
          toolNames := toolNames - {t};
        }
        names := names - {n};
      }
    }

    /**
     * The first pass of `FindToolsRequiredForBoard`: the latest installed
     * release of every tool, stored under its tool's identity.
     */
    method LatestInstalledTools() returns (found: map<string, ToolRelease>)
      ensures IsDefaults(packages, found)
    {
      var pkgs := packages;
      found := map[];
      var names := pkgs.Keys;
      while names != {}
        invariant names <= pkgs.Keys
        invariant HoldsDefaults(pkgs, found)
        invariant WellFormed(pkgs) ==>
          forall n :: n in pkgs && n !in names ==> RecordsLatestOf(pkgs, found, n)
        decreases names
      {
        var n :| n in names;
        ghost var before := found;
        found := LatestInstalledToolsOf(pkgs, n, found);
        if WellFormed(pkgs) {
          forall n' | n' in pkgs && n' !in names - {n}
            ensures RecordsLatestOf(pkgs, found, n')
          {
            if n' != n {
              RecordingKeepsOthers(pkgs, before, found, n, n');
            }
          }
        }
        names := names - {n};
      }
    }

    /**
     * `FindToolsRequiredForBoard`: the default map of latest installed
     * releases, overlaid in order with the exact releases of the board
     * platform's declared dependencies, listed once per tool identity. Fails
     * as a whole, naming it, at the first dependency that does not resolve.
     */
    method FindToolsRequiredForBoard(board: Board) returns (r: Result<seq<ToolRelease>, Error>)
      ensures r.Err? <==> !AllResolve(packages, board.platformRelease.dependencies)
      ensures r.Err? ==>
        r.error == ToolReleaseNotFound(board.platformRelease.dependencies[
          FirstUnresolved(packages, board.platformRelease.dependencies)])
      ensures r.Ok? ==>
        exists d :: IsDefaults(packages, d) && ListsValues(r.value, d + Pinned(packages, board.platformRelease.dependencies))
    {
      var pkgs := packages;
      var platform := board.platformRelease;
      var deps := platform.dependencies;
      var foundTools := LatestInstalledTools();
      ghost var defaults := foundTools;
      for i := 0 to |deps|
        invariant forall j :: 0 <= j < i ==> Resolution.FindToolDependency(pkgs, deps[j]).Some?
        invariant foundTools == defaults + Pinned(pkgs, deps[..i])
      {
        var tool := Resolution.FindToolDependency(pkgs, deps[i]);
        if tool.None? {
          FirstUnresolvedAt(pkgs, deps, i);
          return Err(ToolReleaseNotFound(deps[i]));
        }
        var key := tool.value.ToolKey();
        PinnedStep(pkgs, deps, i);
        UnionUpdate(defaults, Pinned(pkgs, deps[..i]), key, tool.value);
        foundTools := foundTools[key := tool.value];
      }
      assert deps[..|deps|] == deps;
      assert AllResolve(pkgs, deps);
      assert forall k :: k in foundTools ==> foundTools[k].ToolKey() == k;
      var requiredTools := ValuesOf(foundTools);
      assert IsDefaults(pkgs, defaults);
      return Ok(requiredTools);
    }
  }

  /** Every entry is stored under its own tool identity and is some tool's latest installed release. */
  ghost predicate HoldsDefaults(pkgs: Packages, found: map<string, ToolRelease>) {
    forall k :: k in found ==> found[k].ToolKey() == k && IsDefaultRelease(pkgs, found[k])
  }

  /** Every tool of package `n` with an installed release has its latest under its identity. */
  ghost predicate RecordsLatestOf(pkgs: Packages, found: map<string, ToolRelease>, n: string)
    requires n in pkgs
  {
    forall t :: t in pkgs[n].tools && HasInstalledRelease(pkgs[n].tools[t]) ==>
      ToolString(n, t) in found && IsLatestInstalled(pkgs[n].tools[t], found[ToolString(n, t)])
  }

  /** The inner loop of the first pass: records the latest installed release of each tool of package `n`. */
  method LatestInstalledToolsOf(pkgs: Packages, n: string, found: map<string, ToolRelease>)
    returns (found': map<string, ToolRelease>)
    requires n in pkgs
    requires HoldsDefaults(pkgs, found)
    ensures HoldsDefaults(pkgs, found')
    ensures WellFormed(pkgs) ==> RecordsLatestOf(pkgs, found', n)
    ensures forall k :: k in found ==> k in found'
    ensures WellFormed(pkgs) ==>
      forall k :: k in found' && (k !in found || found'[k] != found[k]) ==> found'[k].packager == n
  {
    var targetPackage := pkgs[n];
    found' := found;
    var toolNames := targetPackage.tools.Keys;
    while toolNames != {}
      invariant toolNames <= targetPackage.tools.Keys
      invariant HoldsDefaults(pkgs, found')
      invariant WellFormed(pkgs) ==>
        forall t :: t in targetPackage.tools && t !in toolNames && HasInstalledRelease(targetPackage.tools[t]) ==>
          ToolString(n, t) in found' && IsLatestInstalled(targetPackage.tools[t], found'[ToolString(n, t)])
      invariant forall k :: k in found ==> k in found'
      invariant WellFormed(pkgs) ==>
        forall k :: k in found' && (k !in found || found'[k] != found[k]) ==> found'[k].packager == n
      decreases toolNames
    {
      var t :| t in toolNames;
      var tool := targetPackage.tools[t];
      var rel := GetLatestInstalled(tool);
      if rel.Some? {
        var key := rel.value.ToolKey();
        assert IsDefaultRelease(pkgs, rel.value);
        if WellFormed(pkgs) {
          KeyOfLatest(pkgs, n, t, rel.value);
          assert PackageWellFormed(n, targetPackage);
          forall t' | t' in targetPackage.tools && t' != t
            ensures ToolString(n, t') != key
          {
            if ToolString(n, t') == key {
              ToolStringInjective(n, t', n, t);
            }
          }
        }
        found' := found'[key := rel.value];
      }
      toolNames := toolNames - {t};
    }
  }

  /** Recording package `n` leaves the entries of another package `n'` as they were. */
  lemma RecordingKeepsOthers(pkgs: Packages, before: map<string, ToolRelease>, after: map<string, ToolRelease>, n: string, n': string)
    requires WellFormed(pkgs)
    requires n in pkgs && n' in pkgs && n != n'
    requires RecordsLatestOf(pkgs, before, n')
    requires HoldsDefaults(pkgs, after)
    requires forall k :: k in before ==> k in after
    requires forall k :: k in after && (k !in before || after[k] != before[k]) ==> after[k].packager == n
    ensures RecordsLatestOf(pkgs, after, n')
  {
    assert PackageWellFormed(n, pkgs[n]) && PackageWellFormed(n', pkgs[n']);
    forall t | t in pkgs[n'].tools && HasInstalledRelease(pkgs[n'].tools[t])
      ensures ToolString(n', t) in after && after[ToolString(n', t)] == before[ToolString(n', t)]
    {
      var k := ToolString(n', t);
      if after[k] != before[k] {
        ToolStringInjective(after[k].packager, after[k].toolName, n', t);
      }
    }
  }

  /** Updating a union updates its right-hand side. */
  lemma UnionUpdate(a: map<string, ToolRelease>, b: map<string, ToolRelease>, k: string, v: ToolRelease)
    ensures (a + b)[k := v] == a + b[k := v]
  {
  }

  /** In a well-formed registry a tool's latest installed release carries the tool's identity. */
  lemma KeyOfLatest(pkgs: Packages, n: string, t: string, rel: ToolRelease)
    requires WellFormed(pkgs)
    requires n in pkgs && t in pkgs[n].tools
    requires IsLatestInstalled(pkgs[n].tools[t], rel)
    ensures rel.ToolKey() == ToolString(n, t)
  {
    assert PackageWellFormed(n, pkgs[n]);
    var tool := pkgs[n].tools[t];
    assert ToolWellFormed(n, t, tool);
    var v :| v in tool.releases && tool.releases[v] == rel;
  }
}
