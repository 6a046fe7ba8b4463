/**
 * Reference definitions for the board locators of the package manager:
 * what `FindBoardWithFQBN` answers, stated by direct lookups, and the
 * per-release searches that the locators' loops are built from.
 */
module Locator {
  import opened Wrappers
  import opened Text
  import opened Cores
  import opened Errors

  /** An FQBN has the shape packager:architecture:boardId[:menuOptions]. */
  predicate WellShapedFqbn(parts: seq<string>) {
    3 <= |parts| <= 4
  }

  /**
   * The outcome of `FindBoardWithFQBN(fqbn)` on a well-formed registry,
   * by key lookup: the shape check, then package, architecture, installed
   * release and board id. An unknown package or architecture exhausts the
   * search and ends in "board not found".
   */
  function FqbnLookup(pkgs: Packages, fqbn: string): (r: Result<Board, Error>)
    ensures r == Err(IncorrectFqbnFormat) <==> Count(fqbn, ':') < 2 || Count(fqbn, ':') > 3
  {
    var parts := Split(fqbn, ':');
    if !WellShapedFqbn(parts) then Err(IncorrectFqbnFormat)
    else if parts[0] in pkgs && parts[1] in pkgs[parts[0]].platforms then
      match pkgs[parts[0]].platforms[parts[1]].GetInstalled()
      case None => Err(PlatformNotInstalled)
      case Some(rel) =>
        if parts[2] in rel.boards then Ok(rel.boards[parts[2]]) else Err(BoardNotFound)
    else Err(BoardNotFound)
  }

  /**
   * Naming an installed board by its package, architecture and id (with or
   * without a menu-options segment) finds that board; naming a platform that
   * is not installed reports so.
   */
  lemma {:induction false} FqbnFindsBoard(pkgs: Packages, n: string, a: string, id: string, options: seq<string>)
    requires WellFormed(pkgs)
    requires n in pkgs && a in pkgs[n].platforms
    requires ':' !in a && ':' !in id
    requires |options| <= 1 && forall i :: 0 <= i < |options| ==> ':' !in options[i]
    ensures var platform := pkgs[n].platforms[a];
      var r := FqbnLookup(pkgs, Join([n, a, id] + options, ':'));
      && (platform.installed.None? ==> r == Err(PlatformNotInstalled))
      && (platform.installed.Some? && id in platform.installed.value.boards ==>
            r == Ok(platform.installed.value.boards[id]))
      && (platform.installed.Some? && id !in platform.installed.value.boards ==>
            r == Err(BoardNotFound))
  {
    assert PackageWellFormed(n, pkgs[n]);
    var parts := [n, a, id] + options;
    SplitJoin(parts, ':');
  }

  /**
   * On a well-formed registry a board found by FQBN is an installed board
   * whose id, packager and architecture are the FQBN's first three segments.
   */
  lemma FqbnResultIdentifiesBoard(pkgs: Packages, fqbn: string)
    requires WellFormed(pkgs)
    requires FqbnLookup(pkgs, fqbn).Ok?
    ensures var b := FqbnLookup(pkgs, fqbn).value;
      var parts := Split(fqbn, ':');
      && IsInstalledBoard(pkgs, b)
      && b.boardId == parts[2]
      && b.platformRelease.packager == parts[0]
      && b.platformRelease.architecture == parts[1]
  {
    var parts := Split(fqbn, ':');
    var n, a := parts[0], parts[1];
    assert PackageWellFormed(n, pkgs[n]);
    assert PlatformWellFormed(n, a, pkgs[n].platforms[a]);
    assert IsInstalledBoardOf(pkgs[n].platforms[a], FqbnLookup(pkgs, fqbn).value);
    assert IsInstalledBoardIn(pkgs[n], FqbnLookup(pkgs, fqbn).value);
  }

  /** The boards of one platform release that satisfy `matches`, in no particular order. */
  method BoardsOfRelease(rel: PlatformRelease, matches: Board -> bool) returns (res: seq<Board>)
    ensures forall b :: b in res <==> b in rel.boards.Values && matches(b)
  {
    res := [];
    var todo := rel.boards.Keys;
    while todo != {}
      invariant todo <= rel.boards.Keys
      invariant forall b :: b in res <==>
        (exists k :: k in rel.boards && k !in todo && rel.boards[k] == b) && matches(b)
      decreases todo
    {
      var k :| k in todo;
      var board := rel.boards[k];
      if matches(board) {
        res := res + [board];
      }
      todo := todo - {k};
    }
  }

  /**
   * The inner search of `FindBoardWithFQBN`: the first board of the release
   * met whose id is `id`, if any.
   */
  method FindBoardWithId(rel: PlatformRelease, id: string) returns (r: Option<Board>)
    ensures r.Some? ==> r.value in rel.boards.Values && r.value.boardId == id
    ensures r.None? <==> forall k :: k in rel.boards ==> rel.boards[k].boardId != id
  {
    var todo := rel.boards.Keys;
    while todo != {}
      invariant todo <= rel.boards.Keys
      invariant forall k :: k in rel.boards && k !in todo ==> rel.boards[k].boardId != id
      decreases todo
    {
      var k :| k in todo;
      var board := rel.boards[k];
      if board.boardId == id {
        return Some(board);
      }
      todo := todo - {k};
    }
    return None;
  }

  /** The installed releases of one tool, in no particular order. */
  method InstalledReleasesOf(tool: Tool) returns (res: seq<ToolRelease>)
    ensures forall r :: r in res <==> r in tool.releases.Values && r.IsInstalled()
  {
    res := [];
    var todo := tool.releases.Keys;
    while todo != {}
      invariant todo <= tool.releases.Keys
      invariant forall r :: r in res <==>
        (exists v :: v in tool.releases && v !in todo && tool.releases[v] == r) && r.IsInstalled()
      decreases todo
    {
      var v :| v in todo;
      var release := tool.releases[v];
      if release.IsInstalled() {
        res := res + [release];
      }
      todo := todo - {v};
    }
  }
}
