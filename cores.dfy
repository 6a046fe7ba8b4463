/**
 * The registry entities that the package manager reads. They belong to the
 * `cores` package, which is not part of this model: here they are values with
 * just the fields the package manager uses, and the few helpers it calls on
 * them (`Board.HasUsbID`, `Tool.String`, `Tool.GetRelease`,
 * `Tool.GetLatestInstalled`, `ToolRelease.IsInstalled`) are given simple
 * definitions. A back-reference to an owner is a value summary of the owner.
 */
module Cores {
  import opened Wrappers
  import Text

  /** One USB vendor/product identifier pair declared by a board. */
  datatype UsbId = UsbId(vid: string, pid: string)

  /** A platform's requirement on an exact tool release. */
  datatype ToolDependency = ToolDependency(toolPackager: string, toolName: string, toolVersion: string)

  /** What a board knows about the platform release it belongs to. */
  datatype PlatformRef = PlatformRef(
    packager: string,
    architecture: string,
    version: string,
    dependencies: seq<ToolDependency>)

  datatype Board = Board(boardId: string, usbIds: set<UsbId>, platformRelease: PlatformRef)
  {
    /** The board declares the USB identifier (vid, pid), compared exactly. */
    predicate HasUsbID(vid: string, pid: string)
      ensures HasUsbID(vid, pid) <==> exists u :: u in usbIds && u.vid == vid && u.pid == pid
    {
      UsbId(vid, pid) in usbIds
    }
  }

  /** One release of a platform: its boards (keyed by board id) and tool dependencies. */
  datatype PlatformRelease = PlatformRelease(
    version: string,
    boards: map<string, Board>,
    dependencies: seq<ToolDependency>)

  /** A platform of one architecture, with its installed release if there is one. */
  datatype Platform = Platform(architecture: string, installed: Option<PlatformRelease>)
  {
    /** The installed release, absent exactly when the platform is not installed. */
    function GetInstalled(): (r: Option<PlatformRelease>)
      ensures r.Some? <==> installed.Some?
      ensures r.Some? ==> r.value == installed.value
    {
      installed
    }
  }

  /** A release of a tool; `packager` and `toolName` identify the tool it belongs to. */
  datatype ToolRelease = ToolRelease(packager: string, toolName: string, version: string, installed: bool)
  {
    /** Whether this release is installed, as its installation flag records. */
    predicate IsInstalled()
      ensures IsInstalled() <==> installed
    {
      installed
    }

    /**
     * `rel.Tool.String()`: the "packager:tool" identity of the owning tool: the
     * packager, a colon at position |packager|, and the tool name
     * (`ToolStringReadsBack` reads both parts back).
     */
    function ToolKey(): (k: string)
      ensures |k| == |packager| + 1 + |toolName| && k[|packager|] == ':'
    {
      ToolString(packager, toolName)
    }
  }

  /** A tool of a package, with its releases keyed by version. */
  datatype Tool = Tool(packager: string, name: string, releases: map<string, ToolRelease>)
  {
    /** `Tool.String()`: the packager, a colon at position |packager|, and the tool name. */
    function String(): (k: string)
      ensures |k| == |packager| + 1 + |name| && k[|packager|] == ':'
    {
      ToolString(packager, name)
    }

    function GetRelease(version: string): (r: Option<ToolRelease>)
      ensures r.Some? <==> version in releases
      ensures r.Some? ==> r.value == releases[version]
    {
      if version in releases then Some(releases[version]) else None
    }
  }

  datatype Package = Package(name: string, platforms: map<string, Platform>, tools: map<string, Tool>)

  /** The registry: packages keyed by name. */
  type Packages = map<string, Package>

  /** The "packager:tool" identity used to deduplicate tool releases. */
  function ToolString(packager: string, tool: string): string {
    packager + ":" + tool
  }

  /** Distinct tools have distinct identities as long as packager names hold no ':'. */
  /** A colon-free packager and the tool name can be read back from the identity. */
  lemma ToolStringReadsBack(p: string, t: string)
    requires ':' !in p
    ensures Text.Split(ToolString(p, t), ':')[0] == p
    ensures ToolString(p, t)[|p| + 1..] == t
  {
    Text.SplitAfterPiece(p, ':', t);
  }

  lemma ToolStringInjective(p1: string, t1: string, p2: string, t2: string)
    requires ':' !in p1 && ':' !in p2
    requires ToolString(p1, t1) == ToolString(p2, t2)
    ensures p1 == p2 && t1 == t2
  {
    var s := ToolString(p1, t1);
    Text.SplitAfterPiece(p1, ':', t1);
    Text.SplitAfterPiece(p2, ':', t2);
    assert Text.Split(s, ':')[0] == p1 && Text.Split(s, ':')[0] == p2;
    assert t1 == s[|p1| + 1..] == t2;
  }

  // ---- Registry well-formedness ---------------------------------------------

  /**
   * The registry's ownership invariants: every entity is stored under its own
   * name, back-references name the owner they are stored in, and package
   * names hold no ':' (the separator of FQBNs and tool identities).
   */
  ghost predicate WellFormed(pkgs: Packages) {
    forall n :: n in pkgs ==> PackageWellFormed(n, pkgs[n])
  }

  ghost predicate PackageWellFormed(n: string, pkg: Package) {
    && pkg.name == n
    && ':' !in n
    && (forall a :: a in pkg.platforms ==> PlatformWellFormed(n, a, pkg.platforms[a]))
    && (forall t :: t in pkg.tools ==> ToolWellFormed(n, t, pkg.tools[t]))
  }

  ghost predicate PlatformWellFormed(n: string, a: string, platform: Platform) {
    && platform.architecture == a
    && (platform.installed.Some? ==>
          var rel := platform.installed.value;
          forall k :: k in rel.boards ==>
            rel.boards[k].boardId == k &&
            rel.boards[k].platformRelease == PlatformRef(n, a, rel.version, rel.dependencies))
  }

  ghost predicate ToolWellFormed(n: string, t: string, tool: Tool) {
    && tool.packager == n
    && tool.name == t
    && forall v :: v in tool.releases ==>
         tool.releases[v] == ToolRelease(n, t, v, tool.releases[v].installed)
  }

  // ---- Versions -------------------------------------------------------------

  /**
   * The order in which `GetLatestInstalled` compares versions. Version parsing
   * is not part of this model: lexicographic order stands in for it, and only
   * the total-order laws below are relied on.
   */
  predicate VersionLeq(a: string, b: string) {
    |a| == 0 || (|b| > 0 && (a[0] < b[0] || (a[0] == b[0] && VersionLeq(a[1..], b[1..]))))
  }

  lemma {:induction false} VersionLeqReflexive(a: string)
    ensures VersionLeq(a, a)
  {
    if |a| > 0 {
      VersionLeqReflexive(a[1..]);
    }
  }

  lemma {:induction false} VersionLeqTotal(a: string, b: string)
    ensures VersionLeq(a, b) || VersionLeq(b, a)
  {
    if |a| > 0 && |b| > 0 && a[0] == b[0] {
      VersionLeqTotal(a[1..], b[1..]);
    }
  }

  lemma {:induction false} VersionLeqTransitive(a: string, b: string, c: string)
    requires VersionLeq(a, b) && VersionLeq(b, c)
    ensures VersionLeq(a, c)
  {
    if |a| > 0 && a[0] == b[0] && b[0] == c[0] {
      VersionLeqTransitive(a[1..], b[1..], c[1..]);
    }
  }

  lemma {:induction false} VersionLeqAntisymmetric(a: string, b: string)
    requires VersionLeq(a, b) && VersionLeq(b, a)
    ensures a == b
  {
    if |a| > 0 {
      VersionLeqAntisymmetric(a[1..], b[1..]);
      assert a == [a[0]] + a[1..] && b == [b[0]] + b[1..];
    }
  }

  // ---- Installed releases of a tool -----------------------------------------

  /** Some release of the tool is installed. */
  predicate HasInstalledRelease(tool: Tool) {
    exists v :: v in tool.releases && tool.releases[v].IsInstalled()
  }

  /** `r` is an installed release of `tool` whose version no installed release exceeds. */
  ghost predicate IsLatestInstalled(tool: Tool, r: ToolRelease) {
    && r in tool.releases.Values
    && r.IsInstalled()
    && forall v :: v in tool.releases && tool.releases[v].IsInstalled() ==>
         VersionLeq(tool.releases[v].version, r.version)
  }

  /** For a well-formed tool there is at most one latest installed release. */
  lemma LatestInstalledUnique(n: string, t: string, tool: Tool, r1: ToolRelease, r2: ToolRelease)
    requires ToolWellFormed(n, t, tool)
    requires IsLatestInstalled(tool, r1) && IsLatestInstalled(tool, r2)
    ensures r1 == r2
  {
    var v1 :| v1 in tool.releases && tool.releases[v1] == r1;
    var v2 :| v2 in tool.releases && tool.releases[v2] == r2;
    VersionLeqAntisymmetric(r1.version, r2.version);
  }

  /** `Tool.GetLatestInstalled`: the installed release with the highest version, if any. */
  method GetLatestInstalled(tool: Tool) returns (r: Option<ToolRelease>)
    ensures r.Some? <==> HasInstalledRelease(tool)
    ensures r.Some? ==> IsLatestInstalled(tool, r.value)
  {
    r := None;
    var todo := tool.releases.Keys;
    while todo != {}
      invariant todo <= tool.releases.Keys
      invariant r.None? ==>
        forall v :: v in tool.releases && v !in todo ==> !tool.releases[v].IsInstalled()
      invariant r.Some? ==> r.value in tool.releases.Values && r.value.IsInstalled()
      invariant r.Some? ==>
        forall v :: v in tool.releases && v !in todo && tool.releases[v].IsInstalled() ==>
          VersionLeq(tool.releases[v].version, r.value.version)
      decreases todo
    {
      var v :| v in todo;
      var rel := tool.releases[v];
      if rel.IsInstalled() {
        VersionLeqReflexive(rel.version);
        if r.None? {
          r := Some(rel);
        } else if VersionLeq(r.value.version, rel.version) {
          forall w | w in tool.releases && w !in todo - {v} && tool.releases[w].IsInstalled()
            ensures VersionLeq(tool.releases[w].version, rel.version)
          {
            if w != v {
              VersionLeqTransitive(tool.releases[w].version, r.value.version, rel.version);
            }
          }
          r := Some(rel);
        } else {
          VersionLeqTotal(r.value.version, rel.version);
        }
      }
      todo := todo - {v};
    }
  }
  // ---- What the registry holds, as the package manager's searches see it -----

  /** `b` is a board of the installed release of `platform`. */
  predicate IsInstalledBoardOf(platform: Platform, b: Board) {
    platform.installed.Some? && b in platform.installed.value.boards.Values
  }

  /** `b` is a board of the installed release of some platform of `pkg`. */
  ghost predicate IsInstalledBoardIn(pkg: Package, b: Board) {
    exists a :: a in pkg.platforms && IsInstalledBoardOf(pkg.platforms[a], b)
  }

  /** `b` is a board of an installed platform release of some package. */
  ghost predicate IsInstalledBoard(pkgs: Packages, b: Board) {
    exists n :: n in pkgs && IsInstalledBoardIn(pkgs[n], b)
  }

  /** `r` is an installed release of some tool of `pkg`. */
  ghost predicate IsInstalledReleaseIn(pkg: Package, r: ToolRelease) {
    exists t :: t in pkg.tools && r in pkg.tools[t].releases.Values && r.IsInstalled()
  }

  /** `r` is an installed release of some tool of some package. */
  ghost predicate IsInstalledToolRelease(pkgs: Packages, r: ToolRelease) {
    exists n :: n in pkgs && IsInstalledReleaseIn(pkgs[n], r)
  }

  /** `r` is the latest installed release of some tool of some package. */
  ghost predicate IsDefaultRelease(pkgs: Packages, r: ToolRelease) {
    exists n, t :: n in pkgs && t in pkgs[n].tools && IsLatestInstalled(pkgs[n].tools[t], r)
  }
}
