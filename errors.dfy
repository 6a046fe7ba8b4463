/** The errors the package manager returns, one constructor per message it formats. */
module Errors {
  import Cores

  datatype Error =
    | PackageNotFound(name: string)
    | ToolNotFound(tool: string, packageName: string)
    | ReleaseNotFound(version: string, tool: string)
    | IncorrectFqbnFormat
    | PlatformNotInstalled
    | BoardNotFound
    | ToolReleaseNotFound(dependency: Cores.ToolDependency)
    | HandlerAlreadyRegistered
  {
    /**
     * The text of the error as the package manager formats it. Every name
     * the error carries appears in the text.
     */
    function Message(): (r: string)
      ensures PackageNotFound? ==> Occurs(name, r)
      ensures ToolNotFound? ==> Occurs(tool, r) && Occurs(packageName, r)
      ensures ReleaseNotFound? ==> Occurs(version, r) && Occurs(tool, r)
      ensures ToolReleaseNotFound? ==>
        && Occurs(dependency.toolPackager, r)
        && Occurs(dependency.toolName, r)
        && Occurs(dependency.toolVersion, r)
    {
      match this
      case PackageNotFound(name) =>
        OccursAfter("package '", name);
        OccursExtend(name, "package '" + name, "' not found");
        "package '" + name + "' not found"
      case ToolNotFound(tool, packageName) =>
        var head := "tool '" + tool + "' not found in package '";
        OccursAfter("tool '", tool);
        OccursExtend(tool, "tool '" + tool, "' not found in package '");
        OccursExtend(tool, head, packageName);
        OccursExtend(tool, head + packageName, "'");
        OccursAfter(head, packageName);
        OccursExtend(packageName, head + packageName, "'");
        head + packageName + "'"
      case ReleaseNotFound(version, tool) =>
        var head := "release " + version + " not found for tool ";
        OccursAfter("release ", version);
        OccursExtend(version, "release " + version, " not found for tool ");
        OccursExtend(version, head, tool);
        OccursAfter(head, tool);
        head + tool
      case IncorrectFqbnFormat => "incorrect format for fqbn"
      case PlatformNotInstalled => "platform not installed"
      case BoardNotFound => "board not found"
      case ToolReleaseNotFound(dep) =>
        var p := "tool release not found: " + dep.toolPackager;
        var n := p + ":" + dep.toolName;
        var v := n + "@" + dep.toolVersion;
        OccursAfter("tool release not found: ", dep.toolPackager);
        OccursExtend(dep.toolPackager, p, ":");
        OccursExtend(dep.toolPackager, p + ":", dep.toolName);
        OccursExtend(dep.toolPackager, n, "@");
        OccursExtend(dep.toolPackager, n + "@", dep.toolVersion);
        OccursAfter(p + ":", dep.toolName);
        OccursExtend(dep.toolName, n, "@");
        OccursExtend(dep.toolName, n + "@", dep.toolVersion);
        OccursAfter(n + "@", dep.toolVersion);
        v
      case HandlerAlreadyRegistered =>
        // in two pieces: the verifier cannot index into a string literal this long
        "Don't try " + "to register another event handler to the PackageManager yet!"
    }

    /** Which kind of error this is, by constructor. */
    function Kind(): nat {
      match this
      case PackageNotFound(_) => 0
      case ToolNotFound(_, _) => 1
      case ReleaseNotFound(_, _) => 2
      case IncorrectFqbnFormat => 3
      case PlatformNotInstalled => 4
      case BoardNotFound => 5
      case ToolReleaseNotFound(_) => 6
      case HandlerAlreadyRegistered => 7
    }
  }

  /** `s` appears in `r` as a contiguous piece. */
  ghost predicate Occurs(s: string, r: string) {
    exists a, b :: r == a + s + b
  }

  lemma OccursAfter(a: string, s: string)
    ensures Occurs(s, a + s)
  {
    assert a + s == a + s + [];
  }

  lemma OccursExtend(s: string, r: string, c: string)
    requires Occurs(s, r)
    ensures Occurs(s, r + c)
  {
    var a, b :| r == a + s + b;
    assert r + c == a + s + (b + c);
  }

  /** Reads the kind of an error back from the fixed wording its text starts with. */
  function KindOfText(m: string): nat {
    if "package '" <= m then 0
    else if "tool '" <= m then 1
    else if "release " <= m then 2
    else if m == "incorrect format for fqbn" then 3
    else if m == "platform not installed" then 4
    else if m == "board not found" then 5
    else if "tool release not found: " <= m then 6
    else 7
  }

  lemma PrefixExtend(p: string, a: string, b: string)
    requires p <= a
    ensures p <= a + b
  {
    assert (a + b)[..|p|] == a[..|p|];
  }

  /** Every message starts with wording from which its kind can be read back. */
  lemma KindFromText(e: Error)
    ensures KindOfText(e.Message()) == e.Kind()
  {
    var m := e.Message();
    match e
    case PackageNotFound(name) =>
      PrefixExtend("package '", "package '", name);
      PrefixExtend("package '", "package '" + name, "' not found");
    case ToolNotFound(tool, packageName) =>
      var head := "tool '" + tool + "' not found in package '";
      PrefixExtend("tool '", "tool '", tool);
      PrefixExtend("tool '", "tool '" + tool, "' not found in package '");
      PrefixExtend("tool '", head, packageName);
      PrefixExtend("tool '", head + packageName, "'");
      assert m[0] == 't';
    case ReleaseNotFound(version, tool) =>
      var head := "release " + version + " not found for tool ";
      PrefixExtend("release ", "release ", version);
      PrefixExtend("release ", "release " + version, " not found for tool ");
      PrefixExtend("release ", head, tool);
      assert m[0] == 'r';
    case IncorrectFqbnFormat =>
      assert m[0] == 'i';
    case PlatformNotInstalled =>
      assert m[1] == 'l';
    case BoardNotFound =>
      assert m[0] == 'b';
    case ToolReleaseNotFound(dep) =>
      var h := "tool release not found: ";
      var p := h + dep.toolPackager;
      var n := p + ":" + dep.toolName;
      PrefixExtend(h, h, dep.toolPackager);
      PrefixExtend(h, p, ":");
      PrefixExtend(h, p + ":", dep.toolName);
      PrefixExtend(h, n, "@");
      PrefixExtend(h, n + "@", dep.toolVersion);
      assert m[0] == 't' && m[5] == 'r';
    case HandlerAlreadyRegistered =>
      assert m[0] == 'D';
  }

  /**
   * The text alone tells which kind of error was returned: messages of two
   * different kinds never coincide, whatever names they carry.
   */
  lemma MessageDeterminesKind(e1: Error, e2: Error)
    requires e1.Message() == e2.Message()
    ensures e1.Kind() == e2.Kind()
  {
    KindFromText(e1);
    KindFromText(e2);
  }
}
