/**
 * The fluent resolution chain `pm.Package(p).Tool(t).Release(v).Get()`: each
 * stage either resolves the next entity or carries the first error forward
 * unchanged. The chain reads the manager's registry, passed here as a value.
 */
module Resolution {
  import opened Wrappers
  import Cores
  import opened Errors

  /** A stage's handle: the entity resolved so far, or the error first met. */
  datatype Handle<T> = Resolved(value: T) | Failed(error: Error)
  {
    /** `Get()`: the entity with no error, or no entity with the latched error. */
    function Get(): (r: Result<T, Error>)
      ensures r.Ok? <==> Resolved?
      ensures Resolved? ==> r.value == value
      ensures Failed? ==> r.error == error
    {
      match this
      case Resolved(v) => Ok(v)
      case Failed(e) => Err(e)
    }
  }

  /** `PackageManager.Package(name)`. */
  function Package(pkgs: Cores.Packages, name: string): (h: Handle<Cores.Package>)
    ensures h.Failed? <==> name !in pkgs
    ensures h.Failed? ==> h.error == PackageNotFound(name)
    ensures h.Resolved? ==> h.value == pkgs[name]
  {
    if name in pkgs then Resolved(pkgs[name]) else Failed(PackageNotFound(name))
  }

  /** `packageActions.Tool(name)`: looks nothing up once an error is latched. */
  function Tool(h: Handle<Cores.Package>, name: string): (r: Handle<Cores.Tool>)
    ensures h.Failed? ==> r == Failed(h.error)
    ensures h.Resolved? ==> (r.Resolved? <==> name in h.value.tools)
    ensures h.Resolved? && r.Resolved? ==> r.value == h.value.tools[name]
    ensures h.Resolved? && r.Failed? ==> r.error == ToolNotFound(name, h.value.name)
  {
    match h
    case Failed(e) => Failed(e)
    case Resolved(pkg) =>
      if name in pkg.tools then Resolved(pkg.tools[name])
      else Failed(ToolNotFound(name, pkg.name))
  }

  /** `toolActions.Release(version)`. */
  function Release(h: Handle<Cores.Tool>, version: string): (r: Handle<Cores.ToolRelease>)
    ensures h.Failed? ==> r == Failed(h.error)
    ensures h.Resolved? ==> (r.Resolved? <==> version in h.value.releases)
    ensures h.Resolved? && r.Resolved? ==> r.value == h.value.releases[version]
    ensures h.Resolved? && r.Failed? ==> r.error == ReleaseNotFound(version, h.value.String())
  {
    match h
    case Failed(e) => Failed(e)
    case Resolved(tool) =>
      match tool.GetRelease(version)
      case Some(rel) => Resolved(rel)
      case None => Failed(ReleaseNotFound(version, tool.String()))
  }

  /**
   * `toolActions.IsInstalled()`: whether some release of the tool is
   * installed, never an error on a valid handle; the latched error otherwise.
   */
  function IsInstalled(h: Handle<Cores.Tool>): (r: (bool, Option<Error>))
    ensures h.Failed? ==> r == (false, Some(h.error))
    ensures h.Resolved? ==> r.1 == None
    ensures h.Resolved? ==>
      (r.0 <==> exists v :: v in h.value.releases && h.value.releases[v].installed)
  {
    match h
    case Failed(e) => (false, Some(e))
    case Resolved(tool) => (Cores.HasInstalledRelease(tool), None)
  }

  /** `PackageManager.FindToolDependency(dep)`: the exact release the dependency names, if any. */
  function FindToolDependency(pkgs: Cores.Packages, dep: Cores.ToolDependency): (r: Option<Cores.ToolRelease>)
    ensures r.Some? <==>
      && dep.toolPackager in pkgs
      && dep.toolName in pkgs[dep.toolPackager].tools
      && dep.toolVersion in pkgs[dep.toolPackager].tools[dep.toolName].releases
    ensures r.Some? ==>
      r.value == pkgs[dep.toolPackager].tools[dep.toolName].releases[dep.toolVersion]
  {
    match Release(Tool(Package(pkgs, dep.toolPackager), dep.toolName), dep.toolVersion).Get()
    case Ok(rel) => Some(rel)
    case Err(_) => None
  }

  /** Once a handle carries an error, every later stage and `Get` report that same error. */
  lemma ErrorLatches(h: Handle<Cores.Package>, tool: string, version: string)
    requires h.Failed?
    ensures Tool(h, tool).Get() == Err(h.error)
    ensures Release(Tool(h, tool), version).Get() == Err(h.error)
    ensures IsInstalled(Tool(h, tool)) == (false, Some(h.error))
  {
  }

  /**
   * The whole chain reports the first stage that fails, with that stage's
   * error, and otherwise returns exactly the named release.
   */
  lemma ChainOutcome(pkgs: Cores.Packages, p: string, t: string, v: string)
    ensures var r := Release(Tool(Package(pkgs, p), t), v).Get();
      && (p !in pkgs ==> r == Err(PackageNotFound(p)))
      && (p in pkgs && t !in pkgs[p].tools ==> r == Err(ToolNotFound(t, pkgs[p].name)))
      && (p in pkgs && t in pkgs[p].tools && v !in pkgs[p].tools[t].releases ==>
            r == Err(ReleaseNotFound(v, pkgs[p].tools[t].String())))
      && (p in pkgs && t in pkgs[p].tools && v in pkgs[p].tools[t].releases ==>
            r == Ok(pkgs[p].tools[t].releases[v]))
  {
  }

  /** In a well-formed registry the error messages name what is missing and where. */
  lemma ChainMessages(pkgs: Cores.Packages, p: string, t: string, v: string)
    requires Cores.WellFormed(pkgs)
    ensures p !in pkgs ==>
      Release(Tool(Package(pkgs, p), t), v).Get().error.Message() == "package '" + p + "' not found"
    ensures p in pkgs && t !in pkgs[p].tools ==>
      Release(Tool(Package(pkgs, p), t), v).Get().error.Message()
        == "tool '" + t + "' not found in package '" + p + "'"
    ensures p in pkgs && t in pkgs[p].tools && v !in pkgs[p].tools[t].releases ==>
      Release(Tool(Package(pkgs, p), t), v).Get().error.Message()
        == "release " + v + " not found for tool " + p + ":" + t
  {
    ChainOutcome(pkgs, p, t, v);
    if p in pkgs && t in pkgs[p].tools {
      assert Cores.PackageWellFormed(p, pkgs[p]);
      assert Cores.ToolWellFormed(p, t, pkgs[p].tools[t]);
    }
  }

  /**
   * In a well-formed registry a resolved dependency is the release the
   * dependency names: same packager, tool and version.
   */
  lemma ResolvedDependencyMatches(pkgs: Cores.Packages, dep: Cores.ToolDependency)
    requires Cores.WellFormed(pkgs)
    requires FindToolDependency(pkgs, dep).Some?
    ensures var rel := FindToolDependency(pkgs, dep).value;
      && rel.packager == dep.toolPackager
      && rel.toolName == dep.toolName
      && rel.version == dep.toolVersion
      && rel.ToolKey() == Cores.ToolString(dep.toolPackager, dep.toolName)
  {
    assert Cores.PackageWellFormed(dep.toolPackager, pkgs[dep.toolPackager]);
  }

  /**
   * In a well-formed registry `IsInstalled` on `Package(p).Tool(t)` answers
   * true exactly when the registry holds an installed release of tool t of
   * package p.
   */
  lemma IsInstalledMatchesRegistry(pkgs: Cores.Packages, p: string, t: string)
    requires Cores.WellFormed(pkgs)
    ensures IsInstalled(Tool(Package(pkgs, p), t)).0 <==>
      exists r :: Cores.IsInstalledToolRelease(pkgs, r) && r.packager == p && r.toolName == t
  {
    if IsInstalled(Tool(Package(pkgs, p), t)).0 {
      var tool := pkgs[p].tools[t];
      var v :| v in tool.releases && tool.releases[v].installed;
      var r := tool.releases[v];
      assert Cores.PackageWellFormed(p, pkgs[p]);
      assert Cores.IsInstalledReleaseIn(pkgs[p], r);
      assert Cores.IsInstalledToolRelease(pkgs, r);
    }
    if exists r :: Cores.IsInstalledToolRelease(pkgs, r) && r.packager == p && r.toolName == t {
      var r :| Cores.IsInstalledToolRelease(pkgs, r) && r.packager == p && r.toolName == t;
      var n :| n in pkgs && Cores.IsInstalledReleaseIn(pkgs[n], r);
      var t' :| t' in pkgs[n].tools && r in pkgs[n].tools[t'].releases.Values && r.IsInstalled();
      assert Cores.PackageWellFormed(n, pkgs[n]);
      var tool := pkgs[n].tools[t'];
      assert Cores.ToolWellFormed(n, t', tool);
      var v :| v in tool.releases && tool.releases[v] == r;
      assert n == p && t' == t;
    }
  }
}
