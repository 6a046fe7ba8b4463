/**
 * Reference definitions for `FindToolsRequiredForBoard`: the default map of
 * latest installed releases, the overlay of a platform's declared
 * dependencies, and what the resulting list holds.
 */
module Requirements {
  import opened Wrappers
  import opened Cores
  import opened Errors
  import opened Resolution

  /** Every declared dependency resolves through the chain. */
  predicate AllResolve(pkgs: Packages, deps: seq<ToolDependency>) {
    forall i :: 0 <= i < |deps| ==> FindToolDependency(pkgs, deps[i]).Some?
  }

  /** The index of the first declared dependency that does not resolve. */
  function FirstUnresolved(pkgs: Packages, deps: seq<ToolDependency>): (i: nat)
    requires !AllResolve(pkgs, deps)
    ensures i < |deps| && FindToolDependency(pkgs, deps[i]).None?
    ensures forall j :: 0 <= j < i ==> FindToolDependency(pkgs, deps[j]).Some?
  {
    if FindToolDependency(pkgs, deps[0]).None? then 0
    else
      assert !AllResolve(pkgs, deps[1..]) by {
        var k :| 0 <= k < |deps| && FindToolDependency(pkgs, deps[k]).None?;
        assert deps[1..][k - 1] == deps[k];
      }
      1 + FirstUnresolved(pkgs, deps[1..])
  }

  /**
   * The overlay of the declared dependencies, applied in order: each resolved
   * release is stored under its tool's "packager:tool" identity, so a later
   * dependency on the same tool replaces an earlier one.
   */
  function Pinned(pkgs: Packages, deps: seq<ToolDependency>): (m: map<string, ToolRelease>)
    ensures forall k :: k in m ==> m[k].ToolKey() == k
  {
    if |deps| == 0 then map[]
    else
      var earlier := Pinned(pkgs, deps[..|deps| - 1]);
      match FindToolDependency(pkgs, deps[|deps| - 1])
      case Some(rel) => earlier[rel.ToolKey() := rel]
      case None => earlier
  }

  /** Every entry of the overlay is the resolution of some declared dependency. */
  lemma {:induction false} PinnedFromDeclared(pkgs: Packages, deps: seq<ToolDependency>, k: string)
    requires k in Pinned(pkgs, deps)
    ensures exists i :: 0 <= i < |deps| && FindToolDependency(pkgs, deps[i]) == Some(Pinned(pkgs, deps)[k])
  {
    var last := |deps| - 1;
    var earlier := deps[..last];
    var rel := FindToolDependency(pkgs, deps[last]);
    if rel.Some? && rel.value.ToolKey() == k {
      assert FindToolDependency(pkgs, deps[last]) == Some(Pinned(pkgs, deps)[k]);
    } else {
      PinnedFromDeclared(pkgs, earlier, k);
      var i :| 0 <= i < |earlier| && FindToolDependency(pkgs, earlier[i]) == Some(Pinned(pkgs, earlier)[k]);
      assert earlier[i] == deps[i];
    }
  }

  /** A resolved dependency that no later dependency overrides is in the overlay. */
  lemma {:induction false} PinnedLastWins(pkgs: Packages, deps: seq<ToolDependency>, i: nat)
    requires i < |deps| && FindToolDependency(pkgs, deps[i]).Some?
    requires forall j :: i < j < |deps| && FindToolDependency(pkgs, deps[j]).Some? ==>
      FindToolDependency(pkgs, deps[j]).value.ToolKey() != FindToolDependency(pkgs, deps[i]).value.ToolKey()
    ensures var rel := FindToolDependency(pkgs, deps[i]).value;
      rel.ToolKey() in Pinned(pkgs, deps) && Pinned(pkgs, deps)[rel.ToolKey()] == rel
  {
    var last := |deps| - 1;
    if i < last {
      var earlier := deps[..last];
      assert earlier[i] == deps[i];
      forall j | i < j < |earlier| && FindToolDependency(pkgs, earlier[j]).Some?
        ensures FindToolDependency(pkgs, earlier[j]).value.ToolKey()
          != FindToolDependency(pkgs, earlier[i]).value.ToolKey()
      {
        assert earlier[j] == deps[j];
      }
      PinnedLastWins(pkgs, earlier, i);
    }
  }

  /** The loop's step: the overlay of one more dependency. */
  lemma PinnedStep(pkgs: Packages, deps: seq<ToolDependency>, i: nat)
    requires i < |deps| && FindToolDependency(pkgs, deps[i]).Some?
    ensures var rel := FindToolDependency(pkgs, deps[i]).value;
      Pinned(pkgs, deps[..i + 1]) == Pinned(pkgs, deps[..i])[rel.ToolKey() := rel]
  {
    assert deps[..i + 1][..i] == deps[..i];
  }

  /** `i` is the first unresolved dependency when all before it resolve and it does not. */
  lemma {:induction false} FirstUnresolvedAt(pkgs: Packages, deps: seq<ToolDependency>, i: nat)
    requires i < |deps| && FindToolDependency(pkgs, deps[i]).None?
    requires forall j :: 0 <= j < i ==> FindToolDependency(pkgs, deps[j]).Some?
    ensures !AllResolve(pkgs, deps) && FirstUnresolved(pkgs, deps) == i
  {
    if i > 0 {
      forall j | 0 <= j < i - 1 ensures FindToolDependency(pkgs, deps[1..][j]).Some? {
        assert deps[1..][j] == deps[j + 1];
      }
      assert deps[1..][i - 1] == deps[i];
      FirstUnresolvedAt(pkgs, deps[1..], i - 1);
    }
  }

  /**
   * `d` is a default map of the registry: each entry is, under its own tool
   * identity, the latest installed release of some tool, and in a
   * well-formed registry every tool with an installed release has its entry.
   */
  ghost predicate IsDefaults(pkgs: Packages, d: map<string, ToolRelease>) {
    && (forall k :: k in d ==> d[k].ToolKey() == k && IsDefaultRelease(pkgs, d[k]))
    && (WellFormed(pkgs) ==>
          forall n, t :: n in pkgs && t in pkgs[n].tools && HasInstalledRelease(pkgs[n].tools[t]) ==>
            ToolString(n, t) in d && IsLatestInstalled(pkgs[n].tools[t], d[ToolString(n, t)]))
  }

  /** `s` lists the values of `m`, each once, one per tool identity. */
  ghost predicate ListsValues(s: seq<ToolRelease>, m: map<string, ToolRelease>) {
    && (forall i :: 0 <= i < |s| ==> s[i].ToolKey() in m && m[s[i].ToolKey()] == s[i])
    && (forall k :: k in m ==> m[k] in s)
    && (forall i, j :: 0 <= i < j < |s| ==> s[i].ToolKey() != s[j].ToolKey())
  }

  /** No later declared dependency resolves to the same tool as dependency `i`. */
  predicate NotOverridden(pkgs: Packages, deps: seq<ToolDependency>, i: nat)
    requires i < |deps| && AllResolve(pkgs, deps)
  {
    forall j :: i < j < |deps| ==>
      FindToolDependency(pkgs, deps[j]).value.ToolKey() != FindToolDependency(pkgs, deps[i]).value.ToolKey()
  }

  /** Some declared dependency names tool `t` of packager `n`. */
  predicate Declares(deps: seq<ToolDependency>, n: string, t: string) {
    exists i :: 0 <= i < |deps| && deps[i].toolPackager == n && deps[i].toolName == t
  }

  /**
   * What the list of required tools holds, once every dependency resolves:
   * for a declared tool identity, only the release pinned last (neither the
   * default nor an earlier declaration survives); every declared dependency that no
   * later one overrides, with its exact release; in a well-formed registry,
   * the latest installed release of every tool the platform does not
   * declare; and nothing else.
   */
  lemma RequiredTools(pkgs: Packages, deps: seq<ToolDependency>, d: map<string, ToolRelease>, s: seq<ToolRelease>)
    requires AllResolve(pkgs, deps)
    requires IsDefaults(pkgs, d)
    requires ListsValues(s, d + Pinned(pkgs, deps))
    ensures forall r :: r in s && r.ToolKey() in Pinned(pkgs, deps) ==> r == Pinned(pkgs, deps)[r.ToolKey()]
    ensures forall i :: 0 <= i < |deps| && NotOverridden(pkgs, deps, i) ==>
      FindToolDependency(pkgs, deps[i]).value in s
    ensures WellFormed(pkgs) ==>
      forall n, t :: n in pkgs && t in pkgs[n].tools && HasInstalledRelease(pkgs[n].tools[t]) && !Declares(deps, n, t)
        ==> exists r :: r in s && IsLatestInstalled(pkgs[n].tools[t], r)
    ensures forall r :: r in s ==>
      IsDefaultRelease(pkgs, r) || exists i :: 0 <= i < |deps| && FindToolDependency(pkgs, deps[i]) == Some(r)
  {
    var m := d + Pinned(pkgs, deps);
    forall r | r in s && r.ToolKey() in Pinned(pkgs, deps)
      ensures r == Pinned(pkgs, deps)[r.ToolKey()]
    {
      assert m[r.ToolKey()] == r;
    }
    forall i | 0 <= i < |deps| && NotOverridden(pkgs, deps, i)
      ensures FindToolDependency(pkgs, deps[i]).value in s
    {
      PinnedLastWins(pkgs, deps, i);
      var rel := FindToolDependency(pkgs, deps[i]).value;
      assert m[rel.ToolKey()] == rel;
    }
    if WellFormed(pkgs) {
      forall n, t | n in pkgs && t in pkgs[n].tools && HasInstalledRelease(pkgs[n].tools[t]) && !Declares(deps, n, t)
        ensures exists r :: r in s && IsLatestInstalled(pkgs[n].tools[t], r)
      {
        var k := ToolString(n, t);
        if k in Pinned(pkgs, deps) {
          PinnedFromDeclared(pkgs, deps, k);
          var i :| 0 <= i < |deps| && FindToolDependency(pkgs, deps[i]) == Some(Pinned(pkgs, deps)[k]);
          ResolvedDependencyMatches(pkgs, deps[i]);
          assert PackageWellFormed(deps[i].toolPackager, pkgs[deps[i].toolPackager]);
          assert PackageWellFormed(n, pkgs[n]);
          ToolStringInjective(deps[i].toolPackager, deps[i].toolName, n, t);
          assert false;
        }
        assert m[k] == d[k];
        assert m[k] in s;
      }
    }
    forall r | r in s
      ensures IsDefaultRelease(pkgs, r) || exists i :: 0 <= i < |deps| && FindToolDependency(pkgs, deps[i]) == Some(r)
    {
      var k := r.ToolKey();
      if k in Pinned(pkgs, deps) {
        PinnedFromDeclared(pkgs, deps, k);
      }
    }
  }

  /** Every default release is an installed release of the registry. */
  lemma DefaultsAreInstalled(pkgs: Packages, r: ToolRelease)
    requires IsDefaultRelease(pkgs, r)
    ensures IsInstalledToolRelease(pkgs, r)
  {
    var n, t :| n in pkgs && t in pkgs[n].tools && IsLatestInstalled(pkgs[n].tools[t], r);
    assert IsInstalledReleaseIn(pkgs[n], r);
  }

  /** The copy of a key-consistent map into a list: each value once. */
  method ValuesOf(m: map<string, ToolRelease>) returns (s: seq<ToolRelease>)
    requires forall k :: k in m ==> m[k].ToolKey() == k
    ensures ListsValues(s, m)
  {
    s := [];
    var todo := m.Keys;
    while todo != {}
      invariant todo <= m.Keys
      invariant forall i :: 0 <= i < |s| ==> s[i].ToolKey() in m.Keys - todo && m[s[i].ToolKey()] == s[i]
      invariant forall k :: k in m.Keys - todo ==> m[k] in s
      invariant forall i, j :: 0 <= i < j < |s| ==> s[i].ToolKey() != s[j].ToolKey()
      decreases todo
    {
      var k :| k in todo;
      s := s + [m[k]];
      todo := todo - {k};
    }
  }
}
