/** Collecting the packages a release ships (packages/release/src/artifact.ts:106-149). */
module DependencyClosure {
  import opened Options
  import opened Text

  /** A package name. */
  type Name = Text

  datatype Manifest = Manifest(dependencies: seq<Name>, optionalDependencies: seq<Name>, peerDependencies: seq<Name>)

  /** The manifests that can be read under `node_modules`. */
  type Modules = map<Name, Manifest>

  /** "@localink/" */
  const LOCAL_SCOPE: Text := [64, 108, 111, 99, 97, 108, 105, 110, 107, 47]

  predicate IsLocal(name: Name) { LOCAL_SCOPE <= name }

  /** The names a manifest asks for, of any of the three kinds and not of this workspace. */
  ghost predicate Wants(m: Manifest, name: Name) {
    !IsLocal(name) && (name in m.dependencies || name in m.optionalDependencies || name in m.peerDependencies)
  }

  predicate Distinct(names: seq<Name>) {
    forall i, j :: 0 <= i < j < |names| ==> names[i] != names[j]
  }

  /** `new Set` over the keys, then the filter. */
  method DependencyNames(m: Manifest) returns (names: seq<Name>)
    ensures Distinct(names)
    ensures forall n :: n in names <==> Wants(m, n)
  {
    var all := m.dependencies + m.optionalDependencies + m.peerDependencies;
    names := [];
    for i := 0 to |all|
      invariant Distinct(names)
      invariant forall n :: n in names <==> n in all[..i] && !IsLocal(n)
    {
      assert all[..i + 1] == all[..i] + [all[i]];
      if all[i] !in names && !IsLocal(all[i]) { names := names + [all[i]]; }
    }
    assert all[..|all|] == all;
  }

  ghost predicate Asks(workspace: Option<Manifest>, name: Name) {
    workspace.Some? && Wants(workspace.value, name)
  }

  /** Everything a workspace asks for; None is a workspace whose manifest cannot be read. */
  ghost predicate Root(workspaces: seq<Option<Manifest>>, name: Name) {
    exists i :: 0 <= i < |workspaces| && Asks(workspaces[i], name)
  }

  /** The set holds the roots and what its readable members ask for. */
  ghost predicate Closed(workspaces: seq<Option<Manifest>>, modules: Modules, s: set<Name>) {
    && (forall n :: Root(workspaces, n) ==> n in s)
    && (forall p, n :: p in s && p in modules && Wants(modules[p], n) ==> n in s)
  }

  /** No closed set is without the name. */
  ghost predicate Needed(workspaces: seq<Option<Manifest>>, modules: Modules, name: Name) {
    forall s: set<Name> :: Closed(workspaces, modules, s) ==> name in s
  }

  predicate Ascending(names: seq<Name>) {
    forall i, j :: 0 <= i < j < |names| ==> Less(names[i], names[j])
  }

  /** The names are the least closed set, in order. */
  ghost predicate Collected(workspaces: seq<Option<Manifest>>, modules: Modules, names: seq<Name>) {
    && Ascending(names)
    && (forall n :: n in names ==> n in modules && Needed(workspaces, modules, n))
    && Closed(workspaces, modules, set n | n in names)
  }

  lemma NeededByRoot(workspaces: seq<Option<Manifest>>, modules: Modules)
    ensures forall n :: Root(workspaces, n) ==> Needed(workspaces, modules, n)
  {}

  lemma NeededByMember(workspaces: seq<Option<Manifest>>, modules: Modules, p: Name)
    requires p in modules && Needed(workspaces, modules, p)
    ensures forall n :: Wants(modules[p], n) ==> Needed(workspaces, modules, n)
  {}

  /** The queue of all that the workspaces ask for, in their order; None when a manifest
      cannot be read. */
  method RootNames(workspaces: seq<Option<Manifest>>) returns (queue: Option<seq<Name>>)
    ensures queue.Some? <==> None !in workspaces
    ensures queue.Some? ==> forall n :: n in queue.value <==> Root(workspaces, n)
  {
    var pending: seq<Name> := [];
    for i := 0 to |workspaces|
      invariant forall j :: 0 <= j < i ==> workspaces[j].Some?
      invariant forall n :: n in pending <==> Root(workspaces[..i], n)
    {
      if workspaces[i].None? { return None; }
      var names := DependencyNames(workspaces[i].value);
      RootsGrow(workspaces, i);
      pending := pending + names;
    }
    assert workspaces[..|workspaces|] == workspaces;
    return Some(pending);
  }

  lemma RootsGrow(workspaces: seq<Option<Manifest>>, i: nat)
    requires i < |workspaces|
    ensures forall n :: Root(workspaces[..i + 1], n) <==> Root(workspaces[..i], n) || Asks(workspaces[i], n)
  {
    forall n ensures Root(workspaces[..i + 1], n) <==> Root(workspaces[..i], n) || Asks(workspaces[i], n) {
      if Root(workspaces[..i], n) {
        var j :| 0 <= j < i && Asks(workspaces[..i][j], n);
        assert workspaces[..i + 1][j] == workspaces[j];
      }
      if Asks(workspaces[i], n) { assert workspaces[..i + 1][i] == workspaces[i]; }
      if Root(workspaces[..i + 1], n) {
        var j :| 0 <= j < i + 1 && Asks(workspaces[..i + 1][j], n);
        assert j < i ==> workspaces[..i][j] == workspaces[j];
      }
    }
  }

  datatype Result = Names(names: seq<Name>) | Unavailable(name: Name) | BrokenWorkspace

  /** What is asked for is collected or in the queue. */
  ghost predicate Frontier(workspaces: seq<Option<Manifest>>, modules: Modules, collected: seq<Name>,
                           pending: seq<Name>) {
    && (forall n :: Root(workspaces, n) ==> n in collected || n in pending)
    && (forall p, n :: p in collected && p in modules && Wants(modules[p], n) ==> n in collected || n in pending)
  }

  /** What is collected can be read, and all is needed. */
  ghost predicate Justified(workspaces: seq<Option<Manifest>>, modules: Modules, collected: seq<Name>,
                            pending: seq<Name>) {
    && Distinct(collected)
    && (forall n :: n in collected ==> n in modules && Needed(workspaces, modules, n))
    && (forall n :: n in pending ==> Needed(workspaces, modules, n))
  }

  lemma Skip(workspaces: seq<Option<Manifest>>, modules: Modules, collected: seq<Name>, pending: seq<Name>)
    requires pending != [] && pending[0] in collected
    requires Frontier(workspaces, modules, collected, pending) && Justified(workspaces, modules, collected, pending)
    ensures Frontier(workspaces, modules, collected, pending[1..])
    ensures Justified(workspaces, modules, collected, pending[1..])
  {
    assert pending == [pending[0]] + pending[1..];
  }

  lemma Take(workspaces: seq<Option<Manifest>>, modules: Modules, collected: seq<Name>, pending: seq<Name>,
             names: seq<Name>)
    requires pending != [] && pending[0] !in collected && pending[0] in modules
    requires Frontier(workspaces, modules, collected, pending) && Justified(workspaces, modules, collected, pending)
    requires forall n :: n in names <==> Wants(modules[pending[0]], n)
    ensures Frontier(workspaces, modules, collected + [pending[0]], pending[1..] + names)
    ensures Justified(workspaces, modules, collected + [pending[0]], pending[1..] + names)
  {
    assert pending == [pending[0]] + pending[1..];
    NeededByMember(workspaces, modules, pending[0]);
  }

  lemma Done(workspaces: seq<Option<Manifest>>, modules: Modules, collected: seq<Name>, sorted: seq<Name>)
    requires Frontier(workspaces, modules, collected, []) && Justified(workspaces, modules, collected, [])
    requires Ascending(sorted) && forall n :: n in sorted <==> n in collected
    ensures Collected(workspaces, modules, sorted)
  {}

  /** The worklist. It ends because each round either collects one more readable package
      or shortens the queue. When every package that is needed can be read, the result is
      the least closed set; otherwise a needed one that cannot be read is named. */
  method CollectProductionDependencies(workspaces: seq<Option<Manifest>>, modules: Modules) returns (r: Result)
    ensures r.Names? ==> Collected(workspaces, modules, r.names)
    ensures r.Unavailable? ==> r.name !in modules && Needed(workspaces, modules, r.name)
    ensures r.BrokenWorkspace? <==> None in workspaces
  {
    var queue := RootNames(workspaces);
    if queue.None? { return BrokenWorkspace; }
    var pending := queue.value;
    NeededByRoot(workspaces, modules);
    var collected: seq<Name> := [];
    ghost var unread := modules.Keys;
    while pending != []
      invariant unread == modules.Keys - (set n | n in collected)
      invariant Frontier(workspaces, modules, collected, pending) && Justified(workspaces, modules, collected, pending)
      decreases |unread|, |pending|
    {
      var name := pending[0];
      if name in collected {
        Skip(workspaces, modules, collected, pending);
        pending := pending[1..];
      } else {
        if name !in modules { return Unavailable(name); }
        var names := DependencyNames(modules[name]);
        Take(workspaces, modules, collected, pending, names);
        collected, pending := collected + [name], pending[1..] + names;
        unread := unread - {name};
      }
    }
    var sorted := SortNames(collected);
    Done(workspaces, modules, collected, sorted);
    return Names(sorted);
  }

  method SortNames(names: seq<Name>) returns (sorted: seq<Name>)
    requires Distinct(names)
    ensures Ascending(sorted) && forall n :: n in sorted <==> n in names
  {
    var entries := Entries(names);
    SortKeeps(entries);
    var s := SortByKey(entries);
    sorted := seq(|s|, i requires 0 <= i < |s| => s[i].key);
    SameNames(names, s, sorted);
  }

  function Entries(names: seq<Name>): seq<Keyed<int>> {
    seq(|names|, i requires 0 <= i < |names| => Keyed(names[i], 0))
  }

  lemma SameNames(names: seq<Name>, s: seq<Keyed<int>>, sorted: seq<Name>)
    requires multiset(s) == multiset(Entries(names)) && |sorted| == |s|
    requires forall i :: 0 <= i < |s| ==> sorted[i] == s[i].key
    ensures forall n :: n in sorted <==> n in names
  {
    var entries := Entries(names);
    forall n | n in sorted ensures n in names {
      var i :| 0 <= i < |s| && sorted[i] == n;
      assert s[i] in multiset(s);
      var j :| 0 <= j < |entries| && entries[j] == s[i];
    }
    forall n | n in names ensures n in sorted {
      var i :| 0 <= i < |names| && names[i] == n;
      assert entries[i] in multiset(s);
      var j :| 0 <= j < |s| && s[j] == entries[i];
    }
  }

  /** The two outcomes exclude each other: once there is a readable closed set, every
      needed package can be read. */
  lemma OutcomesExclude(workspaces: seq<Option<Manifest>>, modules: Modules, names: seq<Name>, name: Name)
    requires Collected(workspaces, modules, names) && Needed(workspaces, modules, name)
    ensures name in modules && name in names
  {
    assert name in (set n | n in names);
  }

  /** There is one answer: neither the order of the workspaces nor that of the keys shows. */
  lemma OneAnswer(a: seq<Option<Manifest>>, b: seq<Option<Manifest>>, modules: Modules, names: seq<Name>,
                  others: seq<Name>)
    requires forall n :: Root(a, n) <==> Root(b, n)
    requires Collected(a, modules, names) && Collected(b, modules, others)
    ensures names == others
  {
    var s, t := set n | n in names, set n | n in others;
    assert Closed(a, modules, t) && Closed(b, modules, s);
    forall n ensures n in names <==> n in others {
      if n in names { assert n in t; }
      if n in others { assert n in s; }
    }
    AscendingUnique(names, others);
  }

  lemma AscendingUnique(a: seq<Name>, b: seq<Name>)
    requires Ascending(a) && Ascending(b) && forall n :: n in a <==> n in b
    ensures a == b
  {
    var x, y := Entries(a), Entries(b);
    forall e ensures e in x <==> e in y {
      if e in x {
        assert e.key in a && e.value == 0;
        var j :| 0 <= j < |b| && b[j] == e.key;
        assert y[j] == e;
      }
      if e in y {
        assert e.key in b && e.value == 0;
        var j :| 0 <= j < |a| && a[j] == e.key;
        assert x[j] == e;
      }
    }
    SortedUnique(x, y);
    forall i | 0 <= i < |a| ensures a[i] == b[i] { assert x[i].key == a[i] && y[i].key == b[i]; }
  }
}
