/** The check that the modules' hard dependencies form a graph without cycles. */
module ModuleGraph {
  import opened Numbers

  type Key = string

  datatype Module = Module(key: Key, dependencies: seq<Key>, capabilities: seq<string>)

  datatype GraphError = DuplicateModuleKey | DuplicateCapabilities(owner: Key) | MissingDependency(owner: Key, missing: Key) | CircularDependency(at: Key)

  predicate NoRepeats(s: seq<string>) {
    forall i, j :: 0 <= i < j < |s| ==> s[i] != s[j]
  }

  predicate KeysUnique(modules: seq<Module>) {
    forall i, j :: 0 <= i < j < |modules| ==> modules[i].key != modules[j].key
  }

  function ByKey(modules: seq<Module>): map<Key, Module> {
    if modules == [] then map[] else ByKey(modules[..|modules| - 1])[modules[|modules| - 1].key := modules[|modules| - 1]]
  }

  /** The map holds exactly the declared keys, each with one of the modules that declare it. */
  lemma {:induction false} ByKeyHolds(modules: seq<Module>)
    ensures forall k :: 0 <= k < |modules| ==> modules[k].key in ByKey(modules)
    ensures forall key :: key in ByKey(modules) ==> ByKey(modules)[key] in modules && ByKey(modules)[key].key == key
  {
    if modules != [] {
      ByKeyHolds(modules[..|modules| - 1]);
      assert modules == modules[..|modules| - 1] + [modules[|modules| - 1]];
    }
  }

  lemma UniqueExtends(rest: seq<Module>, last: Module)
    ensures KeysUnique(rest + [last]) <==> KeysUnique(rest) && forall k :: 0 <= k < |rest| ==> rest[k].key != last.key
  {
    var all := rest + [last];
    if KeysUnique(all) {
      forall i, j | 0 <= i < j < |rest| ensures rest[i].key != rest[j].key { assert all[i] == rest[i] && all[j] == rest[j]; }
      forall k | 0 <= k < |rest| ensures rest[k].key != last.key { assert all[k] == rest[k] && all[|rest|] == last; }
    }
  }

  /** The sizes agree exactly when no key is declared twice. */
  lemma {:induction false} KeyCount(modules: seq<Module>)
    ensures |ByKey(modules)| <= |modules|
    ensures |ByKey(modules)| == |modules| <==> KeysUnique(modules)
  {
    if modules != [] {
      var rest, last := modules[..|modules| - 1], modules[|modules| - 1];
      assert modules == rest + [last];
      KeyCount(rest);
      ByKeyHolds(rest);
      UniqueExtends(rest, last);
      assert last.key in ByKey(rest) <==> exists k :: 0 <= k < |rest| && rest[k].key == last.key;
    }
  }

  // ---- paths and cycles ---------------------------------------------------------------

  predicate Edge(m: map<Key, Module>, a: Key, b: Key) {
    a in m && b in m[a].dependencies
  }

  predicate IsPath(m: map<Key, Module>, p: seq<Key>) {
    forall i :: 0 <= i < |p| - 1 ==> Edge(m, p[i], p[i + 1])
  }

  ghost predicate Cyclic(m: map<Key, Module>) {
    exists p: seq<Key> :: |p| >= 2 && p[0] == p[|p| - 1] && IsPath(m, p)
  }

  /** Every key stands after all its dependencies. */
  ghost predicate Topological(m: map<Key, Module>, order: seq<Key>) {
    forall i, d :: 0 <= i < |order| && Edge(m, order[i], d) ==> d in order[..i]
  }

  lemma {:induction false} PathGoesBack(m: map<Key, Module>, order: seq<Key>, p: seq<Key>, i: nat) returns (j: nat)
    requires Topological(m, order) && |p| >= 2 && IsPath(m, p) && i < |order| && order[i] == p[0]
    ensures j < i && order[j] == p[|p| - 1]
    decreases |p|
  {
    assert Edge(m, p[0], p[1]);
    j :| 0 <= j < i && order[j] == p[1];
    if |p| > 2 {
      forall k | 0 <= k < |p[1..]| - 1 ensures Edge(m, p[1..][k], p[1..][k + 1]) { assert Edge(m, p[k + 1], p[k + 2]); }
      j := PathGoesBack(m, order, p[1..], j);
    }
  }

  /** A key that occurs first at i in a topological order lies on no cycle. */
  lemma {:induction false} NoCycleThrough(m: map<Key, Module>, order: seq<Key>, p: seq<Key>, i: nat)
    requires Topological(m, order) && |p| >= 2 && IsPath(m, p) && i < |order| && order[i] == p[0]
    ensures p[|p| - 1] != p[0]
    decreases i
  {
    var j := PathGoesBack(m, order, p, i);
    if p[|p| - 1] == p[0] { NoCycleThrough(m, order, p, j); }
  }

  lemma TopologicalMeansAcyclic(m: map<Key, Module>, order: seq<Key>)
    requires Topological(m, order) && forall key :: key in m ==> key in order
    ensures !Cyclic(m)
  {
    forall p: seq<Key> | |p| >= 2 && IsPath(m, p) ensures p[0] != p[|p| - 1] {
      assert Edge(m, p[0], p[1]);
      var i :| 0 <= i < |order| && order[i] == p[0];
      NoCycleThrough(m, order, p, i);
    }
  }

  /** The stack of visits, closed by a key that is already on it. */
  lemma StackClosesCycle(m: map<Key, Module>, stack: seq<Key>, key: Key)
    requires IsPath(m, stack + [key]) && key in stack
    ensures Cyclic(m)
  {
    var j :| 0 <= j < |stack| && stack[j] == key;
    var p := stack[j..] + [key];
    forall i | 0 <= i < |p| - 1 ensures Edge(m, p[i], p[i + 1]) {
      assert p[i] == (stack + [key])[j + i] && p[i + 1] == (stack + [key])[j + i + 1];
    }
    assert |p| >= 2 && p[0] == p[|p| - 1];
  }

  class GraphCheck {
    const byKey: map<Key, Module>
    var visiting: set<Key>
    var visited: set<Key>
    /** Keys in the order in which they entered `visited`, and the visits under way. */
    ghost var order: seq<Key>
    ghost var stack: seq<Key>

    ghost predicate Valid()
      reads this
    {
      && (forall key :: key in byKey ==> forall d :: d in byKey[key].dependencies ==> d in byKey)
      && (forall key :: key in visited <==> key in order) && visited <= byKey.Keys && Topological(byKey, order)
      && (forall key :: key in visiting <==> key in stack) && visiting <= byKey.Keys && IsPath(byKey, stack)
      && visiting !! visited
    }

    constructor (m: map<Key, Module>)
      requires forall key :: key in m ==> forall d :: d in m[key].dependencies ==> d in m
      ensures Valid() && byKey == m && visiting == {} && visited == {} && stack == [] && order == []
    {
      byKey, visiting, visited, order, stack := m, {}, {}, [], [];
    }

    /** The recursive visit; a key that is being visited already closes a cycle. */
    method Visit(key: Key) returns (error: Option<GraphError>)
      requires Valid() && key in byKey && IsPath(byKey, stack + [key])
      modifies this
      ensures Valid() && old(order) <= order && old(visited) <= visited
      ensures error == None ==> key in visited && visiting == old(visiting) && stack == old(stack)
      ensures error.Some? ==> Cyclic(byKey) && error.value.CircularDependency?
      decreases byKey.Keys - visiting, 0, 0
    {
      if key in visited { return None; }
      if key in visiting {
        StackClosesCycle(byKey, stack, key);
        return Some(CircularDependency(key));
      }
      visiting, stack := visiting + {key}, stack + [key];
      assert byKey.Keys - visiting < byKey.Keys - old(visiting) by { assert key in byKey.Keys - old(visiting) && key !in byKey.Keys - visiting; }
      error := VisitAll(key, byKey[key].dependencies);
      if error.Some? { return; }
      assert stack == old(stack) + [key];
      visiting, visited := visiting - {key}, visited + {key};
      PopStack(byKey, old(stack), key);
      ghost var before := order;
      order, stack := order + [key], old(stack);
      forall i, d | 0 <= i < |order| && Edge(byKey, order[i], d) ensures d in order[..i] {
        if i < |before| { assert order[..i] == before[..i]; } else { assert order[..i] == before; }
      }
    }

    /** The loop over the dependencies of the module on top of the stack. */
    method VisitAll(key: Key, dependencies: seq<Key>) returns (error: Option<GraphError>)
      requires Valid() && key in byKey && stack != [] && stack[|stack| - 1] == key && key in visiting
      requires forall d :: d in dependencies ==> d in byKey[key].dependencies
      modifies this
      ensures Valid() && old(order) <= order && old(visited) <= visited
      ensures error == None ==> visiting == old(visiting) && stack == old(stack) && forall d :: d in dependencies ==> d in visited
      ensures error.Some? ==> Cyclic(byKey) && error.value.CircularDependency?
      decreases byKey.Keys - visiting, 1, |dependencies|
    {
      var k := 0;
      error := None;
      while k < |dependencies|
        invariant k <= |dependencies| && Valid() && error == None
        invariant visiting == old(visiting) && stack == old(stack) && old(order) <= order && old(visited) <= visited
        invariant forall j :: 0 <= j < k ==> dependencies[j] in visited
      {
        assert dependencies[k] in dependencies;
        error := Visit(dependencies[k]);
        if error.Some? { return; }
        k := k + 1;
      }
    }
  }

  lemma PopStack(m: map<Key, Module>, stack: seq<Key>, key: Key)
    requires IsPath(m, stack + [key])
    ensures IsPath(m, stack)
  {
    forall i | 0 <= i < |stack| - 1 ensures Edge(m, stack[i], stack[i + 1]) {
      assert Edge(m, (stack + [key])[i], (stack + [key])[i + 1]);
    }
  }

  // ---- the whole check ----------------------------------------------------------------

  /** No capability twice, and every dependency among the modules. */
  predicate ModuleOk(modules: seq<Module>, k: nat)
    requires k < |modules|
  {
    NoRepeats(modules[k].capabilities) && forall d :: d in modules[k].dependencies ==> d in ByKey(modules)
  }

  /** What the modules have to meet. */
  ghost predicate Sound(modules: seq<Module>) {
    KeysUnique(modules) && (forall k :: 0 <= k < |modules| ==> ModuleOk(modules, k)) && !Cyclic(ByKey(modules))
  }

  /** Whether a sequence repeats an entry. */
  method HasRepeats(s: seq<string>) returns (repeats: bool)
    ensures repeats <==> !NoRepeats(s)
  {
    var seen: set<string> := {};
    var k := 0;
    while k < |s|
      invariant k <= |s| && NoRepeats(s[..k]) && forall x :: x in seen <==> x in s[..k]
    {
      if s[k] in seen {
        var j :| 0 <= j < k && s[..k][j] == s[k];
        return true;
      }
      assert s[..k + 1] == s[..k] + [s[k]];
      seen := seen + {s[k]};
      k := k + 1;
    }
    assert s[..k] == s;
    return false;
  }

  method CheckModule(modules: seq<Module>, k: nat) returns (error: Option<GraphError>)
    requires k < |modules|
    ensures error == None <==> ModuleOk(modules, k)
    ensures error.Some? ==> !error.value.CircularDependency?
  {
    var repeats := HasRepeats(modules[k].capabilities);
    if repeats { return Some(DuplicateCapabilities(modules[k].key)); }
    var byKey, i := ByKey(modules), 0;
    while i < |modules[k].dependencies|
      invariant i <= |modules[k].dependencies| && forall d :: d in modules[k].dependencies[..i] ==> d in byKey
    {
      var dependency := modules[k].dependencies[i];
      if dependency !in byKey {
        assert dependency in modules[k].dependencies;
        return Some(MissingDependency(modules[k].key, dependency));
      }
      assert modules[k].dependencies[..i + 1] == modules[k].dependencies[..i] + [dependency];
      i := i + 1;
    }
    assert modules[k].dependencies[..i] == modules[k].dependencies;
    return None;
  }

  lemma DependenciesInMap(modules: seq<Module>)
    requires forall k :: 0 <= k < |modules| ==> ModuleOk(modules, k)
    ensures forall key :: key in ByKey(modules) ==> forall d :: d in ByKey(modules)[key].dependencies ==> d in ByKey(modules)
  {
    ByKeyHolds(modules);
    forall key, d | key in ByKey(modules) && d in ByKey(modules)[key].dependencies ensures d in ByKey(modules) {
      var k :| 0 <= k < |modules| && modules[k] == ByKey(modules)[key];
      assert ModuleOk(modules, k);
    }
  }

  /** The visits: they fail on a cycle and otherwise enter every key after its dependencies. */
  method VisitModules(modules: seq<Module>) returns (error: Option<GraphError>, ghost order: seq<Key>)
    requires forall k :: 0 <= k < |modules| ==> ModuleOk(modules, k)
    ensures error == None ==> Topological(ByKey(modules), order) && forall k :: 0 <= k < |modules| ==> modules[k].key in order
    ensures error.Some? ==> Cyclic(ByKey(modules)) && error.value.CircularDependency?
  {
    DependenciesInMap(modules);
    ByKeyHolds(modules);
    var check := new GraphCheck(ByKey(modules));
    var k := 0;
    while k < |modules|
      invariant k <= |modules| && check.Valid() && check.byKey == ByKey(modules) && check.stack == [] && check.visiting == {}
      invariant forall j :: 0 <= j < k ==> modules[j].key in check.visited
      modifies check
    {
      error := check.Visit(modules[k].key);
      if error.Some? { return error, []; }
      k := k + 1;
    }
    return None, check.order;
  }

  lemma OrderedMeansAcyclic(modules: seq<Module>, order: seq<Key>)
    requires Topological(ByKey(modules), order) && forall k :: 0 <= k < |modules| ==> modules[k].key in order
    ensures !Cyclic(ByKey(modules))
  {
    ByKeyHolds(modules);
    forall key | key in ByKey(modules) ensures key in order {
      var j :| 0 <= j < |modules| && modules[j] == ByKey(modules)[key];
    }
    TopologicalMeansAcyclic(ByKey(modules), order);
  }

  /** validateModuleGraph: it terminates on every input and accepts exactly the sound graphs, in dependency order. */
  method ValidateModuleGraph(modules: seq<Module>) returns (error: Option<GraphError>, ghost order: seq<Key>)
    ensures error == None <==> Sound(modules)
    ensures error == None ==> Topological(ByKey(modules), order) && forall k :: 0 <= k < |modules| ==> modules[k].key in order
    ensures error.Some? && error.value.CircularDependency? ==> Cyclic(ByKey(modules))
  {
    KeyCount(modules);
    if |ByKey(modules)| != |modules| { return Some(DuplicateModuleKey), []; }
    var k := 0;
    while k < |modules|
      invariant k <= |modules| && forall j :: 0 <= j < k ==> ModuleOk(modules, j)
    {
      error := CheckModule(modules, k);
      if error.Some? { return error, []; }
      k := k + 1;
    }
    error, order := VisitModules(modules);
    if error == None { OrderedMeansAcyclic(modules, order); }
  }
}
