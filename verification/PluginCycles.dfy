/** The circular-dependency check of packages/core's plugin registry. */
module PluginCycles {
  import opened Wrappers

  /** Plugin names and the names each plugin declares as dependencies. */
  type Graph = map<string, seq<string>>

  datatype Declaration = Declaration(name: string, dependencies: seq<string>)

  function Deps(g: Graph, name: string): seq<string> {
    if name in g then g[name] else []
  }

  /** `depMap`: a later plugin of the same name replaces an earlier one. */
  function DepMap(plugins: seq<Declaration>): Graph {
    if plugins == [] then map[]
    else DepMap(plugins[..|plugins| - 1])[plugins[|plugins| - 1].name := plugins[|plugins| - 1].dependencies]
  }

  function Names(plugins: seq<Declaration>): set<string> {
    set p | p in plugins :: p.name
  }

  ghost predicate Edge(g: Graph, w: seq<string>, i: nat)
    requires i + 1 < |w|
  {
    w[i + 1] in Deps(g, w[i])
  }

  ghost predicate Walk(g: Graph, w: seq<string>) {
    forall i {:trigger Edge(g, w, i)} :: 0 <= i < |w| - 1 ==> Edge(g, w, i)
  }

  /** A closed walk along dependency edges. */
  ghost predicate IsCycle(g: Graph, w: seq<string>) {
    |w| >= 2 && w[0] == w[|w| - 1] && Walk(g, w)
  }

  function Elements(s: seq<string>): set<string> {
    set x | x in s
  }

  // ---------- Finished names are topologically ordered ----------

  /** Every name comes after all of its dependencies. */
  ghost predicate Ordered(g: Graph, order: seq<string>) {
    forall i {:trigger Placed(g, order, i)} :: 0 <= i < |order| ==> Placed(g, order, i)
  }

  ghost predicate Placed(g: Graph, order: seq<string>, i: nat)
    requires i < |order|
  {
    forall d :: d in Deps(g, order[i]) ==> d in order[..i]
  }

  /** A walk from the `i`-th finished name only goes down. */
  lemma {:induction false} WalkDescends(g: Graph, order: seq<string>, w: seq<string>, i: nat) returns (j: nat)
    requires Ordered(g, order) && i < |order|
    requires |w| >= 1 && Walk(g, w) && w[0] == order[i]
    ensures j <= i && order[j] == w[|w| - 1]
    ensures |w| >= 2 ==> j < i
    decreases |w|
  {
    if |w| == 1 {
      j := i;
    } else {
      assert Edge(g, w, 0) && Placed(g, order, i);
      var k :| 0 <= k < i && order[k] == w[1];
      forall m | 0 <= m < |w[1..]| - 1 ensures Edge(g, w[1..], m) {
        assert Edge(g, w, m + 1);
      }
      j := WalkDescends(g, order, w[1..], k);
    }
  }

  lemma {:induction false} NoCycleFrom(g: Graph, order: seq<string>, w: seq<string>, i: nat)
    requires Ordered(g, order) && i < |order|
    requires |w| >= 1 && w[0] == order[i]
    ensures !IsCycle(g, w)
    decreases i
  {
    if IsCycle(g, w) {
      var j := WalkDescends(g, order, w, i);
      NoCycleFrom(g, order, w, j);
    }
  }

  ghost predicate OnNoCycle(g: Graph, name: string) {
    forall w :: IsCycle(g, w) ==> w[0] != name
  }

  lemma FinishedOnNoCycle(g: Graph, order: seq<string>, name: string)
    requires Ordered(g, order) && name in order
    ensures OnNoCycle(g, name)
  {
    forall w | |w| >= 1 && w[0] == name ensures !IsCycle(g, w) {
      var i :| 0 <= i < |order| && order[i] == name;
      NoCycleFrom(g, order, w, i);
    }
  }

  lemma OrderExtends(g: Graph, order: seq<string>, name: string)
    requires Ordered(g, order) && forall d :: d in Deps(g, name) ==> d in order
    ensures Ordered(g, order + [name])
    ensures Elements(order + [name]) == Elements(order) + {name}
  {
    var longer := order + [name];
    forall i | 0 <= i < |longer| ensures Placed(g, longer, i) {
      assert longer[..i] == order[..i];
      if i < |order| {
        assert Placed(g, order, i);
      } else {
        assert order[..i] == order;
      }
    }
  }

  // ---------- The path is a walk ----------

  lemma WalkExtends(g: Graph, w: seq<string>, next: string)
    requires w != [] && Walk(g, w) && next in Deps(g, w[|w| - 1])
    ensures Walk(g, w + [next])
  {
    forall i | 0 <= i < |w + [next]| - 1 ensures Edge(g, w + [next], i) {
      if i < |w| - 1 {
        assert Edge(g, w, i);
      }
    }
  }

  /** A name met again closes the part of the path since it was first met. */
  lemma PathCloses(g: Graph, path: seq<string>, name: string, at: nat)
    requires Walk(g, path + [name]) && at < |path| && path[at] == name
    ensures IsCycle(g, path[at..] + [name])
  {
    var w := path[at..] + [name];
    forall i | 0 <= i < |w| - 1 ensures Edge(g, w, i) {
      assert Edge(g, path + [name], at + i);
    }
  }

  lemma ElementsOfHere(path: seq<string>, name: string)
    ensures Elements(path + [name]) == Elements(path) + {name}
  {
  }

  /** A name that leaves the path when it is finished is still visited. */
  lemma NameMoves(path: seq<string>, finished: seq<string>, name: string)
    ensures Elements(path + [name]) + Elements(finished) == Elements(path) + Elements(finished + [name])
  {
    ElementsOfHere(path, name);
    ElementsOfHere(finished, name);
  }

  ghost predicate AllFinished(deps: seq<string>, n: nat, finished: seq<string>)
    requires n <= |deps|
  {
    forall k :: 0 <= k < n ==> deps[k] in finished
  }

  lemma StillFinished(deps: seq<string>, i: nat, before: seq<string>, after: seq<string>)
    requires i < |deps| && AllFinished(deps, i, before) && before <= after && deps[i] in after
    ensures AllFinished(deps, i + 1, after)
  {
    forall k | 0 <= k < i ensures deps[k] in after {
      var j :| 0 <= j < |before| && before[j] == deps[k];
      assert after[j] == deps[k];
    }
  }

  // ---------- The search ----------

  /** The state one top-level `dfs` call shares with its recursive calls. */
  class Search {
    const depMap: Graph
    var visited: set<string>
    /** Names whose calls have returned, in the order they returned. */
    ghost var finished: seq<string>
    /** Every name the search can meet. */
    ghost const names: set<string>

    constructor (depMap: Graph, ghost names: set<string>)
      ensures this.depMap == depMap && this.names == names
      ensures visited == {} && finished == []
    {
      this.depMap := depMap;
      this.names := names;
      visited := {};
      finished := [];
    }

    ghost predicate Closed() {
      forall n, d :: n in names && d in Deps(depMap, n) ==> d in names
    }

    /** Visited names are on the path or finished; finished names are in order. */
    ghost predicate Valid(path: seq<string>)
      reads this
    {
      && Closed()
      && visited == Elements(path) + Elements(finished)
      && Ordered(depMap, finished)
    }

    /**
     Returns the cycle it throws, or none when it returns normally; a name
     finished by any earlier call is skipped.
     */
    method Dfs(name: string, path: seq<string>) returns (cycle: Option<seq<string>>)
      requires Valid(path) && name in names
      requires Walk(depMap, path + [name])
      modifies this
      ensures cycle.Some? ==> IsCycle(depMap, cycle.value)
      ensures cycle.None? ==> Valid(path) && name in finished
      ensures cycle.None? ==> old(finished) <= finished && old(visited) <= visited
      decreases names - visited
    {
      if name in path {
        var at := IndexOf(path, name);
        cycle := Some(path[at..] + [name]);
        PathCloses(depMap, path, name, at);
        return;
      }
      if name in visited {
        return None;
      }
      visited := visited + {name};
      var deps := if name in depMap then depMap[name] else [];
      var here := path + [name];
      ElementsOfHere(path, name);
      for i := 0 to |deps|
        invariant Valid(here)
        invariant old(finished) <= finished && old(visited) + {name} <= visited
        invariant AllFinished(deps, i, finished)
      {
        ghost var before := finished;
        assert deps[i] in Deps(depMap, name);
        WalkExtends(depMap, here, deps[i]);
        cycle := Dfs(deps[i], here);
        if cycle.Some? {
          return;
        }
        StillFinished(deps, i, before, finished);
      }
      OrderExtends(depMap, finished, name);
      NameMoves(path, finished, name);
      finished := finished + [name];
      cycle := None;
    }
  }

  method IndexOf(path: seq<string>, name: string) returns (i: nat)
    requires name in path
    ensures i < |path| && path[i] == name && name !in path[..i]
  {
    i := 0;
    while path[i] != name
      invariant i < |path| && name !in path[..i] && name in path
      decreases |path| - i
    {
      assert path[..i + 1] == path[..i] + [path[i]];
      assert exists k :: i < k < |path| && path[k] == name;
      i := i + 1;
    }
  }

  /** All names in a graph. */
  ghost function Universe(g: Graph): (names: set<string>)
    ensures forall n, d :: d in Deps(g, n) ==> n in names && d in names
    ensures g.Keys <= names
  {
    g.Keys + set n, d | n in g.Keys && d in g[n] :: d
  }

  lemma {:induction false} KeysOfDepMap(plugins: seq<Declaration>)
    ensures DepMap(plugins).Keys == Names(plugins)
  {
    if plugins != [] {
      var n := |plugins| - 1;
      KeysOfDepMap(plugins[..n]);
      assert plugins == plugins[..n] + [plugins[n]];
    }
  }

  method BuildDepMap(plugins: seq<Declaration>) returns (depMap: Graph)
    ensures depMap == DepMap(plugins)
  {
    depMap := map[];
    for i := 0 to |plugins|
      invariant depMap == DepMap(plugins[..i])
    {
      assert plugins[..i + 1][..i] == plugins[..i];
      depMap := depMap[plugins[i].name := plugins[i].dependencies];
    }
    assert plugins[..|plugins|] == plugins;
  }

  /** A cycle starts at a name with dependencies, and ends at a dependency. */
  lemma CycleEnds(g: Graph, w: seq<string>)
    requires IsCycle(g, w)
    ensures w[0] in g
    ensures exists n :: n in g && w[0] in g[n]
  {
    assert Edge(g, w, 0) && Edge(g, w, |w| - 2);
  }

  lemma NoCycleAnywhere(g: Graph)
    requires forall n :: n in g ==> OnNoCycle(g, n)
    ensures forall w :: !IsCycle(g, w)
  {
    forall w ensures !IsCycle(g, w) {
      if IsCycle(g, w) {
        CycleEnds(g, w);
      }
    }
  }

  /** `dfs(start, [], new Set())`. */
  method SearchFrom(depMap: Graph, start: string) returns (cycle: Option<seq<string>>)
    requires start in depMap
    ensures cycle.Some? ==> IsCycle(depMap, cycle.value)
    ensures cycle.None? ==> OnNoCycle(depMap, start)
  {
    var search := new Search(depMap, Universe(depMap));
    cycle := search.Dfs(start, []);
    if cycle.None? {
      FinishedOnNoCycle(depMap, search.finished, start);
    }
  }

  method SearchAll(depMap: Graph, plugins: seq<Declaration>) returns (cycle: Option<seq<string>>)
    requires Names(plugins) == depMap.Keys
    ensures cycle.Some? ==> IsCycle(depMap, cycle.value)
    ensures cycle.None? ==> forall n :: n in depMap ==> OnNoCycle(depMap, n)
  {
    cycle := None;
    for i := 0 to |plugins|
      invariant cycle.None?
      invariant forall p :: p in plugins[..i] ==> OnNoCycle(depMap, p.name)
    {
      assert plugins[i].name in Names(plugins);
      cycle := SearchFrom(depMap, plugins[i].name);
      if cycle.Some? {
        return;
      }
    }
  }

  // ---------- Cycles among the declarations ----------

  ghost predicate LastNamed(plugins: seq<Declaration>, i: nat)
    requires i < |plugins|
  {
    forall j :: i < j < |plugins| ==> plugins[j].name != plugins[i].name
  }

  /** The last declaration named `name` lists `dependency`. */
  ghost predicate Lists(plugins: seq<Declaration>, name: string, dependency: string) {
    exists i :: 0 <= i < |plugins| && plugins[i].name == name && LastNamed(plugins, i)
                && dependency in plugins[i].dependencies
  }

  ghost predicate Leads(plugins: seq<Declaration>, w: seq<string>, i: nat)
    requires i + 1 < |w|
  {
    Lists(plugins, w[i], w[i + 1])
  }

  /** A walk from a name back to it, along the dependencies that were declared. */
  ghost predicate ClosedWalk(plugins: seq<Declaration>, w: seq<string>) {
    && |w| >= 2 && w[0] == w[|w| - 1]
    && forall i {:trigger Leads(plugins, w, i)} :: 0 <= i < |w| - 1 ==> Leads(plugins, w, i)
  }

  /** A declaration hides the earlier ones of its name and no others. */
  lemma ListsAppend(plugins: seq<Declaration>, last: Declaration, name: string, dependency: string)
    ensures Lists(plugins + [last], name, dependency)
       <==> if name == last.name then dependency in last.dependencies else Lists(plugins, name, dependency)
  {
    var more, n := plugins + [last], |plugins|;
    assert more[n] == last && LastNamed(more, n);
    forall i | 0 <= i < n
      ensures more[i] == plugins[i]
      ensures LastNamed(more, i) <==> LastNamed(plugins, i) && plugins[i].name != last.name
    {
      assert forall j :: i < j < n ==> more[j] == plugins[j];
      if LastNamed(more, i) {
        assert more[n].name != more[i].name;
        assert forall j :: i < j < n ==> more[j].name != more[i].name;
      }
    }
    if name != last.name && Lists(plugins, name, dependency) {
      var i :| 0 <= i < n && plugins[i].name == name && LastNamed(plugins, i)
               && dependency in plugins[i].dependencies;
      assert more[i] == plugins[i] && LastNamed(more, i);
    }
  }

  /** The edges of the dependency map are what the declarations list. */
  lemma {:induction false} DepMapLists(plugins: seq<Declaration>, name: string, dependency: string)
    ensures dependency in Deps(DepMap(plugins), name) <==> Lists(plugins, name, dependency)
  {
    if plugins != [] {
      var before, last := plugins[..|plugins| - 1], plugins[|plugins| - 1];
      DepMapLists(before, name, dependency);
      ListsAppend(before, last, name, dependency);
      assert before + [last] == plugins;
    }
  }

  lemma CycleIsDeclared(plugins: seq<Declaration>, w: seq<string>)
    ensures IsCycle(DepMap(plugins), w) <==> ClosedWalk(plugins, w)
  {
    forall i | 0 <= i < |w| - 1 ensures Edge(DepMap(plugins), w, i) <==> Leads(plugins, w, i) {
      DepMapLists(plugins, w[i], w[i + 1]);
    }
  }

  /** Throws some cycle of the declarations, and throws whenever they have a cycle. */
  method DetectCircular(plugins: seq<Declaration>) returns (cycle: Option<seq<string>>)
    ensures cycle.Some? ==> ClosedWalk(plugins, cycle.value)
    ensures cycle.None? ==> forall w :: !ClosedWalk(plugins, w)
  {
    var depMap := BuildDepMap(plugins);
    KeysOfDepMap(plugins);
    cycle := SearchAll(depMap, plugins);
    if cycle.None? {
      NoCycleAnywhere(depMap);
    }
    forall w ensures IsCycle(depMap, w) <==> ClosedWalk(plugins, w) {
      CycleIsDeclared(plugins, w);
    }
  }
}
