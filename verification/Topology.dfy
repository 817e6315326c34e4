/** The application topology check of internal/catalog/catalog.go: component indices, known
    dependencies, indices that never decrease along a dependency, and a depth-first search
    with three colours for cycles. */
module Topology {
  import opened Text

  datatype Component = Component(id: string, index: Option<int>, dependencies: seq<string>)

  type Graph = map<string, seq<string>>

  // ---- Paths, cycles and dependency orders ----

  predicate Edge(g: Graph, a: string, b: string) {
    a in g && b in g[a]
  }

  predicate Closed(g: Graph) {
    forall a, b :: a in g && b in g[a] ==> b in g
  }

  ghost predicate IsPath(g: Graph, p: seq<string>) {
    p != [] && forall i, j :: 0 <= i < j < |p| && j == i + 1 ==> Edge(g, p[i], p[j])
  }

  /** A walk along at least one dependency leads from `a` back to `a`. */
  ghost predicate OnCycle(g: Graph, a: string) {
    exists p :: IsPath(g, p) && |p| >= 2 && p[0] == a && p[|p| - 1] == a
  }

  ghost predicate Acyclic(g: Graph) {
    forall a :: !OnCycle(g, a)
  }

  predicate DependenciesBefore(g: Graph, order: seq<string>, i: nat)
    requires i < |order|
  {
    order[i] in g && forall b :: b in g[order[i]] ==> b in order[..i]
  }

  /** Every element occurs once, after all its dependencies. */
  predicate Ordered(g: Graph, order: seq<string>) {
    Distinct(order) && forall i :: 0 <= i < |order| ==> DependenciesBefore(g, order, i)
  }

  /** Along a path the place in a dependency order falls with every step. */
  lemma {:induction false} PathFalls(g: Graph, order: seq<string>, p: seq<string>, k: nat, first: nat) returns (place: nat)
    requires Ordered(g, order) && IsPath(g, p) && k < |p|
    requires first < |order| && order[first] == p[0]
    ensures place < |order| && order[place] == p[k] && place + k <= first
  {
    if k == 0 {
      place := first;
    } else {
      var before := PathFalls(g, order, p, k - 1, first);
      assert Edge(g, p[k - 1], p[k]) && DependenciesBefore(g, order, before);
      place :| 0 <= place < before && order[..before][place] == p[k];
    }
  }

  /** A graph with a dependency order has no cycle. */
  lemma OrderedIsAcyclic(g: Graph, order: seq<string>)
    requires Ordered(g, order) && forall a :: a in g ==> a in order
    ensures Acyclic(g)
  {
    forall a ensures !OnCycle(g, a) {
      if OnCycle(g, a) {
        var p :| IsPath(g, p) && |p| >= 2 && p[0] == a && p[|p| - 1] == a;
        assert Edge(g, p[0], p[1]);
        var first :| 0 <= first < |order| && order[first] == a;
        var last := PathFalls(g, order, p, |p| - 1, first);
      }
    }
  }

  // ---- The search ----

  datatype Colour = Visiting | Visited

  /** The closure `visit` with the state map it captures. A component without an entry in
      `state` has not been seen. */
  class Visitor {
    const graph: Graph
    var state: map<string, Colour>
    ghost var finished: seq<string>

    constructor (graph: Graph)
      requires Closed(graph)
      ensures this.graph == graph && Valid([]) && finished == []
    {
      this.graph := graph;
      state, finished := map[], [];
    }

    /** The components being visited are the current path; the finished ones are in
        dependency order. */
    ghost predicate Valid(path: seq<string>)
      reads this
    {
      && Closed(graph)
      && state.Keys <= graph.Keys
      && (path == [] || IsPath(graph, path))
      && (forall a :: a in path <==> a in state && state[a] == Visiting)
      && Ordered(graph, finished)
      && (forall a :: a in finished <==> a in state && state[a] == Visited)
    }

    /** Returns the component at which a cycle was found, if any. */
    method Visit(id: string, ghost path: seq<string>) returns (culprit: Option<string>)
      requires Valid(path) && id in graph && (path == [] || Edge(graph, path[|path| - 1], id))
      modifies this
      ensures culprit.None? ==> Valid(path) && id in finished && old(finished) <= finished && old(state.Keys) <= state.Keys
      ensures culprit.Some? ==> OnCycle(graph, culprit.value)
      decreases graph.Keys - state.Keys, 0
    {
      if id in state && state[id] == Visiting {
        CycleClosed(graph, path, id);
        return Some(id);
      }
      if id in state && state[id] == Visited {
        return None;
      }
      Enter(id, path);
      culprit := VisitDependencies(id, path + [id]);
      if culprit.None? {
        Finish(id, path);
      }
    }

    /** The loop of Visit, with `id` at the end of the path. */
    method VisitDependencies(id: string, ghost path: seq<string>) returns (culprit: Option<string>)
      requires Valid(path) && id in graph && path != [] && path[|path| - 1] == id
      modifies this
      ensures culprit.None? ==> Valid(path) && old(finished) <= finished && old(state.Keys) <= state.Keys
      ensures culprit.None? ==> forall b :: b in graph[id] ==> b in finished
      ensures culprit.Some? ==> OnCycle(graph, culprit.value)
      decreases graph.Keys - state.Keys, 1
    {
      var dependencies := graph[id];
      for d := 0 to |dependencies|
        invariant Valid(path) && old(finished) <= finished && old(state.Keys) <= state.Keys
        invariant forall k :: 0 <= k < d ==> dependencies[k] in finished
      {
        culprit := Visit(dependencies[d], path);
        if culprit.Some? {
          return;
        }
      }
      return None;
    }

    method Enter(id: string, ghost path: seq<string>)
      requires Valid(path) && id in graph && id !in state && (path == [] || Edge(graph, path[|path| - 1], id))
      modifies this`state
      ensures Valid(path + [id]) && state.Keys == old(state.Keys) + {id} && id !in path
    {
      state := state[id := Visiting];
    }

    /** All dependencies of `id` are finished: so is `id`. */
    method Finish(id: string, ghost path: seq<string>)
      requires Valid(path + [id]) && id in graph && id !in path
      requires forall b :: b in graph[id] ==> b in finished
      modifies this
      ensures Valid(path) && finished == old(finished) + [id] && state.Keys == old(state.Keys)
    {
      assert id in path + [id];
      state := state[id := Visited];
      finished := finished + [id];
      OrderedAppend(graph, old(finished), id);
      PathPrefix(graph, path, id);
    }
  }

  lemma PathPrefix(g: Graph, path: seq<string>, id: string)
    requires IsPath(g, path + [id])
    ensures path == [] || IsPath(g, path)
  {
    var extended := path + [id];
    assert forall i :: 0 <= i < |path| ==> path[i] == extended[i];
  }

  lemma OrderedAppend(g: Graph, order: seq<string>, id: string)
    requires Ordered(g, order) && id in g && id !in order && forall b :: b in g[id] ==> b in order
    ensures Ordered(g, order + [id])
  {
    var longer := order + [id];
    forall i | 0 <= i < |longer| ensures DependenciesBefore(g, longer, i) {
      if i < |order| {
        assert DependenciesBefore(g, order, i) && longer[..i] == order[..i];
      } else {
        assert longer[..i] == order;
      }
    }
  }

  /** A dependency on a component of the current path closes a cycle through it. */
  lemma CycleClosed(g: Graph, path: seq<string>, id: string)
    requires id in path && IsPath(g, path) && Edge(g, path[|path| - 1], id)
    ensures OnCycle(g, id)
  {
    var k :| 0 <= k < |path| && path[k] == id;
    var cycle := path[k..] + [id];
    assert IsPath(g, cycle) && cycle[0] == id && cycle[|cycle| - 1] == id;
  }

  // ---- The check ----

  datatype Problem =
    | BadIndex(position: nat)
    | BadDependency(position: nat)
    | EarlierIndex(component: string)
    | Cycle(component: string)

  /** Some component has an index or a dependency. */
  predicate Declared(components: seq<Component>) {
    exists c :: c in components && (c.index.Some? || c.dependencies != [])
  }

  predicate IndexInRange(c: Component) {
    c.index.Some? && 0 <= c.index.value <= 1000
  }

  predicate DependenciesKnown(c: Component, ids: set<string>) {
    && (forall d :: d in c.dependencies ==> d in ids && d != c.id)
    && Distinct(c.dependencies)
  }

  predicate WellFormed(components: seq<Component>, ids: set<string>) {
    forall c :: c in components ==> IndexInRange(c) && DependenciesKnown(c, ids)
  }

  /** No component depends on one with a smaller index. */
  predicate IndicesAscend(components: seq<Component>) {
    forall c, d :: c in components && d in components && d.id in c.dependencies && c.index.Some? && d.index.Some? ==>
      c.index.value <= d.index.value
  }

  function Ids(components: seq<Component>): seq<string> {
    seq(|components|, i requires 0 <= i < |components| => components[i].id)
  }

  function ById(components: seq<Component>): map<string, Component> {
    if components == [] then map[]
    else ById(components[..|components| - 1])[components[|components| - 1].id := components[|components| - 1]]
  }

  lemma {:induction false} ByIdMeaning(components: seq<Component>)
    requires Distinct(Ids(components))
    ensures forall c :: c in components ==> c.id in ById(components) && ById(components)[c.id] == c
    ensures forall id :: id in ById(components) ==> ById(components)[id] in components && ById(components)[id].id == id
  {
    if components != [] {
      var n := |components| - 1;
      var rest, ids := components[..n], Ids(components);
      assert components == rest + [components[n]] && Ids(rest) == ids[..n];
      ByIdMeaning(rest);
      forall c | c in rest ensures c.id != components[n].id {
        var i :| 0 <= i < |rest| && rest[i] == c;
        assert ids[i] != ids[n];
      }
    }
  }

  function GraphOf(components: seq<Component>): Graph {
    var byId := ById(components);
    map id | id in byId :: byId[id].dependencies
  }

  /** What the check accepts: no topology at all, or one with indices in range, known and
      distinct dependencies, indices that never decrease along a dependency, and no cycle. */
  ghost predicate Accepted(components: seq<Component>, ids: set<string>) {
    Declared(components) ==>
      && WellFormed(components, ids)
      && IndicesAscend(components)
      && Acyclic(GraphOf(components))
  }

  method AnyDeclared(components: seq<Component>) returns (declared: bool)
    ensures declared <==> Declared(components)
  {
    declared := false;
    for i := 0 to |components|
      invariant declared <==> exists k :: 0 <= k < i && (components[k].index.Some? || components[k].dependencies != [])
    {
      declared := declared || components[i].index.Some? || |components[i].dependencies| != 0;
    }
  }

  /** The inner loop of the first pass. */
  method CheckDependencies(c: Component, ids: set<string>) returns (ok: bool)
    ensures ok <==> DependenciesKnown(c, ids)
  {
    var seen: set<string> := {};
    for k := 0 to |c.dependencies|
      invariant seen == set d | d in c.dependencies[..k]
      invariant forall d :: d in seen ==> d in ids && d != c.id
      invariant Distinct(c.dependencies[..k])
    {
      var d := c.dependencies[k];
      if d !in ids || d == c.id || d in seen {
        if d in seen {
          var j :| 0 <= j < |c.dependencies[..k]| && c.dependencies[..k][j] == d;
          assert c.dependencies[j] == c.dependencies[k];
        }
        return false;
      }
      assert c.dependencies[..k + 1] == c.dependencies[..k] + [d];
      seen := seen + {d};
    }
    assert c.dependencies[..|c.dependencies|] == c.dependencies;
    assert forall d :: d in c.dependencies ==> d in seen;
    return true;
  }

  /** The problem names a component that is at fault. */
  predicate BlamesComponent(components: seq<Component>, ids: set<string>, problem: Problem) {
    match problem
    case BadIndex(p) => p < |components| && !IndexInRange(components[p])
    case BadDependency(p) => p < |components| && IndexInRange(components[p]) && !DependenciesKnown(components[p], ids)
    case EarlierIndex(_) => false
    case Cycle(_) => false
  }

  /** The first pass: every component on its own. */
  method CheckComponents(components: seq<Component>, ids: set<string>) returns (problem: Option<Problem>, byId: map<string, Component>)
    ensures problem.None? <==> WellFormed(components, ids)
    ensures problem.None? ==> byId == ById(components)
    ensures problem.Some? ==> BlamesComponent(components, ids, problem.value)
  {
    byId := map[];
    for p := 0 to |components|
      invariant byId == ById(components[..p])
      invariant WellFormed(components[..p], ids)
    {
      var c := components[p];
      assert c in components;
      assert components[..p + 1] == components[..p] + [c] && components[..p + 1][..p] == components[..p];
      if c.index.None? || c.index.value < 0 || c.index.value > 1000 {
        return Some(BadIndex(p)), byId;
      }
      var ok := CheckDependencies(c, ids);
      if !ok {
        return Some(BadDependency(p)), byId;
      }
      byId := byId[c.id := c];
    }
    assert components[..|components|] == components;
    return None, byId;
  }

  predicate AscendsFrom(c: Component, byId: map<string, Component>) {
    forall d :: d in c.dependencies && d in byId && c.index.Some? && byId[d].index.Some? ==> c.index.value <= byId[d].index.value
  }

  /** The second pass: indices along dependencies. */
  method CheckIndices(components: seq<Component>, byId: map<string, Component>) returns (problem: Option<Problem>)
    requires forall c, d :: c in components && d in c.dependencies ==> d in byId
    requires forall c :: c in components ==> c.index.Some?
    requires forall id :: id in byId ==> byId[id].index.Some?
    ensures problem.None? <==> forall c :: c in components ==> AscendsFrom(c, byId)
    ensures problem.Some? ==> problem.value.EarlierIndex?
  {
    for p := 0 to |components|
      invariant forall q :: 0 <= q < p ==> AscendsFrom(components[q], byId)
    {
      var c := components[p];
      assert c in components;
      for k := 0 to |c.dependencies|
        invariant forall j :: 0 <= j < k ==> c.index.value <= byId[c.dependencies[j]].index.value
      {
        var d := c.dependencies[k];
        assert d in c.dependencies;
        if byId[d].index.value < c.index.value {
          assert !AscendsFrom(c, byId);
          return Some(EarlierIndex(c.id));
        }
      }
    }
    return None;
  }

  lemma AscendingIndices(components: seq<Component>)
    requires Distinct(Ids(components))
    ensures IndicesAscend(components) <==> forall c :: c in components ==> AscendsFrom(c, ById(components))
  {
    ByIdMeaning(components);
    var byId := ById(components);
    if IndicesAscend(components) {
      forall c, d | c in components && d in c.dependencies && d in byId && c.index.Some? && byId[d].index.Some?
        ensures c.index.value <= byId[d].index.value
      {
        assert byId[d] in components && byId[d].id == d;
      }
    }
    if forall c :: c in components ==> AscendsFrom(c, byId) {
      forall c, d | c in components && d in components && d.id in c.dependencies && c.index.Some? && d.index.Some?
        ensures c.index.value <= d.index.value
      {
        assert AscendsFrom(c, byId) && byId[d.id] == d;
      }
    }
  }

  lemma GraphMeaning(components: seq<Component>, ids: set<string>)
    requires Distinct(Ids(components)) && ids == (set c | c in components :: c.id) && WellFormed(components, ids)
    ensures Closed(GraphOf(components))
    ensures forall id :: id in GraphOf(components) <==> id in ids
    ensures forall c :: c in components ==> c.id in GraphOf(components)
    ensures forall c, d :: c in components && d in c.dependencies ==> d in ById(components)
    ensures forall id :: id in ById(components) ==> ById(components)[id].index.Some?
  {
    ByIdMeaning(components);
  }

  /** The third pass: the search from every component. */
  method CheckCycles(components: seq<Component>, graph: Graph) returns (problem: Option<Problem>)
    requires Closed(graph) && (forall c :: c in components ==> c.id in graph)
    requires forall id :: id in graph ==> exists c :: c in components && c.id == id
    ensures problem.None? <==> Acyclic(graph)
    ensures problem.Some? ==> problem.value.Cycle? && OnCycle(graph, problem.value.component)
  {
    var visitor := new Visitor(graph);
    for p := 0 to |components|
      invariant visitor.Valid([])
      invariant visitor.graph == graph
      invariant forall q :: 0 <= q < p ==> components[q].id in visitor.finished
    {
      assert components[p] in components;
      var culprit := visitor.Visit(components[p].id, []);
      if culprit.Some? {
        return Some(Cycle(culprit.value));
      }
    }
    OrderedIsAcyclic(graph, visitor.finished);
    return None;
  }

  /** internal/catalog/catalog.go: validateComponentTopology, called with the set of the
      components' identifiers, which are distinct. */
  method ValidateComponentTopology(components: seq<Component>, ids: set<string>) returns (problem: Option<Problem>)
    requires Distinct(Ids(components)) && ids == set c | c in components :: c.id
    ensures problem.None? <==> Accepted(components, ids)
    ensures problem.Some? && problem.value.Cycle? ==>
      && WellFormed(components, ids) && IndicesAscend(components)
      && OnCycle(GraphOf(components), problem.value.component)
  {
    var declared := AnyDeclared(components);
    if !declared {
      return None;
    }
    var byId;
    problem, byId := CheckComponents(components, ids);
    if problem.Some? {
      return;
    }
    GraphMeaning(components, ids);
    AscendingIndices(components);
    problem := CheckIndices(components, byId);
    if problem.Some? {
      return;
    }
    problem := CheckCycles(components, map id | id in byId :: byId[id].dependencies);
  }

  /** Along a path of components the index never decreases. */
  lemma {:induction false} PathAscends(components: seq<Component>, p: seq<string>, i: nat, j: nat)
    requires Distinct(Ids(components)) && IndicesAscend(components) && (forall c :: c in components ==> c.index.Some?)
    requires IsPath(GraphOf(components), p) && i <= j < |p| && (forall k :: 0 <= k < |p| ==> p[k] in ById(components))
    ensures ById(components)[p[i]].index.Some? && ById(components)[p[j]].index.Some?
    ensures ById(components)[p[i]].index.value <= ById(components)[p[j]].index.value
  {
    ByIdMeaning(components);
    var byId := ById(components);
    if i < j {
      PathAscends(components, p, i, j - 1);
      assert Edge(GraphOf(components), p[j - 1], p[j]);
      var c, d := byId[p[j - 1]], byId[p[j]];
      assert c in components && d in components && d.id in c.dependencies;
    }
  }

  /** When indices never decrease along dependencies, a cycle stays within one index: the
      search decides only among components of equal index. */
  lemma CycleWithinOneIndex(components: seq<Component>, p: seq<string>, k: nat)
    requires Distinct(Ids(components)) && IndicesAscend(components) && (forall c :: c in components ==> c.index.Some?)
    requires IsPath(GraphOf(components), p) && p[0] == p[|p| - 1] && k < |p|
    requires forall i :: 0 <= i < |p| ==> p[i] in ById(components)
    ensures ById(components)[p[k]].index == ById(components)[p[0]].index
  {
    PathAscends(components, p, 0, k);
    PathAscends(components, p, k, |p| - 1);
  }
}
