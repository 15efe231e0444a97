/** The workflow graph and the depth-first search that accepts or rejects it. */
module Workflow {

  type StepId = string

  /** A step, reduced to what scheduling reads. An absent `if` is the empty string: the source treats both as false. */
  datatype Step = Step(id: StepId, needs: seq<StepId>, condition: string, retries: nat, continueOnError: bool)

  datatype Error = DuplicateId(index: nat) | UnknownNeed(index: nat, need: StepId) | Cycle(path: seq<StepId>)

  type Graph = map<StepId, seq<StepId>>

  /** The needs of each id; a later step with the same id replaces an earlier one. */
  function GraphOf(steps: seq<Step>): (g: Graph)
    ensures forall id :: id in g <==> exists i :: 0 <= i < |steps| && steps[i].id == id
    ensures forall id :: id in g ==> exists i :: 0 <= i < |steps| && steps[i].id == id && steps[i].needs == g[id]
  {
    if steps == [] then map[]
    else
      var rest := GraphOf(steps[..|steps| - 1]);
      var last := steps[|steps| - 1];
      assert forall i :: 0 <= i < |steps| - 1 ==> steps[i] == steps[..|steps| - 1][i];
      rest[last.id := last.needs]
  }

  ghost predicate UniqueIds(steps: seq<Step>) {
    forall i, j :: 0 <= i < j < |steps| ==> steps[i].id != steps[j].id
  }

  ghost predicate HasId(steps: seq<Step>, id: StepId) {
    exists i :: 0 <= i < |steps| && steps[i].id == id
  }

  ghost predicate KnownNeeds(steps: seq<Step>) {
    forall i, need :: 0 <= i < |steps| && need in steps[i].needs ==> HasId(steps, need)
  }

  /** `a` needs `b`, both being steps of the graph. */
  predicate Edge(g: Graph, a: StepId, b: StepId) {
    a in g && b in g && b in g[a]
  }

  ghost predicate Walk(g: Graph, p: seq<StepId>) {
    forall i :: 0 <= i < |p| - 1 ==> Edge(g, p[i], p[i + 1])
  }

  /** A walk along needs that ends on an id already in it. */
  ghost predicate CyclePath(g: Graph, p: seq<StepId>) {
    |p| >= 2 && Walk(g, p) && exists i :: 0 <= i < |p| - 1 && p[i] == p[|p| - 1]
  }

  ghost predicate HasCycle(g: Graph) {
    exists p :: CyclePath(g, p)
  }

  ghost predicate Accepted(steps: seq<Step>) {
    UniqueIds(steps) && KnownNeeds(steps) && !HasCycle(GraphOf(steps))
  }

  /** Numbers that strictly fall along every edge leaving a ranked id. */
  ghost predicate Ranked(g: Graph, rank: map<StepId, nat>) {
    forall a, b :: a in rank && Edge(g, a, b) ==> b in rank && rank[b] < rank[a]
  }

  lemma {:induction false} RankFallsAlongWalk(g: Graph, rank: map<StepId, nat>, p: seq<StepId>, i: nat, j: nat)
    requires Ranked(g, rank) && Walk(g, p) && i < j < |p| && p[i] in rank
    ensures p[j] in rank && rank[p[j]] < rank[p[i]]
    decreases j - i
  {
    assert Edge(g, p[i], p[i + 1]);
    if i + 1 < j {
      RankFallsAlongWalk(g, rank, p, i + 1, j);
    }
  }

  lemma RankedGraphHasNoCycle(g: Graph, rank: map<StepId, nat>)
    requires Ranked(g, rank) && g.Keys <= rank.Keys
    ensures !HasCycle(g)
  {
    if p :| CyclePath(g, p) {
      var i :| 0 <= i < |p| - 1 && p[i] == p[|p| - 1];
      assert Edge(g, p[i], p[i + 1]);
      RankFallsAlongWalk(g, rank, p, i, |p| - 1);
    }
  }

  ghost predicate NeedsInside(g: Graph, stuck: set<StepId>, a: StepId) {
    exists b :: b in stuck && Edge(g, a, b)
  }

  /** Every id of the set still needs another id of the set. */
  ghost predicate Stuck(g: Graph, stuck: set<StepId>) {
    forall a {:trigger NeedsInside(g, stuck, a)} :: a in stuck ==> NeedsInside(g, stuck, a)
  }

  /** Following needs inside a stuck set closes a cycle. */
  lemma {:induction false} StuckWalkCloses(g: Graph, stuck: set<StepId>, p: seq<StepId>)
    requires Stuck(g, stuck)
    requires |p| > 0 && Walk(g, p) && forall a :: a in p ==> a in stuck
    ensures HasCycle(g)
    decreases stuck - (set a | a in p)
  {
    var last := p[|p| - 1];
    assert last in stuck && NeedsInside(g, stuck, last);
    var next :| next in stuck && Edge(g, last, next);
    var q := p + [next];
    if next in p {
      var i :| 0 <= i < |p| && p[i] == next;
      assert q[i] == q[|q| - 1];
      assert CyclePath(g, q);
    } else {
      assert q[|p|] in q;
      assert next in stuck - (set a | a in p) && next !in stuck - (set a | a in q);
      StuckWalkCloses(g, stuck, q);
    }
  }

  lemma StuckSetHasCycle(g: Graph, stuck: set<StepId>)
    requires stuck != {} && Stuck(g, stuck)
    ensures HasCycle(g)
  {
    var a :| a in stuck;
    StuckWalkCloses(g, stuck, [a]);
  }

  /** The `visit` closure with the variables it captures. */
  class CycleFinder {
    const graph: Graph
    var errors: seq<Error>
    var visiting: set<StepId>
    var visited: set<StepId>
    ghost var rank: map<StepId, nat>
    ghost var finished: nat

    ghost predicate Valid()
      reads this
    {
      && visiting <= graph.Keys && visited <= graph.Keys && visiting !! visited
      && rank.Keys == visited
      && (forall a :: a in rank ==> rank[a] < finished)
      && (forall e :: e in errors ==> e.Cycle? && CyclePath(graph, e.path))
      && (errors == [] ==> Ranked(graph, rank))
    }

    constructor (graph: Graph)
      ensures Valid() && this.graph == graph
      ensures errors == [] && visiting == {} && visited == {}
    {
      this.graph := graph;
      errors, visiting, visited, rank, finished := [], {}, {}, map[], 0;
    }

    method Visit(id: StepId, path: seq<StepId>)
      requires Valid() && id in graph
      requires forall a :: a in visiting <==> a in path
      requires Walk(graph, path + [id])
      modifies this
      ensures Valid()
      ensures visiting == old(visiting) && old(visited) <= visited
      ensures old(errors) <= errors
      ensures id in old(visiting) ==> errors == old(errors) + [Cycle(path + [id])]
      ensures id in old(visited) ==> errors == old(errors) && visited == old(visited)
      ensures errors == [] || id !in visiting ==> id in visited
      decreases graph.Keys - visiting - visited
    {
      if id in visiting {
        assert CyclePath(graph, path + [id]) by {
          var i :| 0 <= i < |path| && path[i] == id;
          assert (path + [id])[i] == (path + [id])[|path|];
        }
        errors := errors + [Cycle(path + [id])];
        return;
      }
      if id in visited { return; }
      visiting := visiting + {id};
      var needs := graph[id];
      for i := 0 to |needs|
        invariant Valid()
        invariant visiting == old(visiting) + {id} && old(visited) <= visited
        invariant old(errors) <= errors
        invariant id !in visited
        invariant errors == [] ==> forall j :: 0 <= j < i && needs[j] in graph ==> needs[j] in visited
      {
        if needs[i] in graph {
          assert Edge(graph, id, needs[i]);
          assert Walk(graph, path + [id] + [needs[i]]);
          assert id in old(graph.Keys - visiting - visited) && id !in graph.Keys - visiting - visited;
          Visit(needs[i], path + [id]);
        }
      }
      visiting := visiting - {id};
      visited := visited + {id};
      rank := rank[id := finished];
      finished := finished + 1;
      assert visiting == old(visiting);
      assert errors == [] ==> Ranked(graph, rank) by {
        if errors == [] {
          forall a, b | a in rank && Edge(graph, a, b) ensures b in rank && rank[b] < rank[a] {
            if a == id {
              var j :| 0 <= j < |needs| && needs[j] == b;
            }
          }
        }
      }
    }
  }

  ghost predicate SeenBefore(steps: seq<Step>, i: nat)
    requires i < |steps|
  {
    exists j :: 0 <= j < i && steps[j].id == steps[i].id
  }

  ghost predicate DuplicatesAre(steps: seq<Step>, errors: seq<Error>, upTo: nat)
    requires upTo <= |steps|
  {
    && (forall e :: e in errors ==> e.DuplicateId? && e.index < upTo && SeenBefore(steps, e.index))
    && (forall i: nat :: i < upTo && SeenBefore(steps, i) ==> DuplicateId(i) in errors)
  }

  ghost predicate MissingNeed(steps: seq<Step>, i: nat, need: StepId)
    requires i < |steps|
  {
    need in steps[i].needs && !HasId(steps, need)
  }

  ghost predicate UnknownsAre(steps: seq<Step>, errors: seq<Error>, upTo: nat)
    requires upTo <= |steps|
  {
    && (forall e :: e in errors ==> e.UnknownNeed? && e.index < upTo && MissingNeed(steps, e.index, e.need))
    && (forall i: nat, need :: i < upTo && MissingNeed(steps, i, need) ==> UnknownNeed(i, need) in errors)
  }

  ghost predicate CyclesAre(g: Graph, errors: seq<Error>) {
    && (forall e :: e in errors ==> e.Cycle? && CyclePath(g, e.path))
    && (errors == [] ==> !HasCycle(g))
  }

  /**
   * Accepts exactly the step lists with distinct ids, known needs and an acyclic graph, and reports only real faults.
   */
  method ValidateGraph(steps: seq<Step>) returns (errors: seq<Error>)
    ensures errors == [] <==> Accepted(steps)
    ensures forall i: nat :: DuplicateId(i) in errors <==> i < |steps| && SeenBefore(steps, i)
    ensures forall i: nat, need :: UnknownNeed(i, need) in errors <==> i < |steps| && MissingNeed(steps, i, need)
    ensures forall p :: Cycle(p) in errors ==> CyclePath(GraphOf(steps), p)
    ensures (exists p :: Cycle(p) in errors) <==> HasCycle(GraphOf(steps))
  {
    var duplicates := CheckIds(steps);
    var unknown := CheckNeeds(steps);
    var cycles := FindCycles(GraphOf(steps), KeyOrder(steps));
    errors := duplicates + unknown + cycles;
    NoDuplicatesIffUnique(steps, duplicates);
    NoUnknownsIffKnown(steps, unknown);
    NoCyclesIffAcyclic(steps, cycles);
    assert forall e :: e in errors <==> e in duplicates || e in unknown || e in cycles;
  }

  method CheckIds(steps: seq<Step>) returns (errors: seq<Error>)
    ensures DuplicatesAre(steps, errors, |steps|)
  {
    errors := [];
    var ids: set<StepId> := {};
    for index := 0 to |steps|
      invariant forall id :: id in ids <==> exists j :: 0 <= j < index && steps[j].id == id
      invariant DuplicatesAre(steps, errors, index)
    {
      assert steps[index].id in ids <==> SeenBefore(steps, index);
      if steps[index].id in ids { errors := errors + [DuplicateId(index)]; }
      ids := ids + {steps[index].id};
    }
  }

  method CheckNeeds(steps: seq<Step>) returns (errors: seq<Error>)
    ensures UnknownsAre(steps, errors, |steps|)
  {
    errors := [];
    var graph := GraphOf(steps);
    for index := 0 to |steps|
      invariant UnknownsAre(steps, errors, index)
    {
      ghost var before := errors;
      var needs := steps[index].needs;
      for j := 0 to |needs|
        invariant before <= errors
        invariant forall e :: e in errors ==>
                    e in before || (exists k :: 0 <= k < j && e == UnknownNeed(index, needs[k]) && needs[k] !in graph)
        invariant forall k :: 0 <= k < j && needs[k] !in graph ==> UnknownNeed(index, needs[k]) in errors
      {
        if needs[j] !in graph { errors := errors + [UnknownNeed(index, needs[j])]; }
      }
    }
  }

  method FindCycles(graph: Graph, order: seq<StepId>) returns (errors: seq<Error>)
    requires forall id :: id in order <==> id in graph
    ensures CyclesAre(graph, errors)
  {
    var finder := new CycleFinder(graph);
    for k := 0 to |order|
      invariant finder.Valid() && finder.graph == graph && finder.visiting == {}
      invariant forall j :: 0 <= j < k ==> order[j] in finder.visited
    {
      assert order[k] in graph;
      assert [] + [order[k]] == [order[k]];
      finder.Visit(order[k], []);
    }
    errors := finder.errors;
    if errors == [] {
      assert graph.Keys <= finder.rank.Keys;
      RankedGraphHasNoCycle(graph, finder.rank);
    }
  }

  /** The first occurrence of each id, the order in which a JavaScript map lists its keys. */
  function KeyOrder(steps: seq<Step>): (order: seq<StepId>)
    ensures forall id :: id in order <==> id in GraphOf(steps)
  {
    if steps == [] then []
    else
      var rest := KeyOrder(steps[..|steps| - 1]);
      var id := steps[|steps| - 1].id;
      if id in rest then rest else rest + [id]
  }

  lemma NoDuplicatesIffUnique(steps: seq<Step>, duplicates: seq<Error>)
    requires DuplicatesAre(steps, duplicates, |steps|)
    ensures duplicates == [] <==> UniqueIds(steps)
  {
    if duplicates != [] {
      assert duplicates[0] in duplicates;
    }
    if !UniqueIds(steps) {
      var i, j :| 0 <= i < j < |steps| && steps[i].id == steps[j].id;
      assert SeenBefore(steps, j);
    }
  }

  lemma NoUnknownsIffKnown(steps: seq<Step>, unknown: seq<Error>)
    requires UnknownsAre(steps, unknown, |steps|)
    ensures unknown == [] <==> KnownNeeds(steps)
  {
    if unknown != [] {
      assert unknown[0] in unknown;
    }
    if !KnownNeeds(steps) {
      var i, need :| 0 <= i < |steps| && need in steps[i].needs && !HasId(steps, need);
      assert MissingNeed(steps, i, need);
    }
  }

  lemma NoCyclesIffAcyclic(steps: seq<Step>, cycles: seq<Error>)
    requires CyclesAre(GraphOf(steps), cycles)
    ensures cycles == [] <==> !HasCycle(GraphOf(steps))
    ensures cycles != [] ==> exists p :: Cycle(p) in cycles
  {
    if cycles != [] {
      assert Cycle(cycles[0].path) in cycles;
    }
  }
}
