/** Depth-first search for one dependency cycle among the pending plan nodes
    (findDependencyCycle, packages/core/src/inspect-async.ts). */
module CycleFinder {
  import opened Wrappers
  import opened EnrichmentSchema

  /** One caller-ordered node of the plan. `hasGap`: the dependency list had a hole, which reads as
      a prerequisite that nothing can be. */
  datatype PlannedEnricher = PlannedEnricher(
    index: nat,
    token: string,
    enricher: Enricher,
    dependencies: seq<string>,
    dependencyShapeValid: bool,
    hasGap: bool)

  datatype Graph = Graph(steps: seq<PlannedEnricher>, tokenToIndex: map<string, nat>) {
    /** Step `u` names step `v` as a prerequisite. */
    ghost predicate Depends(u: nat, v: nat) {
      u < |steps| &&
      exists d :: d in steps[u].dependencies && d in tokenToIndex && tokenToIndex[d] == v
    }

    /** Distinct pending nodes, each depending on the next and the last on the first. */
    ghost predicate IsCycle(pending: set<nat>, cycle: seq<nat>) {
      && cycle != []
      && (forall i, j :: 0 <= i < j < |cycle| ==> cycle[i] != cycle[j])
      && (forall i :: 0 <= i < |cycle| ==> cycle[i] in pending)
      && (forall i :: 0 <= i < |cycle| - 1 ==> Depends(cycle[i], cycle[i + 1]))
      && Depends(cycle[|cycle| - 1], cycle[0])
    }

    ghost predicate Acyclic(pending: set<nat>) {
      forall cycle: seq<nat> :: !IsCycle(pending, cycle)
    }

    /** Every pending prerequisite of a listed node is listed before it. */
    ghost predicate PrerequisitesFirst(pending: set<nat>, order: seq<nat>) {
      forall j, v :: 0 <= j < |order| && v in pending && Depends(order[j], v) ==> v in order[..j]
    }

    /** A topological order of the whole pending graph. */
    ghost predicate IsTopological(pending: set<nat>, order: seq<nat>) {
      PrerequisitesFirst(pending, order) && (forall v :: v in pending ==> v in order)
    }
  }

  /** No member of a cycle can appear in a prefix of a topological order. */
  lemma {:induction false} CycleMissesPrefix(g: Graph, pending: set<nat>, order: seq<nat>, cycle: seq<nat>, k: nat)
    requires g.IsTopological(pending, order) && g.IsCycle(pending, cycle) && k <= |order|
    ensures forall i :: 0 <= i < |cycle| ==> cycle[i] !in order[..k]
  {
    if k > 0 {
      CycleMissesPrefix(g, pending, order, cycle, k - 1);
      assert order[..k] == order[..k - 1] + [order[k - 1]];
      forall i | 0 <= i < |cycle|
        ensures cycle[i] !in order[..k]
      {
        var next := if i == |cycle| - 1 then 0 else i + 1;
        assert g.Depends(cycle[i], cycle[next]) && cycle[next] in pending;
        assert cycle[next] !in order[..k - 1];
      }
    }
  }

  lemma TopologicalIsAcyclic(g: Graph, pending: set<nat>, order: seq<nat>)
    requires g.IsTopological(pending, order)
    ensures g.Acyclic(pending)
  {
    assert order[..|order|] == order;
    forall cycle: seq<nat>
      ensures !g.IsCycle(pending, cycle)
    {
      if g.IsCycle(pending, cycle) {
        CycleMissesPrefix(g, pending, order, cycle, |order|);
      }
    }
  }

  /** The first pending node of a topological order waits for no pending node. */
  lemma FirstIsFree(g: Graph, pending: set<nat>, order: seq<nat>) returns (u: nat)
    requires g.IsTopological(pending, order) && pending != {}
    ensures u in pending && forall v :: v in pending ==> !g.Depends(u, v)
  {
    var w :| w in pending;
    assert w in order;
    var j := 0;
    while order[j] !in pending
      invariant 0 <= j < |order| && w in order[j..]
      invariant forall i :: 0 <= i < j ==> order[i] !in pending
      decreases |order| - j
    {
      j := j + 1;
    }
    u := order[j];
  }

  datatype Mark = Visiting | Visited

  /** What the search keeps: the visiting nodes are exactly the path, which is a
      chain of prerequisites without repetition; the visited ones are exactly the
      finished ones, each after its pending prerequisites. */
  ghost predicate SearchInv(g: Graph, pending: set<nat>, state: map<nat, Mark>, stack: seq<nat>, finished: seq<nat>) {
    && (forall u :: u in pending ==> u < |g.steps|)
    && (forall u :: u in state ==> u in pending)
    && IsPath(g, stack)
    && (forall u :: u in stack <==> u in state && state[u] == Visiting)
    && (forall u :: u in finished <==> u in state && state[u] == Visited)
    && g.PrerequisitesFirst(pending, finished)
  }

  ghost predicate IsPath(g: Graph, stack: seq<nat>) {
    && (forall i, j :: 0 <= i < j < |stack| ==> stack[i] != stack[j])
    && (forall i :: 0 <= i < |stack| - 1 ==> g.Depends(stack[i], stack[i + 1]))
  }

  ghost predicate Keeps(before: map<nat, Mark>, after: map<nat, Mark>) {
    forall u :: u in before ==> u in after && after[u] == before[u]
  }

  /** The first `k` prerequisites of `index` that are pending are finished. */
  ghost predicate DoneUpTo(g: Graph, pending: set<nat>, finished: seq<nat>, index: nat, k: nat)
    requires index < |g.steps| && k <= |g.steps[index].dependencies|
  {
    forall j :: 0 <= j < k ==> DoneAt(g, pending, finished, g.steps[index].dependencies[j])
  }

  ghost predicate DoneAt(g: Graph, pending: set<nat>, finished: seq<nat>, d: string) {
    d in g.tokenToIndex && g.tokenToIndex[d] in pending ==> g.tokenToIndex[d] in finished
  }

  lemma Push(g: Graph, pending: set<nat>, state: map<nat, Mark>, stack: seq<nat>, finished: seq<nat>, index: nat)
    requires SearchInv(g, pending, state, stack, finished) && index in pending && index !in state
    requires stack != [] ==> g.Depends(stack[|stack| - 1], index)
    ensures SearchInv(g, pending, state[index := Visiting], stack + [index], finished) && index < |g.steps|
  {
    var state', stack' := state[index := Visiting], stack + [index];
    forall u ensures u in stack' <==> u in state' && state'[u] == Visiting {}
    assert IsPath(g, stack');
  }

  /** A back edge closes the tail of the path into a cycle. */
  lemma CloseCycle(g: Graph, pending: set<nat>, state: map<nat, Mark>, stack: seq<nat>, finished: seq<nat>, at: nat)
    requires SearchInv(g, pending, state, stack, finished) && at < |stack|
    requires g.Depends(stack[|stack| - 1], stack[at])
    ensures g.IsCycle(pending, stack[at..])
  {
    forall i | at <= i < |stack| ensures stack[i] in pending {
      assert stack[i] in stack;
    }
  }

  /** A node whose pending prerequisites are all finished can be finished next. */
  lemma FinishLast(g: Graph, pending: set<nat>, finished: seq<nat>, index: nat)
    requires g.PrerequisitesFirst(pending, finished) && index < |g.steps|
    requires DoneUpTo(g, pending, finished, index, |g.steps[index].dependencies|)
    ensures g.PrerequisitesFirst(pending, finished + [index])
  {
    var order := finished + [index];
    forall j, v | 0 <= j < |order| && v in pending && g.Depends(order[j], v)
      ensures v in order[..j]
    {
      if j < |finished| {
        assert order[..j] == finished[..j];
      } else {
        assert order[..j] == finished;
        var d :| d in g.steps[index].dependencies && d in g.tokenToIndex && g.tokenToIndex[d] == v;
        assert DoneAt(g, pending, finished, d);
      }
    }
  }

  lemma Pop(g: Graph, pending: set<nat>, state: map<nat, Mark>, stack: seq<nat>, finished: seq<nat>, index: nat)
    requires SearchInv(g, pending, state, stack + [index], finished) && index < |g.steps|
    requires DoneUpTo(g, pending, finished, index, |g.steps[index].dependencies|)
    ensures SearchInv(g, pending, state[index := Visited], stack, finished + [index])
  {
    FinishLast(g, pending, finished, index);
    var path, state' := stack + [index], state[index := Visited];
    assert IsPath(g, stack) by {
      forall i | 0 <= i < |stack| - 1 ensures g.Depends(stack[i], stack[i + 1]) {
        assert g.Depends(path[i], path[i + 1]);
      }
      forall i, j | 0 <= i < j < |stack| ensures stack[i] != stack[j] {
        assert path[i] != path[j];
      }
    }
    assert path[|stack|] == index;
    forall u ensures u in stack <==> u in state' && state'[u] == Visiting {
      assert u in path <==> u in stack || u == index;
      if u in stack {
        var i :| 0 <= i < |stack| && stack[i] == u;
        assert path[i] != path[|stack|];
      }
    }
  }

  /** The search state: colours, the current path, and (ghost) the finishing order. */
  class CycleFinder {
    const g: Graph
    const pending: set<nat>
    var state: map<nat, Mark>
    var stack: seq<nat>
    ghost var finished: seq<nat>

    ghost predicate Valid()
      reads this
    {
      SearchInv(g, pending, state, stack, finished)
    }

    constructor (g: Graph, pending: set<nat>)
      requires forall u :: u in pending ==> u < |g.steps|
      ensures Valid() && this.g == g && this.pending == pending && state == map[] && stack == []
    {
      this.g, this.pending := g, pending;
      state, stack, finished := map[], [], [];
    }

    /** Visits one unvisited node. Either a cycle is found, or the node is finished,
        the path is restored and every earlier colour is kept. */
    method Visit(index: nat) returns (found: Option<seq<nat>>)
      requires Valid() && index in pending && index !in state
      requires stack != [] ==> g.Depends(stack[|stack| - 1], index)
      modifies this
      ensures found.Some? ==> g.IsCycle(pending, found.value)
      ensures found.None? ==> Valid() && stack == old(stack) && Keeps(old(state), state)
      ensures found.None? ==> index in state && state[index] == Visited
      decreases pending - state.Keys, 1
    {
      hide SearchInv, Graph.Depends, Graph.IsCycle, DoneUpTo;
      Push(g, pending, state, stack, finished, index);
      state := state[index := Visiting];
      stack := stack + [index];
      assert state.Keys == old(state.Keys) + {index} && index in pending - old(state.Keys);
      assert index !in pending - state.Keys && pending - state.Keys <= pending - old(state.Keys);
      found := FollowAll(index);
      if found.Some? {
        return;
      }
      Pop(g, pending, state, old(stack), finished, index);
      stack := stack[..|stack| - 1];
      state := state[index := Visited];
      finished := finished + [index];
      assert stack == old(stack);
    }

    /** All prerequisites of the node on top of the path, in declaration order. */
    method FollowAll(index: nat) returns (found: Option<seq<nat>>)
      requires Valid() && stack != [] && stack[|stack| - 1] == index && index < |g.steps|
      modifies this
      ensures found.Some? ==> g.IsCycle(pending, found.value)
      ensures found.None? ==> Valid() && stack == old(stack) && Keeps(old(state), state)
      ensures found.None? ==> DoneUpTo(g, pending, finished, index, |g.steps[index].dependencies|)
      decreases pending - state.Keys, 3
    {
      found := None;
      var dependencies := g.steps[index].dependencies;
      for k := 0 to |dependencies|
        invariant Valid() && stack == old(stack) && Keeps(old(state), state)
        invariant DoneUpTo(g, pending, finished, index, k) && found.None?
      {
        ghost var s0, before := state, finished;
        found := Follow(index, dependencies[k]);
        if found.Some? {
          return;
        }
        DoneStep(g, pending, s0, state, stack, before, finished, index, k);
      }
    }

    /** One prerequisite of the node on top of the path: skipped when unknown or not
        pending, a cycle when on the path, visited when new. */
    method Follow(index: nat, dependency: string) returns (found: Option<seq<nat>>)
      requires Valid() && stack != [] && stack[|stack| - 1] == index
      requires index < |g.steps| && dependency in g.steps[index].dependencies
      modifies this
      ensures found.Some? ==> g.IsCycle(pending, found.value)
      ensures found.None? ==> Valid() && stack == old(stack) && Keeps(old(state), state)
      ensures found.None? ==> DoneAt(g, pending, finished, dependency)
      decreases pending - state.Keys, 2
    {
      if dependency !in g.tokenToIndex || g.tokenToIndex[dependency] !in pending {
        return None;
      }
      var target := g.tokenToIndex[dependency];
      assert g.Depends(index, target);
      if target in state && state[target] == Visiting {
        var at := IndexOf(stack, target);
        CloseCycle(g, pending, state, stack, finished, at);
        return Some(stack[at..]);
      }
      if target !in state {
        found := Visit(target);
        return;
      }
      return None;
    }
  }

  /** One more prerequisite handled: colours are kept, so finished nodes stay finished. */
  lemma DoneStep(g: Graph, pending: set<nat>, s0: map<nat, Mark>, s1: map<nat, Mark>, stack: seq<nat>,
                 before: seq<nat>, after: seq<nat>, index: nat, k: nat)
    requires SearchInv(g, pending, s0, stack, before) && SearchInv(g, pending, s1, stack, after) && Keeps(s0, s1)
    requires index < |g.steps| && k < |g.steps[index].dependencies|
    requires DoneUpTo(g, pending, before, index, k)
    requires DoneAt(g, pending, after, g.steps[index].dependencies[k])
    ensures DoneUpTo(g, pending, after, index, k + 1)
  {
    var ds := g.steps[index].dependencies;
    forall j | 0 <= j < k + 1 ensures DoneAt(g, pending, after, ds[j]) {
      assert j < k ==> DoneAt(g, pending, before, ds[j]);
    }
  }

  method IndexOf(s: seq<nat>, x: nat) returns (at: nat)
    requires x in s
    ensures at < |s| && s[at] == x && x !in s[..at]
  {
    at := 0;
    while s[at] != x
      invariant at < |s| && x !in s[..at] && x in s[at..]
      decreases |s| - at
    {
      at := at + 1;
    }
  }

  lemma SearchDone(g: Graph, pending: set<nat>, state: map<nat, Mark>, finished: seq<nat>)
    requires SearchInv(g, pending, state, [], finished) && forall u :: u in pending ==> u in state
    ensures g.IsTopological(pending, finished) && g.Acyclic(pending)
  {
    forall u | u in pending ensures u in finished {
      assert u !in [];
    }
    TopologicalIsAcyclic(g, pending, finished);
  }

  /** Sound and complete: a non-empty result is a cycle of pending nodes, and the
      result is empty exactly when the pending graph has none. The ghost `order`
      is the topological order that the finished search leaves behind. */
  method FindDependencyCycle(g: Graph, pending: set<nat>) returns (cycle: seq<nat>, ghost order: seq<nat>)
    requires forall u :: u in pending ==> u < |g.steps|
    ensures cycle != [] ==> g.IsCycle(pending, cycle)
    ensures cycle == [] <==> g.Acyclic(pending)
    ensures cycle == [] ==> g.IsTopological(pending, order)
  {
    hide Graph.Depends, IsPath, Graph.PrerequisitesFirst;
    order := [];
    var finder := new CycleFinder(g, pending);
    for index := 0 to |g.steps|
      invariant finder.g == g && finder.pending == pending
      invariant finder.Valid() && finder.stack == []
      invariant forall u :: u in pending && u < index ==> u in finder.state
    {
      if index in pending && index !in finder.state {
        var found := finder.Visit(index);
        if found.Some? {
          return found.value, [];
        }
      }
    }
    order := finder.finished;
    SearchDone(g, pending, finder.state, order);
    return [], order;
  }
}
