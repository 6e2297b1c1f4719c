/** Which members of dependency cycles carry the cycle label (executeEnrichmentPlan,
    packages/core/src/inspect-async.ts). */
module PlanCycles {
  import opened Wrappers
  import opened EnrichmentSchema
  import opened Normalization
  import opened SourceRunner
  import opened CycleFinder
  import opened EnrichmentPlan
  import opened PlanTimeline
  import opened PlanExecution
  import opened PlanTheorems

  /** The slots as pass `p` finds them. */
  ghost function Seen(slots: Slots, when: Times, p: nat): Slots {
    Masked(slots, SettledBefore(when, p))
  }

  /** Once a pass finds nothing ready, nothing is started any more. */
  lemma {:induction false} NothingStartsAfter(g: Graph, env: Environment, slots: Slots, starts: seq<Start>, when: Times, passes: nat,
                                              aborted: bool, p: nat, k: nat)
    requires StartsOk(g, env, slots, starts) && Timeline(g, slots, when, starts, passes, aborted)
    requires p < passes && ReadyIn(g, Seen(slots, when, p)) == {} && k < |starts|
    ensures starts[k].stage < p
    decreases k
  {
    hide RunContract, IsFrameworkRun, PreflightOk, Accumulated;
    var s, seen := starts[k], Seen(slots, when, p);
    assert StartOk(g, env, slots, starts, k) && Timed(when, s, passes) && PassAt(g, slots, when, starts, s.stage);
    if s.stage >= p {
      assert s.index in Waiting(seen) && !IsReady(g, seen, s.index) by {
        assert s.index !in ReadyIn(g, seen);
      }
      var d :| d in g.steps[s.index].dependencies && !PrerequisiteIs(g, seen, d, true);
      var v := g.tokenToIndex[d];
      assert PrerequisiteIs(g, slots, d, true);
      assert v !in SettledBefore(when, p);
      var j :| 0 <= j < |starts[..k]| && starts[..k][j].index == v;
      assert starts[j].index == v && Timed(when, starts[j], passes);
      NothingStartsAfter(g, env, slots, starts, when, passes, aborted, p, j);
      assert false;
    }
  }

  /** No member of a cycle is ever started. */
  lemma {:induction false} MemberNeverStarts(g: Graph, env: Environment, slots: Slots, starts: seq<Start>, pending: set<nat>, cycle: seq<nat>, k: nat)
    requires StartsOk(g, env, slots, starts) && g.IsCycle(pending, cycle) && k < |starts|
    ensures starts[k].index !in cycle
    decreases k
  {
    hide StartOk, Graph.Depends;
    if starts[k].index in cycle {
      var i :| 0 <= i < |cycle| && cycle[i] == starts[k].index;
      DirectPrerequisite(g, env, slots, starts, k, cycle[Next(cycle, i)]);
      var j :| 0 <= j < k && starts[j].index == cycle[Next(cycle, i)];
      MemberNeverStarts(g, env, slots, starts, pending, cycle, j);
      assert false;
    }
  }

  function Next(cycle: seq<nat>, i: nat): (n: nat)
    requires i < |cycle|
    ensures n < |cycle|
  {
    if i == |cycle| - 1 then 0 else i + 1
  }

  /** A cycle that hangs on nothing else: every prerequisite of a member is the next member or
      a step that is available. */
  ghost predicate Alone(g: Graph, runs: seq<EnricherRun>, cycle: seq<nat>) {
    forall i: nat, v: nat :: i < |cycle| && g.Depends(cycle[i], v) ==>
      v == cycle[Next(cycle, i)] || (v < |runs| && RunIsAvailable(runs[v]))
  }

  /** What the labelling theorem assumes: a finished, uncancelled plan and a cycle that hangs
      on nothing else. */
  ghost predicate AloneIn(g: Graph, env: Environment, runs: seq<EnricherRun>, starts: seq<Start>, when: Times, passes: nat,
                          pending: set<nat>, cycle: seq<nat>)
  {
    && FinishedPlan(g, env, runs, starts, false) && Timeline(g, Settled(runs), when, starts, passes, false)
    && g.IsCycle(pending, cycle) && Alone(g, runs, cycle)
    && (forall i :: 0 <= i < |cycle| ==> cycle[i] < |runs| && PreflightOk(g, cycle[i]))
  }

  /** The member settled first is settled by a pass that extracts a cycle. */
  lemma FirstIsExtracted(g: Graph, env: Environment, runs: seq<EnricherRun>, starts: seq<Start>, when: Times, passes: nat,
                         pending: set<nat>, cycle: seq<nat>, m: nat) returns (p: nat, found: seq<nat>)
    requires AloneIn(g, env, runs, starts, when, passes, pending, cycle) && m < |cycle|
    requires forall i :: 0 <= i < |cycle| ==> cycle[i] in when && cycle[m] in when && when[cycle[m]] <= when[cycle[i]]
    ensures p < passes && when[cycle[m]] == p + 1 && ReadyIn(g, Seen(Settled(runs), when, p)) == {}
    ensures g.IsCycle(Waiting(Seen(Settled(runs), when, p)), found) && Batch(when, p) == Elements(found)
    ensures SkippedIn(Settled(runs), starts, Batch(when, p), p, DependencyCycle)
  {
    hide IsFrameworkRun, RunContract, SlotOk, StartOk, PassAt, Graph.IsCycle, Alone, PreflightOk, BlockedIn, Seen, ReadyIn;
    var slots, x := Settled(runs), cycle[m];
    assert HasSettled(slots, x) && PreflightOk(g, x) && when[x] > 0;
    p := when[x] - 1;
    assert !StartedIn(starts, x, p) by {
      if k :| 0 <= k < |starts| && starts[k].index == x && starts[k].stage == p {
        MemberNeverStarts(g, env, slots, starts, pending, cycle, k);
      }
    }
    NotBlocked(g, env, runs, starts, when, passes, pending, cycle, m, p);
    found := Extraction(g, slots, when, starts, p, x);
  }

  /** A pass that settles a step which it neither started nor found blocked extracts a cycle. */
  lemma Extraction(g: Graph, slots: Slots, when: Times, starts: seq<Start>, p: nat, x: nat) returns (found: seq<nat>)
    requires PassAt(g, slots, when, starts, p) && x in when && when[x] == p + 1
    requires !StartedIn(starts, x, p) && !IsBlocked(g, Seen(slots, when, p), x)
    ensures ReadyIn(g, Seen(slots, when, p)) == {}
    ensures g.IsCycle(Waiting(Seen(slots, when, p)), found) && Batch(when, p) == Elements(found)
    ensures SkippedIn(slots, starts, Batch(when, p), p, DependencyCycle)
  {
    hide IsReady, IsBlocked, Graph.IsCycle, IsFrameworkRun;
    var seen := Seen(slots, when, p);
    assert x in Batch(when, p) && x !in BlockedIn(g, seen);
    found :| g.IsCycle(Waiting(seen), found) && Batch(when, p) == Elements(found);
  }

  lemma NotBlocked(g: Graph, env: Environment, runs: seq<EnricherRun>, starts: seq<Start>, when: Times, passes: nat,
                   pending: set<nat>, cycle: seq<nat>, m: nat, p: nat)
    requires AloneIn(g, env, runs, starts, when, passes, pending, cycle) && m < |cycle|
    requires forall i :: 0 <= i < |cycle| ==> cycle[i] in when && p < when[cycle[i]]
    ensures !IsBlocked(g, Seen(Settled(runs), when, p), cycle[m])
  {
    hide IsFrameworkRun, RunContract, SlotOk, StartOk, PassAt, FinishedPlan;
    var seen := Seen(Settled(runs), when, p);
    forall d | d in g.steps[cycle[m]].dependencies ensures !PrerequisiteIs(g, seen, d, false) {
      if d in g.tokenToIndex && g.tokenToIndex[d] < |runs| {
        assert g.Depends(cycle[m], g.tokenToIndex[d]);
        assert cycle[Next(cycle, m)] !in SettledBefore(when, p);
      }
    }
  }

  /** The extracted cycle follows the lonely one: it has no other way to go. */
  lemma Follows(g: Graph, env: Environment, runs: seq<EnricherRun>, starts: seq<Start>, when: Times, passes: nat,
                pending: set<nat>, cycle: seq<nat>, p: nat, found: seq<nat>, i: nat)
    requires AloneIn(g, env, runs, starts, when, passes, pending, cycle) && i < |cycle| && cycle[i] in found
    requires p < passes && ReadyIn(g, Seen(Settled(runs), when, p)) == {}
    requires g.IsCycle(Waiting(Seen(Settled(runs), when, p)), found)
    ensures cycle[Next(cycle, i)] in found
  {
    hide IsFrameworkRun, RunContract, SlotOk, StartOk, PassAt, Graph.Depends;
    var slots := Settled(runs);
    var j :| 0 <= j < |found| && found[j] == cycle[i];
    var y := found[Next(found, j)];
    assert g.Depends(cycle[i], y) && y in Waiting(Seen(slots, when, p));
    if y != cycle[Next(cycle, i)] {
      AvailableWasStarted(g, env.registry, slots, {}, Indexes(starts), false, y);
      var k :| 0 <= k < |starts| && starts[k].index == y;
      assert Timed(when, starts[k], passes);
      NothingStartsAfter(g, env, slots, starts, when, passes, false, p, k);
      assert false;
    }
  }

  lemma {:induction false} AllFollow(g: Graph, env: Environment, runs: seq<EnricherRun>, starts: seq<Start>, when: Times, passes: nat,
                                     pending: set<nat>, cycle: seq<nat>, p: nat, found: seq<nat>, m: nat, i: nat, left: nat)
    requires AloneIn(g, env, runs, starts, when, passes, pending, cycle) && m < |cycle| && i < |cycle| && cycle[m] in found
    requires p < passes && ReadyIn(g, Seen(Settled(runs), when, p)) == {}
    requires g.IsCycle(Waiting(Seen(Settled(runs), when, p)), found)
    requires left == if m <= i then i - m else i + |cycle| - m
    ensures cycle[i] in found
    decreases left
  {
    hide AloneIn, ReadyIn, Graph.IsCycle, Seen;
    if left > 0 {
      Follows(g, env, runs, starts, when, passes, pending, cycle, p, found, m);
      AllFollow(g, env, runs, starts, when, passes, pending, cycle, p, found, Next(cycle, m), i, left - 1);
    }
  }

  lemma {:induction false} Earliest(when: Times, cycle: seq<nat>, n: nat) returns (m: nat)
    requires 0 < n <= |cycle| && forall i :: 0 <= i < |cycle| ==> cycle[i] in when
    ensures m < n && forall i :: 0 <= i < n ==> when[cycle[m]] <= when[cycle[i]]
  {
    m := 0;
    if n > 1 {
      m := Earliest(when, cycle, n - 1);
      if when[cycle[n - 1]] < when[cycle[m]] {
        m := n - 1;
      }
    }
  }

  /** In an uncancelled plan, every member of a cycle that hangs on nothing else is labelled
      `dependency-cycle`. */
  lemma LonelyCycleIsLabelled(g: Graph, env: Environment, runs: seq<EnricherRun>, starts: seq<Start>, when: Times, passes: nat,
                              pending: set<nat>, cycle: seq<nat>, i: nat)
    requires AloneIn(g, env, runs, starts, when, passes, pending, cycle) && i < |cycle|
    ensures LabelledAs(Settled(runs), cycle[i], DependencyCycle)
  {
    hide IsFrameworkRun, FinishedPlan, PassAt, Alone, ReadyIn, Seen;
    assert forall k :: 0 <= k < |cycle| ==> HasSettled(Settled(runs), cycle[k]);
    var m := Earliest(when, cycle, |cycle|);
    var p, found := FirstIsExtracted(g, env, runs, starts, when, passes, pending, cycle, m);
    assert cycle[m] in Batch(when, p);
    AllFollow(g, env, runs, starts, when, passes, pending, cycle, p, found, m, i, if m <= i then i - m else i + |cycle| - m);
    assert cycle[i] in Batch(when, p);
  }

  /** A condition on the plan alone: each member's only prerequisite is the next one. */
  lemma PlainCycleIsLabelled(g: Graph, env: Environment, runs: seq<EnricherRun>, starts: seq<Start>, when: Times, passes: nat,
                             pending: set<nat>, cycle: seq<nat>, i: nat)
    requires FinishedPlan(g, env, runs, starts, false) && Timeline(g, Settled(runs), when, starts, passes, false)
    requires g.IsCycle(pending, cycle) && i < |cycle|
    requires forall k: nat, v: nat :: k < |cycle| && g.Depends(cycle[k], v) ==> v == cycle[Next(cycle, k)]
    requires forall k :: 0 <= k < |cycle| ==> cycle[k] < |runs| && PreflightOk(g, cycle[k])
    ensures LabelledAs(Settled(runs), cycle[i], DependencyCycle)
  {
    hide FinishedPlan, Timeline, PreflightOk, Graph.IsCycle, Graph.Depends;
    LonelyCycleIsLabelled(g, env, runs, starts, when, passes, pending, cycle, i);
  }

  // ---------- overlapping cycles ----------

  function Source(id: string, prerequisites: seq<RawDependency>): Enricher {
    Enricher(id, Resolution, Listed(prerequisites), Undefined, Undefined, NoResolver)
  }

  /** Two cycles that share a step: `a` and `b` need each other, and so do `b` and `c`. */
  function Overlapping(): seq<Enricher> {
    [Source("a", [Text("resolution:b")]),
     Source("b", [Text("resolution:a"), Text("resolution:c")]),
     Source("c", [Text("resolution:b")])]
  }

  lemma LooksUp(g: Graph, i: nat)
    requires WellIndexed(g) && UniqueToken(g.steps, i)
    ensures g.steps[i].token in g.tokenToIndex && g.tokenToIndex[g.steps[i].token] == i
  {
  }

  lemma Spelled(plan: seq<Enricher>)
    requires plan == Overlapping()
    ensures |plan| == 3 && CheckToken(plan[0]) == "resolution:a" && CheckToken(plan[1]) == "resolution:b" && CheckToken(plan[2]) == "resolution:c"
  {
  }

  lemma OverlappingTokens(g: Graph)
    requires PlanGraph(g, Overlapping())
    ensures |g.steps| == 3 && g.steps[0].token == "resolution:a" && g.steps[1].token == "resolution:b" && g.steps[2].token == "resolution:c"
    ensures forall i: nat :: i < 3 ==> UniqueToken(g.steps, i) && g.steps[i].token in g.tokenToIndex && g.tokenToIndex[g.steps[i].token] == i
  {
    hide Overlapping, WellIndexed, DependencyTokens, DependencyShapeValid, HasGap, CheckToken;
    Spelled(Overlapping());
    var a, b, c := g.steps[0].token, g.steps[1].token, g.steps[2].token;
    assert a[11] == 'a' && b[11] == 'b' && c[11] == 'c';
    forall i: nat | i < 3 ensures UniqueToken(g.steps, i) && g.steps[i].token in g.tokenToIndex && g.tokenToIndex[g.steps[i].token] == i {
      LooksUp(g, i);
    }
  }

  lemma OverlappingEdges(g: Graph)
    requires PlanGraph(g, Overlapping())
    ensures |g.steps| == 3 && forall i: nat :: i < 3 ==> PreflightOk(g, i)
    ensures forall u: nat, v: nat :: g.Depends(u, v) <==> (v == 1 && (u == 0 || u == 2)) || (u == 1 && (v == 0 || v == 2))
  {
    hide Overlapping, PlanGraph, UniqueToken;
    OverlappingTokens(g);
    OverlappingPrerequisites(g);
    EdgesOf(g, 0);
    EdgesOf(g, 1);
    EdgesOf(g, 2);
  }

  lemma EdgesOf(g: Graph, u: nat)
    requires |g.steps| == 3 && u < 3
    requires g.steps[0].token == "resolution:a" && g.steps[1].token == "resolution:b" && g.steps[2].token == "resolution:c"
    requires forall i: nat :: i < 3 ==> g.steps[i].token in g.tokenToIndex && g.tokenToIndex[g.steps[i].token] == i
    requires forall d :: d in g.steps[u].dependencies <==>
      if u == 1 then d == "resolution:a" || d == "resolution:c" else d == "resolution:b"
    ensures forall d :: d in g.steps[u].dependencies ==> d in g.tokenToIndex
    ensures forall v: nat :: g.Depends(u, v) <==> if u == 1 then v == 0 || v == 2 else v == 1
  {
    if u == 1 {
      assert g.steps[0].token in g.steps[1].dependencies && g.steps[2].token in g.steps[1].dependencies;
    } else {
      assert g.steps[1].token in g.steps[u].dependencies;
    }
  }

  lemma OverlappingPrerequisites(g: Graph)
    requires PlanGraph(g, Overlapping())
    ensures |g.steps| == 3 && forall i: nat :: i < 3 ==> g.steps[i].dependencyShapeValid && !g.steps[i].hasGap
    ensures forall d :: d in g.steps[0].dependencies <==> d == "resolution:b"
    ensures forall d :: d in g.steps[1].dependencies <==> d == "resolution:a" || d == "resolution:c"
    ensures forall d :: d in g.steps[2].dependencies <==> d == "resolution:b"
  {
    hide DependencyTokens, DependencyShapeValid, HasGap, CheckToken, WellIndexed;
    assert g.steps[0] == Planned(Overlapping()[0], 0) && g.steps[1] == Planned(Overlapping()[1], 1) && g.steps[2] == Planned(Overlapping()[2], 2);
    PrerequisitesOf([Text("resolution:b")], ["resolution:b"]);
    PrerequisitesOf([Text("resolution:a"), Text("resolution:c")], ["resolution:a", "resolution:c"]);
  }

  lemma PrerequisitesOf(items: seq<RawDependency>, texts: seq<string>)
    requires |items| == |texts| && forall k :: 0 <= k < |items| ==> items[k] == Text(texts[k])
    requires forall k :: 0 <= k < |texts| ==> texts[k] != "" && texts[k][0] == 'r'
    ensures DependencyShapeValid(Listed(items)) && !HasGap(Listed(items))
    ensures forall d :: d in DependencyTokens(Listed(items)) <==> d in texts
  {
    forall k | 0 <= k < |items| ensures items[k].Text? && !IsBlank(items[k].text) {
      assert !IsWhite(items[k].text[0]);
    }
    assert Gap !in items;
  }

  /** In a cycle of this plan the shared step is one of two: its neighbours cannot both follow it. */
  lemma CyclesOfTwo(g: Graph, pending: set<nat>, cycle: seq<nat>)
    requires g.IsCycle(pending, cycle)
    requires forall u: nat, v: nat :: g.Depends(u, v) <==> (v == 1 && (u == 0 || u == 2)) || (u == 1 && (v == 0 || v == 2))
    ensures 1 in cycle && (0 !in cycle || 2 !in cycle)
  {
    assert g.Depends(cycle[0], cycle[Next(cycle, 0)]);
    forall i: nat, j: nat | i < |cycle| && j < |cycle| && cycle[i] != 1 && cycle[j] != 1 ensures i == j {
      assert g.Depends(cycle[i], cycle[Next(cycle, i)]) && g.Depends(cycle[j], cycle[Next(cycle, j)]);
      assert Next(cycle, i) == Next(cycle, j);
    }
  }

  /** Only one of the two cycles is labelled: the step of the other that is left over becomes
      `prerequisite-unavailable`, although it lies on a cycle. */
  lemma OverlapIsHalfLabelled(g: Graph, env: Environment, runs: seq<EnricherRun>, starts: seq<Start>, when: Times, passes: nat)
    returns (x: nat)
    requires PlanGraph(g, Overlapping()) && FinishedPlan(g, env, runs, starts, false)
    requires Timeline(g, Settled(runs), when, starts, passes, false)
    ensures x < |runs| && OnCycle(g, x) && LabelledAs(Settled(runs), x, PrerequisiteUnavailable)
  {
    hide PlanGraph, FinishedPlan, IsFrameworkRun, IsReady, IsBlocked, PreflightOk;
    OverlappingEdges(g);
    var slots := Settled(runs);
    var found := FirstExtraction(g, env, runs, starts, when, passes);
    CyclesOfTwo(g, Waiting(Seen(slots, when, 0)), found);
    x := if 0 in found then 2 else 0;
    assert g.IsCycle({x, 1}, [x, 1]);
    LeftOver(g, slots, starts, when, passes, x);
  }

  /** Everything waits for something at first, so the first pass extracts a cycle. */
  lemma FirstExtraction(g: Graph, env: Environment, runs: seq<EnricherRun>, starts: seq<Start>, when: Times, passes: nat)
    returns (found: seq<nat>)
    requires |g.steps| == 3 && FinishedPlan(g, env, runs, starts, false) && Timeline(g, Settled(runs), when, starts, passes, false)
    requires forall i: nat :: i < 3 ==> PreflightOk(g, i)
    requires forall u: nat, v: nat :: g.Depends(u, v) <==> (v == 1 && (u == 0 || u == 2)) || (u == 1 && (v == 0 || v == 2))
    ensures g.IsCycle(Waiting(Seen(Settled(runs), when, 0)), found) && Batch(when, 0) == Elements(found)
    ensures SkippedIn(Settled(runs), starts, Batch(when, 0), 0, DependencyCycle)
  {
    hide IsFrameworkRun, RunContract, SlotOk, StartOk, Accumulated, Graph.IsCycle;
    var slots := Settled(runs);
    var seen := Seen(slots, when, 0);
    assert HasSettled(slots, 0) && passes > 0;
    assert PassAt(g, slots, when, starts, 0);
    assert SettledBefore(when, 0) == {};
    forall i: nat | i < 3 ensures !IsReady(g, seen, i) && !IsBlocked(g, seen, i) {
      assert g.Depends(i, if i == 1 then 0 else 1);
    }
    found :| g.IsCycle(Waiting(seen), found) && Batch(when, 0) == Elements(found);
  }

  lemma LeftOver(g: Graph, slots: Slots, starts: seq<Start>, when: Times, passes: nat, x: nat)
    requires |g.steps| == 3 && Timeline(g, slots, when, starts, passes, false)
    requires 1 in Batch(when, 0) && x in when && x !in Batch(when, 0) && g.Depends(x, 1) && PreflightOk(g, x)
    requires LabelledAs(slots, 1, DependencyCycle)
    ensures LabelledAs(slots, x, PrerequisiteUnavailable)
  {
    hide Graph.IsCycle, PreflightOk, Accumulated;
    var p := when[x] - 1;
    var seen := Seen(slots, when, p);
    assert PassAt(g, slots, when, starts, p) && x in Batch(when, p) && x in Waiting(seen);
    assert SettledAs(seen, 1, false) by {
      assert !IsComplete(slots[1].value.report.outcomes[0].value.status);
    }
    var d :| d in g.steps[x].dependencies && d in g.tokenToIndex && g.tokenToIndex[d] == 1;
    assert PrerequisiteIs(g, seen, d, false) && !PrerequisiteIs(g, seen, d, true);
    assert x in BlockedIn(g, seen) && x !in ReadyIn(g, seen);
  }
}
