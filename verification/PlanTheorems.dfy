/** What the plan loop's invariants mean for a caller: cycles never run, plan order and
    stage grouping do not matter, and a started step has seen all it depends on. */
module PlanTheorems {
  import opened Wrappers
  import opened EnrichmentSchema
  import opened Normalization
  import opened SourceRunner
  import opened CycleFinder
  import opened EnrichmentPlan
  import opened PlanTimeline
  import opened PlanExecution

  /** A chain of prerequisites. */
  ghost predicate IsWalk(g: Graph, walk: seq<nat>) {
    forall i :: 0 <= i < |walk| - 1 ==> g.Depends(walk[i], walk[i + 1])
  }

  /** Nothing on or downstream of a cycle ever runs, cancelled or not: what was started lies in
      every closed set, and one of those leaves out each step from which a chain of
      prerequisites revisits a step. */
  lemma CyclesNeverRun(g: Graph, available: set<nat>, ran: set<nat>, walk: seq<nat>, a: nat, b: nat)
    requires forall other: set<nat> :: Closed(g, available, other) ==> ran <= other
    requires IsWalk(g, walk) && a < b < |walk| && walk[a] == walk[b]
    ensures walk[0] !in ran
  {
    var stuck := set k | 0 <= k <= b :: walk[k];
    var rest := set i: nat | i < |g.steps| && i !in stuck;
    forall i | i in stuck ensures !Enabled(g, available, rest, i) {
      var k :| 0 <= k <= b && walk[k] == i;
      var from := if k < b then k else a;
      assert g.Depends(walk[from], walk[from + 1]) && walk[from + 1] in stuck;
    }
    assert Closed(g, available, rest);
    assert walk[0] in stuck;
  }

  /** `there` moves positions of `q` to positions of `p`, and `back` undoes it. */
  ghost predicate Rearranges(p: seq<Enricher>, q: seq<Enricher>, there: seq<nat>, back: seq<nat>) {
    && |p| == |q| == |there| == |back|
    && (forall i :: 0 <= i < |q| ==> there[i] < |p| && q[i] == p[there[i]] && back[there[i]] == i)
    && (forall j :: 0 <= j < |p| ==> back[j] < |q| && there[back[j]] == j)
  }

  ghost predicate PlanGraph(g: Graph, plan: seq<Enricher>) {
    g.steps == Steps(plan) && WellIndexed(g)
  }

  lemma UniqueMoves(p: seq<Enricher>, gp: Graph, q: seq<Enricher>, gq: Graph, there: seq<nat>, back: seq<nat>, i: nat)
    requires PlanGraph(gp, p) && PlanGraph(gq, q) && Rearranges(p, q, there, back)
    requires i < |q| && UniqueToken(gq.steps, i)
    ensures UniqueToken(gp.steps, there[i])
    ensures gq.steps[i].token in gp.tokenToIndex && gp.tokenToIndex[gq.steps[i].token] == there[i]
  {
    var at := there[i];
    assert gq.steps[i].token == gp.steps[at].token;
    forall j | 0 <= j < |gp.steps| && gp.steps[j].token == gp.steps[at].token ensures j == at {
      assert gq.steps[back[j]].token == gp.steps[there[back[j]]].token;
      assert back[j] == i;
    }
  }

  lemma EnabledMoves(p: seq<Enricher>, gp: Graph, ap: set<nat>, sp: set<nat>,
                     q: seq<Enricher>, gq: Graph, aq: set<nat>, sq: set<nat>, there: seq<nat>, back: seq<nat>, i: nat)
    requires PlanGraph(gp, p) && PlanGraph(gq, q) && Rearranges(p, q, there, back)
    requires forall k :: 0 <= k < |q| && k in aq ==> there[k] in ap
    requires forall k :: 0 <= k < |q| && k in sq ==> there[k] in sp
    requires Enabled(gq, aq, sq, i)
    ensures Enabled(gp, ap, sp, there[i])
  {
    UniqueMoves(p, gp, q, gq, there, back, i);
    assert gp.steps[there[i]].dependencies == gq.steps[i].dependencies;
    forall d | d in gq.steps[i].dependencies
      ensures d in gp.tokenToIndex && gp.tokenToIndex[d] in sp && gp.tokenToIndex[d] in ap
    {
      UniqueMoves(p, gp, q, gq, there, back, gq.tokenToIndex[d]);
    }
  }

  lemma RearrangedBelow(p: seq<Enricher>, gp: Graph, ap: set<nat>, sp: set<nat>,
                        q: seq<Enricher>, gq: Graph, aq: set<nat>, sq: set<nat>, there: seq<nat>, back: seq<nat>)
    requires PlanGraph(gp, p) && PlanGraph(gq, q) && Rearranges(p, q, there, back)
    requires forall k :: 0 <= k < |q| && k in aq ==> there[k] in ap
    requires IsLeastFixedPoint(gp, ap, sp) && IsLeastFixedPoint(gq, aq, sq)
    ensures forall i :: 0 <= i < |q| && i in sq ==> there[i] in sp
  {
    var other: set<nat> := set i | 0 <= i < |q| && there[i] in sp;
    forall i: nat | Enabled(gq, aq, other, i) ensures i in other {
      EnabledMoves(p, gp, ap, sp, q, gq, aq, other, there, back, i);
    }
    assert Closed(gq, aq, other);
  }

  /** For fixed availability, which steps run does not depend on plan order (nor, since
      the fixed point does not mention them, on stages). */
  lemma OrderIndependence(p: seq<Enricher>, gp: Graph, ap: set<nat>, sp: set<nat>,
                          q: seq<Enricher>, gq: Graph, aq: set<nat>, sq: set<nat>, there: seq<nat>, back: seq<nat>)
    requires PlanGraph(gp, p) && PlanGraph(gq, q) && Rearranges(p, q, there, back)
    requires forall k :: 0 <= k < |q| ==> (k in aq <==> there[k] in ap)
    requires IsLeastFixedPoint(gp, ap, sp) && IsLeastFixedPoint(gq, aq, sq)
    ensures forall i :: 0 <= i < |q| ==> (i in sq <==> there[i] in sp)
  {
    RearrangedBelow(p, gp, ap, sp, q, gq, aq, sq, there, back);
    forall j | 0 <= j < |p| && j in ap ensures back[j] in aq {
      assert there[back[j]] == j;
    }
    assert Rearranges(q, p, back, there);
    RearrangedBelow(q, gq, aq, sq, p, gp, ap, sp, back, there);
  }

  /** Availability matters only for steps that run: the fixed point stays the same when the
      steps that never ran are counted either way. */
  lemma OnlyRanMatters(g: Graph, available: set<nat>, ran: set<nat>, good: set<nat>)
    requires IsLeastFixedPoint(g, available, ran) && available <= ran
    requires forall i :: i in ran ==> (i in available <==> i in good)
    ensures IsLeastFixedPoint(g, good, ran)
  {
    forall i: nat ensures i in ran <==> Enabled(g, good, ran, i) {
      assert Enabled(g, good, ran, i) <==> Enabled(g, available, ran, i);
    }
    forall other: set<nat> | Closed(g, good, other) ensures ran <= other {
      forall i: nat | Enabled(g, available, other, i) ensures i in other {
        assert Enabled(g, good, other, i);
      }
      assert Closed(g, available, other);
    }
  }

  /** A run of the plan: what `ExecuteEnrichmentPlan` hands back. */
  ghost predicate FinishedPlan(g: Graph, env: Environment, runs: seq<EnricherRun>, starts: seq<Start>, aborted: bool) {
    PlanOk(g, env, Settled(runs), {}, starts, aborted)
  }

  /** Every outcome is present and is a success or a no-hit. */
  ghost predicate AnsweredWell(run: EnricherRun) {
    forall i :: 0 <= i < |run.report.outcomes| ==>
      && run.report.outcomes[i].Item?
      && (run.report.outcomes[i].value.status == Success || run.report.outcomes[i].value.status == NoHit)
  }

  /** In an uncancelled plan a step is started if and only if it passes preflight and every
      prerequisite was started and answered with nothing but successes and no-hits. */
  lemma StartedExactly(plan: seq<Enricher>, g: Graph, env: Environment, runs: seq<EnricherRun>, starts: seq<Start>, i: nat)
    requires PlanGraph(g, plan) && |runs| == |plan|
    requires IsLeastFixedPoint(g, Available(runs), Indexes(starts))
    ensures i in Indexes(starts) <==>
      && i < |plan| && PreflightOk(g, i)
      && (forall v: nat :: g.Depends(i, v) ==> v in Indexes(starts) && v < |runs| && AnsweredWell(runs[v]))
  {
    hide PreflightOk, AnsweredWell, Indexes, IsLeastFixedPoint, PlanGraph, RunIsAvailable;
    forall v: nat | v < |runs| ensures v in Available(runs) <==> AnsweredWell(runs[v]) {
      AnsweredWellIs(runs[v]);
    }
    FixedAt(g, Available(runs), Indexes(starts), i);
    KnownPrerequisites(plan, g, i);
    if i < |plan| && PreflightOk(g, i) {
      forall d | d in g.steps[i].dependencies ensures d in g.tokenToIndex && g.Depends(i, g.tokenToIndex[d]) {
      }
    }
  }

  lemma AnsweredWellIs(run: EnricherRun)
    ensures RunIsAvailable(run) <==> AnsweredWell(run)
  {
    AvailableStatuses(run);
  }

  lemma FixedAt(g: Graph, available: set<nat>, ran: set<nat>, i: nat)
    requires IsLeastFixedPoint(g, available, ran)
    ensures i in ran <==> Enabled(g, available, ran, i)
  {
  }

  lemma KnownPrerequisites(plan: seq<Enricher>, g: Graph, i: nat)
    requires PlanGraph(g, plan)
    ensures |g.steps| == |plan|
    ensures PreflightOk(g, i) ==> i < |plan| && forall d :: d in g.steps[i].dependencies ==> d in g.tokenToIndex
  {
  }

  /** The world answers each enricher alike, whenever it is started. */
  ghost predicate AnswersAs(starts: seq<Start>, answer: nat -> Answers) {
    forall k :: 0 <= k < |starts| ==> starts[k].answers == answer(starts[k].index)
  }

  ghost predicate Good(e: Enricher, env: Environment, a: Answers) {
    UsableHit(e, env, a) || UntroubledCall(e, env, a)
  }

  ghost function GoodSteps(plan: seq<Enricher>, env: Environment, answer: nat -> Answers): set<nat> {
    set i | 0 <= i < |plan| && Good(plan[i], env, answer(i))
  }

  /** A started step reports what its answers determine. */
  lemma StartedReport(plan: seq<Enricher>, g: Graph, env: Environment, runs: seq<EnricherRun>, starts: seq<Start>,
                      answer: nat -> Answers, i: nat)
    requires PlanGraph(g, plan) && FinishedPlan(g, env, runs, starts, false) && AnswersAs(starts, answer) && i in Indexes(starts)
    ensures i < |runs| == |plan| && RunIsAvailable(runs[i]) == Good(plan[i], env, answer(i))
    ensures runs[i].token == CheckToken(plan[i]) && Reports(plan[i], env, answer(i), runs[i])
  {
    hide UsableHit, UntroubledCall, Protocol, Answered, Reports;
    var k :| 0 <= k < |starts| && starts[k].index == i;
    assert StartOk(g, env, Settled(runs), starts, k);
  }

  /** With the world's answers fixed, what ran in an uncancelled plan is the least fixed point
      over those answers. */
  lemma RanByAnswers(plan: seq<Enricher>, g: Graph, env: Environment, runs: seq<EnricherRun>, starts: seq<Start>, answer: nat -> Answers)
    requires PlanGraph(g, plan) && FinishedPlan(g, env, runs, starts, false) && AnswersAs(starts, answer)
    requires IsLeastFixedPoint(g, Available(runs), Indexes(starts))
    ensures IsLeastFixedPoint(g, GoodSteps(plan, env, answer), Indexes(starts))
  {
    hide Good, Reports, StartsOk, IsLeastFixedPoint;
    forall i | i in Available(runs) ensures i in Indexes(starts) {
      AvailableWasStarted(g, env.registry, Settled(runs), {}, Indexes(starts), false, i);
    }
    forall i | i in Indexes(starts) ensures i in Available(runs) <==> i in GoodSteps(plan, env, answer) {
      StartedReport(plan, g, env, runs, starts, answer, i);
    }
    OnlyRanMatters(g, Available(runs), Indexes(starts), GoodSteps(plan, env, answer));
  }

  /** Two uncancelled executions of the same enrichers in any two orders, with the same
      answers for each enricher: the same ones run, and each that runs reports the same. */
  lemma OrderNeverMatters(p: seq<Enricher>, gp: Graph, runsP: seq<EnricherRun>, startsP: seq<Start>,
                          q: seq<Enricher>, gq: Graph, runsQ: seq<EnricherRun>, startsQ: seq<Start>,
                          env: Environment, answer: nat -> Answers, there: seq<nat>, back: seq<nat>)
    requires PlanGraph(gp, p) && PlanGraph(gq, q) && Rearranges(p, q, there, back)
    requires FinishedPlan(gp, env, runsP, startsP, false) && FinishedPlan(gq, env, runsQ, startsQ, false)
    requires IsLeastFixedPoint(gp, Available(runsP), Indexes(startsP)) && IsLeastFixedPoint(gq, Available(runsQ), Indexes(startsQ))
    requires AnswersAs(startsP, answer)
    requires forall k :: 0 <= k < |startsQ| ==> startsQ[k].index < |there| && startsQ[k].answers == answer(there[startsQ[k].index])
    ensures forall i :: 0 <= i < |q| ==> (i in Indexes(startsQ) <==> there[i] in Indexes(startsP))
    ensures forall i :: i in Indexes(startsQ) ==>
      i < |runsQ| && i < |there| && there[i] < |runsP| && runsQ[i] == runsP[there[i]]
  {
    hide Good, Reports, FinishedPlan, IsLeastFixedPoint, PlanGraph;
    var answerQ := (i: nat) => if i < |there| then answer(there[i]) else answer(i);
    RanByAnswers(p, gp, env, runsP, startsP, answer);
    RanByAnswers(q, gq, env, runsQ, startsQ, answerQ);
    var goodP, goodQ := GoodSteps(p, env, answer), GoodSteps(q, env, answerQ);
    OrderIndependence(p, gp, goodP, Indexes(startsP), q, gq, goodQ, Indexes(startsQ), there, back);
    forall i | i in Indexes(startsQ)
      ensures i < |runsQ| && i < |there| && there[i] < |runsP| && runsQ[i] == runsP[there[i]]
    {
      StartedReport(q, gq, env, runsQ, startsQ, answerQ, i);
      StartedReport(p, gp, env, runsP, startsP, answer, there[i]);
      SameReport(q[i], env, answerQ(i), runsQ[i], runsP[there[i]]);
    }
  }

  lemma SameReport(e: Enricher, env: Environment, a: Answers, r: EnricherRun, s: EnricherRun)
    requires Reports(e, env, a, r) && Reports(e, env, a, s) && r.token == s.token
    ensures r == s
  {
  }

  /** When a step starts, all its transitive prerequisites are settled and available,
      each of them having been started before it. */
  lemma {:induction false} TransitivePrerequisites(g: Graph, env: Environment, runs: seq<EnricherRun>, starts: seq<Start>,
                                                   aborted: bool, k: nat, walk: seq<nat>, m: nat)
    requires FinishedPlan(g, env, runs, starts, aborted) && k < |starts|
    requires IsWalk(g, walk) && 0 < m < |walk| && walk[0] == starts[k].index
    ensures walk[m] in starts[k].settled && walk[m] < |runs| && RunIsAvailable(runs[walk[m]])
    ensures exists j :: 0 <= j < k && starts[j].index == walk[m]
    decreases m
  {
    var slots := Settled(runs);
    if m == 1 {
      DirectPrerequisite(g, env, slots, starts, k, walk[1]);
    } else {
      TransitivePrerequisites(g, env, runs, starts, aborted, k, walk, m - 1);
      var j :| 0 <= j < k && starts[j].index == walk[m - 1];
      DirectPrerequisite(g, env, slots, starts, j, walk[m]);
    }
  }

  lemma DirectPrerequisite(g: Graph, env: Environment, slots: Slots, starts: seq<Start>, k: nat, v: nat)
    requires StartsOk(g, env, slots, starts) && k < |starts| && g.Depends(starts[k].index, v)
    ensures v in starts[k].settled && SettledAs(slots, v, true)
    ensures exists j :: 0 <= j < k && starts[j].index == v
  {
    assert StartOk(g, env, slots, starts, k);
    var d :| d in g.steps[starts[k].index].dependencies && d in g.tokenToIndex && g.tokenToIndex[d] == v;
    assert PrerequisiteIs(g, slots, d, true);
    var j :| 0 <= j < |starts[..k]| && starts[..k][j].index == v;
    assert starts[j].index == v;
  }

  ghost predicate Holds(slots: Slots, i: nat, o: Element<Outcome>) {
    HasSettled(slots, i) && o in slots[i].value.report.outcomes
  }

  /** The snapshot holds exactly the outcomes of the slots settled before the stage. */
  lemma {:induction false} SnapshotMembers(slots: Slots, o: Element<Outcome>)
    ensures o in Accumulated(slots) <==> exists i: nat :: Holds(slots, i, o)
  {
    if slots != [] {
      var rest, last := slots[..|slots| - 1], slots[|slots| - 1];
      SnapshotMembers(rest, o);
      if i: nat :| Holds(rest, i, o) {
        assert Holds(slots, i, o);
      }
      if last.Some? && o in last.value.report.outcomes {
        assert Holds(slots, |slots| - 1, o);
      }
      if i: nat :| Holds(slots, i, o) {
        assert i < |rest| ==> Holds(rest, i, o);
      }
    }
  }

  /** The snapshot of a started step is exactly the plan-ordered concatenation of the reports
      settled before its pass: preflight rejections and whatever earlier passes started or
      skipped, all prerequisites among them, and nothing of its own pass or a later one. */
  lemma SnapshotOfStart(g: Graph, env: Environment, runs: seq<EnricherRun>, starts: seq<Start>, when: Times, passes: nat,
                        aborted: bool, k: nat, o: Element<Outcome>)
    requires FinishedPlan(g, env, runs, starts, aborted) && Timeline(g, Settled(runs), when, starts, passes, aborted)
    requires k < |starts|
    ensures starts[k].previous == Accumulated(Masked(Settled(runs), SettledBefore(when, starts[k].stage)))
    ensures forall i: nat :: i < |runs| ==> i in when && (i in SettledBefore(when, starts[k].stage) <==> when[i] <= starts[k].stage)
    ensures o in starts[k].previous <==>
      exists i: nat :: i < |runs| && i in SettledBefore(when, starts[k].stage) && o in runs[i].report.outcomes
    ensures forall i: nat :: i < |runs| && !PreflightOk(g, i) ==> i in SettledBefore(when, starts[k].stage)
    ensures forall j :: 0 <= j < |starts| ==>
      (starts[j].index in SettledBefore(when, starts[k].stage) <==> starts[j].stage < starts[k].stage)
    ensures forall v :: g.Depends(starts[k].index, v) ==> v in SettledBefore(when, starts[k].stage)
  {
    hide RunContract, IsFrameworkRun, PassAt, PreflightOk, SlotOk, PrerequisiteIs;
    var slots, settled := Settled(runs), SettledBefore(when, starts[k].stage);
    assert StartOk(g, env, slots, starts, k) && Timed(when, starts[k], passes);
    assert forall i: nat :: i < |runs| ==> HasSettled(slots, i);
    var masked := Masked(slots, settled);
    SnapshotMembers(masked, o);
    if i: nat :| Holds(masked, i, o) {
      assert masked[i] == Some(runs[i]) && i in settled;
    }
    if i: nat :| i < |runs| && i in settled && o in runs[i].report.outcomes {
      assert masked[i] == Some(runs[i]) && Holds(masked, i, o);
    }
    forall j | 0 <= j < |starts| ensures starts[j].index in settled <==> starts[j].stage < starts[k].stage {
      assert Timed(when, starts[j], passes);
    }
    forall v | g.Depends(starts[k].index, v) ensures v in settled {
      DirectPrerequisite(g, env, slots, starts, k, v);
    }
  }

  /** A step starts in the first pass at whose beginning all its prerequisites are available. */
  lemma StartsAsSoonAsReady(g: Graph, slots: Slots, starts: seq<Start>, when: Times, passes: nat, aborted: bool, k: nat, p: nat)
    requires Timeline(g, slots, when, starts, passes, aborted) && k < |starts| && p <= starts[k].stage
    ensures IsReady(g, Masked(slots, SettledBefore(when, p)), starts[k].index) <==> p == starts[k].stage
  {
    hide IsReady, IsBlocked, PreflightOk, IsFrameworkRun, Graph.IsCycle;
    var i := starts[k].index;
    assert Timed(when, starts[k], passes) && PassAt(g, slots, when, starts, p);
    var before := Masked(slots, SettledBefore(when, p));
    assert i in Waiting(before);
    if p == starts[k].stage {
      assert i in Batch(when, p) && StartedIn(starts, i, p);
    } else {
      assert i !in Batch(when, p);
      assert IsReady(g, before, i) ==> i in ReadyIn(g, before);
    }
  }
}
