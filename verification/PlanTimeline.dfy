/** When each slot of a plan was settled, and what every pass of the loop did: the whole
    schedule, told from the finished slots (executeEnrichmentPlan,
    packages/core/src/inspect-async.ts). */
module PlanTimeline {
  import opened Wrappers
  import opened EnrichmentSchema
  import opened Normalization
  import opened SourceRunner
  import opened CycleFinder
  import opened EnrichmentPlan

  /** Zero for slots that preflight settled, `p + 1` for those settled by pass `p`. */
  type Times = map<nat, nat>

  /** The slots settled before pass `p` began. */
  ghost function SettledBefore(when: Times, p: nat): set<nat> {
    set i | i in when && when[i] <= p
  }

  /** The slots that pass `p` settled. */
  ghost function Batch(when: Times, p: nat): set<nat> {
    set i | i in when && when[i] == p + 1
  }

  ghost function Elements(s: seq<nat>): set<nat> {
    set i | i in s
  }

  ghost function Waiting(slots: Slots): set<nat> {
    set i: nat | i < |slots| && slots[i].None?
  }

  ghost function SettledIn(slots: Slots): set<nat> {
    set i: nat | i < |slots| && slots[i].Some?
  }

  ghost function ReadyIn(g: Graph, slots: Slots): set<nat> {
    set i | i in Waiting(slots) && IsReady(g, slots, i)
  }

  ghost function BlockedIn(g: Graph, slots: Slots): set<nat> {
    set i | i in Waiting(slots) && IsBlocked(g, slots, i)
  }

  ghost predicate StartedIn(starts: seq<Start>, i: nat, p: nat) {
    exists k :: 0 <= k < |starts| && starts[k].index == i && starts[k].stage == p
  }

  ghost predicate LabelledAs(slots: Slots, i: nat, code: CauseCode) {
    HasSettled(slots, i) && IsFrameworkRun(slots[i].value, code)
  }

  ghost predicate SkippedIn(slots: Slots, starts: seq<Start>, batch: set<nat>, p: nat, code: CauseCode) {
    forall i :: i in batch ==> LabelledAs(slots, i, code) && !StartedIn(starts, i, p)
  }

  /** One uncancelled pass over the slots `before`: it starts all that is ready; or, nothing
      being ready, skips all that is blocked; or, nothing being blocked either, skips the
      members of one cycle. */
  ghost predicate IsPass(g: Graph, before: Slots, batch: set<nat>, slots: Slots, starts: seq<Start>, p: nat) {
    if ReadyIn(g, before) != {} then
      batch == ReadyIn(g, before) && forall i :: i in batch ==> StartedIn(starts, i, p)
    else if BlockedIn(g, before) != {} then
      batch == BlockedIn(g, before) && SkippedIn(slots, starts, batch, p, PrerequisiteUnavailable)
    else
      && (exists cycle: seq<nat> :: g.IsCycle(Waiting(before), cycle) && batch == Elements(cycle))
      && SkippedIn(slots, starts, batch, p, DependencyCycle)
  }

  ghost predicate PassAt(g: Graph, slots: Slots, when: Times, starts: seq<Start>, p: nat) {
    IsPass(g, Masked(slots, SettledBefore(when, p)), Batch(when, p), slots, starts, p)
  }

  /** A start is timed by its pass, and its snapshot covers exactly what was settled before it. */
  ghost predicate Timed(when: Times, s: Start, passes: nat) {
    && s.stage < passes && s.index in when && when[s.index] == s.stage + 1
    && s.settled == SettledBefore(when, s.stage)
  }

  /** The schedule of the first `passes` passes, and of the cancellation that may follow them. */
  ghost predicate Timeline(g: Graph, slots: Slots, when: Times, starts: seq<Start>, passes: nat, aborted: bool) {
    && |slots| == |g.steps|
    && (forall i :: i in when <==> HasSettled(slots, i))
    && (forall i: nat :: i < |g.steps| ==> (i in when && when[i] == 0 <==> !PreflightOk(g, i)))
    && (forall i :: i in when ==> when[i] <= passes || (aborted && when[i] == passes + 1))
    && (forall k :: 0 <= k < |starts| ==> Timed(when, starts[k], passes))
    && (forall j, k :: 0 <= j < k < |starts| ==> starts[j].stage <= starts[k].stage)
    && (forall p :: 0 <= p < passes ==> PassAt(g, slots, when, starts, p))
    && (aborted ==> Batch(when, passes) != {} && forall i :: i in Batch(when, passes) ==> LabelledAs(slots, i, CallerAborted))
  }

  /** Slots settled by a batch get the current time. */
  ghost function Stamped(when: Times, batch: set<nat>, at: nat): (when': Times)
    ensures when'.Keys == when.Keys + batch
    ensures forall i :: i in when'.Keys ==> when'[i] == if i in batch then at else when[i]
  {
    map i | i in when.Keys + batch :: if i in batch then at else when[i]
  }

  /** Pass `pass` started the steps of `done`, in order, on one snapshot. */
  ghost predicate AddsStage(starts0: seq<Start>, starts: seq<Start>, done: seq<nat>, pass: nat, settled: set<nat>) {
    && |starts| == |starts0| + |done| && starts0 <= starts
    && (forall k :: |starts0| <= k < |starts| ==>
          starts[k].index == done[k - |starts0|] && starts[k].stage == pass && starts[k].settled == settled)
  }

  /** What a batch may rely on to extend a timeline. */
  ghost predicate Advances(g: Graph, slots: Slots, slots': Slots, when: Times, batch: set<nat>) {
    && Extends(slots, slots') && batch !! when.Keys
    && (forall i :: HasSettled(slots', i) <==> i in when || i in batch)
  }

  /** Earlier passes read the same after later ones. */
  lemma PassKept(g: Graph, slots: Slots, slots': Slots, when: Times, batch: set<nat>, starts: seq<Start>, starts': seq<Start>,
                 passes: nat, p: nat)
    requires Advances(g, slots, slots', when, batch) && starts <= starts' && p < passes
    requires forall i :: i in when <==> HasSettled(slots, i)
    requires forall k :: |starts| <= k < |starts'| ==> starts'[k].stage == passes
    requires PassAt(g, slots, when, starts, p)
    ensures PassAt(g, slots', Stamped(when, batch, passes + 1), starts', p)
  {
    hide ReadyIn, BlockedIn, Waiting, Graph.IsCycle, IsFrameworkRun;
    var when' := Stamped(when, batch, passes + 1);
    var settled, now := SettledBefore(when, p), Batch(when, p);
    assert SettledBefore(when', p) == settled && Batch(when', p) == now;
    MaskedExtends(slots, slots', settled);
    forall i ensures StartedIn(starts', i, p) <==> StartedIn(starts, i, p) {
      StartedKept(starts, starts', i, p, passes);
    }
  }

  lemma StartedKept(starts: seq<Start>, starts': seq<Start>, i: nat, p: nat, passes: nat)
    requires starts <= starts' && p < passes
    requires forall k :: |starts| <= k < |starts'| ==> starts'[k].stage == passes
    ensures StartedIn(starts', i, p) <==> StartedIn(starts, i, p)
  {
    if k :| 0 <= k < |starts| && starts[k].index == i && starts[k].stage == p {
      assert starts'[k] == starts[k];
    }
    if k :| 0 <= k < |starts'| && starts'[k].index == i && starts'[k].stage == p {
      assert starts'[k] == starts[k];
    }
  }

  lemma TimedKept(slots: Slots, slots': Slots, g: Graph, when: Times, batch: set<nat>, s: Start, passes: nat)
    requires Advances(g, slots, slots', when, batch) && Timed(when, s, passes)
    ensures Timed(Stamped(when, batch, passes + 1), s, passes)
  {
    var when' := Stamped(when, batch, passes + 1);
    assert SettledBefore(when', s.stage) == SettledBefore(when, s.stage);
  }

  /** One more pass. */
  lemma NextPass(g: Graph, slots: Slots, slots': Slots, when: Times, batch: set<nat>,
                 starts: seq<Start>, starts': seq<Start>, done: seq<nat>, passes: nat)
    requires Timeline(g, slots, when, starts, passes, false) && Advances(g, slots, slots', when, batch)
    requires AddsStage(starts, starts', done, passes, when.Keys) && Elements(done) <= batch
    requires IsPass(g, slots, batch, slots', starts', passes)
    ensures Timeline(g, slots', Stamped(when, batch, passes + 1), starts', passes + 1, false)
  {
    hide IsPass, PreflightOk;
    var when' := Stamped(when, batch, passes + 1);
    assert forall k :: 0 <= k < |starts| ==> starts'[k] == starts[k] && Timed(when, starts[k], passes);
    assert SettledBefore(when', passes) == when.Keys;
    forall k | 0 <= k < |starts'| ensures Timed(when', starts'[k], passes + 1) {
      if k < |starts| {
        TimedKept(slots, slots', g, when, batch, starts[k], passes);
      } else {
        assert done[k - |starts|] in Elements(done);
      }
    }
    forall p | 0 <= p < passes + 1 ensures PassAt(g, slots', when', starts', p) {
      if p < passes {
        PassKept(g, slots, slots', when, batch, starts, starts', passes, p);
      } else {
        SeenBefore(g, slots, slots', when, batch, passes);
      }
    }
  }

  /** A pass sees the slots as the one before it left them. */
  lemma SeenBefore(g: Graph, slots: Slots, slots': Slots, when: Times, batch: set<nat>, passes: nat)
    requires Advances(g, slots, slots', when, batch) && (forall i :: i in when <==> HasSettled(slots, i))
    requires forall i :: i in when ==> when[i] <= passes
    ensures var when' := Stamped(when, batch, passes + 1);
      Masked(slots', SettledBefore(when', passes)) == slots && Batch(when', passes) == batch
  {
    var when' := Stamped(when, batch, passes + 1);
    assert SettledBefore(when', passes) == when.Keys;
    MaskedExtends(slots, slots', when.Keys);
    assert Masked(slots, when.Keys) == slots;
  }

  /** Cancellation ends the timeline. */
  lemma LastPass(g: Graph, slots: Slots, slots': Slots, when: Times, batch: set<nat>, starts: seq<Start>, passes: nat)
    requires Timeline(g, slots, when, starts, passes, false) && Advances(g, slots, slots', when, batch) && batch != {}
    requires forall i :: i in batch ==> LabelledAs(slots', i, CallerAborted)
    ensures Timeline(g, slots', Stamped(when, batch, passes + 1), starts, passes, true)
  {
    hide IsPass, PreflightOk;
    var when' := Stamped(when, batch, passes + 1);
    SeenBefore(g, slots, slots', when, batch, passes);
    forall k | 0 <= k < |starts| ensures Timed(when', starts[k], passes) {
      TimedKept(slots, slots', g, when, batch, starts[k], passes);
    }
    forall p | 0 <= p < passes ensures PassAt(g, slots', when', starts, p) {
      PassKept(g, slots, slots', when, batch, starts, starts, passes, p);
    }
  }
}
