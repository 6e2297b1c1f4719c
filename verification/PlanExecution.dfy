/** The plan loop itself (executeEnrichmentPlan, packages/core/src/inspect-async.ts):
    each pass aborts, runs a stage, propagates blocked prerequisites or extracts one
    cycle, and always settles at least one pending step. */
module PlanExecution {
  import opened Wrappers
  import opened EnrichmentSchema
  import opened Normalization
  import opened SourceRunner
  import opened CycleFinder
  import opened EnrichmentPlan
  import opened PlanTimeline

  function SkippedRun(step: PlannedEnricher, env: Environment, code: CauseCode, reason: string, prerequisites: seq<string>): (run: EnricherRun)
    ensures run.token == step.token && IsFrameworkRun(run, code) && Foldable(run.report, env.registry)
    ensures run.report.outcomes[0].value.cause.value.reason == reason
    ensures run.report.outcomes[0].value.cause.value.prerequisites == prerequisites
    ensures !RunIsAvailable(run)
  {
    EnricherRun(step.token, FrameworkReport(step.enricher, env.subject, Skipped, Cause(code, false, reason, prerequisites)))
  }

  /** Prerequisites of a step with a given property, in declaration order. */
  function Unknown(g: Graph, ds: seq<string>): (r: seq<string>)
    ensures r == [] <==> forall d :: d in ds ==> d in g.tokenToIndex
    ensures forall d :: d in r <==> d in ds && d !in g.tokenToIndex
  {
    if ds == [] then [] else
      var rest := Unknown(g, ds[..|ds| - 1]);
      assert forall d :: d in ds <==> d in ds[..|ds| - 1] || d == ds[|ds| - 1];
      if ds[|ds| - 1] in g.tokenToIndex then rest else rest + [ds[|ds| - 1]]
  }

  function UnavailableOf(g: Graph, slots: Slots, ds: seq<string>): (r: seq<string>)
    ensures forall d :: d in r <==> d in ds && PrerequisiteIs(g, slots, d, false)
  {
    if ds == [] then [] else
      var rest := UnavailableOf(g, slots, ds[..|ds| - 1]);
      assert forall d :: d in ds <==> d in ds[..|ds| - 1] || d == ds[|ds| - 1];
      if PrerequisiteIs(g, slots, ds[|ds| - 1], false) then rest + [ds[|ds| - 1]] else rest
  }

  /** Why preflight refused a step: a shared token first, then a malformed list, then unknown
      names, which are listed. */
  ghost predicate RefusedFor(g: Graph, i: nat, run: EnricherRun) {
    && i < |g.steps| && IsFrameworkRun(run, InvalidPlan)
    && var cause := run.report.outcomes[0].value.cause.value;
    if !UniqueToken(g.steps, i) then cause.reason == "duplicate-check-token"
    else if !g.steps[i].dependencyShapeValid then cause.reason == "invalid-prerequisite-token"
    else cause.reason == "unknown-prerequisite" && ListsUnknown(g, i, cause.prerequisites)
  }

  ghost predicate ListsUnknown(g: Graph, i: nat, names: seq<string>)
    requires i < |g.steps|
  {
    forall d :: d in names <==> d in g.steps[i].dependencies && d !in g.tokenToIndex
  }

  ghost predicate GivesReason(g: Graph, slots: Slots, i: nat) {
    HasSettled(slots, i) && RefusedFor(g, i, slots[i].value)
  }

  /** One step of preflight: an explicit skipped outcome for a malformed step, none otherwise. */
  method Judge(g: Graph, env: Environment, counts: map<string, nat>, k: nat) returns (refusal: Option<EnricherRun>)
    requires WellIndexed(g) && CountsTokens(g.steps, |g.steps|, counts) && k < |g.steps|
    ensures refusal.None? <==> PreflightOk(g, k)
    ensures refusal.Some? ==>
      RefusedFor(g, k, refusal.value) && refusal.value.token == g.steps[k].token && Foldable(refusal.value.report, env.registry)
  {
    hide Foldable, WellIndexed, CountsTokens, UniqueToken;
    var step := g.steps[k];
    DuplicateIffCounted(g.steps, counts, k);
    if counts[step.token] > 1 {
      return Some(SkippedRun(step, env, InvalidPlan, "duplicate-check-token", []));
    }
    if !step.dependencyShapeValid {
      return Some(SkippedRun(step, env, InvalidPlan, "invalid-prerequisite-token", []));
    }
    var unknown := Unknown(g, step.dependencies);
    if unknown != [] || step.hasGap {
      return Some(SkippedRun(step, env, InvalidPlan, "unknown-prerequisite", unknown));
    }
    return None;
  }

  /** Preflight: refused steps are settled at once; the others become pending. */
  method Preflight(g: Graph, env: Environment, counts: map<string, nat>) returns (slots: Slots, pending: set<nat>)
    requires WellIndexed(g) && CountsTokens(g.steps, |g.steps|, counts)
    requires forall i :: 0 <= i < |g.steps| ==> g.steps[i].index == i
    ensures SlotsOk(g, env.registry, slots, pending, {}, false)
    ensures forall i: nat :: i < |g.steps| ==> (i in pending <==> PreflightOk(g, i))
    ensures forall i: nat :: i < |g.steps| && !PreflightOk(g, i) ==> LabelledAs(slots, i, InvalidPlan)
    ensures forall i: nat :: i < |g.steps| && !PreflightOk(g, i) ==> GivesReason(g, slots, i)
  {
    hide Foldable, WellIndexed, CountsTokens, PreflightOk, RefusedFor, NamesCulprits, IsBlocked, OnCycle, IsFrameworkRun;
    slots, pending := seq(|g.steps|, _ => None), {};
    for k := 0 to |g.steps|
      invariant |slots| == |g.steps|
      invariant forall i :: i in pending ==> i < k
      invariant forall i: nat :: i < k ==> (i in pending <==> PreflightOk(g, i))
      invariant forall i :: k <= i < |slots| ==> slots[i].None?
      invariant forall i: nat :: i < k && PreflightOk(g, i) ==> slots[i].None?
      invariant forall i: nat :: i < k && !PreflightOk(g, i) ==> IsRefused(g, env.registry, slots, i)
    {
      var refusal := Judge(g, env, counts, k);
      if refusal.Some? {
        slots := slots[k := refusal];
      } else {
        pending := pending + {k};
      }
    }
    forall i: nat | i < |g.steps|
      ensures SlotOk(g, env.registry, slots, {}, false, i)
      ensures !PreflightOk(g, i) ==> LabelledAs(slots, i, InvalidPlan)
    {
      if !PreflightOk(g, i) {
        RefusalIsLabel(g, slots[i].value, i);
      }
    }
  }

  ghost predicate IsRefused(g: Graph, registry: Registry, slots: Slots, i: nat) {
    && i < |g.steps| && GivesReason(g, slots, i) && slots[i].value.token == g.steps[i].token
    && Foldable(slots[i].value.report, registry)
  }

  lemma RefusalIsLabel(g: Graph, run: EnricherRun, i: nat)
    requires RefusedFor(g, i, run)
    ensures IsFrameworkRun(run, InvalidPlan)
  {
  }

  /** `[...pending].filter(keep)`: pending steps are enumerated in plan order. */
  method SelectPending(n: nat, pending: set<nat>, keep: nat -> bool) returns (picked: seq<nat>)
    requires forall i :: i in pending ==> i < n
    ensures forall i :: i in picked <==> i in pending && keep(i)
    ensures forall i, j :: 0 <= i < j < |picked| ==> picked[i] < picked[j]
  {
    picked := [];
    for k := 0 to n
      invariant forall i :: i in picked <==> i < k && i in pending && keep(i)
      invariant forall i :: 0 <= i < |picked| ==> picked[i] < k
      invariant forall i, j :: 0 <= i < j < |picked| ==> picked[i] < picked[j]
    {
      if k in pending && keep(k) {
        picked := picked + [k];
      }
    }
  }

  /** A step is started: its record is appended and its slot settled with its run. */
  lemma StartStep(g: Graph, env: Environment, slots: Slots, starts: seq<Start>, s: Start, run: EnricherRun)
    requires StartsOk(g, env, slots, starts) && |slots| == |g.steps|
    requires s.index < |slots| && slots[s.index].None? && PreflightOk(g, s.index)
    requires RunContract(g.steps[s.index].enricher, env, s.answers, s.events, run)
    requires forall i :: i in s.settled ==> HasSettled(slots, i)
    requires s.previous == Accumulated(Masked(slots, s.settled))
    requires forall d :: d in g.steps[s.index].dependencies ==>
      g.tokenToIndex[d] in s.settled && PrerequisiteIs(g, slots, d, true) && g.tokenToIndex[d] in Indexes(starts)
    requires forall k :: 0 <= k < |starts| ==> starts[k].settled <= s.settled
    ensures StartsOk(g, env, slots[s.index := Some(run)], starts + [s])
  {
    var slots', starts' := slots[s.index := Some(run)], starts + [s];
    forall k | 0 <= k < |starts'| ensures StartOk(g, env, slots', starts', k) {
      if k < |starts| {
        StartOkExtends(g, env, slots, slots', starts, starts', k);
      } else {
        assert starts'[..k] == starts;
        MaskedExtends(slots, slots', s.settled);
        forall d | d in g.steps[s.index].dependencies ensures PrerequisiteIs(g, slots', d, true) {
          assert PrerequisiteIs(g, slots, d, true);
        }
      }
    }
    forall k | 0 <= k < |starts| ensures starts[k].index != s.index {
      assert StartOk(g, env, slots, starts, k);
    }
  }

  /** Whatever is settled and available was started: framework reports never are available. */
  lemma AvailableWasStarted(g: Graph, registry: Registry, slots: Slots, pending: set<nat>, started: set<nat>, aborted: bool, i: nat)
    requires SlotsOk(g, registry, slots, pending, started, aborted) && SettledAs(slots, i, true)
    ensures i in started
  {
    assert SlotOk(g, registry, slots, started, aborted, i);
  }

  ghost predicate Distinct(s: seq<nat>) {
    forall i, j :: 0 <= i < j < |s| ==> s[i] != s[j]
  }

  ghost predicate FromEnrichers(g: Graph) {
    forall i :: 0 <= i < |g.steps| ==> g.steps[i].index == i && g.steps[i].token == CheckToken(g.steps[i].enricher)
  }

  /** Everything a pass needs to know about the plan state. */
  ghost predicate PlanOk(g: Graph, env: Environment, slots: Slots, pending: set<nat>, starts: seq<Start>, aborted: bool) {
    && WellIndexed(g) && FromEnrichers(g)
    && SlotsOk(g, env.registry, slots, pending, Indexes(starts), aborted)
    && StartsOk(g, env, slots, starts)
  }

  /** One stage: every ready step runs with the same snapshot of the outcomes settled before it.
      If one of them throws, the stage rejects as a whole and settles nothing. */
  method RunStage(g: Graph, env: Environment, slots0: Slots, pending0: set<nat>, ready: seq<nat>,
                  respond: (nat, seq<Element<Outcome>>) -> Answers, ghost starts0: seq<Start>, ghost pass: nat)
    returns (threw: bool, slots: Slots, pending: set<nat>, ghost starts: seq<Start>, ghost thrower: nat)
    requires PlanOk(g, env, slots0, pending0, starts0, false) && AnsweredBy(starts0, respond)
    requires ready != [] && Distinct(ready)
    requires forall i :: i in ready ==> i in pending0 && IsReady(g, slots0, i)
    ensures threw ==> thrower in ready && ThrowsNow(g, env, respond, slots0, thrower)
    ensures !threw ==> PlanOk(g, env, slots, pending, starts, false)
    ensures !threw ==> AddsStage(starts0, starts, ready, pass, SettledIn(slots0)) && AnsweredBy(starts, respond)
    ensures !threw ==> Extends(slots0, slots) && pending == pending0 - Elements(ready)
    ensures !threw ==> forall k :: |starts0| <= k < |starts| ==> starts[k].previous == Accumulated(slots0)
  {
    hide Protocol, RunThrows, Answered, UsableHit, UntroubledCall, Reports, ExitNamed, Foldable, PreflightOk, SlotOk, RunContract, WellIndexed, Accumulated;
    threw, thrower, slots, pending, starts := false, 0, slots0, pending0, starts0;
    var previous := Accumulated(slots0);
    ghost var settled := SettledIn(slots0);
    assert Masked(slots0, settled) == slots0;
    assert ready[..0] == [];
    forall k | 0 <= k < |starts0| ensures starts0[k].settled <= settled {
      assert StartOk(g, env, slots0, starts0, k);
    }
    for k := 0 to |ready|
      invariant StageInv(g, env, slots0, pending0, starts0, ready[..k], settled, slots, pending, starts)
      invariant AddsStage(starts0, starts, ready[..k], pass, settled) && AnsweredBy(starts, respond)
      invariant forall k :: |starts0| <= k < |starts| ==> starts[k].previous == previous
    {
      var index := ready[k];
      assert index in ready;
      var answers := respond(index, previous);
      var result, events := RunEnricher(g.steps[index].enricher, env, answers);
      if result.RunThrew? {
        threw, thrower := true, index;
        return;
      }
      var run := result.run;
      ghost var s := Start(index, pass, previous, settled, answers, events);
      StageStep(g, env, slots0, pending0, starts0, ready, k, settled, slots, pending, starts, s, run);
      slots, pending, starts := slots[index := Some(run)], pending - {index}, starts + [s];
    }
    assert ready[..|ready|] == ready;
  }

  /** Starting the step on the snapshot of these slots makes its run throw. */
  ghost predicate ThrowsNow(g: Graph, env: Environment, respond: (nat, seq<Element<Outcome>>) -> Answers, slots: Slots, i: nat) {
    i < |g.steps| && RunThrows(g.steps[i].enricher, env, respond(i, Accumulated(slots)))
  }

  ghost predicate StageInv(g: Graph, env: Environment, slots0: Slots, pending0: set<nat>, starts0: seq<Start>,
                           done: seq<nat>, settled: set<nat>, slots: Slots, pending: set<nat>, starts: seq<Start>)
  {
    && PlanOk(g, env, slots, pending, starts, false)
    && Extends(slots0, slots) && pending == pending0 - Elements(done)
    && starts0 <= starts
    && (forall k :: 0 <= k < |starts| ==> starts[k].settled <= settled)
  }

  lemma IndexesAppend(starts: seq<Start>, s: Start)
    ensures Indexes(starts + [s]) == Indexes(starts) + {s.index}
  {
    var starts' := starts + [s];
    assert starts'[|starts|] == s;
    forall i | i in Indexes(starts) ensures i in Indexes(starts') {
      var k :| 0 <= k < |starts| && starts[k].index == i;
      assert starts'[k].index == i;
    }
  }

  /** A ready step's prerequisites: settled, available, and started. */
  lemma ReadyPrerequisites(g: Graph, env: Environment, slots0: Slots, slots: Slots, pending: set<nat>, starts: seq<Start>, index: nat, d: string)
    requires PlanOk(g, env, slots, pending, starts, false) && Extends(slots0, slots)
    requires IsReady(g, slots0, index) && d in g.steps[index].dependencies
    ensures d in g.tokenToIndex && HasSettled(slots0, g.tokenToIndex[d])
    ensures PrerequisiteIs(g, slots, d, true) && g.tokenToIndex[d] in Indexes(starts)
  {
    assert PrerequisiteIs(g, slots0, d, true);
    AvailableWasStarted(g, env.registry, slots, pending, Indexes(starts), false, g.tokenToIndex[d]);
  }

  /** The start of a ready step is a valid start. */
  lemma StartReady(g: Graph, env: Environment, slots0: Slots, slots: Slots, pending: set<nat>, starts: seq<Start>, s: Start, run: EnricherRun)
    requires PlanOk(g, env, slots, pending, starts, false) && Extends(slots0, slots)
    requires s.index in pending && IsReady(g, slots0, s.index)
    requires forall i :: i in s.settled <==> HasSettled(slots0, i)
    requires s.previous == Accumulated(slots0)
    requires forall k :: 0 <= k < |starts| ==> starts[k].settled <= s.settled
    requires RunContract(g.steps[s.index].enricher, env, s.answers, s.events, run)
    ensures StartsOk(g, env, slots[s.index := Some(run)], starts + [s])
  {
    assert Masked(slots, s.settled) == slots0 by {
      MaskedExtends(slots0, slots, s.settled);
      assert Masked(slots0, s.settled) == slots0;
    }
    forall d | d in g.steps[s.index].dependencies
      ensures g.tokenToIndex[d] in s.settled && PrerequisiteIs(g, slots, d, true) && g.tokenToIndex[d] in Indexes(starts)
    {
      ReadyPrerequisites(g, env, slots0, slots, pending, starts, s.index, d);
    }
    StartStep(g, env, slots, starts, s, run);
  }

  lemma StageStep(g: Graph, env: Environment, slots0: Slots, pending0: set<nat>, starts0: seq<Start>, ready: seq<nat>, k: nat,
                  settled: set<nat>, slots: Slots, pending: set<nat>, starts: seq<Start>, s: Start, run: EnricherRun)
    requires k < |ready| && Distinct(ready) && ready[k] in pending0 && IsReady(g, slots0, ready[k])
    requires StageInv(g, env, slots0, pending0, starts0, ready[..k], settled, slots, pending, starts)
    requires forall i :: i in settled <==> HasSettled(slots0, i)
    requires s.index == ready[k] && s.settled == settled && s.previous == Accumulated(slots0)
    requires RunContract(g.steps[ready[k]].enricher, env, s.answers, s.events, run)
    ensures StageInv(g, env, slots0, pending0, starts0, ready[..k + 1], settled,
                     slots[ready[k] := Some(run)], pending - {ready[k]}, starts + [s])
  {
    hide Protocol, RunThrows, Answered, UsableHit, UntroubledCall, Reports, ExitNamed, Foldable, StartOk, StartsOk, WellIndexed, Accumulated, PreflightOk,
      PrerequisiteIs;
    var index, slots', pending', starts' := ready[k], slots[ready[k] := Some(run)], pending - {ready[k]}, starts + [s];
    assert index in pending;
    StartReady(g, env, slots0, slots, pending, starts, s, run);
    IndexesAppend(starts, s);
    SettleBatch(g, env.registry, slots, slots', pending, pending', Indexes(starts), Indexes(starts'), false);
    ElementsStep(ready, k);
  }

  lemma ElementsStep(s: seq<nat>, k: nat)
    requires k < |s|
    ensures Elements(s[..k + 1]) == Elements(s[..k]) + {s[k]}
  {
    assert s[..k + 1] == s[..k] + [s[k]];
  }

  /** Settling steps that were not started leaves every recorded start intact. */
  lemma StartsExtend(g: Graph, env: Environment, slots: Slots, slots': Slots, starts: seq<Start>)
    requires StartsOk(g, env, slots, starts) && Extends(slots, slots')
    ensures StartsOk(g, env, slots', starts)
  {
    forall k | 0 <= k < |starts| ensures StartOk(g, env, slots', starts, k) {
      StartOkExtends(g, env, slots, slots', starts, starts, k);
    }
  }

  /** The slots after a batch of steps has been skipped with framework reports. */
  ghost predicate Skips(g: Graph, registry: Registry, slots: Slots, batch: seq<nat>, slots': Slots, code: CauseCode) {
    && |slots'| == |slots| == |g.steps|
    && (forall i :: 0 <= i < |slots| && i !in batch ==> slots'[i] == slots[i])
    && (forall i :: i in batch ==> SkippedAs(g, registry, slots', i, code) && NamesAll(g, slots, slots', i, code))
  }

  /** The cause lists every prerequisite that was unavailable before, or all of them on a cycle. */
  ghost predicate NamesAll(g: Graph, slots: Slots, slots': Slots, i: nat, code: CauseCode)
    requires i < |g.steps| && HasSettled(slots', i) && IsFrameworkRun(slots'[i].value, code)
  {
    var names := slots'[i].value.report.outcomes[0].value.cause.value.prerequisites;
    && (code == PrerequisiteUnavailable ==>
          forall d :: d in g.steps[i].dependencies && PrerequisiteIs(g, slots, d, false) ==> d in names)
    && (code == DependencyCycle ==> names == g.steps[i].dependencies)
  }

  ghost predicate SkippedAs(g: Graph, registry: Registry, slots: Slots, i: nat, code: CauseCode) {
    && HasSettled(slots, i) && i < |g.steps| && slots[i].value.token == g.steps[i].token
    && IsFrameworkRun(slots[i].value, code) && Foldable(slots[i].value.report, registry)
    && (code == PrerequisiteUnavailable ==> NamesCulprits(g, slots, i))
  }

  /** The prerequisites a skip reports: the unavailable ones, all of them on a cycle, none on abort. */
  function Reported(g: Graph, slots: Slots, i: nat, code: CauseCode): seq<string>
    requires i < |g.steps|
  {
    match code
    case PrerequisiteUnavailable => UnavailableOf(g, slots, g.steps[i].dependencies)
    case DependencyCycle => g.steps[i].dependencies
    case _ => []
  }

  /** Settles every step of the batch, in order, with a framework report. */
  method SkipAll(g: Graph, env: Environment, slots0: Slots, batch: seq<nat>, code: CauseCode) returns (slots: Slots)
    requires |slots0| == |g.steps| && Distinct(batch)
    requires forall i :: i in batch ==> i < |slots0| && slots0[i].None?
    requires code == PrerequisiteUnavailable ==> forall i :: i in batch ==> IsBlocked(g, slots0, i)
    ensures Skips(g, env.registry, slots0, batch, slots, code) && Extends(slots0, slots)
  {
    slots := slots0;
    for k := 0 to |batch|
      invariant Skips(g, env.registry, slots0, batch[..k], slots, code) && Extends(slots0, slots)
    {
      var i := batch[k];
      assert i in batch;
      var run := SkippedRun(g.steps[i], env, code, "", Reported(g, slots, i, code));
      SkipOne(g, env, slots0, batch, k, slots, run, code);
      slots := slots[i := Some(run)];
    }
    assert batch[..|batch|] == batch;
  }

  lemma SkipOne(g: Graph, env: Environment, slots0: Slots, batch: seq<nat>, k: nat, slots: Slots, run: EnricherRun, code: CauseCode)
    requires k < |batch| && Distinct(batch) && batch[k] < |slots0| && slots0[batch[k]].None?
    requires Skips(g, env.registry, slots0, batch[..k], slots, code) && Extends(slots0, slots)
    requires code == PrerequisiteUnavailable ==> IsBlocked(g, slots0, batch[k])
    requires run == SkippedRun(g.steps[batch[k]], env, code, "", Reported(g, slots, batch[k], code))
    ensures Skips(g, env.registry, slots0, batch[..k + 1], slots[batch[k] := Some(run)], code)
    ensures Extends(slots0, slots[batch[k] := Some(run)])
  {
    var i, slots' := batch[k], slots[batch[k] := Some(run)];
    assert batch[..k + 1] == batch[..k] + [i];
    assert i !in batch[..k];
    assert slots[i].None? && Extends(slots, slots');
    if code == PrerequisiteUnavailable {
      BlockedExtends(g, slots0, slots, i);
      forall d | PrerequisiteIs(g, slots, d, false) ensures PrerequisiteIs(g, slots', d, false) {
      }
      assert NamesCulprits(g, slots', i);
    }
    forall j | j in batch[..k] ensures SkippedAs(g, env.registry, slots', j, code) {
      assert SkippedAs(g, env.registry, slots, j, code);
      if code == PrerequisiteUnavailable {
        CulpritsExtend(g, slots, slots', j);
      }
    }
  }

  /** A skipped batch of pending steps keeps the plan invariant when each member has its reason. */
  lemma SkipBatch(g: Graph, env: Environment, slots: Slots, slots': Slots, pending: set<nat>, batch: seq<nat>,
                  starts: seq<Start>, code: CauseCode, aborted: bool)
    requires PlanOk(g, env, slots, pending, starts, false)
    requires Skips(g, env.registry, slots, batch, slots', code) && Extends(slots, slots')
    requires forall i :: i in batch ==> i in pending && SkippedBecause(g, slots', i, aborted)
    ensures PlanOk(g, env, slots', pending - Elements(batch), starts, aborted)
  {
    var pending' := pending - Elements(batch);
    forall i | 0 <= i < |slots'| ensures i in pending' <==> slots'[i].None? {
      assert i in batch ==> SkippedAs(g, env.registry, slots', i, code);
    }
    SettleBatch(g, env.registry, slots, slots', pending, pending', Indexes(starts), Indexes(starts), aborted);
    StartsExtend(g, env, slots, slots', starts);
  }

  /** Cancellation is the direct cause for every step that has not started. */
  method AbortPending(g: Graph, env: Environment, slots0: Slots, pending: set<nat>, ghost starts: seq<Start>)
    returns (slots: Slots)
    requires PlanOk(g, env, slots0, pending, starts, false)
    ensures PlanOk(g, env, slots, {}, starts, true)
    ensures Extends(slots0, slots) && forall i :: i in pending ==> LabelledAs(slots, i, CallerAborted)
  {
    var batch := SelectPending(|slots0|, pending, (i: nat) => true);
    slots := SkipAll(g, env, slots0, batch, CallerAborted);
    SkipBatch(g, env, slots0, slots, pending, batch, starts, CallerAborted, true);
    assert pending - Elements(batch) == {};
    forall i | i in pending ensures LabelledAs(slots, i, CallerAborted) {
      assert SkippedAs(g, env.registry, slots, i, CallerAborted);
    }
  }

  /** Steps with a settled but unavailable prerequisite are skipped, naming those prerequisites. */
  method SkipBlocked(g: Graph, env: Environment, slots0: Slots, pending: set<nat>, blocked: seq<nat>, ghost starts: seq<Start>)
    returns (slots: Slots)
    requires PlanOk(g, env, slots0, pending, starts, false) && Distinct(blocked)
    requires forall i :: i in blocked ==> i in pending && IsBlocked(g, slots0, i)
    ensures PlanOk(g, env, slots, pending - Elements(blocked), starts, false)
    ensures Skips(g, env.registry, slots0, blocked, slots, PrerequisiteUnavailable) && Extends(slots0, slots)
  {
    slots := SkipAll(g, env, slots0, blocked, PrerequisiteUnavailable);
    forall i | i in blocked ensures SkippedBecause(g, slots, i, false) {
      BlockedExtends(g, slots0, slots, i);
    }
    SkipBatch(g, env, slots0, slots, pending, blocked, starts, PrerequisiteUnavailable, false);
  }

  /** One cycle is settled as such; every member then has an unavailable prerequisite. */
  method SkipCycle(g: Graph, env: Environment, slots0: Slots, pending: set<nat>, cycle: seq<nat>, ghost starts: seq<Start>)
    returns (slots: Slots)
    requires PlanOk(g, env, slots0, pending, starts, false) && g.IsCycle(pending, cycle)
    ensures PlanOk(g, env, slots, pending - Elements(cycle), starts, false)
    ensures Skips(g, env.registry, slots0, cycle, slots, DependencyCycle) && Extends(slots0, slots)
  {
    slots := SkipAll(g, env, slots0, cycle, DependencyCycle);
    forall i | i in cycle ensures SkippedBecause(g, slots, i, false) {
      CycleMemberBlocked(g, env, slots0, slots, pending, cycle, i);
    }
    SkipBatch(g, env, slots0, slots, pending, cycle, starts, DependencyCycle, false);
  }

  lemma CycleMemberBlocked(g: Graph, env: Environment, slots0: Slots, slots: Slots, pending: set<nat>, cycle: seq<nat>, i: nat)
    requires Skips(g, env.registry, slots0, cycle, slots, DependencyCycle) && g.IsCycle(pending, cycle) && i in cycle
    requires PreflightOk(g, i)
    ensures SkippedBecause(g, slots, i, false)
  {
    var k :| 0 <= k < |cycle| && cycle[k] == i;
    var next := if k == |cycle| - 1 then cycle[0] else cycle[k + 1];
    assert g.Depends(i, next) && next in cycle;
    var d :| d in g.steps[i].dependencies && d in g.tokenToIndex && g.tokenToIndex[d] == next;
    assert !RunIsAvailable(slots[next].value) by {
      assert SkippedAs(g, env.registry, slots, next, DependencyCycle);
      assert slots[next].value.report.outcomes[0].value.status == Skipped;
    }
    assert PrerequisiteIs(g, slots, d, false);
    assert OnCycle(g, i);
    assert SkippedAs(g, env.registry, slots, i, DependencyCycle);
  }

  /** With nothing ready and nothing blocked, every pending step waits for a pending one. */
  lemma StuckMeansPending(g: Graph, env: Environment, slots: Slots, pending: set<nat>, starts: seq<Start>, u: nat)
    requires PlanOk(g, env, slots, pending, starts, false) && u in pending
    requires !IsReady(g, slots, u) && !IsBlocked(g, slots, u)
    ensures exists v :: v in pending && g.Depends(u, v)
  {
    var d :| d in g.steps[u].dependencies && !PrerequisiteIs(g, slots, d, true);
    assert PreflightOk(g, u);
    var v := g.tokenToIndex[d];
    assert !PrerequisiteIs(g, slots, d, false);
    assert g.Depends(u, v) && v in pending;
  }

  /** So the cycle search cannot come back empty-handed. */
  lemma StuckHasCycle(g: Graph, env: Environment, slots: Slots, pending: set<nat>, starts: seq<Start>, order: seq<nat>)
    requires PlanOk(g, env, slots, pending, starts, false) && pending != {}
    requires forall u :: u in pending ==> !IsReady(g, slots, u) && !IsBlocked(g, slots, u)
    ensures !g.IsTopological(pending, order)
  {
    if g.IsTopological(pending, order) {
      var u := FirstIsFree(g, pending, order);
      StuckMeansPending(g, env, slots, pending, starts, u);
    }
  }

  function Settled(runs: seq<EnricherRun>): (slots: Slots)
    ensures |slots| == |runs| && forall i :: 0 <= i < |runs| ==> slots[i] == Some(runs[i])
  {
    seq(|runs|, i requires 0 <= i < |runs| => Some(runs[i]))
  }

  ghost function Available(runs: seq<EnricherRun>): set<nat> {
    set i | 0 <= i < |runs| && RunIsAvailable(runs[i])
  }

  /** What the plan makes of its steps: all runs in plan order, or a rejection. */
  datatype PlanResult = PlanDone(runs: seq<EnricherRun>) | PlanRejected

  /** What a plan that comes to its end promises about its runs. */
  ghost predicate Executed(plan: seq<Enricher>, env: Environment, abortedAt: nat -> bool,
                           respond: (nat, seq<Element<Outcome>>) -> Answers, runs: seq<EnricherRun>,
                           g: Graph, starts: seq<Start>, when: Times, passes: nat, aborted: bool)
  {
    && g.steps == Steps(plan) && |runs| == |plan|
    && PlanOk(g, env, Settled(runs), {}, starts, aborted)
    && Timeline(g, Settled(runs), when, starts, passes, aborted) && AnsweredBy(starts, respond)
    && (forall p :: 0 <= p < passes ==> !abortedAt(p)) && (aborted ==> abortedAt(passes))
    && (!aborted ==> IsLeastFixedPoint(g, Available(runs), Indexes(starts)))
    && (forall other: set<nat> :: Closed(g, Available(runs), other) ==> Indexes(starts) <= other)
  }

  /** How a plan is rejected: after some passes as usual, one more starts all that is ready, and
      one of those runs throws. */
  ghost predicate RejectedBy(plan: seq<Enricher>, env: Environment, abortedAt: nat -> bool,
                             respond: (nat, seq<Element<Outcome>>) -> Answers,
                             g: Graph, slots: Slots, starts: seq<Start>, when: Times, passes: nat, thrower: nat)
  {
    && g.steps == Steps(plan) && PlanOk(g, env, slots, Waiting(slots), starts, false)
    && Timeline(g, slots, when, starts, passes, false) && AnsweredBy(starts, respond)
    && (forall p :: 0 <= p <= passes ==> !abortedAt(p))
    && thrower in ReadyIn(g, slots) && ThrowsNow(g, env, respond, slots, thrower)
  }

  /** The whole plan, for every graph, every behaviour of the sources and every moment
      of cancellation. `respond` answers for the world when a step is started with a
      given snapshot; `abortedAt` tells whether a pass sees the caller's signal aborted.
      The plan is rejected exactly when a step that it starts throws. */
  method ExecuteEnrichmentPlan(plan: seq<Enricher>, env: Environment, abortedAt: nat -> bool,
                               respond: (nat, seq<Element<Outcome>>) -> Answers)
    returns (result: PlanResult, ghost g: Graph, ghost last: Slots, ghost starts: seq<Start>, ghost when: Times,
             ghost passes: nat, ghost aborted: bool, ghost thrower: nat)
    ensures result.PlanDone? ==>
      Executed(plan, env, abortedAt, respond, result.runs, g, starts, when, passes, aborted) && NoneThrew(plan, env, starts)
    ensures result.PlanRejected? ==> RejectedBy(plan, env, abortedAt, respond, g, last, starts, when, passes, thrower)
  {
    hide PlanOk, SlotsOk, Closed, IsLeastFixedPoint, WellIndexed, CountsTokens, Timeline, PreflightOk, AnsweredBy, ThrowsNow,
      ReadyIn, Waiting, NoneThrew;
    var steps := Steps(plan);
    var counts := CountTokens(steps);
    var tokenToIndex := IndexTokens(steps, counts);
    var graph := Graph(steps, tokenToIndex);
    g, starts, aborted, passes, thrower := graph, [], false, 0, 0;
    var slots, pending := Preflight(graph, env, counts);
    when := TimelineStarts(g, env, slots, pending, respond);
    last := slots;
    var pass := 0;
    while pending != {}
      invariant PlanOk(g, env, slots, pending, starts, aborted)
      invariant !aborted && Timeline(g, slots, when, starts, pass, false) && AnsweredBy(starts, respond)
      invariant forall p :: 0 <= p < pass ==> !abortedAt(p)
      decreases pending
    {
      if abortedAt(pass) {
        ghost var before := slots;
        slots := AbortPending(graph, env, slots, pending, starts);
        when := TimelineAborted(g, env, before, slots, pending, when, starts, pass);
        pending, aborted := {}, true;
        break;
      }
      var threw, slots', pending';
      ghost var starts', when';
      threw, slots', pending', starts', when', thrower := Pass(graph, env, slots, pending, respond, starts, when, pass);
      if threw {
        PendingIsWaiting(g, env, slots, pending, when, starts, pass);
        last, passes := slots, pass;
        return PlanRejected, g, last, starts, when, passes, aborted, thrower;
      }
      slots, pending, starts, when := slots', pending', starts', when';
      pass := pass + 1;
    }
    passes := pass;
    AllSettled(g, env, slots, starts, aborted);
    var runs := Collect(graph, env, slots);
    assert Settled(runs) == slots;
    Finished(g, env, runs, starts, aborted);
    StartsSettled(plan, g, env, runs, starts, aborted);
    result := PlanDone(runs);
  }

  /** No step that was started made its run throw. */
  ghost predicate NoneThrew(plan: seq<Enricher>, env: Environment, starts: seq<Start>) {
    forall k :: 0 <= k < |starts| ==> starts[k].index < |plan| && !RunThrows(plan[starts[k].index], env, starts[k].answers)
  }

  lemma StartsSettled(plan: seq<Enricher>, g: Graph, env: Environment, runs: seq<EnricherRun>, starts: seq<Start>, aborted: bool)
    requires g.steps == Steps(plan) && PlanOk(g, env, Settled(runs), {}, starts, aborted)
    ensures NoneThrew(plan, env, starts)
  {
    hide RunThrows, Protocol, Answered, Reports, Foldable, SlotOk;
    forall k | 0 <= k < |starts| ensures starts[k].index < |plan| && !RunThrows(plan[starts[k].index], env, starts[k].answers) {
      assert StartOk(g, env, Settled(runs), starts, k);
    }
  }

  lemma AllSettled(g: Graph, env: Environment, slots: Slots, starts: seq<Start>, aborted: bool)
    requires PlanOk(g, env, slots, {}, starts, aborted)
    ensures |slots| == |g.steps| && forall i :: 0 <= i < |slots| ==> slots[i].Some?
  {
  }

  /** What ran: below every closed set in any case, and the least fixed point without cancellation. */
  lemma Finished(g: Graph, env: Environment, runs: seq<EnricherRun>, starts: seq<Start>, aborted: bool)
    requires PlanOk(g, env, Settled(runs), {}, starts, aborted)
    ensures !aborted ==> IsLeastFixedPoint(g, Available(runs), Indexes(starts))
    ensures forall other: set<nat> :: Closed(g, Available(runs), other) ==> Indexes(starts) <= other
  {
    hide Enabled, StartOk, SlotOk, Closed;
    StartedBelow(g, env, Settled(runs), starts, Available(runs));
    if !aborted {
      StartedIsFixed(g, env, runs, starts);
    }
  }

  /** Preflight is where the timeline starts. */
  lemma TimelineStarts(g: Graph, env: Environment, slots: Slots, pending: set<nat>, respond: (nat, seq<Element<Outcome>>) -> Answers)
    returns (when: Times)
    requires SlotsOk(g, env.registry, slots, pending, {}, false) && WellIndexed(g) && FromEnrichers(g)
    requires forall i: nat :: i < |g.steps| ==> (i in pending <==> PreflightOk(g, i))
    ensures PlanOk(g, env, slots, pending, [], false) && Timeline(g, slots, when, [], 0, false) && AnsweredBy([], respond)
  {
    hide PreflightOk, SlotOk;
    assert Indexes([]) == {};
    when := map i: nat | i < |slots| && slots[i].Some? :: 0;
  }

  lemma TimelineAborted(g: Graph, env: Environment, slots: Slots, slots': Slots, pending: set<nat>, when: Times,
                        starts: seq<Start>, pass: nat)
    returns (when': Times)
    requires PlanOk(g, env, slots, pending, starts, false) && Timeline(g, slots, when, starts, pass, false)
    requires pending != {} && Extends(slots, slots') && forall i :: i in pending ==> LabelledAs(slots', i, CallerAborted)
    ensures Timeline(g, slots', when', starts, pass, true)
  {
    hide PreflightOk, SlotOk, IsFrameworkRun, PassAt, StartsOk;
    LastPass(g, slots, slots', when, pending, starts, pass);
    when' := Stamped(when, pending, pass + 1);
  }

  /** One pass without cancellation: run a stage, or propagate blocked steps, or
      extract one cycle. Pending strictly shrinks. */
  method Pass(g: Graph, env: Environment, slots0: Slots, pending0: set<nat>,
              respond: (nat, seq<Element<Outcome>>) -> Answers, ghost starts0: seq<Start>, ghost when0: Times, ghost pass: nat)
    returns (threw: bool, slots: Slots, pending: set<nat>, ghost starts: seq<Start>, ghost when: Times, ghost thrower: nat)
    requires PlanOk(g, env, slots0, pending0, starts0, false) && AnsweredBy(starts0, respond)
    requires Timeline(g, slots0, when0, starts0, pass, false) && pending0 != {}
    ensures threw ==> thrower in ReadyIn(g, slots0) && ThrowsNow(g, env, respond, slots0, thrower)
    ensures !threw ==> PlanOk(g, env, slots, pending, starts, false) && AnsweredBy(starts, respond)
    ensures !threw ==> Timeline(g, slots, when, starts, pass + 1, false)
    ensures !threw ==> pending < pending0
  {
    hide SlotOk, StartsOk, WellIndexed, FromEnrichers, Timeline, Graph.IsCycle, ThrowsNow;
    threw, thrower, slots, pending, starts, when := false, 0, slots0, pending0, starts0, when0;
    var ready := SelectPending(|slots0|, pending0, (i: nat) => IsReady(g, slots0, i));
    if ready != [] {
      threw, slots, pending, starts, thrower := RunStage(g, env, slots0, pending0, ready, respond, starts0, pass);
      if threw {
        PendingIsWaiting(g, env, slots0, pending0, when0, starts0, pass);
        assert thrower in pending0 && IsReady(g, slots0, thrower);
        return;
      }
      when := StageTimed(g, env, slots0, slots, pending0, ready, starts0, starts, when0, pass);
      assert ready[0] in pending0 && ready[0] !in pending;
      return;
    }
    var blocked := SelectPending(|slots0|, pending0, (i: nat) => IsBlocked(g, slots0, i));
    if blocked != [] {
      slots := SkipBlocked(g, env, slots0, pending0, blocked, starts0);
      pending := pending0 - set i | i in blocked;
      when := BlockedTimed(g, env, slots0, slots, pending0, ready, blocked, starts0, when0, pass);
      assert blocked[0] in pending0 && blocked[0] !in pending;
      return;
    }
    ghost var marked;
    slots, pending, marked := ExtractCycle(g, env, slots0, pending0, ready, blocked, starts0);
    when := CycleTimed(g, env, slots0, slots, pending0, ready, blocked, marked, starts0, when0, pass);
  }

  /** The pending steps are the waiting ones, and the others are those on the timeline. */
  lemma PendingIsWaiting(g: Graph, env: Environment, slots: Slots, pending: set<nat>, when: Times, starts: seq<Start>, pass: nat)
    requires PlanOk(g, env, slots, pending, starts, false) && Timeline(g, slots, when, starts, pass, false)
    ensures pending == Waiting(slots) && pending !! when.Keys && when.Keys == SettledIn(slots)
  {
  }

  lemma StageTimed(g: Graph, env: Environment, slots: Slots, slots': Slots, pending: set<nat>, ready: seq<nat>,
                   starts: seq<Start>, starts': seq<Start>, when: Times, pass: nat) returns (when': Times)
    requires PlanOk(g, env, slots, pending, starts, false) && Timeline(g, slots, when, starts, pass, false)
    requires PlanOk(g, env, slots', pending - Elements(ready), starts', false) && Extends(slots, slots')
    requires ready != [] && forall i :: i in ready <==> i in pending && IsReady(g, slots, i)
    requires AddsStage(starts, starts', ready, pass, SettledIn(slots))
    ensures Timeline(g, slots', when', starts', pass + 1, false)
  {
    hide Timeline, SlotOk, StartsOk, IsReady;
    PendingIsWaiting(g, env, slots, pending, when, starts, pass);
    var batch := Elements(ready);
    assert batch == ReadyIn(g, slots) && ready[0] in batch;
    forall i | i in batch ensures StartedIn(starts', i, pass) {
      var j :| 0 <= j < |ready| && ready[j] == i;
      assert starts'[|starts| + j].index == i;
    }
    NextPass(g, slots, slots', when, batch, starts, starts', ready, pass);
    when' := Stamped(when, batch, pass + 1);
  }

  /** A skipped batch starts nothing. */
  lemma SkipsTimed(g: Graph, env: Environment, slots: Slots, slots': Slots, batch: seq<nat>,
                   starts: seq<Start>, when: Times, pass: nat, code: CauseCode)
    requires Timeline(g, slots, when, starts, pass, false) && forall i :: i in batch ==> i in Waiting(slots)
    requires Skips(g, env.registry, slots, batch, slots', code) && Extends(slots, slots')
    ensures Advances(g, slots, slots', when, Elements(batch)) && AddsStage(starts, starts, [], pass, when.Keys)
    ensures SkippedIn(slots', starts, Elements(batch), pass, code)
  {
    hide IsFrameworkRun, Foldable, PassAt, NamesCulprits, PreflightOk;
    forall i | i in Elements(batch) ensures LabelledAs(slots', i, code) && !StartedIn(starts, i, pass) {
      assert SkippedAs(g, env.registry, slots', i, code);
      assert forall k :: 0 <= k < |starts| ==> Timed(when, starts[k], pass);
    }
    forall i: nat ensures HasSettled(slots', i) <==> i in when || i in Elements(batch) {
      if i in batch {
        assert SkippedAs(g, env.registry, slots', i, code);
      }
    }
  }

  lemma BlockedTimed(g: Graph, env: Environment, slots: Slots, slots': Slots, pending: set<nat>, ready: seq<nat>, blocked: seq<nat>,
                     starts: seq<Start>, when: Times, pass: nat) returns (when': Times)
    requires PlanOk(g, env, slots, pending, starts, false) && Timeline(g, slots, when, starts, pass, false)
    requires ready == [] && forall i :: i in ready <==> i in pending && IsReady(g, slots, i)
    requires blocked != [] && forall i :: i in blocked <==> i in pending && IsBlocked(g, slots, i)
    requires Skips(g, env.registry, slots, blocked, slots', PrerequisiteUnavailable) && Extends(slots, slots')
    ensures Timeline(g, slots', when', starts, pass + 1, false)
  {
    hide Timeline, SlotOk, StartsOk, IsReady, IsBlocked, Skips, SkippedIn, AddsStage, Advances, PlanOk;
    PendingIsWaiting(g, env, slots, pending, when, starts, pass);
    var batch := Elements(blocked);
    assert ReadyIn(g, slots) == Elements(ready) && Elements(ready) == {};
    assert batch == BlockedIn(g, slots) && blocked[0] in batch;
    SkipsTimed(g, env, slots, slots', blocked, starts, when, pass, PrerequisiteUnavailable);
    NextPass(g, slots, slots', when, batch, starts, starts, [], pass);
    when' := Stamped(when, batch, pass + 1);
  }

  lemma CycleTimed(g: Graph, env: Environment, slots: Slots, slots': Slots, pending: set<nat>, ready: seq<nat>, blocked: seq<nat>,
                   cycle: seq<nat>, starts: seq<Start>, when: Times, pass: nat) returns (when': Times)
    requires PlanOk(g, env, slots, pending, starts, false) && Timeline(g, slots, when, starts, pass, false)
    requires ready == [] && forall i :: i in ready <==> i in pending && IsReady(g, slots, i)
    requires blocked == [] && forall i :: i in blocked <==> i in pending && IsBlocked(g, slots, i)
    requires g.IsCycle(pending, cycle)
    requires Skips(g, env.registry, slots, cycle, slots', DependencyCycle) && Extends(slots, slots')
    ensures Elements(cycle) != {} && Elements(cycle) <= pending
    ensures Timeline(g, slots', when', starts, pass + 1, false)
  {
    hide Timeline, SlotOk, StartsOk, IsReady, IsBlocked, Skips, SkippedIn, AddsStage, Advances, PlanOk;
    PendingIsWaiting(g, env, slots, pending, when, starts, pass);
    var batch := Elements(cycle);
    assert cycle[0] in batch;
    assert ReadyIn(g, slots) == Elements(ready) && Elements(ready) == {};
    assert BlockedIn(g, slots) == Elements(blocked) && Elements(blocked) == {};
    SkipsTimed(g, env, slots, slots', cycle, starts, when, pass, DependencyCycle);
    NextPass(g, slots, slots', when, batch, starts, starts, [], pass);
    when' := Stamped(when, batch, pass + 1);
  }

  /** Nothing is ready and nothing is blocked: mark one actual cycle. The fallback for an
      empty search result is never taken. */
  method ExtractCycle(g: Graph, env: Environment, slots0: Slots, pending0: set<nat>, ready: seq<nat>, blocked: seq<nat>,
                      ghost starts: seq<Start>)
    returns (slots: Slots, pending: set<nat>, ghost marked: seq<nat>)
    requires PlanOk(g, env, slots0, pending0, starts, false) && pending0 != {}
    requires ready == [] && blocked == []
    requires forall i :: i in ready <==> i in pending0 && IsReady(g, slots0, i)
    requires forall i :: i in blocked <==> i in pending0 && IsBlocked(g, slots0, i)
    ensures PlanOk(g, env, slots, pending, starts, false)
    ensures g.IsCycle(pending0, marked) && pending == pending0 - Elements(marked)
    ensures Skips(g, env.registry, slots0, marked, slots, DependencyCycle) && Extends(slots0, slots)
  {
    var cycle, order := FindDependencyCycle(g, pending0);
    var cycleIndexes := cycle;
    if cycle == [] {
      var all := SelectPending(|slots0|, pending0, (i: nat) => true);
      ghost var some :| some in pending0;
      assert some in all;
      cycleIndexes := [all[0]];
    }
    forall u | u in pending0 ensures !IsReady(g, slots0, u) && !IsBlocked(g, slots0, u) {
      assert u !in ready && u !in blocked;
    }
    StuckHasCycle(g, env, slots0, pending0, starts, order);
    slots := SkipCycle(g, env, slots0, pending0, cycleIndexes, starts);
    pending := pending0 - set i | i in cycleIndexes;
    marked := cycleIndexes;
  }

  /** The result in plan order. The defensive fallback for an unsettled slot is never taken. */
  method Collect(g: Graph, env: Environment, slots: Slots) returns (runs: seq<EnricherRun>)
    requires |slots| == |g.steps| && forall i :: 0 <= i < |slots| ==> slots[i].Some?
    ensures |runs| == |slots| && forall i :: 0 <= i < |slots| ==> slots[i] == Some(runs[i])
  {
    runs := seq(|slots|, i requires 0 <= i < |slots| =>
      if slots[i].Some? then slots[i].value
      else SkippedRun(g.steps[i], env, InvalidPlan, "unsettled-plan-node", []));
  }

  /** Everything started lies in every closed set: by induction over the starts. */
  lemma {:induction false} StartedBelowPrefix(g: Graph, env: Environment, slots: Slots, starts: seq<Start>,
                                              available: set<nat>, other: set<nat>, k: nat)
    requires StartsOk(g, env, slots, starts) && k <= |starts|
    requires forall i :: i in available <==> SettledAs(slots, i, true)
    requires Closed(g, available, other)
    ensures Indexes(starts[..k]) <= other
  {
    hide RunContract, Accumulated, Masked, PreflightOk;
    if k > 0 {
      StartedBelowPrefix(g, env, slots, starts, available, other, k - 1);
      assert StartOk(g, env, slots, starts, k - 1);
      var i := starts[k - 1].index;
      forall d | d in g.steps[i].dependencies
        ensures g.tokenToIndex[d] in other && g.tokenToIndex[d] in available
      {
        assert PrerequisiteIs(g, slots, d, true);
      }
      assert Enabled(g, available, other, i);
      assert starts[..k] == starts[..k - 1] + [starts[k - 1]];
      IndexesAppend(starts[..k - 1], starts[k - 1]);
    }
  }

  lemma StartedBelow(g: Graph, env: Environment, slots: Slots, starts: seq<Start>, available: set<nat>)
    requires StartsOk(g, env, slots, starts)
    requires forall i :: i in available <==> SettledAs(slots, i, true)
    ensures forall other: set<nat> :: Closed(g, available, other) ==> Indexes(starts) <= other
  {
    forall other: set<nat> | Closed(g, available, other) ensures Indexes(starts) <= other {
      StartedBelowPrefix(g, env, slots, starts, available, other, |starts|);
      assert starts[..|starts|] == starts;
    }
  }

  /** A finished, uncancelled plan: a step was started exactly when it was enabled. */
  lemma StartedIsFixed(g: Graph, env: Environment, runs: seq<EnricherRun>, starts: seq<Start>)
    requires PlanOk(g, env, Settled(runs), {}, starts, false)
    ensures forall i :: i in Indexes(starts) <==> Enabled(g, Available(runs), Indexes(starts), i)
  {
    hide RunContract, Accumulated, Masked, StartOk, StartsOk, IsFrameworkRun;
    var slots := Settled(runs);
    forall i: nat ensures i in Indexes(starts) <==> Enabled(g, Available(runs), Indexes(starts), i) {
      if i in Indexes(starts) {
        var k :| 0 <= k < |starts| && starts[k].index == i;
        StartEnabled(g, env, slots, starts, k, Available(runs));
      } else if i < |g.steps| && PreflightOk(g, i) {
        assert SlotOk(g, env.registry, slots, Indexes(starts), false, i);
        var d :| d in g.steps[i].dependencies && PrerequisiteIs(g, slots, d, false);
        assert g.tokenToIndex[d] !in Available(runs);
      }
    }
  }

  lemma StartEnabled(g: Graph, env: Environment, slots: Slots, starts: seq<Start>, k: nat, available: set<nat>)
    requires StartsOk(g, env, slots, starts) && k < |starts|
    requires forall i :: i in available <==> SettledAs(slots, i, true)
    ensures Enabled(g, available, Indexes(starts), starts[k].index)
  {
    hide RunContract, Accumulated, Masked;
    assert StartOk(g, env, slots, starts, k);
    forall d | d in g.steps[starts[k].index].dependencies
      ensures g.tokenToIndex[d] in Indexes(starts) && g.tokenToIndex[d] in available
    {
      assert PrerequisiteIs(g, slots, d, true);
      var j :| 0 <= j < |starts[..k]| && starts[..k][j].index == g.tokenToIndex[d];
      assert starts[j].index == g.tokenToIndex[d];
    }
  }
}
