/** What gaps in the arrays of an accepted report lead to: the checks of the report skip holes
    (packages/core/src/schema/enrich.ts), cloning turns them into null, and the runner and the
    fold then read through null (packages/core/src/inspect-async.ts). */
module SparseReports {
  import opened Wrappers
  import opened EnrichmentSchema
  import opened Normalization
  import opened SourceRunner
  import opened CycleFinder
  import opened EnrichmentPlan
  import opened PlanTimeline
  import opened PlanExecution
  import opened InspectAsync

  /** A hole that the search for a declared failure reaches. */
  predicate HoleBeforeFailure(outcomes: seq<Element<Outcome>>) {
    exists i :: 0 <= i < |outcomes| && outcomes[i].Hole? &&
      forall j :: 0 <= j < i ==> !(outcomes[j].Item? && outcomes[j].value.status == Failure)
  }

  /** A fresh structured report with such a hole among its outcomes. */
  ghost predicate SparseCall(enricher: Enricher, env: Environment, a: Answers) {
    && Calls(enricher, env, a) && !Aborted(a, AFTER_CALL) && a.call.CallReturned? && a.call.output.Structured?
    && Trusted(a.call.output.report, enricher, env) && HoleBeforeFailure(a.call.output.report.outcomes)
  }

  /** A stored valid report with a hole that the check of provenance reaches. */
  ghost predicate SparseHit(enricher: Enricher, env: Environment, a: Answers) {
    && SlotOf(enricher, env, a).Some? && !Aborted(a, AT_READ) && a.read.ReadValue? && a.read.value.Some?
    && IsEnrichmentReport(a.read.value.value, enricher.id, enricher.layer, env.registry)
    && HoleBeforeUncacheable(a.read.value.value.outcomes)
  }

  /** A hole such that everything before it could come from a store. */
  predicate HoleBeforeUncacheable(outcomes: seq<Element<Outcome>>) {
    exists i :: 0 <= i < |outcomes| && outcomes[i].Hole? && forall j :: 0 <= j < i ==> MayBeStored(outcomes[j])
  }

  /** Declared by its source or written by the legacy adapter, with evidence of the same kind. */
  predicate MayBeStored(e: Element<Outcome>) {
    e.Item? ==>
      && (e.value.provenance == Declared || e.value.provenance == LegacyIncomplete)
      && (forall k :: 0 <= k < |e.value.evidence| && e.value.evidence[k].Item? ==> e.value.evidence[k] == Item(e.value.provenance))
  }

  lemma HoleFirstExactly(outcomes: seq<Element<Outcome>>)
    ensures HoleFirst(outcomes) <==> HoleBeforeUncacheable(outcomes)
  {
    forall j | 0 <= j < |outcomes| ensures MayBeStored(outcomes[j]) <==> (outcomes[j].Item? ==> CacheableOutcome(outcomes[j].value)) {
      if outcomes[j].Item? {
        CacheableExactly(outcomes[j].value);
      }
    }
  }

  lemma NilFirstOfClone(raw: Report)
    requires forall i :: 0 <= i < |raw.outcomes| ==> !raw.outcomes[i].Nil?
    ensures NilFirst(CloneReport(raw).outcomes, true) <==> HoleBeforeFailure(raw.outcomes)
  {
    var r := CloneReport(raw).outcomes;
    assert forall j :: 0 <= j < |r| ==> (Stops(r[j], true) <==> raw.outcomes[j].Item? && raw.outcomes[j].value.status == Failure);
    if i :| 0 <= i < |r| && r[i].Nil? && forall j :: 0 <= j < i ==> !Stops(r[j], true) {
      assert raw.outcomes[i].Hole?;
    }
    if i :| 0 <= i < |r| && raw.outcomes[i].Hole? &&
            forall j :: 0 <= j < i ==> !(raw.outcomes[j].Item? && raw.outcomes[j].value.status == Failure) {
      assert r[i].Nil?;
    }
  }

  /** Exactly which answers make a run reject instead of settling. */
  lemma RunThrowsExactly(enricher: Enricher, env: Environment, a: Answers)
    ensures RunThrows(enricher, env, a) <==> SparseHit(enricher, env, a) || SparseCall(enricher, env, a)
  {
    hide CacheSlotFor, IsEnrichmentReport, NilFirst, HoleBeforeFailure, HoleFirst, HoleBeforeUncacheable, CloneReport, Calls;
    if a.read.ReadValue? && a.read.value.Some? {
      HoleFirstExactly(a.read.value.value.outcomes);
    }
    if a.call.CallReturned? {
      var output := a.call.output;
      if output.Structured? && Trusted(output.report, enricher, env) {
        ValidHasNoNil(output.report, enricher, env);
        NilFirstOfClone(output.report);
      } else if output.Findings? && NormalizeOutput(output, enricher, env).Some? {
        OneItem(NormalizeOutput(output, enricher, env).value);
      }
    }
  }

  lemma ValidHasNoNil(report: Report, enricher: Enricher, env: Environment)
    requires IsEnrichmentReport(report, enricher.id, enricher.layer, env.registry)
    ensures forall i :: 0 <= i < |report.outcomes| ==> !report.outcomes[i].Nil?
  {
  }

  lemma OneItem(report: Report)
    requires |report.outcomes| == 1 && report.outcomes[0].Item?
    ensures !NilFirst(report.outcomes, true)
  {
  }

  // ---------- what the fold cannot take ----------

  predicate SparseFindings(o: Outcome) {
    o.status.Success? && !Solid(o.findings)
  }

  /** A gap among the outcomes, or among the findings of a successful one. */
  predicate SparseReport(raw: Report) {
    !Solid(raw.outcomes) ||
    exists i :: 0 <= i < |raw.outcomes| && raw.outcomes[i].Item? && SparseFindings(raw.outcomes[i].value)
  }

  predicate UnfoldableReport(report: Report) {
    !Solid(report.outcomes) || exists i :: 0 <= i < |report.outcomes| && Lossy(report.outcomes[i])
  }

  lemma LossyClone(o: Outcome)
    ensures Lossy(Item(CloneOutcome(o))) <==> SparseFindings(o)
  {
    var c := CloneOutcome(o);
    if j :| 0 <= j < |c.findings| && c.findings[j].Nil? {
      assert !o.findings[j].Item?;
    }
    if j :| 0 <= j < |o.findings| && !o.findings[j].Item? {
      assert c.findings[j].Nil?;
    }
  }

  lemma UnfoldableClone(raw: Report)
    ensures UnfoldableReport(CloneReport(raw)) <==> SparseReport(raw)
  {
    hide Lossy, SparseFindings, CloneOutcome;
    var r := CloneReport(raw);
    if Solid(r.outcomes) {
      forall i | 0 <= i < |raw.outcomes| ensures raw.outcomes[i].Item? {
        assert r.outcomes[i].Item?;
      }
    }
    forall i | 0 <= i < |raw.outcomes| && raw.outcomes[i].Item?
      ensures Lossy(r.outcomes[i]) <==> SparseFindings(raw.outcomes[i].value)
    {
      LossyClone(raw.outcomes[i].value);
    }
    forall i | 0 <= i < |r.outcomes| && Lossy(r.outcomes[i]) ensures raw.outcomes[i].Item? {
      LossyIsItem(r.outcomes[i]);
    }
  }

  lemma LossyIsItem(e: Element<Outcome>)
    requires Lossy(e)
    ensures e.Item?
  {
  }

  /** Degradations are present and carry no findings, so they change nothing. */
  lemma DegradedAlike(report: Report, enricher: Enricher, env: Environment, ds: seq<Degradation>)
    ensures UnfoldableReport(WithDegradations(report, enricher, env, ds)) <==> UnfoldableReport(report)
  {
    hide Completed, Foldable;
    var r, n := WithDegradations(report, enricher, env, ds), |report.outcomes|;
    forall i | n <= i < |r.outcomes| ensures r.outcomes[i].Item? && !Lossy(r.outcomes[i]) {
      assert r.outcomes[n + (i - n)] == Item(DegradationOutcome(enricher, env, ds[i - n]));
    }
    forall i | 0 <= i < n ensures r.outcomes[i] == report.outcomes[i] {
    }
    if Solid(r.outcomes) {
      forall i | 0 <= i < n ensures report.outcomes[i].Item? {
        assert r.outcomes[i].Item?;
      }
    }
    if i :| 0 <= i < n && Lossy(report.outcomes[i]) {
      assert Lossy(r.outcomes[i]);
    }
  }

  /** The report that a run took from its store or from its source. */
  ghost predicate Took(enricher: Enricher, env: Environment, a: Answers, raw: Report) {
    || (&& SlotOf(enricher, env, a).Some? && !Aborted(a, AT_READ) && a.read == ReadValue(Some(raw))
        && NormalizeCachedReport(Some(raw), enricher, env).Usable?)
    || (&& Calls(enricher, env, a) && !Aborted(a, AFTER_CALL) && a.call.CallReturned? && !a.call.output.Malformed?
        && NormalizeOutput(a.call.output, enricher, env).Some? && raw == Raw(a.call.output, enricher, env))
  }

  /** Exactly which settled runs the fold throws on. */
  lemma UnfoldableExactly(enricher: Enricher, env: Environment, a: Answers, run: EnricherRun)
    requires Reports(enricher, env, a, run) && !RunThrows(enricher, env, a)
    ensures Unfoldable(run) <==> exists raw :: Took(enricher, env, a, raw) && SparseReport(raw)
  {
    hide CacheSlotFor, Troubles, UnfoldableReport, SparseReport, CloneReport, NilFirst;
    var source := SourceReport(enricher, env, a);
    DegradedAlike(source, enricher, env, Troubles(enricher, env, a));
    UnfoldableRun(run);
    if raw: Report :| Took(enricher, env, a, raw) {
      TookOne(enricher, env, a, raw);
      UnfoldableClone(raw);
      forall other | Took(enricher, env, a, other) ensures other == raw {
      }
    } else {
      OwnReport(enricher, env, a);
    }
  }

  lemma UnfoldableRun(run: EnricherRun)
    ensures Unfoldable(run) <==> UnfoldableReport(run.report)
  {
  }

  lemma TookOne(enricher: Enricher, env: Environment, a: Answers, raw: Report)
    requires Took(enricher, env, a, raw)
    ensures SourceReport(enricher, env, a) == CloneReport(raw)
  {
    hide CacheSlotFor, CloneReport;
  }

  /** Without such a report the framework speaks for the source, in one present outcome. */
  lemma OwnReport(enricher: Enricher, env: Environment, a: Answers)
    requires !RunThrows(enricher, env, a) && forall raw :: !Took(enricher, env, a, raw)
    ensures !UnfoldableReport(SourceReport(enricher, env, a))
  {
    hide CacheSlotFor, NilFirst;
    if CacheFinishes(enricher, env, a) && a.read.ReadValue? && !Aborted(a, AT_READ) && a.read.value.Some? {
      assert !Took(enricher, env, a, a.read.value.value);
    }
    if Calls(enricher, env, a) && ReadAnswer(enricher, env, a).Accepted? {
      AcceptedIsTaken(enricher, env, a);
      assert false;
    }
  }

  lemma AcceptedIsTaken(enricher: Enricher, env: Environment, a: Answers)
    requires Calls(enricher, env, a) && ReadAnswer(enricher, env, a).Accepted?
    ensures a.call.CallReturned? && !a.call.output.Malformed? && Took(enricher, env, a, Raw(a.call.output, enricher, env))
  {
  }

  // ---------- a world without gaps ----------

  /** Neither the provider nor the store hands over an array with a gap. */
  predicate SolidAnswers(a: Answers) {
    && (a.call.CallReturned? ==> SolidOutput(a.call.output))
    && (a.read.ReadValue? && a.read.value.Some? ==> SolidReport(a.read.value.value))
  }

  lemma SolidIsNotSparse(raw: Report)
    requires SolidReport(raw)
    ensures !SparseReport(raw) && !HoleBeforeUncacheable(raw.outcomes) && !HoleBeforeFailure(raw.outcomes)
  {
    forall i | 0 <= i < |raw.outcomes| ensures raw.outcomes[i].Item? && !SparseFindings(raw.outcomes[i].value) {
      assert SolidOutcome(raw.outcomes[i].value);
    }
  }

  /** Then every run settles and can be folded. */
  lemma SolidRunFolds(enricher: Enricher, env: Environment, a: Answers, run: EnricherRun)
    requires SolidAnswers(a)
    ensures !RunThrows(enricher, env, a)
    ensures Reports(enricher, env, a, run) ==> !Unfoldable(run)
  {
    hide CacheSlotFor, RunThrows, Reports, Unfoldable, SparseReport, HoleBeforeUncacheable, HoleBeforeFailure, SolidReport, Calls;
    if a.read.ReadValue? && a.read.value.Some? {
      SolidIsNotSparse(a.read.value.value);
    }
    if a.call.CallReturned? && !a.call.output.Malformed? {
      SolidIsNotSparse(Raw(a.call.output, enricher, env));
    }
    RunThrowsExactly(enricher, env, a);
    if Reports(enricher, env, a, run) {
      UnfoldableExactly(enricher, env, a, run);
    }
  }

  /** A plan is rejected only over an answer with a gap. */
  lemma RejectionIsSparse(plan: seq<Enricher>, env: Environment, abortedAt: nat -> bool,
                          respond: (nat, seq<Element<Outcome>>) -> Answers,
                          g: Graph, slots: Slots, starts: seq<Start>, when: Times, passes: nat, thrower: nat)
    requires RejectedBy(plan, env, abortedAt, respond, g, slots, starts, when, passes, thrower)
    ensures !SolidAnswers(respond(thrower, Accumulated(slots)))
  {
    hide RunThrows, SolidAnswers, PlanOk, Timeline, ReadyIn;
    var a := respond(thrower, Accumulated(slots));
    if SolidAnswers(a) {
      SolidRunFolds(g.steps[thrower].enricher, env, a, EnricherRun("", Report([])));
    }
  }

  /** And a plan that is not rejected can be folded, so that the whole call returns. */
  lemma SolidPlanFolds(plan: seq<Enricher>, env: Environment, abortedAt: nat -> bool,
                       respond: (nat, seq<Element<Outcome>>) -> Answers, runs: seq<EnricherRun>,
                       g: Graph, starts: seq<Start>, when: Times, passes: nat, aborted: bool, i: nat)
    requires Executed(plan, env, abortedAt, respond, runs, g, starts, when, passes, aborted) && i < |runs|
    requires forall k :: 0 <= k < |starts| ==> SolidAnswers(starts[k].answers)
    ensures !Unfoldable(runs[i])
  {
    hide RunThrows, SolidAnswers, Timeline, IsLeastFixedPoint, Closed, Protocol, Answered, UsableHit, UntroubledCall, Unfoldable,
      NamesCulprits, OnCycle, Foldable, IsBlocked;
    var slots := Settled(runs);
    assert SlotOk(g, env.registry, slots, Indexes(starts), aborted, i);
    if i in Indexes(starts) {
      var k :| 0 <= k < |starts| && starts[k].index == i;
      assert StartOk(g, env, slots, starts, k);
      SolidRunFolds(g.steps[i].enricher, env, starts[k].answers, runs[i]);
    } else {
      SkipFolds(runs[i]);
    }
  }

  lemma SkipFolds(run: EnricherRun)
    ensures (exists code :: IsFrameworkRun(run, code)) ==> !Unfoldable(run)
  {
  }

  // ---------- three inputs ----------

  /** A legacy source that returns an array with a hole: the run settles as complete, but nothing
      can be made of it, and the whole call rejects. */
  lemma HoleAmongFindings(enricher: Enricher, env: Environment, a: Answers, run: EnricherRun)
    requires Calls(enricher, env, a) && !Aborted(a, AFTER_CALL) && a.call == CallReturned(Findings([Hole]))
    requires Reports(enricher, env, a, run)
    ensures !RunThrows(enricher, env, a) && Completed(SourceReport(enricher, env, a)) && Unfoldable(run)
  {
    hide Reports, Unfoldable, CacheSlotFor;
    RunThrowsExactly(enricher, env, a);
    var raw := Raw(a.call.output, enricher, env);
    assert raw.outcomes[0].value.findings[0].Hole?;
    assert SparseFindings(raw.outcomes[0].value) && SparseReport(raw);
    assert Took(enricher, env, a, raw);
    UnfoldableExactly(enricher, env, a, run);
  }

  /** A structured report with a hole among its outcomes: the run throws, and an admitted run
      is recorded neither as a success nor as a failure. */
  lemma HoleAmongOutcomes(enricher: Enricher, env: Environment, a: Answers, events: seq<Event>)
    requires Calls(enricher, env, a) && !Aborted(a, AFTER_CALL) && a.call == CallReturned(Structured(Report([Hole])))
    requires Protocol(enricher, env, a, events)
    ensures RunThrows(enricher, env, a) && RecordSuccess !in events && RecordFailure !in events
    ensures env.hasGovernor ==> Admit in events && a.decision.Admitted?
  {
    hide CacheSlotFor, Calls;
    var outcomes := a.call.output.report.outcomes;
    assert outcomes[0].Hole? && HoleBeforeFailure(outcomes);
    RunThrowsExactly(enricher, env, a);
    ProtocolGuarantees(enricher, env, a, events);
  }

  /** Behind a declared failure the same hole goes unnoticed by the run, but not by the fold. */
  lemma HoleBehindFailure(enricher: Enricher, env: Environment, a: Answers, failure: Outcome, run: EnricherRun)
    requires Calls(enricher, env, a) && !Aborted(a, AFTER_CALL)
    requires a.call == CallReturned(Structured(Report([Item(failure), Hole]))) && failure.status == Failure
    requires Trusted(a.call.output.report, enricher, env) && Reports(enricher, env, a, run)
    ensures !RunThrows(enricher, env, a) && Unfoldable(run)
  {
    hide Reports, Unfoldable, CacheSlotFor;
    var raw := a.call.output.report;
    assert raw.outcomes[0].value.status == Failure && raw.outcomes[1].Hole?;
    RunThrowsExactly(enricher, env, a);
    assert SparseReport(raw) && Took(enricher, env, a, raw);
    UnfoldableExactly(enricher, env, a, run);
  }

  /** A hole among the evidence: accepted, complete and so stored, but refused on its next hit. */
  lemma HoleAmongEvidence(env: Environment)
    ensures var enricher := Enricher("x", Resolution, Absent, Undefined, Undefined, NoResolver);
      var output := Structured(Report([Item(Outcome("x", Resolution, Success, env.subject, Declared, [Hole], [], None))]));
      var stored := NormalizeOutput(output, enricher, env);
      && stored.Some? && Completed(stored.value)
      && NormalizeCachedReport(stored, enricher, env) == Unusable
  {
    var enricher := Enricher("x", Resolution, Absent, Undefined, Undefined, NoResolver);
    var o := Outcome("x", Resolution, Success, env.subject, Declared, [Hole], [], None);
    assert !IsWhite("x"[0]);
    assert IsEnrichmentOutcome(o, "x", Resolution, env.registry);
    var stored := NormalizeOutput(Structured(Report([Item(o)])), enricher, env).value;
    assert stored.outcomes[0].value.evidence[0].Nil?;
    assert !IsEnrichmentReport(stored, "x", Resolution, env.registry);
  }
}
