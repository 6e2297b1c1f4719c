/** The synchronous base result (packages/core/src/schema/serialize.ts) and the fold of the
    enrichment runs back onto it (inspectAsync, packages/core/src/inspect-async.ts). */
module InspectAsync {
  import opened Wrappers
  import opened EnrichmentSchema
  import opened Normalization
  import opened SourceRunner
  import opened CycleFinder
  import opened EnrichmentPlan
  import opened PlanTimeline
  import opened PlanExecution
  import opened Scoring

  datatype InspectResult = InspectResult(
    ok: bool,
    score: Option<real>,
    confidence: real,
    reasons: seq<Reason>,
    confusables: seq<Element<Confusable>>,
    checksRun: seq<string>,
    checksSkipped: seq<string>,
    enrichment: Option<seq<Element<Outcome>>>)

  const PLACEHOLDERS: seq<string> := ["resolution", "reputation"]

  /** What the synchronous inspection promises: parseable input carries the score of its
      reasons, invalid input stays unscored, and the verdict is fully confident. */
  ghost predicate IsInspection(r: InspectResult) {
    && (r.ok ==> r.score == Some(Score(r.reasons)))
    && (!r.ok ==> r.score.None?)
    && r.confidence == 1.0 && WeightsOk(r.reasons) && r.enrichment.None?
    && (forall p :: p in PLACEHOLDERS ==> p in r.checksSkipped)
  }

  /** What a detector or a policy reports: a registered code, its detail and its expansion. */
  datatype Collected = Collected(code: string, detail: string, confusables: seq<Element<Confusable>>)

  ghost predicate Known(findings: seq<Collected>, registry: Registry) {
    forall i :: 0 <= i < |findings| ==> findings[i].code in registry && registry[findings[i].code] <= 1.0
  }

  /** Weight comes from the registry. */
  function Built(findings: seq<Collected>, registry: Registry): (reasons: seq<Reason>)
    requires Known(findings, registry)
    ensures |reasons| == |findings| && WeightsOk(reasons)
    ensures forall i :: 0 <= i < |findings| ==>
      reasons[i] == Reason(findings[i].code, findings[i].detail, registry[findings[i].code], false)
  {
    seq(|findings|, i requires 0 <= i < |findings| =>
      Reason(findings[i].code, findings[i].detail, registry[findings[i].code], false))
  }

  /** `flatMap` over lists. */
  function Flatten(lists: seq<seq<Element<Confusable>>>): (flat: seq<Element<Confusable>>)
    ensures forall c :: c in flat <==> exists i :: 0 <= i < |lists| && c in lists[i]
  {
    if lists == [] then [] else
      assert forall i :: 0 <= i < |lists| ==> lists[i] == if i < |lists| - 1 then lists[..|lists| - 1][i] else lists[|lists| - 1];
      Flatten(lists[..|lists| - 1]) + lists[|lists| - 1]
  }

  function Expansion(findings: seq<Collected>): seq<Element<Confusable>> {
    Flatten(seq(|findings|, i requires 0 <= i < |findings| => findings[i].confusables))
  }

  /** The result for parseable input. Suppression comes before sorting and scoring. */
  method BuildOkResult(findings: seq<Collected>, policyFindings: seq<Collected>, registry: Registry,
                       rules: seq<SuppressionRule>, host: Option<string>, skippedDetectors: seq<string>,
                       policyRan: bool, agentRan: bool, suppressRan: bool)
    returns (r: InspectResult)
    requires Known(findings + policyFindings, registry)
    ensures IsInspection(r) && r.ok && Sorted(r.reasons) && r.confidence == 1.0 && r.enrichment == None
    ensures multiset(r.reasons) == multiset(ApplySuppressions(Built(findings + policyFindings, registry), rules, host))
    ensures r.score == Some(Score(Unmatched(Built(findings + policyFindings, registry), rules, host)))
    ensures r.confusables == Expansion(findings) && r.checksSkipped == skippedDetectors + PLACEHOLDERS
    ensures forall t :: t in r.checksRun <==>
      t == "lexical" || (t == "policy" && policyRan) || (t == "agent" && agentRan) || (t == "suppression" && suppressRan)
  {
    hide Flatten, Inverse, RoundTenPlaces, Sorted, Unmatched, ApplySuppressions;
    var built := Built(findings + policyFindings, registry);
    var annotated := ApplySuppressions(built, rules, host);
    var reasons := SortReasons(annotated);
    var score := Aggregate(reasons);
    InversePermutes(reasons, annotated);
    SuppressedInverse(built, rules, host);
    WeightsPermute(annotated, reasons);
    var checksRun := Channels(policyRan, agentRan, suppressRan);
    r := InspectResult(true, Some(score), 1.0, reasons, Expansion(findings), checksRun, skippedDetectors + PLACEHOLDERS, None);
  }

  /** Channel tokens in their fixed order. */
  method Channels(policyRan: bool, agentRan: bool, suppressRan: bool) returns (checksRun: seq<string>)
    ensures forall t :: t in checksRun <==>
      t == "lexical" || (t == "policy" && policyRan) || (t == "agent" && agentRan) || (t == "suppression" && suppressRan)
  {
    checksRun := ["lexical"];
    if policyRan {
      checksRun := checksRun + ["policy"];
    }
    if agentRan {
      checksRun := checksRun + ["agent"];
    }
    if suppressRan {
      checksRun := checksRun + ["suppression"];
    }
  }

  const PARSE_ERROR_DETAIL: string := "input is not a parseable URL or hostname"

  /** The result for anything else: without findings of its own it names a parse error. */
  method BuildInvalidResult(findings: seq<Collected>, registry: Registry, parseErrorDetail: Option<string>, optionSkipped: seq<string>)
    returns (r: InspectResult)
    requires Known(findings, registry)
    ensures IsInspection(r) && !r.ok && Sorted(r.reasons) && r.reasons != []
    ensures r.score == None && r.confidence == 1.0 && r.enrichment == None
    ensures findings != [] ==>
      && multiset(r.reasons) == multiset(Built(findings, registry)) && r.confusables == Expansion(findings)
      && r.checksRun == ["lexical"] && r.checksSkipped == optionSkipped + PLACEHOLDERS
    ensures findings == [] ==>
      && |r.reasons| == 1 && r.reasons[0].code == "parse_error" && r.reasons[0].weight == 0.0
      && r.reasons[0].detail == (if parseErrorDetail.Some? then parseErrorDetail.value else PARSE_ERROR_DETAIL)
      && r.confusables == [] && r.checksRun == [] && r.checksSkipped == optionSkipped + ["lexical"] + PLACEHOLDERS
  {
    var built := Built(findings, registry);
    if findings == [] {
      var detail := if parseErrorDetail.Some? then parseErrorDetail.value else PARSE_ERROR_DETAIL;
      r := InspectResult(false, None, 1.0, [Reason("parse_error", detail, 0.0, false)], [], [],
                         optionSkipped + ["lexical"] + PLACEHOLDERS, None);
    } else {
      var sorted := SortReasons(built);
      WeightsPermute(built, sorted);
      assert |multiset(sorted)| == |multiset(built)|;
      r := InspectResult(false, None, 1.0, sorted, Expansion(findings), ["lexical"], optionSkipped + PLACEHOLDERS, None);
    }
  }

  lemma WeightsPermute(a: seq<Reason>, b: seq<Reason>)
    requires multiset(a) == multiset(b) && WeightsOk(a)
    ensures WeightsOk(b)
  {
    forall i | 0 <= i < |b| ensures b[i].weight <= 1.0 {
      assert b[i] in multiset(a);
    }
  }

  // ---------- the fold ----------

  /** A finding with the subject of its outcome; null where the array had a hole. */
  datatype Attributed = Attributed(finding: Element<Finding>, subject: Subject)

  function Attribute(findings: seq<Element<Finding>>, subject: Subject): seq<Attributed> {
    seq(|findings|, i requires 0 <= i < |findings| => Attributed(findings[i], subject))
  }

  function Contribution(e: Element<Outcome>): seq<Attributed> {
    if e.Item? && e.value.status.Success? then Attribute(e.value.findings, e.value.subject) else []
  }

  /** Only successful outcomes contribute findings. */
  function FindingsOf(outcomes: seq<Element<Outcome>>): seq<Attributed> {
    if outcomes == [] then [] else FindingsOf(outcomes[..|outcomes| - 1]) + Contribution(outcomes[|outcomes| - 1])
  }

  function OutcomesOf(runs: seq<EnricherRun>): seq<Element<Outcome>> {
    if runs == [] then [] else OutcomesOf(runs[..|runs| - 1]) + runs[|runs| - 1].report.outcomes
  }

  predicate SomeComplete(run: EnricherRun) {
    exists i :: 0 <= i < |run.report.outcomes| && run.report.outcomes[i].Item? && IsComplete(run.report.outcomes[i].value.status)
  }

  predicate SomeIncomplete(run: EnricherRun) {
    exists i :: 0 <= i < |run.report.outcomes| && run.report.outcomes[i].Item? && !IsComplete(run.report.outcomes[i].value.status)
  }

  lemma {:induction false} FindingsConcat(a: seq<Element<Outcome>>, b: seq<Element<Outcome>>)
    ensures FindingsOf(a + b) == FindingsOf(a) + FindingsOf(b)
  {
    hide Contribution;
    if b == [] {
      assert a + b == a;
    } else {
      assert (a + b)[..|a + b| - 1] == a + b[..|b| - 1];
      FindingsConcat(a, b[..|b| - 1]);
    }
  }

  lemma NothingFrom(o: Outcome)
    requires !o.status.Success?
    ensures FindingsOf([Item(o)]) == []
  {
    assert [Item(o)][..0] == [];
  }

  /** A successful outcome contributes each of its findings, in order, under its own subject. */
  lemma SuccessContributes(o: Outcome)
    requires o.status == Success
    ensures var fs := FindingsOf([Item(o)]);
      |fs| == |o.findings| && forall j :: 0 <= j < |fs| ==> fs[j].finding == o.findings[j] && fs[j].subject == o.subject
  {
    assert [Item(o)][..0] == [];
    assert FindingsOf([Item(o)]) == Attribute(o.findings, o.subject);
  }

  /** A skipped, failed or no-hit outcome contributes nothing, wherever it stands. */
  lemma OnlySuccessContributes(a: seq<Element<Outcome>>, o: Outcome, b: seq<Element<Outcome>>)
    requires !o.status.Success?
    ensures FindingsOf(a + [Item(o)] + b) == FindingsOf(a + b)
  {
    hide FindingsOf;
    FindingsConcat(a + [Item(o)], b);
    FindingsConcat(a, [Item(o)]);
    FindingsConcat(a, b);
    NothingFrom(o);
  }

  /** Present findings are registered; the others are null. */
  ghost predicate ReadableFindings(findings: seq<Attributed>, registry: Registry) {
    forall i :: 0 <= i < |findings| ==>
      findings[i].finding.Nil? || (findings[i].finding.Item? && Registered(findings[i].finding.value, registry))
  }

  ghost predicate ValidFindings(findings: seq<Attributed>, registry: Registry) {
    forall i :: 0 <= i < |findings| ==> findings[i].finding.Item? && Registered(findings[i].finding.value, registry)
  }

  lemma {:induction false} ShapedFindings(outcomes: seq<Element<Outcome>>, registry: Registry)
    requires forall i :: 0 <= i < |outcomes| && outcomes[i].Item? ==> OutcomeShaped(outcomes[i].value, registry)
    ensures ReadableFindings(FindingsOf(outcomes), registry)
  {
    if outcomes != [] {
      ShapedFindings(outcomes[..|outcomes| - 1], registry);
    }
  }

  // ---------- gaps ----------

  predicate HasNil(findings: seq<Attributed>) {
    exists i :: 0 <= i < |findings| && findings[i].finding.Nil?
  }

  /** A successful outcome one of whose findings is null. */
  predicate Lossy(e: Element<Outcome>) {
    e.Item? && e.value.status.Success? && exists j :: 0 <= j < |e.value.findings| && e.value.findings[j].Nil?
  }

  predicate LossyRun(run: EnricherRun) {
    exists i :: 0 <= i < |run.report.outcomes| && Lossy(run.report.outcomes[i])
  }

  /** Folding such a run throws: it has a null outcome, or a null finding that would count. */
  predicate Unfoldable(run: EnricherRun) {
    !Solid(run.report.outcomes) || LossyRun(run)
  }

  lemma NilConcat(a: seq<Attributed>, b: seq<Attributed>)
    ensures HasNil(a + b) <==> HasNil(a) || HasNil(b)
  {
    var c := a + b;
    if i :| 0 <= i < |a| && a[i].finding.Nil? {
      assert c[i].finding.Nil?;
    }
    if i :| 0 <= i < |b| && b[i].finding.Nil? {
      assert c[|a| + i].finding.Nil?;
    }
  }

  lemma {:induction false} NilComesFromLossy(outcomes: seq<Element<Outcome>>)
    ensures HasNil(FindingsOf(outcomes)) <==> exists i :: 0 <= i < |outcomes| && Lossy(outcomes[i])
  {
    hide Lossy, Contribution;
    if outcomes != [] {
      var n := |outcomes| - 1;
      var before, last := outcomes[..n], outcomes[n];
      NilComesFromLossy(before);
      NilConcat(FindingsOf(before), Contribution(last));
      NilOfOne(last);
      if i :| 0 <= i < |before| && Lossy(before[i]) {
        assert Lossy(outcomes[i]);
      }
      if i :| 0 <= i < |outcomes| && Lossy(outcomes[i]) {
        assert i < n ==> Lossy(before[i]);
      }
    }
  }

  lemma NilOfOne(e: Element<Outcome>)
    ensures HasNil(Contribution(e)) <==> Lossy(e)
  {
    if Lossy(e) {
      var j :| 0 <= j < |e.value.findings| && e.value.findings[j].Nil?;
      assert Contribution(e)[j].finding.Nil?;
    }
  }

  /** Which runs a token list stands for. */
  ghost predicate ListsTokens(tokens: seq<string>, runs: seq<EnricherRun>, complete: bool) {
    forall t :: t in tokens <==> exists i :: 0 <= i < |runs| && Listed(runs, i, t, complete)
  }

  ghost predicate Listed(runs: seq<EnricherRun>, i: nat, t: string, complete: bool) {
    i < |runs| && runs[i].token == t && (if complete then SomeComplete(runs[i]) else SomeIncomplete(runs[i]))
  }

  lemma ListsStep(tokens: seq<string>, runs: seq<EnricherRun>, run: EnricherRun, complete: bool)
    requires ListsTokens(tokens, runs, complete)
    ensures ListsTokens(if (if complete then SomeComplete(run) else SomeIncomplete(run)) then tokens + [run.token] else tokens,
                        runs + [run], complete)
  {
    var more := runs + [run];
    var tokens' := if (if complete then SomeComplete(run) else SomeIncomplete(run)) then tokens + [run.token] else tokens;
    forall t ensures t in tokens' <==> exists i :: 0 <= i < |more| && Listed(more, i, t, complete) {
      if t in tokens {
        var i :| 0 <= i < |runs| && Listed(runs, i, t, complete);
        assert Listed(more, i, t, complete);
      } else if t in tokens' {
        assert Listed(more, |runs|, t, complete);
      }
      if i :| 0 <= i < |more| && Listed(more, i, t, complete) {
        assert i < |runs| ==> Listed(runs, i, t, complete);
      }
    }
  }

  /** Folding the runs in plan order; a null outcome makes it throw. A token counts as run when
      some outcome completed, as skipped when some did not, and so every token lands in at least
      one list. */
  method FoldRuns(runs: seq<EnricherRun>, registry: Registry)
    returns (threw: bool, outcomes: seq<Element<Outcome>>, runTokens: seq<string>, skippedTokens: seq<string>, findings: seq<Attributed>)
    requires forall i :: 0 <= i < |runs| ==> Foldable(runs[i].report, registry)
    ensures threw <==> exists i :: 0 <= i < |runs| && !Solid(runs[i].report.outcomes)
    ensures !threw ==> outcomes == OutcomesOf(runs) && findings == FindingsOf(outcomes)
    ensures !threw ==> ListsTokens(runTokens, runs, true) && ListsTokens(skippedTokens, runs, false)
    ensures !threw ==> ReadableFindings(findings, registry)
    ensures !threw ==> (HasNil(findings) <==> exists i :: 0 <= i < |runs| && LossyRun(runs[i]))
    ensures !threw ==> forall i :: 0 <= i < |runs| ==> runs[i].token in runTokens || runs[i].token in skippedTokens
  {
    hide Solid, LossyRun, HasNil, OutcomeShaped, Foldable, FindingsOf, OutcomesOf, SomeComplete, SomeIncomplete, ListsTokens, Listed,
      ReadableFindings;
    FoldStarts(runs);
    threw, outcomes, runTokens, skippedTokens, findings := false, [], [], [], [];
    for k := 0 to |runs|
      invariant outcomes == OutcomesOf(runs[..k]) && findings == FindingsOf(outcomes)
      invariant ListsTokens(runTokens, runs[..k], true) && ListsTokens(skippedTokens, runs[..k], false)
      invariant forall i :: 0 <= i < |outcomes| && outcomes[i].Item? ==> OutcomeShaped(outcomes[i].value, registry)
      invariant forall i :: 0 <= i < k ==> Solid(runs[i].report.outcomes)
      invariant HasNil(findings) <==> exists i :: 0 <= i < k && LossyRun(runs[i])
    {
      var run := runs[k];
      assert runs[..k + 1] == runs[..k] + [run];
      OutcomesGrow(runs[..k], run);
      ShapedRun(run, registry);
      ListsStep(runTokens, runs[..k], run, true);
      ListsStep(skippedTokens, runs[..k], run, false);
      FindingsConcat(outcomes, run.report.outcomes);
      outcomes := outcomes + run.report.outcomes;
      if SomeComplete(run) {
        runTokens := runTokens + [run.token];
      }
      if SomeIncomplete(run) {
        skippedTokens := skippedTokens + [run.token];
      }
      var nil, more := CollectFindings(run.report.outcomes);
      if nil {
        threw := true;
        return;
      }
      NilOfRun(run);
      NilConcat(findings, more);
      findings := findings + more;
    }
    assert runs[..|runs|] == runs;
    ShapedFindings(outcomes, registry);
    forall i | 0 <= i < |runs| ensures runs[i].token in runTokens || runs[i].token in skippedTokens {
      FirstCounts(runs, i, registry, runTokens, skippedTokens);
    }
  }

  lemma FoldStarts(runs: seq<EnricherRun>)
    ensures OutcomesOf(runs[..0]) == [] && FindingsOf([]) == [] && !HasNil([])
    ensures ListsTokens([], runs[..0], true) && ListsTokens([], runs[..0], false)
  {
  }

  lemma OutcomesGrow(runs: seq<EnricherRun>, run: EnricherRun)
    ensures OutcomesOf(runs + [run]) == OutcomesOf(runs) + run.report.outcomes
  {
    assert (runs + [run])[..|runs|] == runs;
  }

  lemma ShapedRun(run: EnricherRun, registry: Registry)
    requires Foldable(run.report, registry)
    ensures forall i :: 0 <= i < |run.report.outcomes| ==> !run.report.outcomes[i].Hole?
    ensures forall i :: 0 <= i < |run.report.outcomes| && run.report.outcomes[i].Item? ==>
      OutcomeShaped(run.report.outcomes[i].value, registry)
  {
  }

  lemma NilOfRun(run: EnricherRun)
    ensures HasNil(FindingsOf(run.report.outcomes)) <==> LossyRun(run)
  {
    NilComesFromLossy(run.report.outcomes);
  }

  lemma FirstCounts(runs: seq<EnricherRun>, i: nat, registry: Registry, runTokens: seq<string>, skippedTokens: seq<string>)
    requires i < |runs| && Foldable(runs[i].report, registry) && Solid(runs[i].report.outcomes)
    requires ListsTokens(runTokens, runs, true) && ListsTokens(skippedTokens, runs, false)
    ensures runs[i].token in runTokens || runs[i].token in skippedTokens
  {
    assert runs[i].report.outcomes[0].Item?;
    assert Listed(runs, i, runs[i].token, true) || Listed(runs, i, runs[i].token, false);
  }

  /** The inner loop: it reads the status of every outcome. */
  method CollectFindings(outcomes: seq<Element<Outcome>>) returns (threw: bool, findings: seq<Attributed>)
    requires forall i :: 0 <= i < |outcomes| ==> !outcomes[i].Hole?
    ensures threw <==> !Solid(outcomes)
    ensures !threw ==> findings == FindingsOf(outcomes)
  {
    threw, findings := false, [];
    for k := 0 to |outcomes|
      invariant findings == FindingsOf(outcomes[..k]) && forall i :: 0 <= i < k ==> outcomes[i].Item?
    {
      assert outcomes[..k + 1][..k] == outcomes[..k];
      if outcomes[k].Nil? {
        return true, [];
      }
      if outcomes[k].value.status.Success? {
        findings := findings + Attribute(outcomes[k].value.findings, outcomes[k].value.subject);
      }
    }
    assert outcomes[..|outcomes|] == outcomes;
  }

  /** Weight comes from the registry, never from the source; suppression is judged against
      the subject of the finding's own outcome. */
  function Project(a: Attributed, registry: Registry, rules: seq<SuppressionRule>, hostOf: Subject -> Option<string>): (r: Reason)
    requires a.finding.Item? && a.finding.value.code in registry
    ensures r.code == a.finding.value.code && r.detail == a.finding.value.detail
    ensures r.suppressed <==> RuleFor(rules, a.finding.value.code, hostOf(a.subject))
    ensures r.weight == if RuleFor(rules, a.finding.value.code, hostOf(a.subject)) then 0.0 else registry[a.finding.value.code]
  {
    var f := a.finding.value;
    ApplySuppressions([Reason(f.code, f.detail, registry[f.code], false)], rules, hostOf(a.subject))[0]
  }

  /** Some rule has this code and either no host or this one. */
  predicate RuleFor(rules: seq<SuppressionRule>, code: string, host: Option<string>) {
    exists i :: 0 <= i < |rules| && rules[i].code == code && (rules[i].host == None || rules[i].host == host)
  }

  function Projections(findings: seq<Attributed>, registry: Registry, rules: seq<SuppressionRule>, hostOf: Subject -> Option<string>): (rs: seq<Reason>)
    requires ValidFindings(findings, registry)
    ensures |rs| == |findings|
    ensures forall i :: 0 <= i < |rs| ==> rs[i] == Project(findings[i], registry, rules, hostOf)
  {
    seq(|findings|, i requires 0 <= i < |findings| => Project(findings[i], registry, rules, hostOf))
  }

  lemma ProjectionWeights(findings: seq<Attributed>, registry: Registry, rules: seq<SuppressionRule>, hostOf: Subject -> Option<string>)
    requires ValidFindings(findings, registry) && forall c :: c in registry ==> registry[c] <= 1.0
    ensures WeightsOk(Projections(findings, registry, rules, hostOf))
  {
  }

  /** The reasons of the findings that no rule matches. */
  function Effective(findings: seq<Attributed>, registry: Registry, rules: seq<SuppressionRule>, hostOf: Subject -> Option<string>): seq<Reason>
    requires ValidFindings(findings, registry)
  {
    if findings == [] then [] else
      var rest, a := Effective(findings[..|findings| - 1], registry, rules, hostOf), findings[|findings| - 1];
      var f := a.finding.value;
      if RuleFor(rules, f.code, hostOf(a.subject)) then rest else rest + [Reason(f.code, f.detail, registry[f.code], false)]
  }

  lemma {:induction false} EffectiveInverse(findings: seq<Attributed>, registry: Registry, rules: seq<SuppressionRule>, hostOf: Subject -> Option<string>)
    requires ValidFindings(findings, registry)
    ensures Inverse(Projections(findings, registry, rules, hostOf)) == Inverse(Effective(findings, registry, rules, hostOf))
  {
    hide Scoring.Times, Inverse, Factor, RuleFor;
    if findings == [] {
      assert Projections(findings, registry, rules, hostOf) == [];
    } else {
      var n := |findings| - 1;
      var before, a := findings[..n], findings[n];
      EffectiveInverse(before, registry, rules, hostOf);
      var rest, r := Projections(before, registry, rules, hostOf), Project(a, registry, rules, hostOf);
      assert Projections(findings, registry, rules, hostOf) == rest + [r];
      InverseAppend(rest, r);
      InverseAppend(Effective(before, registry, rules, hostOf), Reason(a.finding.value.code, a.finding.value.detail, registry[a.finding.value.code], false));
      NoFactor();
      TimesOne(Inverse(rest));
    }
  }

  lemma NoFactor()
    ensures Factor(0.0) == 1.0
  {
  }

  /** The fold law: the score is that of the base reasons and of the findings no rule matches. */
  lemma FoldScore(base: InspectResult, r: InspectResult, findings: seq<Attributed>, registry: Registry,
                  rules: seq<SuppressionRule>, hostOf: Subject -> Option<string>)
    requires base.ok && Layered(base, r, findings) && Merged(base, r, findings, registry, rules, hostOf)
    ensures r.score == Some(Score(base.reasons + Effective(findings, registry, rules, hostOf)))
  {
    hide Inverse, Projections, Effective, MinConfidence;
    var added := Projections(findings, registry, rules, hostOf);
    InversePermutes(r.reasons, base.reasons + added);
    InverseConcat(base.reasons, added);
    InverseConcat(base.reasons, Effective(findings, registry, rules, hostOf));
    EffectiveInverse(findings, registry, rules, hostOf);
  }

  /** A rule for one host leaves a finding about another alone: only rules without a host, or for
      the host of the finding's own subject, can suppress it. */
  lemma OtherHostsUntouched(a: Attributed, registry: Registry, rules: seq<SuppressionRule>, hostOf: Subject -> Option<string>)
    requires a.finding.Item? && a.finding.value.code in registry
    requires forall i :: 0 <= i < |rules| ==> rules[i].host.Some? && rules[i].host != hostOf(a.subject)
    ensures Project(a, registry, rules, hostOf) ==
      Reason(a.finding.value.code, a.finding.value.detail, registry[a.finding.value.code], false)
  {
  }

  function Discovered(findings: seq<Attributed>): seq<Element<Confusable>> {
    Flatten(seq(|findings|, i requires 0 <= i < |findings| =>
      if findings[i].finding.Item? then findings[i].finding.value.confusables else []))
  }

  function ConfidenceOf(f: Element<Finding>): real {
    if f.Item? && f.value.confidence.Some? then f.value.confidence.value else 1.0
  }

  /** The confusables of the findings, in order. */
  lemma DiscoveredInOrder(a: seq<Attributed>, f: Finding, subject: Subject)
    ensures Discovered(a + [Attributed(Item(f), subject)]) == Discovered(a) + f.confusables
    ensures Discovered([]) == []
  {
    var all := a + [Attributed(Item(f), subject)];
    var lists := seq(|all|, i requires 0 <= i < |all| => if all[i].finding.Item? then all[i].finding.value.confusables else []);
    assert lists[..|a|] == seq(|a|, i requires 0 <= i < |a| => if a[i].finding.Item? then a[i].finding.value.confusables else []);
  }

  /** `Math.min` over the base and every finding. */
  function MinConfidence(base: real, findings: seq<Attributed>): (m: real)
    ensures m <= base && (forall i :: 0 <= i < |findings| ==> m <= ConfidenceOf(findings[i].finding))
    ensures m == base || exists i :: 0 <= i < |findings| && m == ConfidenceOf(findings[i].finding)
  {
    if findings == [] then base else
      var rest, c := MinConfidence(base, findings[..|findings| - 1]), ConfidenceOf(findings[|findings| - 1].finding);
      if c < rest then c else rest
  }

  /** Confidence falls only to what a finding states; one that states none does not lower it. */
  lemma ConfidenceExactly(base: real, findings: seq<Attributed>)
    requires base <= 1.0
    ensures MinConfidence(base, findings) < base ==>
      exists i :: 0 <= i < |findings| && findings[i].finding.Item? &&
        findings[i].finding.value.confidence == Some(MinConfidence(base, findings))
    ensures forall i :: 0 <= i < |findings| && findings[i].finding.Item? && findings[i].finding.value.confidence.Some? ==>
      MinConfidence(base, findings) <= findings[i].finding.value.confidence.value
  {
    hide MinConfidence;
    forall i | 0 <= i < |findings| && findings[i].finding.Item? && findings[i].finding.value.confidence.Some?
      ensures MinConfidence(base, findings) <= findings[i].finding.value.confidence.value
    {
      assert MinConfidence(base, findings) <= ConfidenceOf(findings[i].finding);
    }
  }

  /** The placeholder of a layer is a configured one exactly when some enricher has that layer. */
  lemma PlaceholderExactly(plan: seq<Enricher>, token: string)
    ensures IsConfiguredPlaceholder(plan, token) <==>
      || (token == "resolution" && exists i :: 0 <= i < |plan| && plan[i].layer == Resolution)
      || (token == "reputation" && exists i :: 0 <= i < |plan| && plan[i].layer == Reputation)
  {
    assert "resolution"[2] != "reputation"[2];
    assert PLACEHOLDERS[0] == "resolution" && PLACEHOLDERS[1] == "reputation";
    if token == "resolution" || token == "reputation" {
      assert token in PLACEHOLDERS;
    }
  }

  predicate IsConfiguredPlaceholder(plan: seq<Enricher>, token: string) {
    token in PLACEHOLDERS && exists i :: 0 <= i < |plan| && LayerName(plan[i].layer) == token
  }

  /** Drop the placeholder of a configured layer; keep everything else, in order. */
  function KeepUnconfigured(plan: seq<Enricher>, tokens: seq<string>): (kept: seq<string>)
    ensures forall t :: t in kept <==> t in tokens && !IsConfiguredPlaceholder(plan, t)
    ensures forall t :: multiset(kept)[t] == if IsConfiguredPlaceholder(plan, t) then 0 else multiset(tokens)[t]
  {
    if tokens == [] then [] else
      var rest, last := KeepUnconfigured(plan, tokens[..|tokens| - 1]), tokens[|tokens| - 1];
      assert tokens == tokens[..|tokens| - 1] + [last];
      if IsConfiguredPlaceholder(plan, last) then rest else rest + [last]
  }

  /** Order is kept: what is kept of two lists is kept of each, in turn. */
  lemma {:induction false} KeepsOrder(plan: seq<Enricher>, a: seq<string>, b: seq<string>)
    ensures KeepUnconfigured(plan, a + b) == KeepUnconfigured(plan, a) + KeepUnconfigured(plan, b)
  {
    if b == [] {
      assert a + b == a;
    } else {
      assert (a + b)[..|a + b| - 1] == a + b[..|b| - 1];
      KeepsOrder(plan, a, b[..|b| - 1]);
    }
  }

  /** How enrichment may change a verdict. */
  ghost predicate Layered(base: InspectResult, r: InspectResult, findings: seq<Attributed>) {
    // an ok score never falls and stays a probability; invalid input stays unscored
    && r.ok == base.ok
    && (base.ok ==> base.score.Some? && r.score.Some? && base.score.value <= r.score.value <= 1.0)
    && (base.ok ==> r.score == Some(Score(r.reasons)))
    && (!base.ok ==> r.score.None?)
    // confidence never rises, and falls only to that of a finding
    && r.confidence == MinConfidence(base.confidence, findings)
    // without findings nothing about the verdict changes
    && (findings == [] ==> r.score == base.score && r.confidence == base.confidence && multiset(r.reasons) == multiset(base.reasons))
  }

  /** Every configured source is visible, and an unconfigured layer keeps its placeholder. */
  ghost predicate NeverSilentlyClean(base: InspectResult, r: InspectResult, plan: seq<Enricher>) {
    && (forall i :: 0 <= i < |plan| ==> CheckToken(plan[i]) in r.checksRun || CheckToken(plan[i]) in r.checksSkipped)
    && (forall t :: t in base.checksSkipped && !IsConfiguredPlaceholder(plan, t) ==> t in r.checksSkipped)
    && (forall t :: t in base.checksRun ==> t in r.checksRun)
  }

  /** A token counts as run, or as skipped, exactly when the base said so or a run earned it. */
  ghost predicate ListsChecks(base: InspectResult, r: InspectResult, plan: seq<Enricher>, runs: seq<EnricherRun>) {
    && (forall t :: t in r.checksRun <==> t in base.checksRun || exists i :: 0 <= i < |runs| && Listed(runs, i, t, true))
    && (forall t :: t in r.checksSkipped <==>
          (t in base.checksSkipped && !IsConfiguredPlaceholder(plan, t)) ||
          exists i :: 0 <= i < |runs| && Listed(runs, i, t, false))
  }

  /** Each finding adds one reason, and its confusables come after the base's. */
  ghost predicate Merged(base: InspectResult, r: InspectResult, findings: seq<Attributed>, registry: Registry,
                         rules: seq<SuppressionRule>, hostOf: Subject -> Option<string>)
  {
    && ValidFindings(findings, registry)
    && multiset(r.reasons) == multiset(base.reasons + Projections(findings, registry, rules, hostOf))
    && r.confusables == base.confusables + Discovered(findings)
  }

  /** A run of nothing but successes and no-hits is listed as run, and not as skipped. */
  lemma CleanRunIsListed(base: InspectResult, r: InspectResult, plan: seq<Enricher>, runs: seq<EnricherRun>, i: nat)
    requires ListsChecks(base, r, plan, runs) && i < |runs| && runs[i].report.outcomes != []
    requires forall k :: 0 <= k < |runs[i].report.outcomes| ==>
      && runs[i].report.outcomes[k].Item?
      && (runs[i].report.outcomes[k].value.status == Success || runs[i].report.outcomes[k].value.status == NoHit)
    ensures runs[i].token in r.checksRun
    ensures runs[i].token !in base.checksSkipped && (forall j: nat :: j < |runs| && runs[j].token == runs[i].token ==> j == i) ==>
      runs[i].token !in r.checksSkipped
  {
    hide IsConfiguredPlaceholder;
    assert runs[i].report.outcomes[0].Item?;
    assert Listed(runs, i, runs[i].token, true);
    assert !SomeIncomplete(runs[i]);
  }

  /** And one with a skipped or failed outcome is listed as skipped. */
  lemma DegradedRunIsListed(base: InspectResult, r: InspectResult, plan: seq<Enricher>, runs: seq<EnricherRun>, i: nat, k: nat)
    requires ListsChecks(base, r, plan, runs) && i < |runs| && k < |runs[i].report.outcomes| && runs[i].report.outcomes[k].Item?
    requires runs[i].report.outcomes[k].value.status == Skipped || runs[i].report.outcomes[k].value.status == Failure
    ensures runs[i].token in r.checksSkipped
  {
    hide IsConfiguredPlaceholder;
    assert Listed(runs, i, runs[i].token, false);
  }

  /** Folds settled runs onto the base result, or throws: exactly when some run has a null outcome
      or a null finding in a successful outcome. */
  method FoldResult(base: InspectResult, plan: seq<Enricher>, env: Environment, runs: seq<EnricherRun>,
                    rules: seq<SuppressionRule>, hostOf: Subject -> Option<string>)
    returns (r: Option<InspectResult>)
    requires IsInspection(base) && |runs| == |plan|
    requires forall c :: c in env.registry ==> env.registry[c] <= 1.0
    requires forall i :: 0 <= i < |runs| ==> runs[i].token == CheckToken(plan[i]) && Foldable(runs[i].report, env.registry)
    ensures r.None? <==> exists i :: 0 <= i < |runs| && Unfoldable(runs[i])
    ensures r.Some? ==> Folded(base, r.value, plan, env, runs, rules, hostOf)
  {
    hide Foldable, OutcomesOf, FindingsOf, Flatten, Score, Sorted, ListsTokens, ReadableFindings, MinConfidence,
      IsConfiguredPlaceholder, KeepUnconfigured, Project, Projections, CheckToken, LossyRun, Solid;
    var threw, outcomes, runTokens, skippedTokens, findings := FoldRuns(runs, env.registry);
    if threw || HasNil(findings) {
      return None;
    }
    PresentFindings(findings, env.registry);
    var added := Projections(findings, env.registry, rules, hostOf);
    ProjectionWeights(findings, env.registry, rules, hostOf);
    var reasons, score := Rescore(base, added);
    r := Some(InspectResult(base.ok, score, MinConfidence(base.confidence, findings), reasons,
                            base.confusables + Discovered(findings), base.checksRun + runTokens,
                            KeepUnconfigured(plan, base.checksSkipped) + skippedTokens, Some(outcomes)));
    assert forall i :: 0 <= i < |plan| ==> CheckToken(plan[i]) == runs[i].token;
    ChecksListed(base, r.value, plan, runs, runTokens, skippedTokens);
    assert Merged(base, r.value, findings, env.registry, rules, hostOf);
    assert Layered(base, r.value, findings);
    assert NeverSilentlyClean(base, r.value, plan);
  }

  lemma ChecksListed(base: InspectResult, r: InspectResult, plan: seq<Enricher>, runs: seq<EnricherRun>,
                     runTokens: seq<string>, skippedTokens: seq<string>)
    requires ListsTokens(runTokens, runs, true) && ListsTokens(skippedTokens, runs, false)
    requires r.checksRun == base.checksRun + runTokens && r.checksSkipped == KeepUnconfigured(plan, base.checksSkipped) + skippedTokens
    ensures ListsChecks(base, r, plan, runs)
  {
    hide Listed, IsConfiguredPlaceholder;
  }

  lemma PresentFindings(findings: seq<Attributed>, registry: Registry)
    requires ReadableFindings(findings, registry) && !HasNil(findings)
    ensures ValidFindings(findings, registry)
  {
  }

  /** All that the fold promises when it returns. */
  ghost predicate Folded(base: InspectResult, r: InspectResult, plan: seq<Enricher>, env: Environment, runs: seq<EnricherRun>,
                         rules: seq<SuppressionRule>, hostOf: Subject -> Option<string>)
  {
    && r.enrichment == Some(OutcomesOf(runs)) && Sorted(r.reasons)
    && Layered(base, r, FindingsOf(OutcomesOf(runs)))
    && NeverSilentlyClean(base, r, plan) && ListsChecks(base, r, plan, runs)
    && Merged(base, r, FindingsOf(OutcomesOf(runs)), env.registry, rules, hostOf)
  }

  /** Sorted reasons, and a new score only for parseable input. */
  method Rescore(base: InspectResult, added: seq<Reason>) returns (reasons: seq<Reason>, score: Option<real>)
    requires IsInspection(base) && WeightsOk(added)
    ensures Sorted(reasons) && multiset(reasons) == multiset(base.reasons + added)
    ensures base.ok ==> score.Some? && base.score.value <= score.value <= 1.0 && score.value == Score(reasons)
    ensures !base.ok ==> score.None?
    ensures added == [] ==> score == base.score && multiset(reasons) == multiset(base.reasons)
  {
    hide RoundTenPlaces, Inverse, Sorted;
    reasons := SortReasons(base.reasons + added);
    assert added == [] ==> base.reasons + added == base.reasons;
    score := base.score;
    if base.ok {
      var total := Aggregate(reasons);
      score := Some(total);
      InversePermutes(reasons, base.reasons + added);
      ScoreMonotone(base.reasons, added);
      ScoreBounds(base.reasons + added);
    }
  }

  /** The async entry point: with no enrichers the base result is returned as it is; otherwise
      the settled runs of the plan are folded onto it. It rejects exactly when the plan does or
      the fold throws. */
  method InspectWithEnrichers(base: InspectResult, plan: seq<Enricher>, env: Environment, abortedAt: nat -> bool,
                              respond: (nat, seq<Element<Outcome>>) -> Answers,
                              rules: seq<SuppressionRule>, hostOf: Subject -> Option<string>)
    returns (r: Option<InspectResult>, ghost result: PlanResult, ghost g: Graph, ghost last: Slots, ghost starts: seq<Start>,
             ghost when: Times, ghost passes: nat, ghost aborted: bool, ghost thrower: nat)
    requires IsInspection(base)
    requires forall c :: c in env.registry ==> env.registry[c] <= 1.0
    ensures plan == [] ==> r == Some(base)
    ensures plan != [] && result.PlanDone? ==>
      Executed(plan, env, abortedAt, respond, result.runs, g, starts, when, passes, aborted) && NoneThrew(plan, env, starts)
    ensures plan != [] && result.PlanRejected? ==>
      RejectedBy(plan, env, abortedAt, respond, g, last, starts, when, passes, thrower)
    ensures plan != [] ==>
      (r.None? <==> result.PlanRejected? || exists i :: 0 <= i < |result.runs| && Unfoldable(result.runs[i]))
    ensures plan != [] && r.Some? ==> Folded(base, r.value, plan, env, result.runs, rules, hostOf)
    ensures r.Some? ==> NeverSilentlyClean(base, r.value, plan)
  {
    hide Executed, RejectedBy, NoneThrew, Folded, Foldable, CheckToken, Unfoldable;
    if plan == [] {
      return Some(base), PlanRejected, Graph([], map[]), [], [], map[], 0, false, 0;
    }
    var executed;
    executed, g, last, starts, when, passes, aborted, thrower := ExecuteEnrichmentPlan(plan, env, abortedAt, respond);
    result := executed;
    if executed.PlanRejected? {
      return None, result, g, last, starts, when, passes, aborted, thrower;
    }
    RunsFold(plan, env, abortedAt, respond, executed.runs, g, starts, when, passes, aborted);
    r := FoldResult(base, plan, env, executed.runs, rules, hostOf);
    if r.Some? {
      FoldedIsVisible(base, r.value, plan, env, executed.runs, rules, hostOf);
    }
  }

  lemma FoldedIsVisible(base: InspectResult, r: InspectResult, plan: seq<Enricher>, env: Environment, runs: seq<EnricherRun>,
                        rules: seq<SuppressionRule>, hostOf: Subject -> Option<string>)
    requires Folded(base, r, plan, env, runs, rules, hostOf)
    ensures NeverSilentlyClean(base, r, plan)
  {
  }

  lemma RunsFold(plan: seq<Enricher>, env: Environment, abortedAt: nat -> bool, respond: (nat, seq<Element<Outcome>>) -> Answers,
                 runs: seq<EnricherRun>, g: Graph, starts: seq<Start>, when: Times, passes: nat, aborted: bool)
    requires Executed(plan, env, abortedAt, respond, runs, g, starts, when, passes, aborted)
    ensures |runs| == |plan|
    ensures forall i :: 0 <= i < |runs| ==> runs[i].token == CheckToken(plan[i]) && Foldable(runs[i].report, env.registry)
  {
    hide StartsOk, Foldable, CheckToken, Timeline, IsLeastFixedPoint;
    forall i | 0 <= i < |runs| ensures runs[i].token == CheckToken(plan[i]) && Foldable(runs[i].report, env.registry) {
      assert SlotOk(g, env.registry, Settled(runs), Indexes(starts), aborted, i);
    }
  }
}
