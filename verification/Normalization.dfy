/** Untrusted provider output and stored values, and what the runner makes of them
    (normalizeOutput, normalizeCachedReport and cloneEnrichmentReport,
    packages/core/src/inspect-async.ts). */
module Normalization {
  import opened Wrappers
  import opened EnrichmentSchema

  datatype Environment = Environment(
    hasCache: bool,
    hasGovernor: bool,
    input: string,
    subject: Subject,
    registry: Registry)

  /** Provider output: a legacy findings array, a structured report, or neither. */
  datatype Output = Findings(findings: seq<Element<Finding>>) | Structured(report: Report) | Malformed

  // ---------- cloning ----------

  /** A JSON round trip writes a hole as null. */
  function Nulled<T>(e: Element<T>): Element<T> {
    if e.Hole? then Nil else e
  }

  function CloneLeaves<T>(s: seq<Element<T>>): (r: seq<Element<T>>)
    ensures |r| == |s| && forall i :: 0 <= i < |s| ==> r[i] == Nulled(s[i])
  {
    seq(|s|, i requires 0 <= i < |s| => Nulled(s[i]))
  }

  function CloneFinding(f: Finding): Finding {
    f.(confusables := CloneLeaves(f.confusables))
  }

  function CloneFindings(fs: seq<Element<Finding>>): (r: seq<Element<Finding>>)
    ensures |r| == |fs|
    ensures forall i :: 0 <= i < |fs| ==> r[i] == if fs[i].Item? then Item(CloneFinding(fs[i].value)) else Nil
  {
    seq(|fs|, i requires 0 <= i < |fs| => if fs[i].Item? then Item(CloneFinding(fs[i].value)) else Nil)
  }

  function CloneOutcome(o: Outcome): Outcome {
    o.(evidence := CloneLeaves(o.evidence), findings := CloneFindings(o.findings))
  }

  function CloneReport(report: Report): (r: Report)
    ensures |r.outcomes| == |report.outcomes|
    ensures forall i :: 0 <= i < |report.outcomes| ==>
      r.outcomes[i] == if report.outcomes[i].Item? then Item(CloneOutcome(report.outcomes[i].value)) else Nil
  {
    Report(seq(|report.outcomes|, i requires 0 <= i < |report.outcomes| =>
      if report.outcomes[i].Item? then Item(CloneOutcome(report.outcomes[i].value)) else Nil))
  }

  // ---------- arrays without gaps ----------

  predicate Solid<T>(s: seq<Element<T>>) {
    forall i :: 0 <= i < |s| ==> s[i].Item?
  }

  predicate SolidFindings(fs: seq<Element<Finding>>) {
    forall i :: 0 <= i < |fs| ==> fs[i].Item? && Solid(fs[i].value.confusables)
  }

  predicate SolidOutcome(o: Outcome) {
    Solid(o.evidence) && SolidFindings(o.findings)
  }

  predicate SolidReport(report: Report) {
    forall i :: 0 <= i < |report.outcomes| ==> report.outcomes[i].Item? && SolidOutcome(report.outcomes[i].value)
  }

  /** No array of the output has a hole or a null. */
  predicate SolidOutput(output: Output) {
    match output
    case Findings(findings) => SolidFindings(findings)
    case Structured(report) => SolidReport(report)
    case Malformed => true
  }

  lemma SolidLeaves<T>(s: seq<Element<T>>)
    ensures Solid(CloneLeaves(s)) <==> Solid(s)
    ensures Solid(s) ==> CloneLeaves(s) == s
  {
    if Solid(CloneLeaves(s)) {
      forall i | 0 <= i < |s| ensures s[i].Item? {
        assert CloneLeaves(s)[i].Item?;
      }
    }
  }

  lemma SolidFindingsClone(fs: seq<Element<Finding>>)
    ensures SolidFindings(CloneFindings(fs)) <==> SolidFindings(fs)
    ensures SolidFindings(fs) ==> CloneFindings(fs) == fs
  {
    var r := CloneFindings(fs);
    forall i | 0 <= i < |fs| && fs[i].Item?
      ensures Solid(r[i].value.confusables) <==> Solid(fs[i].value.confusables)
      ensures Solid(fs[i].value.confusables) ==> r[i] == fs[i]
    {
      SolidLeaves(fs[i].value.confusables);
    }
    if SolidFindings(r) {
      forall i | 0 <= i < |fs| ensures fs[i].Item? && Solid(fs[i].value.confusables) {
        assert r[i].Item? && Solid(r[i].value.confusables);
      }
    }
  }

  /** Cloning changes exactly the reports that have gaps, and never closes one. */
  lemma SolidClone(report: Report)
    ensures SolidReport(CloneReport(report)) <==> SolidReport(report)
    ensures SolidReport(report) ==> CloneReport(report) == report
  {
    hide SolidFindings, Solid;
    var r := CloneReport(report);
    forall i | 0 <= i < |report.outcomes| && report.outcomes[i].Item?
      ensures SolidOutcome(r.outcomes[i].value) <==> SolidOutcome(report.outcomes[i].value)
      ensures SolidOutcome(report.outcomes[i].value) ==> r.outcomes[i] == report.outcomes[i]
    {
      SolidLeaves(report.outcomes[i].value.evidence);
      SolidFindingsClone(report.outcomes[i].value.findings);
    }
    if SolidReport(r) {
      forall i | 0 <= i < |report.outcomes| ensures report.outcomes[i].Item? && SolidOutcome(report.outcomes[i].value) {
        assert r.outcomes[i].Item? && SolidOutcome(r.outcomes[i].value);
      }
    }
  }

  // ---------- provider output ----------

  /** The compatibility adapter: an empty legacy result stays visibly ambiguous. */
  function LegacyReport(enricher: Enricher, env: Environment, findings: seq<Element<Finding>>): Report {
    Report([Item(Outcome(enricher.id, enricher.layer, Success, env.subject, LegacyIncomplete,
                         if findings == [] then [Item(LegacyIncomplete)] else [], findings, None))])
  }

  predicate DeclaredOutcome(o: Outcome) {
    o.provenance == Declared && forall j :: 0 <= j < |o.evidence| ==> o.evidence[j].Item? ==> o.evidence[j].value == Declared
  }

  predicate WhollyDeclared(report: Report) {
    forall i :: 0 <= i < |report.outcomes| ==> report.outcomes[i].Item? ==> DeclaredOutcome(report.outcomes[i].value)
  }

  /** Valid under the source's own identity, and with declared provenance throughout. */
  predicate Trusted(report: Report, enricher: Enricher, env: Environment) {
    IsEnrichmentReport(report, enricher.id, enricher.layer, env.registry) && WhollyDeclared(report)
  }

  /** Holes are skipped by every check, and come back as null. */
  function NormalizeOutput(output: Output, enricher: Enricher, env: Environment): (r: Option<Report>)
    ensures r.Some? ==> Shaped(r.value, env.registry)
    ensures output.Findings? ==> (r.Some? <==> AreFindings(output.findings, env.registry))
    ensures output.Findings? && r.Some? ==>
      && |r.value.outcomes| == 1 && r.value.outcomes[0].Item? && r.value.outcomes[0].value.status == Success
      && r.value.outcomes[0].value.findings == CloneFindings(output.findings)
      && r.value.outcomes[0].value.provenance == LegacyIncomplete && r.value.outcomes[0].value.subject == env.subject
      && r.value.outcomes[0].value.sourceId == enricher.id && r.value.outcomes[0].value.layer == enricher.layer
      && r.value.outcomes[0].value.cause == None
      && r.value.outcomes[0].value.evidence == (if output.findings == [] then [Item(LegacyIncomplete)] else [])
    ensures output.Structured? ==> r == if Trusted(output.report, enricher, env) then Some(CloneReport(output.report)) else None
    ensures output.Malformed? ==> r.None?
  {
    match output
    case Findings(findings) =>
      if AreFindings(findings, env.registry) then Some(CloneReport(LegacyReport(enricher, env, findings))) else None
    case Structured(report) =>
      if Trusted(report, enricher, env) then Some(CloneReport(report)) else None
    case Malformed => None
  }

  // ---------- stored values ----------

  /** `Unreadable`: reading the value throws. */
  datatype CacheVerdict = Usable(report: Report) | Unusable | Unreadable

  predicate CacheableOutcome(o: Outcome) {
    && o.provenance != Unavailable
    && (forall j :: 0 <= j < |o.evidence| ==> o.evidence[j].Item? ==> o.evidence[j].value == o.provenance)
  }

  /** A loop over the outcomes, which does visit holes, reaches one before it can refuse. */
  predicate HoleFirst(outcomes: seq<Element<Outcome>>) {
    exists i :: 0 <= i < |outcomes| && outcomes[i].Hole? &&
      forall j :: 0 <= j < i ==> outcomes[j].Item? ==> CacheableOutcome(outcomes[j].value)
  }

  predicate CacheableProvenance(report: Report) {
    forall i :: 0 <= i < |report.outcomes| ==> report.outcomes[i].Item? ==> CacheableOutcome(report.outcomes[i].value)
  }

  /** `None` is a stored value that does not even have the shape of a report. */
  function NormalizeCachedReport(value: Option<Report>, enricher: Enricher, env: Environment): (r: CacheVerdict)
    ensures r.Usable? ==> value.Some? && r.report == CloneReport(value.value) && Solid(value.value.outcomes)
    ensures r.Usable? ==> Foldable(r.report, env.registry) && Solid(r.report.outcomes)
    ensures r.Usable? <==>
      && value.Some? && IsEnrichmentReport(value.value, enricher.id, enricher.layer, env.registry)
      && Solid(value.value.outcomes) && CacheableProvenance(value.value)
    ensures r.Unreadable? <==>
      && value.Some? && IsEnrichmentReport(value.value, enricher.id, enricher.layer, env.registry)
      && HoleFirst(value.value.outcomes)
  {
    if value.None? || !IsEnrichmentReport(value.value, enricher.id, enricher.layer, env.registry) then Unusable
    else if HoleFirst(value.value.outcomes) then Unreadable
    else if CacheableProvenance(value.value) then
      CacheableMeansSolid(value.value, enricher, env);
      Usable(CloneReport(value.value))
    else Unusable
  }

  /** Only what the source declared, or the legacy adapter wrote, may come from a store, and its
      evidence must be of the same kind. */
  lemma CacheableExactly(o: Outcome)
    ensures CacheableOutcome(o) <==>
      && (o.provenance == Declared || o.provenance == LegacyIncomplete)
      && (forall j :: 0 <= j < |o.evidence| && o.evidence[j].Item? ==> o.evidence[j] == Item(o.provenance))
  {
  }

  /** And only what it declared, evidence included, is accepted from a source. */
  lemma DeclaredExactly(o: Outcome)
    ensures DeclaredOutcome(o) <==>
      o.provenance == Declared && forall j :: 0 <= j < |o.evidence| ==> !o.evidence[j].Item? || o.evidence[j] == Item(Declared)
  {
  }

  lemma CacheableMeansSolid(report: Report, enricher: Enricher, env: Environment)
    requires IsEnrichmentReport(report, enricher.id, enricher.layer, env.registry)
    requires CacheableProvenance(report) && !HoleFirst(report.outcomes)
    ensures Solid(report.outcomes) && Foldable(CloneReport(report), env.registry)
  {
  }

  /** What is validated after cloning has no gap left: holes are gone and nulls are refused. */
  lemma ValidCloneIsSolid(raw: Report, enricher: Enricher, env: Environment)
    requires IsEnrichmentReport(CloneReport(raw), enricher.id, enricher.layer, env.registry)
    ensures SolidReport(CloneReport(raw))
  {
    var r := CloneReport(raw);
    forall i | 0 <= i < |r.outcomes| ensures r.outcomes[i].Item? && SolidOutcome(r.outcomes[i].value) {
      var o := r.outcomes[i].value;
      assert IsEnrichmentOutcome(o, enricher.id, enricher.layer, env.registry);
      forall j | 0 <= j < |o.findings| ensures o.findings[j].Item? && Solid(o.findings[j].value.confusables) {
        assert AreConfusables(o.findings[j].value.confusables);
      }
    }
  }

  /** What the output becomes before it is cloned. */
  function Raw(output: Output, enricher: Enricher, env: Environment): (raw: Report)
    requires !output.Malformed?
    ensures SolidReport(raw) <==> SolidOutput(output)
  {
    if output.Structured? then output.report else
      var raw := LegacyReport(enricher, env, output.findings);
      assert raw.outcomes[0].Item?;
      raw
  }

  lemma RawIsCacheable(output: Output, enricher: Enricher, env: Environment)
    requires NormalizeOutput(output, enricher, env).Some? && !IsBlank(enricher.id)
    ensures var raw := Raw(output, enricher, env);
      IsEnrichmentReport(raw, enricher.id, enricher.layer, env.registry) && CacheableProvenance(raw)
  {
    if output.Findings? {
      var o := LegacyReport(enricher, env, output.findings).outcomes[0].value;
      assert IsEnrichmentOutcome(o, enricher.id, enricher.layer, env.registry) && CacheableOutcome(o);
    }
  }

  /** Cache round trip: a normalized report is accepted again on a later hit if and only if the
      source id is not blank and no array of the output has a hole. */
  lemma StoredReportRoundTrips(output: Output, enricher: Enricher, env: Environment)
    requires NormalizeOutput(output, enricher, env).Some?
    ensures var stored := NormalizeOutput(output, enricher, env).value;
      NormalizeCachedReport(Some(stored), enricher, env) == Usable(stored) <==> !IsBlank(enricher.id) && SolidOutput(output)
    ensures output.Structured? && Solid(output.report.outcomes) ==> !IsBlank(enricher.id)
  {
    hide Solid, SolidFindings, CloneReport, CacheableProvenance;
    var raw := Raw(output, enricher, env);
    var stored := NormalizeOutput(output, enricher, env).value;
    assert stored == CloneReport(raw);
    SolidClone(raw);
    if NormalizeCachedReport(Some(stored), enricher, env) == Usable(stored) {
      ValidCloneIsSolid(raw, enricher, env);
      NotBlank(stored, enricher, env);
    }
    if !IsBlank(enricher.id) && SolidOutput(output) {
      RawIsCacheable(output, enricher, env);
      SolidMeansItems(raw);
    }
    if output.Structured? && Solid(output.report.outcomes) {
      NotBlank(output.report, enricher, env);
    }
  }

  lemma SolidMeansItems(report: Report)
    requires SolidReport(report)
    ensures Solid(report.outcomes)
  {
  }

  lemma NotBlank(report: Report, enricher: Enricher, env: Environment)
    requires IsEnrichmentReport(report, enricher.id, enricher.layer, env.registry) && Solid(report.outcomes)
    ensures !IsBlank(enricher.id)
  {
    assert report.outcomes[0].Item? && IsEnrichmentOutcome(report.outcomes[0].value, enricher.id, enricher.layer, env.registry);
  }
}
