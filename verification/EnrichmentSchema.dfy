/** The structured enrichment contract: sources, outcomes and reports, and the
    runtime validator that guards the runner boundary
    (packages/core/src/schema/enrich.ts). Arrays come from untrusted code and may be
    sparse: iteration helpers skip a hole, and cloning turns it into null. */
module EnrichmentSchema {
  import opened Wrappers

  /** What an array holds at one index: nothing at all, null, or a value. */
  datatype Element<+T> = Hole | Nil | Item(value: T)

  /** The two network-backed layers an enricher can belong to. */
  datatype Layer = Resolution | Reputation

  datatype Status = Success | NoHit | Skipped | Failure

  /** Structured sources declare provenance; the other two kinds are emitted by core only. */
  datatype Provenance = Declared | LegacyIncomplete | Unavailable

  datatype CauseCode =
    | CallerAborted | PrerequisiteUnavailable | InvalidPlan | DependencyCycle
    | RateLimited | BackoffActive | GovernorDenied | GovernorError
    | Timeout | SourceError | InvalidOutput | InvalidCachedOutput
    | CacheKeyError | CacheTtlError | CacheReadError | CacheWriteError
    | SourceDefined(code: string)

  /** `reason` and `prerequisites` are the details the framework attaches. */
  datatype Cause = Cause(code: CauseCode, retryable: bool, reason: string, prerequisites: seq<string>)

  datatype Subject = UrlSubject(value: string) | HostSubject(value: string)

  datatype Component = InHost | InPath | InQuery

  /** What the caller wrote where an integer is expected. */
  datatype Position = Whole(offset: int) | NotWhole

  /** A character that may be taken for another one. */
  datatype Confusable = Confusable(character: string, codepoint: string, confusableWith: string, component: Component, position: Position)

  datatype Finding = Finding(code: string, detail: string, confidence: Option<real>, confusables: seq<Element<Confusable>>)

  datatype Outcome = Outcome(
    sourceId: string,
    layer: Layer,
    status: Status,
    subject: Subject,
    provenance: Provenance,
    evidence: seq<Element<Provenance>>,
    findings: seq<Element<Finding>>,
    cause: Option<Cause>)

  datatype Report = Report(outcomes: seq<Element<Outcome>>)

  datatype EnricherRun = EnricherRun(token: string, report: Report)

  /** A JavaScript value read where a number is expected. */
  datatype JsNumber = Undefined | Null | NotANumber | NonFinite | Finite(value: real)

  /** `dependsOn` as the caller wrote it, before its shape is checked. */
  datatype RawDependency = Text(text: string) | NonText | Gap
  datatype RawDependencies = Absent | NotAnArray | Listed(items: seq<RawDependency>)

  /** What calling an enricher's `cacheKey` yields. */
  datatype CacheKey = NoCacheKey | KeyThrew | KeyNullish | KeyNonString | KeyText(key: string)

  /** The optional `cacheTtlMsFor` member. */
  datatype TtlResolver = NoResolver | ResolverNotCallable | Resolver

  datatype Enricher = Enricher(
    id: string,
    layer: Layer,
    dependsOn: RawDependencies,
    timeoutMs: JsNumber,
    cacheTtlMs: JsNumber,
    cacheTtlMsFor: TtlResolver)

  function LayerName(layer: Layer): string {
    match layer
    case Resolution => "resolution"
    case Reputation => "reputation"
  }

  /** The stable `<layer>:<id>` identity of a source. */
  function CheckToken(enricher: Enricher): string {
    LayerName(enricher.layer) + ":" + enricher.id
  }

  predicate IsWhite(c: char) {
    '\t' <= c <= '\r' || c == ' ' || c == '\U{00A0}' || c == '\U{1680}' ||
    '\U{2000}' <= c <= '\U{200A}' || c == '\U{2028}' || c == '\U{2029}' ||
    c == '\U{202F}' || c == '\U{205F}' || c == '\U{3000}' || c == '\U{FEFF}'
  }

  /** `s.trim() === ""`. */
  predicate IsBlank(s: string) {
    forall i :: 0 <= i < |s| ==> IsWhite(s[i])
  }

  /** The white space that trimming removes, by code point. */
  lemma WhiteExactly(c: char)
    ensures IsWhite(c) <==>
      var n := c as int;
      || 9 <= n <= 13 || n == 32 || n == 160 || n == 5760 || 8192 <= n <= 8202 || n == 8232 || n == 8233
      || n == 8239 || n == 8287 || n == 12288 || n == 65279
  {
  }

  predicate IsComplete(status: Status) {
    status.Success? || status.NoHit?
  }

  /** `every` outcome is complete. On a null outcome the code would throw; see `NilFirst`. */
  predicate Completed(report: Report) {
    forall i :: 0 <= i < |report.outcomes| ==> report.outcomes[i].Item? && IsComplete(report.outcomes[i].value.status)
  }

  /** A run satisfies its dependents only when every outcome is success or no-hit. */
  predicate RunIsAvailable(run: EnricherRun) {
    Completed(run.report)
  }

  /** An outcome at which a scan stops: `some(failure)`, or `every(complete)`. */
  predicate Stops(e: Element<Outcome>, atFailure: bool) {
    e.Item? && (if atFailure then e.value.status.Failure? else !IsComplete(e.value.status))
  }

  /** The scan reaches a null outcome before it stops, and throws reading its status. */
  predicate NilFirst(outcomes: seq<Element<Outcome>>, atFailure: bool) {
    exists i :: 0 <= i < |outcomes| && outcomes[i].Nil? && forall j :: 0 <= j < i ==> !Stops(outcomes[j], atFailure)
  }

  /** The reason-code registry: the scoring weight of every known code. */
  type Registry = map<string, real>

  // ---------- validation ----------

  predicate IsConfusable(c: Confusable) {
    && !IsBlank(c.codepoint) && !IsBlank(c.confusableWith)
    && c.position.Whole? && c.position.offset >= 0
  }

  predicate AreConfusables(cs: seq<Element<Confusable>>) {
    forall i :: 0 <= i < |cs| ==> cs[i].Hole? || (cs[i].Item? && IsConfusable(cs[i].value))
  }

  /** What a reader of a finding relies on. */
  predicate Registered(f: Finding, registry: Registry) {
    f.code in registry && (f.confidence.Some? ==> 0.0 <= f.confidence.value <= 1.0)
  }

  predicate IsFinding(f: Finding, registry: Registry) {
    !IsBlank(f.code) && Registered(f, registry) && AreConfusables(f.confusables)
  }

  predicate AreFindings(findings: seq<Element<Finding>>, registry: Registry) {
    forall i :: 0 <= i < |findings| ==> findings[i].Hole? || (findings[i].Item? && IsFinding(findings[i].value, registry))
  }

  predicate AreEvidence(evidence: seq<Element<Provenance>>) {
    forall i :: 0 <= i < |evidence| ==> !evidence[i].Nil?
  }

  predicate IsEnrichmentOutcome(o: Outcome, sourceId: string, layer: Layer, registry: Registry) {
    && !IsBlank(o.sourceId)
    && o.sourceId == sourceId && o.layer == layer
    && AreEvidence(o.evidence) && AreFindings(o.findings, registry)
    && (match o.status
        case Success => o.cause.None? && (o.findings != [] || o.evidence != [])
        case NoHit => o.cause.None? && o.findings == []
        case Skipped => o.findings == [] && o.cause.Some?
        case Failure => o.findings == [] && o.cause.Some?)
  }

  predicate IsEnrichmentReport(report: Report, sourceId: string, layer: Layer, registry: Registry) {
    && report.outcomes != []
    && (forall i :: 0 <= i < |report.outcomes| ==>
          report.outcomes[i].Hole? ||
          (report.outcomes[i].Item? && IsEnrichmentOutcome(report.outcomes[i].value, sourceId, layer, registry)))
  }

  // ---------- settled reports ----------

  /** A settled outcome: only success carries findings, and those present are registered. */
  predicate OutcomeShaped(o: Outcome, registry: Registry) {
    && (forall j :: 0 <= j < |o.findings| ==>
          !o.findings[j].Hole? && (o.findings[j].Item? ==> Registered(o.findings[j].value, registry)))
    && (o.status.Success? || o.findings == [])
  }

  predicate Shaped(report: Report, registry: Registry) {
    && report.outcomes != []
    && (forall i :: 0 <= i < |report.outcomes| ==>
          !report.outcomes[i].Hole? && (report.outcomes[i].Item? ==> OutcomeShaped(report.outcomes[i].value, registry)))
  }

  /** What every settled report guarantees: it is shaped, and its availability can be read. */
  predicate Foldable(report: Report, registry: Registry) {
    Shaped(report, registry) && !NilFirst(report.outcomes, false)
  }

  /** The explicit one-outcome report the framework emits for a degradation. */
  function FrameworkReport(enricher: Enricher, subject: Subject, status: Status, cause: Cause): (report: Report)
    ensures |report.outcomes| == 1 && report.outcomes[0].Item? && report.outcomes[0].value.status == status
    ensures report.outcomes[0].value.cause == Some(cause) && report.outcomes[0].value.findings == []
    ensures report.outcomes[0].value.sourceId == enricher.id && report.outcomes[0].value.layer == enricher.layer
    ensures report.outcomes[0].value.subject == subject && report.outcomes[0].value.provenance == Unavailable
    ensures report.outcomes[0].value.evidence == []
    ensures !IsComplete(status) ==> !Completed(report)
    ensures forall registry :: Foldable(report, registry)
  {
    assert IsComplete(status) ||
      forall r: Report :: r.outcomes != [] && r.outcomes[0].Item? && r.outcomes[0].value.status == status ==> !Completed(r);
    Report([Item(Outcome(enricher.id, enricher.layer, status, subject, Unavailable, [], [], Some(cause)))])
  }

  /** The framework's own report: never empty and never available to a dependent. */
  predicate IsFrameworkRun(run: EnricherRun, code: CauseCode) {
    && |run.report.outcomes| == 1 && run.report.outcomes[0].Item?
    && run.report.outcomes[0].value.status == Skipped
    && run.report.outcomes[0].value.findings == []
    && run.report.outcomes[0].value.cause.Some?
    && run.report.outcomes[0].value.cause.value.code == code
    && !run.report.outcomes[0].value.cause.value.retryable
  }

  /** On the statuses themselves: a run satisfies its dependents if and only if every outcome is
      present and a success or a no-hit, in any mix. */
  lemma AvailableStatuses(run: EnricherRun)
    ensures RunIsAvailable(run) <==>
      forall i :: 0 <= i < |run.report.outcomes| ==>
        && run.report.outcomes[i].Item?
        && (run.report.outcomes[i].value.status == Success || run.report.outcomes[i].value.status == NoHit)
  {
  }

  /** What a valid outcome says: it has a cause exactly when it was skipped or failed, findings
      only when it succeeded, and a success has something to show. */
  lemma ValidOutcomeExactly(o: Outcome, sourceId: string, layer: Layer, registry: Registry)
    ensures IsEnrichmentOutcome(o, sourceId, layer, registry) <==>
      && o.sourceId == sourceId && o.layer == layer && (exists i :: 0 <= i < |sourceId| && !IsWhite(sourceId[i]))
      && (forall i :: 0 <= i < |o.evidence| ==> o.evidence[i].Item? || o.evidence[i].Hole?)
      && (forall i :: 0 <= i < |o.findings| ==>
            o.findings[i].Hole? || (o.findings[i].Item? && IsFinding(o.findings[i].value, registry)))
      && (o.cause.Some? <==> o.status == Skipped || o.status == Failure)
      && (o.findings != [] ==> o.status == Success)
      && (o.status == Success ==> |o.findings| + |o.evidence| > 0)
  {
  }

  /** A valid finding has a registered code that is not blank, a confidence between 0 and 1 if
      any, and confusables that name characters at positions counted from 0. */
  lemma ValidFindingExactly(f: Finding, registry: Registry)
    ensures IsFinding(f, registry) <==>
      && f.code in registry && (exists i :: 0 <= i < |f.code| && !IsWhite(f.code[i]))
      && (f.confidence == None || (f.confidence.value >= 0.0 && f.confidence.value <= 1.0))
      && (forall i :: 0 <= i < |f.confusables| ==> f.confusables[i].Hole? || NamesCharacter(f.confusables[i]))
  {
  }

  ghost predicate NamesCharacter(e: Element<Confusable>) {
    && e.Item? && e.value.position.Whole? && 0 <= e.value.position.offset
    && (exists i :: 0 <= i < |e.value.codepoint| && !IsWhite(e.value.codepoint[i]))
    && (exists i :: 0 <= i < |e.value.confusableWith| && !IsWhite(e.value.confusableWith[i]))
  }

  /** Tokens name layer and id, and so tell sources apart. */
  lemma TokensTellApart(a: Enricher, b: Enricher)
    ensures CheckToken(a) == (if a.layer == Resolution then "resolution:" else "reputation:") + a.id
    ensures CheckToken(a) == CheckToken(b) <==> a.layer == b.layer && a.id == b.id
  {
    var x, y := CheckToken(a), CheckToken(b);
    assert x[11..] == a.id && y[11..] == b.id;
    assert a.layer == Resolution ==> x[3] == 'o';
    assert a.layer == Reputation ==> x[3] == 'u';
    assert b.layer == Resolution ==> y[3] == 'o';
    assert b.layer == Reputation ==> y[3] == 'u';
  }
}
