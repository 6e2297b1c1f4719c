/** One guarded source run: cache, governor, provider and cache write
    (runEnricher and its helpers, packages/core/src/inspect-async.ts).
    Everything the runner cannot see — caller code, stores, timers, the abort
    signal — is an `Answers` value chosen freely for each run. */
module SourceRunner {
  import opened Wrappers
  import opened EnrichmentSchema
  import opened Normalization

  const DEFAULT_ENRICHMENT_TIMEOUT_MS: real := 5000.0

  /** `ReadValue(None)` is a stored value that does not even have the shape of a report. */
  datatype CacheRead = ReadTimedOut | ReadThrew | ReadMiss | ReadValue(value: Option<Report>)

  datatype Decision = AdmitThrew | AdmitInvalid | Denied(cause: Option<CauseCode>) | Admitted(timeoutMs: JsNumber)

  datatype Call = CallThrew | CallTimedOut | CallReturned(output: Output)

  /** What calling `cacheTtlMsFor` with the report yields. */
  datatype TtlAnswer = TtlThrew | TtlReturned(value: JsNumber)

  datatype Write = WriteOk | WriteTimedOut | WriteThrew

  /** `abortPhase` is the first of the observation points below at which the caller's
      signal is seen aborted; a run that is never aborted has a phase beyond them all. */
  datatype Answers = Answers(
    abortPhase: nat,
    cacheKey: CacheKey,
    read: CacheRead,
    decision: Decision,
    call: Call,
    recordThrows: bool,
    ttl: TtlAnswer,
    write: Write)

  const AT_START: nat := 0
  const AT_READ: nat := 1
  const AFTER_READ: nat := 2
  const AFTER_CALL: nat := 3
  const AT_WRITE: nat := 4
  const AFTER_WRITE: nat := 5

  predicate Aborted(a: Answers, phase: nat) {
    a.abortPhase <= phase
  }

  /** The calls a run makes across its pluggable boundaries. */
  datatype Event =
    | CacheGet
    | Admit
    | Enrich(timeoutMs: Option<real>)
    | RecordSuccess
    | RecordFailure
    | CacheSet(stored: Report, ttlMs: real)

  function Rank(e: Event): nat {
    match e
    case CacheGet => 0
    case Admit => 1
    case Enrich(_) => 2
    case RecordSuccess => 3
    case RecordFailure => 3
    case CacheSet(_, _) => 4
  }

  /** Calls happen in protocol order, and none of a kind happens twice. */
  ghost predicate InProtocolOrder(events: seq<Event>) {
    forall i, j :: 0 <= i < j < |events| ==> Rank(events[i]) < Rank(events[j])
  }

  datatype Degradation = Degradation(code: CauseCode, retryable: bool, reason: string)

  /** A failure attributed to the source, naming what went wrong and nothing more. */
  function DegradationOutcome(enricher: Enricher, env: Environment, d: Degradation): (o: Outcome)
    ensures o.status == Failure && o.sourceId == enricher.id && o.layer == enricher.layer && o.findings == []
    ensures o.cause.Some? && o.cause.value.code == d.code && o.cause.value.retryable == d.retryable
  {
    FrameworkReport(enricher, env.subject, Failure, Cause(d.code, d.retryable, d.reason, [])).outcomes[0].value
  }

  /** Framework-owned outcomes go after the source's own stable output. */
  function WithDegradations(report: Report, enricher: Enricher, env: Environment, ds: seq<Degradation>): (r: Report)
    ensures report.outcomes <= r.outcomes && |r.outcomes| == |report.outcomes| + |ds|
    ensures forall i :: 0 <= i < |ds| ==>
      r.outcomes[|report.outcomes| + i] == Item(DegradationOutcome(enricher, env, ds[i]))
    ensures Completed(r) <==> Completed(report) && ds == []
    ensures ds == [] ==> r == report
    ensures Foldable(report, env.registry) ==> Foldable(r, env.registry)
  {
    var r := Report(report.outcomes + seq(|ds|, i requires 0 <= i < |ds| => Item(DegradationOutcome(enricher, env, ds[i]))));
    assert ds != [] ==> r.outcomes[|report.outcomes|].value.status == Failure;
    assert forall i :: 0 <= i < |report.outcomes| ==> r.outcomes[i] == report.outcomes[i];
    r
  }

  predicate IsPositiveFinite(n: JsNumber) {
    n.Finite? && n.value > 0.0
  }

  /** The hard bound: absent only after an explicit `null`, and otherwise positive. */
  function EffectiveTimeoutMs(own: JsNumber, governor: JsNumber): (bound: Option<real>)
    ensures bound.None? <==> own.Null? || (!IsPositiveFinite(own) && governor.Null?)
    ensures bound.Some? ==> bound.value > 0.0
    ensures IsPositiveFinite(own) ==> bound == Some(own.value)
    ensures !own.Null? && !IsPositiveFinite(own) && IsPositiveFinite(governor) ==> bound == Some(governor.value)
    ensures !own.Null? && !IsPositiveFinite(own) && !governor.Null? && !IsPositiveFinite(governor) ==>
      bound == Some(5000.0)
  {
    if own.Null? then None
    else if IsPositiveFinite(own) then Some(own.value)
    else if governor.Null? then None
    else if IsPositiveFinite(governor) then Some(governor.value)
    else Some(DEFAULT_ENRICHMENT_TIMEOUT_MS)
  }

  datatype SlotResolution = SlotResolution(slot: Option<Option<real>>, degradation: seq<Degradation>)

  predicate Includes(s: string, t: string) {
    exists i :: 0 <= i <= |s| && t <= s[i..]
  }

  /** The text occurs somewhere. */
  lemma IncludesExactly(s: string, t: string)
    ensures Includes(s, t) <==> exists i: nat, j: nat :: i <= j <= |s| && s[i..j] == t
  {
    if i :| 0 <= i <= |s| && t <= s[i..] {
      assert s[i..i + |t|] == s[i..][..|t|] == t;
    }
    if i: nat, j: nat :| i <= j <= |s| && s[i..j] == t {
      assert s[i..][..|t|] == t;
    }
  }

  /** Some lifetime can be found: a static one, or a resolver that can be called. */
  predicate HasPolicy(enricher: Enricher) {
    match enricher.cacheTtlMsFor
    case NoResolver => IsPositiveFinite(enricher.cacheTtlMs)
    case ResolverNotCallable => false
    case _ => true
  }

  /** A non-empty text that does not leak the raw URL. */
  predicate SafeKey(env: Environment, key: CacheKey) {
    key.KeyText? && key.key != "" && (env.subject.UrlSubject? && env.input != "" ==> !Includes(key.key, env.input))
  }

  /** Whether this run is cacheable. A slot carries the static fallback lifetime. */
  function CacheSlotFor(enricher: Enricher, env: Environment, key: CacheKey): (r: SlotResolution)
    ensures r.slot.Some? <==> HasPolicy(enricher) && SafeKey(env, key)
    ensures r.slot.Some? ==> r.degradation == []
    ensures r.slot.Some? ==> (r.slot.value.Some? <==> IsPositiveFinite(enricher.cacheTtlMs))
    ensures r.slot.Some? && r.slot.value.Some? ==> r.slot.value.value == enricher.cacheTtlMs.value
    ensures r.degradation != [] <==>
      !key.NoCacheKey? && (enricher.cacheTtlMsFor.ResolverNotCallable? ||
                           (HasPolicy(enricher) && !key.KeyNullish? && !SafeKey(env, key)))
  {
    var staticTtl := if IsPositiveFinite(enricher.cacheTtlMs) then Some(enricher.cacheTtlMs.value) else None;
    if key.NoCacheKey? then SlotResolution(None, [])
    else if enricher.cacheTtlMsFor.ResolverNotCallable? then
      SlotResolution(None, [Degradation(CacheTtlError, false, "invalid-resolver")])
    else if staticTtl.None? && enricher.cacheTtlMsFor.NoResolver? then SlotResolution(None, [])
    else match key
      case KeyThrew => SlotResolution(None, [Degradation(CacheKeyError, false, "threw")])
      case KeyNullish => SlotResolution(None, [])
      case KeyText(text) =>
        if text == "" then SlotResolution(None, [Degradation(CacheKeyError, false, "invalid-return")])
        else if env.subject.UrlSubject? && env.input != "" && Includes(text, env.input) then
          SlotResolution(None, [Degradation(CacheKeyError, false, "unsafe-full-url")])
        else SlotResolution(Some(staticTtl), [])
      case _ => SlotResolution(None, [Degradation(CacheKeyError, false, "invalid-return")])
  }

  datatype TtlResolution = TtlResolution(ttlMs: Option<real>, degradation: seq<Degradation>)

  /** The resolver answers with something other than `undefined`. */
  predicate Resolved(enricher: Enricher, ttl: TtlAnswer) {
    enricher.cacheTtlMsFor.Resolver? && ttl.TtlReturned? && !ttl.value.Undefined?
  }

  predicate ResolverThrew(enricher: Enricher, ttl: TtlAnswer) {
    enricher.cacheTtlMsFor.Resolver? && ttl.TtlThrew?
  }

  /** Lifetime of one entry: the resolver wins unless it returns `undefined`. */
  function CacheTtlFor(enricher: Enricher, ttl: TtlAnswer, staticTtl: Option<real>): (r: TtlResolution)
    requires staticTtl.Some? ==> staticTtl.value > 0.0
    ensures r.ttlMs.Some? ==> r.ttlMs.value > 0.0 && r.degradation == []
    ensures Resolved(enricher, ttl) && IsPositiveFinite(ttl.value) ==> r.ttlMs == Some(ttl.value.value)
    ensures Resolved(enricher, ttl) && !IsPositiveFinite(ttl.value) ==> r.ttlMs == None
    ensures !Resolved(enricher, ttl) ==> r.ttlMs == if ResolverThrew(enricher, ttl) then None else staticTtl
    ensures r.degradation != [] <==> ResolverThrew(enricher, ttl) || (Resolved(enricher, ttl) && ttl.value.NotANumber?)
  {
    if ResolverThrew(enricher, ttl) then TtlResolution(None, [Degradation(CacheTtlError, false, "threw")])
    else
      var candidate :=
        if Resolved(enricher, ttl) then ttl.value
        else if staticTtl.Some? then Finite(staticTtl.value)
        else Undefined;
      match candidate
      case Undefined => TtlResolution(None, [])
      case Null => TtlResolution(None, [])
      case NotANumber => TtlResolution(None, [Degradation(CacheTtlError, false, "invalid-return")])
      case NonFinite => TtlResolution(None, [])
      case Finite(v) => TtlResolution(if v > 0.0 then Some(v) else None, [])
  }

  ghost predicate EnrichCalled(events: seq<Event>) {
    exists e :: e in events && e.Enrich?
  }

  ghost predicate StoreCalled(events: seq<Event>) {
    exists e :: e in events && e.CacheSet?
  }

  /** The answer a run's source gave, if it gave one: a usable cache entry or an
      accepted provider output that was not overtaken by cancellation. */
  ghost predicate Answered(enricher: Enricher, env: Environment, a: Answers, events: seq<Event>, report: Report) {
    || (&& events == [CacheGet] && a.read.ReadValue?
        && NormalizeCachedReport(a.read.value, enricher, env) == Usable(report))
    || (&& EnrichCalled(events) && !Aborted(a, AFTER_CALL)
        && a.call.CallReturned? && NormalizeOutput(a.call.output, enricher, env) == Some(report))
  }

  /** A record callback that throws leaves one more degradation. */
  function Recorded(env: Environment, a: Answers): (ds: seq<Degradation>) {
    if env.hasGovernor && a.recordThrows then [Degradation(GovernorError, true, "record")] else []
  }

  function RecordEvent(env: Environment, e: Event): seq<Event> {
    if env.hasGovernor then [e] else []
  }

  /** The cache slot of this run, with its static fallback lifetime. */
  function SlotOf(enricher: Enricher, env: Environment, a: Answers): (slot: Option<Option<real>>)
    ensures slot.Some? && slot.value.Some? ==> slot.value.value > 0.0
  {
    if env.hasCache then CacheSlotFor(enricher, env, a.cacheKey).slot else None
  }

  /** The cache section ends the run: a stored value, or cancellation around the read. */
  ghost predicate CacheFinishes(enricher: Enricher, env: Environment, a: Answers) {
    && SlotOf(enricher, env, a).Some?
    && (Aborted(a, AT_READ) || a.read.ReadValue? || (a.read.ReadTimedOut? && Aborted(a, AFTER_READ)))
  }

  function AbortedReport(enricher: Enricher, env: Environment): (r: Report)
    ensures !Completed(r) && Foldable(r, env.registry)
  {
    FrameworkReport(enricher, env.subject, Skipped, Cause(CallerAborted, false, "", []))
  }

  /** What a run that ends in the cache section reports. */
  ghost function CacheReport(enricher: Enricher, env: Environment, a: Answers): Report {
    if Aborted(a, AT_READ) || !a.read.ReadValue? then AbortedReport(enricher, env)
    else if NormalizeCachedReport(a.read.value, enricher, env).Usable? then NormalizeCachedReport(a.read.value, enricher, env).report
    else FrameworkReport(enricher, env.subject, Failure, Cause(InvalidCachedOutput, false, "", []))
  }

  /** What goes wrong around the cache of a run that goes on without an entry. */
  ghost function CacheTroubles(enricher: Enricher, env: Environment, a: Answers): seq<Degradation> {
    if !env.hasCache then []
    else if SlotOf(enricher, env, a).None? then CacheSlotFor(enricher, env, a.cacheKey).degradation
    else match a.read
      case ReadTimedOut => [Degradation(CacheReadError, true, "timeout")]
      case ReadThrew => [Degradation(CacheReadError, true, "")]
      case _ => []
  }

  /** Outcome of the cache section: a finished run, or go on with a slot. */
  datatype Lookup = Finished(report: Report) | Continue(slot: Option<Option<real>>) | LookupThrew

  /** Reading the stored value throws, outside of any guard. */
  ghost predicate HitThrows(enricher: Enricher, env: Environment, a: Answers) {
    && SlotOf(enricher, env, a).Some? && !Aborted(a, AT_READ) && a.read.ReadValue?
    && NormalizeCachedReport(a.read.value, enricher, env).Unreadable?
  }

  /** Resolve the optional slot and read it. A hit, usable or not, finishes the run. */
  method ConsultCache(enricher: Enricher, env: Environment, a: Answers)
    returns (lookup: Lookup, degradations: seq<Degradation>, events: seq<Event>)
    ensures events == if !Aborted(a, AT_READ) && SlotOf(enricher, env, a).Some? then [CacheGet] else []
    ensures lookup.Continue? <==> !CacheFinishes(enricher, env, a)
    ensures lookup.LookupThrew? <==> HitThrows(enricher, env, a)
    ensures lookup.Finished? ==> Foldable(lookup.report, env.registry)
    ensures lookup.Finished? && Completed(lookup.report) ==> Answered(enricher, env, a, events, lookup.report)
    ensures lookup.Finished? ==> lookup.report == CacheReport(enricher, env, a)
    ensures lookup.Continue? ==> lookup.slot == SlotOf(enricher, env, a)
    ensures degradations == if lookup.Continue? then CacheTroubles(enricher, env, a) else []
  {
    degradations, events := [], [];
    var slot := None;
    if env.hasCache {
      var resolved := CacheSlotFor(enricher, env, a.cacheKey);
      slot := resolved.slot;
      degradations := degradations + resolved.degradation;
    }
    if slot.Some? {
      var cached := None;
      if Aborted(a, AT_READ) {
        return Finished(AbortedReport(enricher, env)), degradations, events;
      }
      events := events + [CacheGet];
      match a.read {
        case ReadTimedOut =>
          if Aborted(a, AFTER_READ) {
            return Finished(AbortedReport(enricher, env)), degradations, events;
          }
          degradations := degradations + [Degradation(CacheReadError, true, "timeout")];
        case ReadThrew =>
          degradations := degradations + [Degradation(CacheReadError, true, "")];
        case ReadMiss =>
        case ReadValue(value) =>
          cached := Some(value);
      }
      if cached.Some? {
        var verdict := NormalizeCachedReport(cached.value, enricher, env);
        match verdict {
          case Unreadable => return LookupThrew, degradations, events;
          case Unusable =>
            return Finished(FrameworkReport(enricher, env.subject, Failure, Cause(InvalidCachedOutput, false, "", []))), degradations, events;
          case Usable(report) => return Finished(report), degradations, events;
        }
      }
    }
    return Continue(slot), degradations, events;
  }

  /** What goes wrong when a wholly completed report is stored. */
  ghost function WriteTroubles(enricher: Enricher, a: Answers, staticTtl: Option<real>): (ds: seq<Degradation>)
    requires staticTtl.Some? ==> staticTtl.value > 0.0
    ensures ds == [] <==>
      var ttl := CacheTtlFor(enricher, a.ttl, staticTtl);
      ttl.degradation == [] && (ttl.ttlMs.Some? ==> !Aborted(a, AT_WRITE) && a.write.WriteOk?)
  {
    var ttl := CacheTtlFor(enricher, a.ttl, staticTtl);
    if ttl.ttlMs.None? then ttl.degradation
    else if Aborted(a, AT_WRITE) then [Degradation(CacheWriteError, true, "caller-aborted")]
    else match a.write
      case WriteOk => []
      case WriteTimedOut =>
        [Degradation(CacheWriteError, true, if Aborted(a, AFTER_WRITE) then "caller-aborted" else "timeout")]
      case WriteThrew => [Degradation(CacheWriteError, true, "")]
  }

  /** Store a wholly completed report for its resolved lifetime. */
  method StoreReport(enricher: Enricher, a: Answers, report: Report, staticTtl: Option<real>)
    returns (degradations: seq<Degradation>, events: seq<Event>)
    requires Completed(report) && (staticTtl.Some? ==> staticTtl.value > 0.0)
    ensures events == if CacheTtlFor(enricher, a.ttl, staticTtl).ttlMs.Some? && !Aborted(a, AT_WRITE)
      then [CacheSet(report, CacheTtlFor(enricher, a.ttl, staticTtl).ttlMs.value)] else []
    ensures degradations == WriteTroubles(enricher, a, staticTtl)
  {
    var ttl := CacheTtlFor(enricher, a.ttl, staticTtl);
    degradations, events := ttl.degradation, [];
    if ttl.ttlMs.Some? {
      if Aborted(a, AT_WRITE) {
        degradations := degradations + [Degradation(CacheWriteError, true, "caller-aborted")];
        return;
      }
      events := [CacheSet(report, ttl.ttlMs.value)];
      match a.write {
        case WriteOk =>
        case WriteTimedOut =>
          degradations := degradations + [Degradation(CacheWriteError, true, if Aborted(a, AFTER_WRITE) then "caller-aborted" else "timeout")];
        case WriteThrew => degradations := degradations + [Degradation(CacheWriteError, true, "")];
      }
    }
  }

  /** The run passes its start and its cache section without an answer. */
  ghost predicate Proceeds(enricher: Enricher, env: Environment, a: Answers) {
    !Aborted(a, AT_START) && !CacheFinishes(enricher, env, a)
  }

  ghost predicate Calls(enricher: Enricher, env: Environment, a: Answers) {
    Proceeds(enricher, env, a) && (env.hasGovernor ==> a.decision.Admitted?)
  }

  /** The provider's answer was accepted and declares no failure. */
  ghost predicate CleanAnswer(enricher: Enricher, env: Environment, a: Answers) {
    var answer := ReadAnswer(enricher, env, a);
    answer.Accepted? && forall i :: 0 <= i < |answer.report.outcomes| ==> !Stops(answer.report.outcomes[i], true)
  }

  /** Looking for a declared failure, in the argument of the record call, reads a null outcome. */
  ghost predicate CallThrows(enricher: Enricher, env: Environment, a: Answers) {
    var answer := ReadAnswer(enricher, env, a);
    Calls(enricher, env, a) && answer.Accepted? && NilFirst(answer.report.outcomes, true)
  }

  /** The run rejects instead of settling: a stored or an accepted fresh report has a gap among
      its outcomes where the code does not expect one. */
  ghost predicate RunThrows(enricher: Enricher, env: Environment, a: Answers) {
    HitThrows(enricher, env, a) || CallThrows(enricher, env, a)
  }

  ghost function Lifetime(enricher: Enricher, env: Environment, a: Answers): Option<real> {
    var slot := SlotOf(enricher, env, a);
    if slot.Some? && ReadAnswer(enricher, env, a).Accepted? && Completed(ReadAnswer(enricher, env, a).report) &&
       !Aborted(a, AT_WRITE)
    then CacheTtlFor(enricher, a.ttl, slot.value).ttlMs else None
  }

  /** The bound a provider call runs under. */
  function Bound(enricher: Enricher, env: Environment, a: Answers): Option<real> {
    EffectiveTimeoutMs(enricher.timeoutMs, if env.hasGovernor && a.decision.Admitted? then a.decision.timeoutMs else Undefined)
  }

  ghost predicate Records(enricher: Enricher, env: Environment, a: Answers) {
    Calls(enricher, env, a) && !CallThrows(enricher, env, a)
  }

  /** The whole protocol of one run, over every exit: which calls are made, how often
      and in what order. Each admitted run that settles is recorded exactly once and no
      other run is; a hit touches neither governor nor provider; only a wholly completed answer
      is stored, with a positive lifetime. */
  ghost predicate Protocol(enricher: Enricher, env: Environment, a: Answers, events: seq<Event>) {
    && InProtocolOrder(events)
    && (CacheGet in events <==> !Aborted(a, AT_READ) && SlotOf(enricher, env, a).Some?)
    && (Admit in events <==> env.hasGovernor && Proceeds(enricher, env, a))
    && (EnrichCalled(events) <==> Calls(enricher, env, a))
    && (forall e :: e in events && e.Enrich? ==> e.timeoutMs == Bound(enricher, env, a))
    && (RecordSuccess in events <==> env.hasGovernor && Records(enricher, env, a) && CleanAnswer(enricher, env, a))
    && (RecordFailure in events <==> env.hasGovernor && Records(enricher, env, a) && !CleanAnswer(enricher, env, a))
    && (StoreCalled(events) <==> Calls(enricher, env, a) && Lifetime(enricher, env, a).Some?)
    && (forall e :: e in events && e.CacheSet? ==>
          && e.stored == ReadAnswer(enricher, env, a).report && Completed(e.stored)
          && Lifetime(enricher, env, a) == Some(e.ttlMs) && e.ttlMs > 0.0)
  }

  ghost predicate DeclaresFailure(report: Report) {
    exists i :: 0 <= i < |report.outcomes| && report.outcomes[i].Item? && report.outcomes[i].value.status == Failure
  }

  /** The protocol in the governor's and the cache's own terms. */
  lemma ProtocolGuarantees(enricher: Enricher, env: Environment, a: Answers, events: seq<Event>)
    requires Protocol(enricher, env, a, events)
    // no call of a kind happens twice, and both records never happen
    ensures forall i, j :: 0 <= i < j < |events| ==> Rank(events[i]) != Rank(events[j])
    // an admitted run is recorded exactly once if it settles and never if it throws, any other run never
    ensures Admit in events && a.decision.Admitted? && !RunThrows(enricher, env, a) ==>
      (RecordSuccess in events <==> RecordFailure !in events)
    ensures RunThrows(enricher, env, a) ==> RecordSuccess !in events && RecordFailure !in events
    ensures !(Admit in events && a.decision.Admitted?) ==> RecordSuccess !in events && RecordFailure !in events
    // a failure is recorded exactly when the answer is refused or declares a failure
    ensures RecordFailure in events <==>
      && env.hasGovernor && Calls(enricher, env, a) && !RunThrows(enricher, env, a)
      && (ReadAnswer(enricher, env, a).Refused? || DeclaresFailure(ReadAnswer(enricher, env, a).report))
    // a denied run never reaches its provider
    ensures Admit in events && !a.decision.Admitted? ==> !EnrichCalled(events)
    // a hit touches neither governor nor provider nor store
    ensures CacheGet in events && a.read.ReadValue? ==> events == [CacheGet]
  {
    assert |events| >= 2 ==> Rank(events[0]) < Rank(events[1]);
    if CacheGet in events && a.read.ReadValue? {
      forall i | 0 <= i < |events| ensures events[i] == CacheGet {
        assert events[i] in events;
      }
    }
  }

  /** The report of the source, or of the framework on its behalf, at each exit. */
  ghost function SourceReport(enricher: Enricher, env: Environment, a: Answers): Report {
    if Aborted(a, AT_START) then AbortedReport(enricher, env)
    else if CacheFinishes(enricher, env, a) then CacheReport(enricher, env, a)
    else if env.hasGovernor && !a.decision.Admitted? then DeniedReport(enricher, env, a.decision)
    else ReadAnswer(enricher, env, a).report
  }

  /** Everything that went wrong around the source, in the order it happened. */
  ghost function Troubles(enricher: Enricher, env: Environment, a: Answers): seq<Degradation> {
    var after := if Calls(enricher, env, a) then Recorded(env, a) + StoreTroubles(enricher, env, a) else [];
    if Proceeds(enricher, env, a) then CacheTroubles(enricher, env, a) + after else []
  }

  ghost function StoreTroubles(enricher: Enricher, env: Environment, a: Answers): seq<Degradation> {
    var slot, answer := SlotOf(enricher, env, a), ReadAnswer(enricher, env, a);
    if slot.Some? && answer.Accepted? && Completed(answer.report) then WriteTroubles(enricher, a, slot.value) else []
  }

  /** A stored report that validates and is complete. */
  ghost predicate UsableHit(enricher: Enricher, env: Environment, a: Answers) {
    && SlotOf(enricher, env, a).Some? && !Aborted(a, AT_READ) && a.read.ReadValue?
    && NormalizeCachedReport(a.read.value, enricher, env).Usable?
    && Completed(NormalizeCachedReport(a.read.value, enricher, env).report)
  }

  /** A fresh answer that is accepted and complete, with nothing going wrong around it. */
  ghost predicate UntroubledCall(enricher: Enricher, env: Environment, a: Answers) {
    var slot, answer := SlotOf(enricher, env, a), ReadAnswer(enricher, env, a);
    && !Aborted(a, AFTER_CALL) && answer.Accepted? && Completed(answer.report)
    && (env.hasGovernor ==> a.decision.Admitted? && !a.recordThrows)
    && (env.hasCache ==> CacheSlotFor(enricher, env, a.cacheKey).degradation == [])
    && (slot.Some? ==> a.read.ReadMiss? && WriteTroubles(enricher, a, slot.value) == [])
  }

  /** Exactly when a run counts as available to its dependents. */
  lemma AvailableExactly(enricher: Enricher, env: Environment, a: Answers)
    ensures Completed(SourceReport(enricher, env, a)) && Troubles(enricher, env, a) == [] <==>
      UsableHit(enricher, env, a) || UntroubledCall(enricher, env, a)
  {
    hide CacheSlotFor, NormalizeOutput, NormalizeCachedReport, WriteTroubles, Completed;
    var slot, answer := SlotOf(enricher, env, a), ReadAnswer(enricher, env, a);
    assert Completed(answer.report) ==> answer.Accepted?;
    if CacheFinishes(enricher, env, a) {
      assert a.read.ReadValue? && !Aborted(a, AT_READ) ==> !UntroubledCall(enricher, env, a);
    }
  }

  /** What a finished run promises: the protocol was kept, and a run that is available
      to its dependents is exactly the answer its source gave. */
  ghost predicate RunContract(enricher: Enricher, env: Environment, a: Answers, events: seq<Event>, run: EnricherRun) {
    && run.token == CheckToken(enricher) && Foldable(run.report, env.registry) && !RunThrows(enricher, env, a)
    && Protocol(enricher, env, a, events)
    && (RunIsAvailable(run) ==> Answered(enricher, env, a, events, run.report))
    && (RunIsAvailable(run) <==> UsableHit(enricher, env, a) || UntroubledCall(enricher, env, a))
    && Reports(enricher, env, a, run) && ExitNamed(enricher, env, a, run.report)
  }

  /** The first outcome is the framework's own, with this status, cause and advice. */
  ghost predicate Says(report: Report, status: Status, code: CauseCode, retryable: bool) {
    && report.outcomes != [] && report.outcomes[0].Item?
    && report.outcomes[0].value.status == status && report.outcomes[0].value.findings == []
    && report.outcomes[0].value.provenance == Unavailable && report.outcomes[0].value.cause.Some?
    && report.outcomes[0].value.cause.value.code == code && report.outcomes[0].value.cause.value.retryable == retryable
  }

  /** What every exit without an answer of the source reports, from the answers alone. */
  ghost predicate ExitNamed(enricher: Enricher, env: Environment, a: Answers, report: Report) {
    && (Aborted(a, AT_START) ==> Says(report, Skipped, CallerAborted, false))
    && (SlotOf(enricher, env, a).Some? ==>
          && (Aborted(a, AT_READ) || (a.read.ReadTimedOut? && Aborted(a, AFTER_READ)) ==> Says(report, Skipped, CallerAborted, false))
          && (!Aborted(a, AT_READ) && a.read.ReadValue? && NormalizeCachedReport(a.read.value, enricher, env).Unusable? ==>
                Says(report, Failure, InvalidCachedOutput, false)))
    && (Proceeds(enricher, env, a) && env.hasGovernor ==> GovernorExit(a.decision, report))
    && (Calls(enricher, env, a) ==> CallExit(enricher, env, a, report))
  }

  /** A denial is a skip with the governor's own cause; a broken governor is a failure. */
  ghost predicate GovernorExit(decision: Decision, report: Report) {
    match decision
    case Denied(Some(cause)) => Says(report, Skipped, cause, true)
    case Denied(None) => Says(report, Skipped, GovernorDenied, true)
    case AdmitInvalid => Says(report, Failure, GovernorError, true)
    case AdmitThrew => Says(report, Failure, GovernorError, true)
    case Admitted(_) => true
  }

  ghost predicate CallExit(enricher: Enricher, env: Environment, a: Answers, report: Report) {
    if Aborted(a, AFTER_CALL) then Says(report, Skipped, CallerAborted, false)
    else match a.call
      case CallThrew => Says(report, Failure, SourceError, true)
      case CallTimedOut => Says(report, Failure, Timeout, true)
      case CallReturned(output) => NormalizeOutput(output, enricher, env).None? ==> Says(report, Failure, InvalidOutput, false)
  }

  lemma SourceNamesExit(enricher: Enricher, env: Environment, a: Answers, ds: seq<Degradation>)
    ensures ExitNamed(enricher, env, a, WithDegradations(SourceReport(enricher, env, a), enricher, env, ds))
  {
    hide CacheSlotFor, Completed, Foldable, NormalizeOutput;
    var source := SourceReport(enricher, env, a);
    var report := WithDegradations(source, enricher, env, ds);
    assert source.outcomes != [] ==> report.outcomes[0] == source.outcomes[0];
  }

  /** The report is determined by the answers the run got: what the source said, then what
      went wrong around it. */
  ghost predicate Reports(enricher: Enricher, env: Environment, a: Answers, run: EnricherRun) {
    run.report == WithDegradations(SourceReport(enricher, env, a), enricher, env, Troubles(enricher, env, a))
  }

  /** Every exit ends the same way: the source's report, then the degradations. */
  lemma FinishRun(enricher: Enricher, env: Environment, a: Answers, events: seq<Event>, report: Report, run: EnricherRun)
    requires Protocol(enricher, env, a, events) && Foldable(report, env.registry) && !RunThrows(enricher, env, a)
    requires report == SourceReport(enricher, env, a) && (Completed(report) ==> Answered(enricher, env, a, events, report))
    requires run == EnricherRun(CheckToken(enricher), WithDegradations(report, enricher, env, Troubles(enricher, env, a)))
    ensures RunContract(enricher, env, a, events, run)
  {
    hide Protocol, Answered, Foldable, Completed, Troubles, SourceReport, UsableHit, UntroubledCall, RunThrows, ExitNamed;
    SourceNamesExit(enricher, env, a, Troubles(enricher, env, a));
    AvailableExactly(enricher, env, a);
  }

  datatype RunResult = RunSettled(run: EnricherRun) | RunThrew

  /** Runs one source. The guard around it is total but for gaps among the outcomes. */
  method RunEnricher(enricher: Enricher, env: Environment, a: Answers) returns (result: RunResult, events: seq<Event>)
    ensures result.RunThrew? <==> RunThrows(enricher, env, a)
    ensures result.RunSettled? ==> RunContract(enricher, env, a, events, result.run)
    ensures Protocol(enricher, env, a, events)
    ensures a.abortPhase == 0 ==> events == [] && result.RunSettled? && IsFrameworkRun(result.run, CallerAborted)
  {
    hide Protocol, Answered, Foldable, CacheSlotFor, NormalizeOutput, NormalizeCachedReport, CacheTroubles, StoreTroubles,
      CacheReport, RunContract, NilFirst;
    ShortTraces(enricher, env, a);
    var token := CheckToken(enricher);
    if Aborted(a, AT_START) {
      var run := EnricherRun(token, AbortedReport(enricher, env));
      FinishRun(enricher, env, a, [], run.report, run);
      return RunSettled(run), [];
    }
    var report;
    var lookup, degradations, get := ConsultCache(enricher, env, a);
    if lookup.LookupThrew? {
      return RunThrew, get;
    } else if lookup.Finished? {
      report, events := lookup.report, get;
    } else if env.hasGovernor && !a.decision.Admitted? {
      report, events := DeniedReport(enricher, env, a.decision), get + [Admit];
      assert degradations + [] == degradations;
    } else {
      var threw, more;
      threw, report, events, more := CallSource(enricher, env, a, lookup.slot, get);
      if threw {
        return RunThrew, events;
      }
      degradations := degradations + more;
    }
    assert degradations == Troubles(enricher, env, a);
    var run := EnricherRun(token, WithDegradations(report, enricher, env, degradations));
    FinishRun(enricher, env, a, events, report, run);
    return RunSettled(run), events;
  }

  function GetEvents(enricher: Enricher, env: Environment, a: Answers): seq<Event> {
    if !Aborted(a, AT_READ) && SlotOf(enricher, env, a).Some? then [CacheGet] else []
  }

  /** The traces of runs that end before their provider is called. */
  lemma ShortTraces(enricher: Enricher, env: Environment, a: Answers)
    ensures Aborted(a, AT_START) ==> Protocol(enricher, env, a, [])
    ensures !Proceeds(enricher, env, a) ==> Protocol(enricher, env, a, GetEvents(enricher, env, a))
    ensures Proceeds(enricher, env, a) && env.hasGovernor && !a.decision.Admitted? ==>
      Protocol(enricher, env, a, GetEvents(enricher, env, a) + [Admit])
  {
    hide Protocol, Proceeds;
    if !Proceeds(enricher, env, a) {
      QuietTrace(enricher, env, a);
    } else if env.hasGovernor && !a.decision.Admitted? {
      DeniedTrace(enricher, env, a);
    }
    assert Aborted(a, AT_START) ==> !Proceeds(enricher, env, a) && GetEvents(enricher, env, a) == [] by {
      StartAborted(enricher, env, a);
    }
  }

  lemma StartAborted(enricher: Enricher, env: Environment, a: Answers)
    ensures Aborted(a, AT_START) ==> !Proceeds(enricher, env, a)
  {
  }

  lemma QuietTrace(enricher: Enricher, env: Environment, a: Answers)
    requires !Proceeds(enricher, env, a)
    ensures Protocol(enricher, env, a, GetEvents(enricher, env, a))
  {
    hide CacheSlotFor, ReadAnswer, CleanAnswer, Lifetime, CacheFinishes;
    var events := GetEvents(enricher, env, a);
    assert events == [] || events == [CacheGet];
  }

  lemma DeniedTrace(enricher: Enricher, env: Environment, a: Answers)
    requires Proceeds(enricher, env, a) && env.hasGovernor && !a.decision.Admitted?
    ensures Protocol(enricher, env, a, GetEvents(enricher, env, a) + [Admit])
  {
    hide CacheSlotFor, ReadAnswer, CleanAnswer, Lifetime, CacheFinishes;
    var events := GetEvents(enricher, env, a) + [Admit];
    assert events == [Admit] || events == [CacheGet, Admit];
  }

  function DeniedReport(enricher: Enricher, env: Environment, decision: Decision): (r: Report)
    requires !decision.Admitted?
    ensures !Completed(r) && Foldable(r, env.registry)
  {
    match decision
    case Denied(cause) =>
      FrameworkReport(enricher, env.subject, Skipped, Cause(if cause.Some? then cause.value else GovernorDenied, true, "", []))
    case AdmitInvalid =>
      FrameworkReport(enricher, env.subject, Failure, Cause(GovernorError, true, "invalid-decision", []))
    case AdmitThrew =>
      FrameworkReport(enricher, env.subject, Failure, Cause(GovernorError, true, "", []))
  }

  /** The admitted part of a run: call the provider under its bound, record the
      verdict with the governor, and store a wholly completed report. */
  method CallSource(enricher: Enricher, env: Environment, a: Answers, slot: Option<Option<real>>, get: seq<Event>)
    returns (threw: bool, report: Report, events: seq<Event>, degradations: seq<Degradation>)
    requires get == if !Aborted(a, AT_READ) && SlotOf(enricher, env, a).Some? then [CacheGet] else []
    requires Calls(enricher, env, a) && slot == SlotOf(enricher, env, a)
    ensures threw <==> CallThrows(enricher, env, a)
    ensures report == ReadAnswer(enricher, env, a).report && (!threw ==> Foldable(report, env.registry))
    ensures Completed(report) ==> Answered(enricher, env, a, events, report) && !Aborted(a, AFTER_CALL)
    ensures Protocol(enricher, env, a, events)
    ensures !threw ==> degradations == Recorded(env, a) + StoreTroubles(enricher, env, a)
  {
    hide Protocol, Answered, Proceeds, CacheSlotFor, WriteTroubles, Shaped;
    var bound := EffectiveTimeoutMs(enricher.timeoutMs, if env.hasGovernor then a.decision.timeoutMs else Undefined);
    events := get + (if env.hasGovernor then [Admit] else []) + [Enrich(bound)];
    var answer := ReadAnswer(enricher, env, a);
    threw, report, degradations := false, answer.report, Recorded(env, a);
    if answer.Refused? {
      var records := RecordEvent(env, RecordFailure);
      TraceForm(env, get, bound, records, []);
      TraceShape(enricher, env, a, get, bound, records, [], events + records);
      events := events + records;
      return;
    }
    if NilFirst(report.outcomes, true) {
      TraceForm(env, get, bound, [], []);
      TraceShape(enricher, env, a, get, bound, [], [], events);
      return true, report, events, [];
    }
    var failed := exists i :: 0 <= i < |report.outcomes| && Stops(report.outcomes[i], true);
    var records, written := RecordEvent(env, if failed then RecordFailure else RecordSuccess), [];
    if slot.Some? && Completed(report) {
      var more;
      more, written := StoreReport(enricher, a, report, slot.value);
      degradations := degradations + more;
    }
    TraceForm(env, get, bound, records, written);
    events := events + records + written;
    TraceShape(enricher, env, a, get, bound, records, written, events);
  }

  /** The trace of a run that reaches its provider. */
  function CallTrace(env: Environment, get: seq<Event>, bound: Option<real>, records: seq<Event>, written: seq<Event>): seq<Event> {
    get + Middle(env, bound) + (records + written)
  }

  function Middle(env: Environment, bound: Option<real>): seq<Event> {
    if env.hasGovernor then [Admit, Enrich(bound)] else [Enrich(bound)]
  }

  lemma TraceForm(env: Environment, get: seq<Event>, bound: Option<real>, records: seq<Event>, written: seq<Event>)
    ensures get + (if env.hasGovernor then [Admit] else []) + [Enrich(bound)] + records + written
      == CallTrace(env, get, bound, records, written)
    ensures get + (if env.hasGovernor then [Admit] else []) + [Enrich(bound)] + records
      == CallTrace(env, get, bound, records, [])
    ensures get + (if env.hasGovernor then [Admit] else []) + [Enrich(bound)]
      == CallTrace(env, get, bound, [], [])
  {
  }

  lemma TraceOrder(env: Environment, get: seq<Event>, bound: Option<real>, records: seq<Event>, written: seq<Event>)
    requires get == [] || get == [CacheGet]
    requires records == [] || records == [RecordSuccess] || records == [RecordFailure]
    requires written == [] || (|written| == 1 && written[0].CacheSet?)
    ensures InProtocolOrder(CallTrace(env, get, bound, records, written))
  {
    var middle := Middle(env, bound);
    assert InProtocolOrder(get + middle);
    assert InProtocolOrder(records + written);
  }

  lemma InParts(a: seq<Event>, b: seq<Event>, c: seq<Event>)
    ensures forall e :: e in a + b + c <==> e in a || e in b || e in c
  {
  }

  /** The members of such a trace. */
  lemma TraceMembers(env: Environment, get: seq<Event>, bound: Option<real>, records: seq<Event>, written: seq<Event>)
    requires get == [] || get == [CacheGet]
    requires records == [] || records == [RecordSuccess] || records == [RecordFailure]
    requires written == [] || (|written| == 1 && written[0].CacheSet?)
    ensures var events := CallTrace(env, get, bound, records, written);
      && EnrichCalled(events) && (forall e :: e in events && e.Enrich? ==> e == Enrich(bound))
      && (Admit in events <==> env.hasGovernor)
      && (CacheGet in events <==> get != [])
      && (RecordSuccess in events <==> records == [RecordSuccess])
      && (RecordFailure in events <==> records == [RecordFailure])
      && (forall e :: e in events && e.CacheSet? ==> written == [e])
      && (written != [] ==> written[0] in events)
  {
    InParts(get, Middle(env, bound), records + written);
    assert forall e :: e in records + written <==> e in records || e in written;
    assert Enrich(bound) in Middle(env, bound);
    assert Enrich(bound) in CallTrace(env, get, bound, records, written);
  }

  /** A run that reaches its provider obeys the protocol. */
  lemma TraceShape(enricher: Enricher, env: Environment, a: Answers, get: seq<Event>, bound: Option<real>,
                   records: seq<Event>, written: seq<Event>, events: seq<Event>)
    requires get == if !Aborted(a, AT_READ) && SlotOf(enricher, env, a).Some? then [CacheGet] else []
    requires Calls(enricher, env, a) && bound == Bound(enricher, env, a)
    requires records == if !env.hasGovernor || CallThrows(enricher, env, a) then []
      else if CleanAnswer(enricher, env, a) then [RecordSuccess] else [RecordFailure]
    requires written == if Lifetime(enricher, env, a).Some?
      then [CacheSet(ReadAnswer(enricher, env, a).report, Lifetime(enricher, env, a).value)] else []
    requires events == CallTrace(env, get, bound, records, written)
    ensures ReadAnswer(enricher, env, a).Accepted? ==> Answered(enricher, env, a, events, ReadAnswer(enricher, env, a).report)
    ensures Protocol(enricher, env, a, events)
  {
    hide CacheSlotFor, NilFirst, ReadAnswer, Proceeds, CacheTtlFor, InProtocolOrder, CallTrace, NormalizeOutput;
    TraceOrder(env, get, bound, records, written);
    TraceMembers(env, get, bound, records, written);
  }

  datatype Answer = Refused(report: Report) | Accepted(report: Report)

  /** Cancellation is a skip and nothing else is; every refusal carries its own code. */
  ghost predicate NamesRefusal(report: Report, a: Answers) {
    && |report.outcomes| == 1 && report.outcomes[0].Item? && report.outcomes[0].value.cause.Some?
    && (report.outcomes[0].value.status == if Aborted(a, AFTER_CALL) then Skipped else Failure)
    && (report.outcomes[0].value.cause.value.code == CallerAborted <==> Aborted(a, AFTER_CALL))
    && (report.outcomes[0].value.cause.value.code == SourceError <==> !Aborted(a, AFTER_CALL) && a.call.CallThrew?)
    && (report.outcomes[0].value.cause.value.code == Timeout <==> !Aborted(a, AFTER_CALL) && a.call.CallTimedOut?)
  }

  /** What the provider call amounts to. Cancellation seen after the call wins over
      any answer; a refused answer is reported by the framework. */
  function ReadAnswer(enricher: Enricher, env: Environment, a: Answers): (r: Answer)
    ensures Shaped(r.report, env.registry) && (r.Refused? ==> Foldable(r.report, env.registry))
    ensures r.Accepted? <==>
      !Aborted(a, AFTER_CALL) && a.call.CallReturned? && NormalizeOutput(a.call.output, enricher, env).Some?
    ensures r.Accepted? ==> NormalizeOutput(a.call.output, enricher, env) == Some(r.report)
    ensures r.Refused? ==> !Completed(r.report)
    ensures r.Refused? ==> NamesRefusal(r.report, a)
  {
    var aborted := AbortedReport(enricher, env);
    var refused := (code, retryable) =>
      Refused(FrameworkReport(enricher, env.subject, Failure, Cause(code, retryable, "", [])));
    if Aborted(a, AFTER_CALL) then
      Refused(aborted)
    else match a.call
      case CallThrew => refused(SourceError, true)
      case CallTimedOut => refused(Timeout, true)
      case CallReturned(output) =>
        var report := NormalizeOutput(output, enricher, env);
        if report.None? then refused(InvalidOutput, false) else Accepted(report.value)
  }
}
