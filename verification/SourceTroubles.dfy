/** Exactly what can go wrong around a source, and what is then reported (runEnricher and its
    helpers, packages/core/src/inspect-async.ts). */
module SourceTroubles {
  import opened Wrappers
  import opened EnrichmentSchema
  import opened Normalization
  import opened SourceRunner

  /** Everything that can go wrong around a source, and exactly when. */
  ghost predicate HasTrouble(enricher: Enricher, env: Environment, a: Answers, code: CauseCode) {
    CodeIn(Troubles(enricher, env, a), code)
  }

  ghost predicate CodeIn(ds: seq<Degradation>, code: CauseCode) {
    exists d :: d in ds && d.code == code
  }

  lemma CodeConcat(x: seq<Degradation>, y: seq<Degradation>, code: CauseCode)
    ensures CodeIn(x + y, code) <==> CodeIn(x, code) || CodeIn(y, code)
  {
    if d :| d in x && d.code == code {
      assert d in x + y;
    }
    if d :| d in y && d.code == code {
      assert d in x + y;
    }
  }

  /** Where a trouble can come from. */
  lemma TroubleComesFrom(enricher: Enricher, env: Environment, a: Answers, code: CauseCode)
    ensures HasTrouble(enricher, env, a, code) <==>
      || (Proceeds(enricher, env, a) && CodeIn(CacheTroubles(enricher, env, a), code))
      || (Calls(enricher, env, a) && (CodeIn(Recorded(env, a), code) || CodeIn(StoreTroubles(enricher, env, a), code)))
  {
    hide CodeIn, CacheTroubles, StoreTroubles, Recorded, Proceeds;
    var after := Recorded(env, a) + StoreTroubles(enricher, env, a);
    CodeConcat(Recorded(env, a), StoreTroubles(enricher, env, a), code);
    CodeConcat(CacheTroubles(enricher, env, a), after, code);
    CodeConcat(CacheTroubles(enricher, env, a), [], code);
    NoCode(code);
  }

  lemma NoCode(code: CauseCode)
    ensures !CodeIn([], code)
  {
  }

  lemma RecordTrouble(env: Environment, a: Answers, code: CauseCode)
    ensures CodeIn(Recorded(env, a), code) <==> code == GovernorError && env.hasGovernor && a.recordThrows
  {
    if env.hasGovernor && a.recordThrows {
      assert Recorded(env, a)[0] in Recorded(env, a);
    }
  }

  lemma OneCode(ds: seq<Degradation>, code: CauseCode)
    requires |ds| <= 1
    ensures CodeIn(ds, code) <==> |ds| == 1 && ds[0].code == code
  {
    if |ds| == 1 {
      assert ds[0] in ds;
    }
  }

  /** A wholly completed fresh answer of a cacheable run. */
  ghost predicate Storable(enricher: Enricher, env: Environment, a: Answers) {
    && Calls(enricher, env, a) && SlotOf(enricher, env, a).Some?
    && ReadAnswer(enricher, env, a).Accepted? && Completed(ReadAnswer(enricher, env, a).report)
  }

  ghost predicate TtlBroken(enricher: Enricher, a: Answers) {
    ResolverThrew(enricher, a.ttl) || (Resolved(enricher, a.ttl) && a.ttl.value.NotANumber?)
  }

  ghost predicate WriteFails(enricher: Enricher, env: Environment, a: Answers) {
    && Storable(enricher, env, a) && CacheTtlFor(enricher, a.ttl, SlotOf(enricher, env, a).value).ttlMs.Some?
    && (Aborted(a, AT_WRITE) || !a.write.WriteOk?)
  }

  lemma TroublesExactly(enricher: Enricher, env: Environment, a: Answers)
    ensures HasTrouble(enricher, env, a, CacheKeyError) <==>
      && Proceeds(enricher, env, a) && env.hasCache && HasPolicy(enricher)
      && !a.cacheKey.NoCacheKey? && !a.cacheKey.KeyNullish? && !SafeKey(env, a.cacheKey)
    ensures HasTrouble(enricher, env, a, CacheReadError) <==>
      Proceeds(enricher, env, a) && SlotOf(enricher, env, a).Some? && (a.read.ReadTimedOut? || a.read.ReadThrew?)
    ensures HasTrouble(enricher, env, a, GovernorError) <==> Calls(enricher, env, a) && env.hasGovernor && a.recordThrows
    ensures HasTrouble(enricher, env, a, CacheTtlError) <==>
      || (Proceeds(enricher, env, a) && env.hasCache && !a.cacheKey.NoCacheKey? && enricher.cacheTtlMsFor.ResolverNotCallable?)
      || (Storable(enricher, env, a) && TtlBroken(enricher, a))
    ensures HasTrouble(enricher, env, a, CacheWriteError) <==> WriteFails(enricher, env, a)
    ensures forall d :: d in Troubles(enricher, env, a) ==> WellNamed(a, d)
  {
    hide HasTrouble, CodeIn, CacheTroubles, StoreTroubles, Recorded, Troubles, WellNamed, Proceeds, Storable, WriteFails, SafeKey, HasPolicy,
      CacheSlotFor;
    CacheTroubleNamed(enricher, env, a);
    StoreTroubleNamed(enricher, env, a);
    TroubleFrom(enricher, env, a, CacheKeyError);
    TroubleFrom(enricher, env, a, CacheReadError);
    TroubleFrom(enricher, env, a, GovernorError);
    TroubleFrom(enricher, env, a, CacheTtlError);
    TroubleFrom(enricher, env, a, CacheWriteError);
    FailsWhenCalled(enricher, env, a);
    TroublesWellNamed(enricher, env, a);
  }

  lemma TroubleFrom(enricher: Enricher, env: Environment, a: Answers, code: CauseCode)
    requires |CacheTroubles(enricher, env, a)| <= 1 && |StoreTroubles(enricher, env, a)| <= 1
    ensures var c, s := CacheTroubles(enricher, env, a), StoreTroubles(enricher, env, a);
      HasTrouble(enricher, env, a, code) <==>
        || (Proceeds(enricher, env, a) && |c| == 1 && c[0].code == code)
        || (Calls(enricher, env, a) && code == GovernorError && env.hasGovernor && a.recordThrows)
        || (Calls(enricher, env, a) && |s| == 1 && s[0].code == code)
  {
    hide HasTrouble, CodeIn, CacheTroubles, StoreTroubles, Recorded;
    TroubleComesFrom(enricher, env, a, code);
    OneCode(CacheTroubles(enricher, env, a), code);
    OneCode(StoreTroubles(enricher, env, a), code);
    RecordTrouble(env, a, code);
  }

  lemma FailsWhenCalled(enricher: Enricher, env: Environment, a: Answers)
    ensures WriteFails(enricher, env, a) || Storable(enricher, env, a) ==> Calls(enricher, env, a)
  {
  }

  lemma TroublesWellNamed(enricher: Enricher, env: Environment, a: Answers)
    ensures forall d :: d in Troubles(enricher, env, a) ==> WellNamed(a, d)
  {
    hide CacheTroubles, StoreTroubles, Proceeds, Calls;
    CacheTroubleNamed(enricher, env, a);
    StoreTroubleNamed(enricher, env, a);
  }

  /** Each code has its own advice and its own reasons. */
  ghost predicate WellNamed(a: Answers, d: Degradation) {
    || (d.code == CacheKeyError && !d.retryable &&
        d.reason == (if a.cacheKey.KeyThrew? then "threw"
                     else if a.cacheKey.KeyText? && a.cacheKey.key != "" then "unsafe-full-url" else "invalid-return"))
    || (d.code == CacheTtlError && !d.retryable && (d.reason == "invalid-resolver" || d.reason == "threw" || d.reason == "invalid-return"))
    || (d.code == CacheReadError && d.retryable && d.reason == (if a.read.ReadTimedOut? then "timeout" else ""))
    || (d.code == GovernorError && d.retryable)
    || (d.code == CacheWriteError && d.retryable &&
        d.reason == (if Aborted(a, AT_WRITE) || (a.write.WriteTimedOut? && Aborted(a, AFTER_WRITE)) then "caller-aborted"
                     else if a.write.WriteTimedOut? then "timeout" else ""))
  }

  lemma CacheTroubleNamed(enricher: Enricher, env: Environment, a: Answers)
    ensures forall d :: d in CacheTroubles(enricher, env, a) ==> WellNamed(a, d)
    ensures var ds := CacheTroubles(enricher, env, a);
      && |ds| <= 1
      && (|ds| == 1 && ds[0].code == CacheKeyError <==> env.hasCache && HasPolicy(enricher) && !a.cacheKey.NoCacheKey? && !a.cacheKey.KeyNullish? && !SafeKey(env, a.cacheKey))
      && (|ds| == 1 && ds[0].code == CacheTtlError <==> env.hasCache && !a.cacheKey.NoCacheKey? && enricher.cacheTtlMsFor.ResolverNotCallable?)
      && (|ds| == 1 && ds[0].code == CacheReadError <==> SlotOf(enricher, env, a).Some? && (a.read.ReadTimedOut? || a.read.ReadThrew?))
      && (|ds| == 1 ==> ds[0].code == CacheKeyError || ds[0].code == CacheTtlError || ds[0].code == CacheReadError)
  {
  }

  lemma StoreTroubleNamed(enricher: Enricher, env: Environment, a: Answers)
    ensures forall d :: d in StoreTroubles(enricher, env, a) ==> WellNamed(a, d)
    ensures var ds := StoreTroubles(enricher, env, a);
      && |ds| <= 1
      && (Calls(enricher, env, a) ==> (|ds| == 1 && ds[0].code == CacheWriteError <==> WriteFails(enricher, env, a)))
      && (Calls(enricher, env, a) ==> (|ds| == 1 && ds[0].code == CacheTtlError <==> Storable(enricher, env, a) && TtlBroken(enricher, a)))
      && (|ds| == 1 ==> ds[0].code == CacheWriteError || ds[0].code == CacheTtlError)
  {
    hide Completed, ReadAnswer, Proceeds, CacheSlotFor;
  }
}
