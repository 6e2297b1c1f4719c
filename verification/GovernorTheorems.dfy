/** What the governor guarantees over every sequence of calls. */
module GovernorTheorems {
  import opened Wrappers
  import opened EnrichmentSchema
  import opened EnrichmentGovernor
  import opened Clocks

  // ---------- accrual ----------

  lemma AccruedAdds(p: Policy, a: real, b: real)
    requires PolicyOk(p) && p.refill.Some?
    ensures Accrued(p, a + b) == Accrued(p, a) + Accrued(p, b)
  {
  }

  lemma AccruedNonNegative(p: Policy, a: real)
    requires PolicyOk(p) && p.refill.Some? && a >= 0.0
    ensures Accrued(p, a) >= 0.0
  {
  }

  lemma AccruedInterval(p: Policy)
    requires PolicyOk(p) && p.refill.Some?
    ensures Accrued(p, p.refill.value) == 1.0
  {
  }

  // ---------- sources are independent ----------

  function OfSource(trace: seq<Call>, token: string): seq<Call> {
    if trace == [] then [] else
      var rest, c := OfSource(trace[..|trace| - 1], token), trace[|trace| - 1];
      if c.token == token then rest + [c] else rest
  }

  /** A source's state, and so every answer it gets, depends on its own calls only. */
  lemma {:induction false} SourcesAreIndependent(p: Policy, trace: seq<Call>, token: string)
    requires PolicyOk(p)
    ensures var mine := OfSource(trace, token);
      && (token in StatesAfter(p, trace) <==> token in StatesAfter(p, mine))
      && (token in StatesAfter(p, trace) ==> StatesAfter(p, trace)[token] == StatesAfter(p, mine)[token])
      && (forall now :: Answer(p, trace, token, now) == Answer(p, mine, token, now))
      && Admissions(p, trace, token) == Admissions(p, mine, token)
  {
    hide After, AdmitVerdict;
    if trace != [] {
      var before, c := trace[..|trace| - 1], trace[|trace| - 1];
      SourcesAreIndependent(p, before, token);
      if c.token == token {
        var rest := OfSource(before, token);
        assert (rest + [c])[..|rest|] == rest;
      }
    }
  }

  // ---------- the bucket ----------

  lemma AfterBounds(p: Policy, s: SourceState, op: Op, now: real)
    requires PolicyOk(p) && 0.0 <= s.tokens <= p.capacity
    ensures 0.0 <= After(p, s, op, now).tokens <= p.capacity
    ensures 0.0 <= Refilled(p, s, now).tokens <= p.capacity
  {
    hide Accrued, Window;
    if p.refill.Some? && now >= s.lastRefill {
      AccruedNonNegative(p, now - s.lastRefill);
    }
  }

  /** Tokens stay between zero and capacity, whatever the clock does. */
  lemma {:induction false} TokensInRange(p: Policy, trace: seq<Call>, token: string)
    requires PolicyOk(p) && token in StatesAfter(p, trace)
    ensures 0.0 <= StatesAfter(p, trace)[token].tokens <= p.capacity
  {
    hide After;
    var before, c := trace[..|trace| - 1], trace[|trace| - 1];
    if token in StatesAfter(p, before) {
      TokensInRange(p, before, token);
    }
    if c.token == token {
      AfterBounds(p, StateOf(p, StatesAfter(p, before), token, c.now), c.op, c.now);
    }
  }

  /** The moment a source was first seen. */
  function Created(trace: seq<Call>, token: string): Option<real> {
    if trace == [] then None else
      var earlier, c := Created(trace[..|trace| - 1], token), trace[|trace| - 1];
      if earlier.Some? then earlier else if c.token == token then Some(c.now) else None
  }

  function Spent(v: Verdict, op: Op): real {
    if op == AdmitOp && v.Run? then 1.0 else 0.0
  }

  /** One call never creates tokens beyond what the refill clock accounts for. */
  lemma CallConserves(p: Policy, s: SourceState, op: Op, now: real)
    requires PolicyOk(p)
    ensures p.refill.None? ==> Spent(AdmitVerdict(p, s, now), op) + After(p, s, op, now).tokens == s.tokens
    ensures p.refill.Some? ==> After(p, s, op, now).lastRefill >= s.lastRefill
    ensures p.refill.Some? ==>
      Spent(AdmitVerdict(p, s, now), op) + After(p, s, op, now).tokens
        <= s.tokens + Accrued(p, After(p, s, op, now).lastRefill - s.lastRefill)
  {
    hide Accrued, Window;
    if p.refill.Some? {
      AccruedNonNegative(p, 0.0);
    }
  }

  /** The rate limit over every trace, even when the clock steps backwards: admissions plus
      remaining tokens never exceed capacity plus what accrued since the source was created;
      with refill disabled they always equal the capacity. */
  lemma {:induction false} RateLimit(p: Policy, trace: seq<Call>, token: string)
    requires PolicyOk(p)
    ensures token in StatesAfter(p, trace) <==> Created(trace, token).Some?
    ensures token !in StatesAfter(p, trace) ==> Admissions(p, trace, token) == 0
    ensures token in StatesAfter(p, trace) ==>
      var s, spent := StatesAfter(p, trace)[token], Admissions(p, trace, token) as real;
      && (p.refill.None? ==> spent + s.tokens == p.capacity)
      && (p.refill.Some? ==> s.lastRefill >= Created(trace, token).value)
      && (p.refill.Some? ==> spent + s.tokens <= p.capacity + Accrued(p, s.lastRefill - Created(trace, token).value))
  {
    hide Accrued, After, AdmitVerdict, Refilled;
    if trace != [] {
      var before, c := trace[..|trace| - 1], trace[|trace| - 1];
      RateLimit(p, before, token);
      if c.token == token {
        var s := StateOf(p, StatesAfter(p, before), token, c.now);
        var s' := After(p, s, c.op, c.now);
        CallConserves(p, s, c.op, c.now);
        if p.refill.Some? {
          var born := Created(trace, token).value;
          AccruedNonNegative(p, 0.0);
          AccruedAdds(p, s.lastRefill - born, s'.lastRefill - s.lastRefill);
          assert (s.lastRefill - born) + (s'.lastRefill - s.lastRefill) == s'.lastRefill - born;
        }
      }
    }
  }

  /** With refill disabled a source is admitted at most floor(capacity) times, ever. */
  lemma WithoutRefill(p: Policy, trace: seq<Call>, token: string)
    requires PolicyOk(p) && p.refill.None?
    ensures Admissions(p, trace, token) <= p.capacity.Floor
  {
    RateLimit(p, trace, token);
    if token in StatesAfter(p, trace) {
      TokensInRange(p, trace, token);
    }
  }

  // ---------- a forward clock ----------

  /** When the calls of a trace were made. */
  function Readings(trace: seq<Call>): (readings: seq<real>)
    ensures |readings| == |trace| && forall i :: 0 <= i < |trace| ==> readings[i] == trace[i].now
  {
    seq(|trace|, i requires 0 <= i < |trace| => trace[i].now)
  }

  lemma {:induction false} RefillsInThePast(p: Policy, trace: seq<Call>, token: string, now: real)
    requires PolicyOk(p) && NotBefore(Readings(trace), now) && token in StatesAfter(p, trace)
    ensures StatesAfter(p, trace)[token].lastRefill <= now
  {
    hide Accrued, Window, AdmitVerdict;
    var before, c := trace[..|trace| - 1], trace[|trace| - 1];
    if token in StatesAfter(p, before) {
      RefillsInThePast(p, before, token, now);
    }
  }

  /** Refilling in two steps is refilling once, if the second is later or the first did nothing. */
  lemma RefillTwice(p: Policy, s: SourceState, a: real, b: real)
    requires PolicyOk(p) && (a <= b || a <= s.lastRefill)
    ensures Refilled(p, Refilled(p, s, a), b) == Refilled(p, s, b)
  {
    hide Accrued;
    if p.refill.Some? && s.lastRefill < a < b {
      AccruedAdds(p, a - s.lastRefill, b - a);
      assert (a - s.lastRefill) + (b - a) == b - s.lastRefill;
      AccruedNonNegative(p, a - s.lastRefill);
      AccruedNonNegative(p, b - a);
    }
  }

  /** A bucket that accrues for every source at every call. */
  function EagerStatesAfter(p: Policy, trace: seq<Call>): map<string, SourceState>
    requires PolicyOk(p)
  {
    if trace == [] then map[] else
      var c := trace[|trace| - 1];
      var before := Ticked(p, EagerStatesAfter(p, trace[..|trace| - 1]), c.now);
      before[c.token := After(p, StateOf(p, before, c.token, c.now), c.op, c.now)]
  }

  function Ticked(p: Policy, states: map<string, SourceState>, now: real): map<string, SourceState>
    requires PolicyOk(p)
  {
    map u | u in states :: Refilled(p, states[u], now)
  }

  /** Acting on a refilled state and refilling afterwards agree, whatever the clock. */
  lemma ActionsCommute(p: Policy, s: SourceState, op: Op, now: real)
    requires PolicyOk(p)
    ensures After(p, Refilled(p, s, now), op, now) == Refilled(p, After(p, s, op, now), now)
    ensures AdmitVerdict(p, Refilled(p, s, now), now) == AdmitVerdict(p, s, now)
    ensures p.refill.Some? && now <= s.lastRefill ==> now <= After(p, s, op, now).lastRefill
    ensures s.lastRefill <= now ==> After(p, s, op, now).lastRefill <= now
  {
    hide Accrued, Window;
    RefillTwice(p, s, now, now);
  }

  /** Seen through a refill, the lazy and the eager bucket of a source are the same. */
  ghost predicate SameBucket(p: Policy, trace: seq<Call>, token: string, now: real)
    requires PolicyOk(p)
  {
    && (token in StatesAfter(p, trace) <==> token in EagerStatesAfter(p, trace))
    && (token in StatesAfter(p, trace) ==>
          Refilled(p, EagerStatesAfter(p, trace)[token], now) == Refilled(p, StatesAfter(p, trace)[token], now))
  }

  /** Both give the same verdict to a request. */
  ghost predicate SameAnswer(p: Policy, trace: seq<Call>, token: string, now: real)
    requires PolicyOk(p)
  {
    Answer(p, trace, token, now) == AdmitVerdict(p, StateOf(p, EagerStatesAfter(p, trace), token, now), now)
  }

  /** As long as no reading lies above an earlier and a later one, the lazy bucket is the eager
      one seen through a refill. */
  lemma {:induction false} LazyIsEager(p: Policy, trace: seq<Call>, token: string, now: real)
    requires PolicyOk(p) && NoPeak(Readings(trace) + [now])
    ensures SameBucket(p, trace, token, now)
  {
    hide Accrued, After, AdmitVerdict, Refilled, NoPeak;
    if trace != [] {
      var before, c := trace[..|trace| - 1], trace[|trace| - 1];
      DropLast(trace, now);
      LazyIsEager(p, before, token, c.now);
      if token in StatesAfter(p, before) {
        var lazy, eager := StatesAfter(p, before)[token], EagerStatesAfter(p, before)[token];
        if now < c.now && p.refill.Some? {
          NeverAbove(trace, now);
          RefillsNotBefore(p, before, token, c.now);
        }
        LazyIsEagerStep(p, lazy, eager, c.op, c.now, now);
      } else if c.token == token {
        LazyIsEagerStep(p, Fresh(p, c.now), Fresh(p, c.now), c.op, c.now, now);
      }
    }
  }

  lemma DropLast(trace: seq<Call>, now: real)
    requires trace != [] && NoPeak(Readings(trace) + [now])
    ensures NoPeak(Readings(trace[..|trace| - 1]) + [trace[|trace| - 1].now])
  {
    var n := |trace| - 1;
    PrefixHasNoPeak(Readings(trace) + [now], n + 1);
    assert (Readings(trace) + [now])[..n + 1] == Readings(trace[..n]) + [trace[n].now];
  }

  /** A reading that the clock then steps back from was above no earlier one. */
  lemma NeverAbove(trace: seq<Call>, now: real)
    requires trace != [] && NoPeak(Readings(trace) + [now]) && now < trace[|trace| - 1].now
    ensures forall i :: 0 <= i < |trace| - 1 ==> trace[|trace| - 1].now <= trace[i].now
  {
    var all, n := Readings(trace) + [now], |trace| - 1;
    forall i | 0 <= i < n ensures trace[n].now <= trace[i].now {
      assert !IsPeak(all, i, n, n + 1);
    }
  }

  lemma {:induction false} RefillsNotBefore(p: Policy, trace: seq<Call>, token: string, at: real)
    requires PolicyOk(p) && p.refill.Some? && forall i :: 0 <= i < |trace| ==> at <= trace[i].now
    ensures token in StatesAfter(p, trace) ==> at <= StatesAfter(p, trace)[token].lastRefill
    ensures token in EagerStatesAfter(p, trace) ==> at <= EagerStatesAfter(p, trace)[token].lastRefill
  {
    hide Refilled, After;
    if trace != [] {
      var before, c := trace[..|trace| - 1], trace[|trace| - 1];
      assert at <= trace[|trace| - 1].now;
      RefillsNotBefore(p, before, token, at);
      var states := StatesAfter(p, before);
      RefillNotBefore(p, StateOf(p, states, token, c.now), c.op, c.now, at);
      if token in EagerStatesAfter(p, before) {
        var eager := EagerStatesAfter(p, before)[token];
        RefillNotBefore(p, eager, c.op, c.now, at);
        RefillNotBefore(p, Refilled(p, eager, c.now), c.op, c.now, at);
      } else {
        RefillNotBefore(p, Fresh(p, c.now), c.op, c.now, at);
      }
    }
  }

  lemma RefillNotBefore(p: Policy, s: SourceState, op: Op, now: real, at: real)
    requires PolicyOk(p) && p.refill.Some? && at <= now && at <= s.lastRefill
    ensures at <= Refilled(p, s, now).lastRefill && at <= After(p, s, op, now).lastRefill
  {
    hide Accrued, Window;
  }

  lemma LazyIsEagerStep(p: Policy, lazy: SourceState, eager: SourceState, op: Op, at: real, now: real)
    requires PolicyOk(p) && Refilled(p, eager, at) == Refilled(p, lazy, at)
    requires p.refill.None? || at <= now || (at <= lazy.lastRefill && at <= eager.lastRefill)
    ensures var ticked := Refilled(p, eager, at);
      && Refilled(p, ticked, now) == Refilled(p, lazy, now)
      && Refilled(p, After(p, ticked, op, at), now) == Refilled(p, After(p, lazy, op, at), now)
      && Refilled(p, After(p, eager, op, at), now) == Refilled(p, After(p, lazy, op, at), now)
  {
    hide Accrued, After;
    ActionsCommute(p, lazy, op, at);
    ActionsCommute(p, eager, op, at);
    if p.refill.Some? {
      RefillTwice(p, eager, at, now);
      RefillTwice(p, lazy, at, now);
      RefillTwice(p, After(p, lazy, op, at), at, now);
      RefillTwice(p, After(p, eager, op, at), at, now);
    }
  }

  /** So both give the same answer to every request. */
  lemma SameAnswers(p: Policy, trace: seq<Call>, token: string, now: real)
    requires PolicyOk(p) && NoPeak(Readings(trace) + [now])
    ensures SameAnswer(p, trace, token, now)
  {
    hide Accrued, AdmitVerdict, Refilled;
    LazyIsEager(p, trace, token, now);
    if token in StatesAfter(p, trace) {
      ActionsCommute(p, StatesAfter(p, trace)[token], AdmitOp, now);
      ActionsCommute(p, EagerStatesAfter(p, trace)[token], AdmitOp, now);
    }
  }

  /** The tokens a source could draw on at a moment. */
  function Level(p: Policy, trace: seq<Call>, token: string, at: real): real
    requires PolicyOk(p)
  {
    Refilled(p, StateOf(p, StatesAfter(p, trace), token, at), at).tokens
  }

  lemma LevelRises(p: Policy, s: SourceState, a: real, b: real)
    requires PolicyOk(p) && p.refill.Some? && s.lastRefill <= a <= b
    ensures Refilled(p, s, b).tokens <= Refilled(p, s, a).tokens + Accrued(p, b - a)
  {
    hide Accrued;
    RefillTwice(p, s, a, b);
    AccruedNonNegative(p, b - a);
  }

  /** A call at `at` takes from the level exactly what it grants. */
  lemma CallDraws(p: Policy, s: SourceState, op: Op, at: real)
    requires PolicyOk(p) && s.lastRefill <= at
    ensures Spent(AdmitVerdict(p, s, at), op) + Refilled(p, After(p, s, op, at), at).tokens == Refilled(p, s, at).tokens
  {
    hide Accrued, Window;
  }

  /** From position `i` on, admissions plus the current level stay within the level at the
      start of the window plus accrual. */
  lemma {:induction false} WindowPotential(p: Policy, trace: seq<Call>, token: string, i: nat, from: real, to: real)
    requires PolicyOk(p) && p.refill.Some? && Forward(Readings(trace)) && i <= |trace|
    requires NotBefore(Readings(trace), to) && from <= to
    requires forall k :: i <= k < |trace| ==> from <= trace[k].now
    requires NotBefore(Readings(trace[..i]), from)
    ensures Admissions(p, trace, token) as real - Admissions(p, trace[..i], token) as real + Level(p, trace, token, to)
      <= Level(p, trace[..i], token, from) + Accrued(p, to - from)
    decreases |trace|
  {
    hide Accrued, Refilled, Level, NotBefore, Forward, Admissions, StatesAfter;
    if i == |trace| {
      assert trace[..i] == trace;
      LevelRisesAfter(p, trace, token, from, to);
    } else {
      var before, c := trace[..|trace| - 1], trace[|trace| - 1];
      assert before[..i] == trace[..i] && trace == before + [c];
      ForwardBefore(trace);
      WindowPotential(p, before, token, i, from, c.now);
      AccruedAdds(p, c.now - from, to - c.now);
      assert (c.now - from) + (to - c.now) == to - from;
      ReadBefore(trace, to, |trace| - 1);
      WindowStep(p, before, c, token, to);
    }
  }

  lemma ForwardBefore(trace: seq<Call>)
    requires trace != [] && Forward(Readings(trace))
    ensures var before, c := trace[..|trace| - 1], trace[|trace| - 1];
      Forward(Readings(before)) && NotBefore(Readings(before), c.now)
  {
  }

  lemma ReadBefore(trace: seq<Call>, now: real, k: nat)
    requires NotBefore(Readings(trace), now) && k < |trace|
    ensures trace[k].now <= now
  {
    assert Readings(trace)[k] <= now;
  }

  lemma LevelRisesAfter(p: Policy, trace: seq<Call>, token: string, from: real, to: real)
    requires PolicyOk(p) && p.refill.Some? && NotBefore(Readings(trace), from) && from <= to
    ensures Level(p, trace, token, to) <= Level(p, trace, token, from) + Accrued(p, to - from)
  {
    hide Accrued, Refilled;
    if token in StatesAfter(p, trace) {
      RefillsInThePast(p, trace, token, from);
      LevelRises(p, StatesAfter(p, trace)[token], from, to);
    } else {
      AccruedNonNegative(p, to - from);
      FreshLevel(p, from);
      FreshLevel(p, to);
    }
  }

  lemma LevelInRange(p: Policy, trace: seq<Call>, token: string, at: real)
    requires PolicyOk(p)
    ensures 0.0 <= Level(p, trace, token, at) <= p.capacity
  {
    hide Accrued;
    if token in StatesAfter(p, trace) {
      TokensInRange(p, trace, token);
    }
    AfterBounds(p, StateOf(p, StatesAfter(p, trace), token, at), AdmitOp, at);
  }

  lemma WindowStep(p: Policy, before: seq<Call>, c: Call, token: string, to: real)
    requires PolicyOk(p) && p.refill.Some? && NotBefore(Readings(before), c.now) && c.now <= to
    ensures Admissions(p, before + [c], token) as real + Level(p, before + [c], token, to)
      <= Admissions(p, before, token) as real + Level(p, before, token, c.now) + Accrued(p, to - c.now)
  {
    hide Accrued, After, AdmitVerdict, Refilled;
    var trace := before + [c];
    assert trace[..|before|] == before;
    if token in StatesAfter(p, before) {
      RefillsInThePast(p, before, token, c.now);
    }
    var s := StateOf(p, StatesAfter(p, before), token, c.now);
    if c.token == token {
      CallDraws(p, s, c.op, c.now);
      ActionsCommute(p, s, c.op, c.now);
      LevelRises(p, After(p, s, c.op, c.now), c.now, to);
    } else if token in StatesAfter(p, before) {
      LevelRises(p, s, c.now, to);
    } else {
      AccruedNonNegative(p, to - c.now);
      FreshLevel(p, c.now);
      FreshLevel(p, to);
    }
  }

  lemma FreshLevel(p: Policy, at: real)
    requires PolicyOk(p)
    ensures Refilled(p, Fresh(p, at), at).tokens == p.capacity
  {
  }

  /** The rate limit in its usual form: on a forward clock, any window of time holds at most
      capacity + span / interval admissions of one source. */
  lemma WindowBound(p: Policy, trace: seq<Call>, token: string, i: nat, j: nat, from: real, to: real)
    requires PolicyOk(p) && p.refill.Some? && Forward(Readings(trace)) && i <= j <= |trace| && from <= to
    requires forall k :: i <= k < j ==> from <= trace[k].now <= to
    requires NotBefore(Readings(trace[..i]), from)
    ensures Admissions(p, trace[..j], token) as real - Admissions(p, trace[..i], token) as real
      <= p.capacity + (to - from) / p.refill.value
  {
    var window := trace[..j];
    assert window[..i] == trace[..i];
    assert forall k :: 0 <= k < i ==> trace[k] == trace[..i][k];
    WindowPotential(p, window, token, i, from, to);
    LevelInRange(p, window, token, to);
    LevelInRange(p, trace[..i], token, from);
  }

  // ---------- exactly which clocks keep the lazy and the eager bucket together ----------

  /** On every policy and trace with these readings, at every call and for every source. */
  ghost predicate BucketsAgree(readings: seq<real>) {
    forall p: Policy, trace: seq<Call>, token: string, k: nat ::
      PolicyOk(p) && Readings(trace) == readings && k < |trace| ==> SameBucket(p, trace[..k], token, trace[k].now)
  }

  ghost predicate AnswersAgree(readings: seq<real>) {
    forall p: Policy, trace: seq<Call>, token: string, k: nat ::
      PolicyOk(p) && Readings(trace) == readings && k < |trace| ==> SameAnswer(p, trace[..k], token, trace[k].now)
  }

  lemma AgreeWithoutPeak(p: Policy, trace: seq<Call>, token: string, k: nat)
    requires PolicyOk(p) && NoPeak(Readings(trace)) && k < |trace|
    ensures SameBucket(p, trace[..k], token, trace[k].now) && SameAnswer(p, trace[..k], token, trace[k].now)
  {
    hide SameBucket, SameAnswer, NoPeak;
    PrefixHasNoPeak(Readings(trace), k + 1);
    assert Readings(trace)[..k + 1] == Readings(trace[..k]) + [trace[k].now];
    LazyIsEager(p, trace[..k], token, trace[k].now);
    SameAnswers(p, trace[..k], token, trace[k].now);
  }

  /** A trace that shows a peak: the source "t" asks once at reading `i`, where it is first
      seen, and reports successes from then on. */
  function Witness(readings: seq<real>, i: nat): (trace: seq<Call>)
    ensures |trace| == |readings| && Readings(trace) == readings
  {
    seq(|readings|, n requires 0 <= n < |readings| =>
      Call(if n == i then AdmitOp else SuccessOp, if n < i then "u" else "t", readings[n]))
  }

  /** Capacity one, and one token back in the time from reading `i` to reading `j`. */
  function Tight(interval: real): Policy {
    Policy(Null, 1.0, Some(interval), 1.0, 1.0)
  }

  /** The eager bucket of a source first seen at `from`, when it asked once. */
  ghost predicate Follows(p: Policy, s: SourceState, from: real)
    requires PolicyOk(p) && p.refill.Some?
  {
    && s.lastRefill >= from && s.consecutiveFailures == 0 && s.backoffUntil == 0.0
    && (from >= 0.0 ==> s.tokens == Min(1.0, Accrued(p, s.lastRefill - from)))
  }

  function Asked(from: real): SourceState {
    SourceState(if from >= 0.0 then 0.0 else 1.0, from, 0, 0.0)
  }

  lemma FirstAsk(p: Policy, interval: real, from: real)
    requires interval > 0.0 && p == Tight(interval)
    ensures After(p, Fresh(p, from), AdmitOp, from) == Asked(from) && Follows(p, Asked(from), from)
  {
  }

  lemma FollowStep(p: Policy, interval: real, s: SourceState, from: real, at: real)
    requires interval > 0.0 && p == Tight(interval) && Follows(p, s, from)
    ensures var t := After(p, Refilled(p, s, at), SuccessOp, at);
      Follows(p, t, from) && t.lastRefill >= s.lastRefill && t.lastRefill >= at
  {
    hide Accrued;
    if s.lastRefill < at {
      AccruedAdds(p, s.lastRefill - from, at - s.lastRefill);
      assert (s.lastRefill - from) + (at - s.lastRefill) == at - from;
      AccruedNonNegative(p, at - s.lastRefill);
    }
  }

  /** Unseen before reading `i`; after it the lazy bucket stands still and the eager one
      follows the clock. */
  lemma {:induction false} WitnessStates(readings: seq<real>, i: nat, n: nat, interval: real)
    requires i < n <= |readings| && interval > 0.0
    ensures var p, trace := Tight(interval), Witness(readings, i)[..n];
      && "t" in StatesAfter(p, trace) && "t" in EagerStatesAfter(p, trace)
      && StatesAfter(p, trace)["t"] == Asked(readings[i])
      && Follows(p, EagerStatesAfter(p, trace)["t"], readings[i])
      && (forall m :: i <= m < n ==> readings[m] <= EagerStatesAfter(p, trace)["t"].lastRefill)
  {
    hide Follows, Refilled;
    var p, all := Tight(interval), Witness(readings, i);
    assert all[..n][..n - 1] == all[..n - 1];
    if n == i + 1 {
      WitnessUnseen(readings, i, i, interval);
      FirstAsk(p, interval, readings[i]);
    } else {
      WitnessStates(readings, i, n - 1, interval);
      FollowStep(p, interval, EagerStatesAfter(p, all[..n - 1])["t"], readings[i], readings[n - 1]);
    }
  }

  lemma {:induction false} WitnessUnseen(readings: seq<real>, i: nat, n: nat, interval: real)
    requires n <= i < |readings| && interval > 0.0
    ensures var p, trace := Tight(interval), Witness(readings, i)[..n];
      "t" !in StatesAfter(p, trace) && "t" !in EagerStatesAfter(p, trace)
  {
    if n > 0 {
      assert Witness(readings, i)[..n][..n - 1] == Witness(readings, i)[..n - 1];
      WitnessUnseen(readings, i, n - 1, interval);
    }
  }

  /** Every peak shows in the buckets and, unless it lies below zero, in an answer. */
  lemma PeakShows(readings: seq<real>, i: nat, j: nat, k: nat)
    requires IsPeak(readings, i, j, k)
    ensures !SameBucket(Tight(readings[j] - readings[i]), Witness(readings, i)[..k], "t", readings[k])
    ensures 0.0 <= readings[i] && 0.0 <= readings[k] ==>
      !SameAnswer(Tight(readings[j] - readings[i]), Witness(readings, i)[..k], "t", readings[k])
  {
    hide Follows, StatesAfter, EagerStatesAfter, Refilled;
    var interval := readings[j] - readings[i];
    var p, trace := Tight(interval), Witness(readings, i)[..k];
    WitnessStates(readings, i, k, interval);
    AskedLags(p, interval, EagerStatesAfter(p, trace)["t"], readings[i], readings[k]);
  }

  lemma AskedLags(p: Policy, interval: real, eager: SourceState, from: real, at: real)
    requires interval > 0.0 && p == Tight(interval) && Follows(p, eager, from)
    requires eager.lastRefill >= from + interval && at < from + interval
    ensures Refilled(p, eager, at) != Refilled(p, Asked(from), at)
    ensures 0.0 <= from && 0.0 <= at ==> AdmitVerdict(p, eager, at) != AdmitVerdict(p, Asked(from), at)
  {
    hide Accrued;
    AccruedInterval(p);
    AccruedAdds(p, interval, eager.lastRefill - from - interval);
    assert interval + (eager.lastRefill - from - interval) == eager.lastRefill - from;
    AccruedNonNegative(p, eager.lastRefill - from - interval);
    assert Accrued(p, at - from) < 1.0 by {
      AccruedBelow(p, at - from);
    }
  }

  lemma AccruedBelow(p: Policy, span: real)
    requires PolicyOk(p) && p.refill.Some? && span < p.refill.value
    ensures Accrued(p, span) < 1.0
  {
  }

  /** The two buckets stay the same exactly on clocks without a peak. */
  lemma BucketsAgreeExactly(readings: seq<real>)
    ensures BucketsAgree(readings) <==> NoPeak(readings)
  {
    hide SameBucket, SameAnswer, IsPeak;
    if NoPeak(readings) {
      forall p: Policy, trace: seq<Call>, token: string, k: nat | PolicyOk(p) && Readings(trace) == readings && k < |trace|
        ensures SameBucket(p, trace[..k], token, trace[k].now)
      {
        AgreeWithoutPeak(p, trace, token, k);
      }
    } else {
      var i: nat, j: nat, k: nat :| IsPeak(readings, i, j, k);
      PeakInRange(readings, i, j, k);
      PeakShows(readings, i, j, k);
      assert Witness(readings, i)[k].now == readings[k];
    }
  }

  lemma PeakInRange(readings: seq<real>, i: nat, j: nat, k: nat)
    requires IsPeak(readings, i, j, k)
    ensures i < j < k < |readings| && PolicyOk(Tight(readings[j] - readings[i]))
  {
  }

  /** On clocks that are not negative, so do all answers. */
  lemma AnswersAgreeExactly(readings: seq<real>)
    requires forall n :: 0 <= n < |readings| ==> 0.0 <= readings[n]
    ensures AnswersAgree(readings) <==> NoPeak(readings)
  {
    hide SameBucket, SameAnswer, IsPeak;
    if NoPeak(readings) {
      forall p: Policy, trace: seq<Call>, token: string, k: nat | PolicyOk(p) && Readings(trace) == readings && k < |trace|
        ensures SameAnswer(p, trace[..k], token, trace[k].now)
      {
        AgreeWithoutPeak(p, trace, token, k);
      }
    } else {
      var i: nat, j: nat, k: nat :| IsPeak(readings, i, j, k);
      PeakInRange(readings, i, j, k);
      PeakShows(readings, i, j, k);
      assert Witness(readings, i)[k].now == readings[k];
    }
  }

  /** In particular they agree on every clock that never steps back. */
  lemma ForwardClocksAgree(readings: seq<real>)
    requires Forward(readings)
    ensures BucketsAgree(readings) && AnswersAgree(readings)
  {
    hide SameBucket, SameAnswer, NoPeak, Forward;
    ForwardHasNoPeak(readings);
    forall p: Policy, trace: seq<Call>, token: string, k: nat | PolicyOk(p) && Readings(trace) == readings && k < |trace|
      ensures SameBucket(p, trace[..k], token, trace[k].now) && SameAnswer(p, trace[..k], token, trace[k].now)
    {
      AgreeWithoutPeak(p, trace, token, k);
    }
  }

  /** A concrete clock on which they part: a request at time 0, a success at 4, a request at 1/2. */
  lemma BackwardClockDiffers()
    ensures !AnswersAgree([0.0, 4.0, 0.5])
  {
    assert IsPeak([0.0, 4.0, 0.5], 0, 1, 2);
    AnswersAgreeExactly([0.0, 4.0, 0.5]);
  }

  /** Below zero a peak can stay unseen, because zero marks "no backoff window": a source that
      has not failed is refused there, so no token is spent that could be regained. */
  lemma PeakBelowZero()
    ensures IsPeak([-3.0, -1.0, -2.0], 0, 1, 2) && AnswersAgree([-3.0, -1.0, -2.0])
  {
    hide SameAnswer;
    var readings := [-3.0, -1.0, -2.0];
    forall p: Policy, trace: seq<Call>, token: string, k: nat | PolicyOk(p) && Readings(trace) == readings && k < |trace|
      ensures SameAnswer(p, trace[..k], token, trace[k].now)
    {
      assert forall n :: 0 <= n < |trace| ==> trace[n].now == readings[n];
      if k < 2 {
        assert NoPeak(Readings(trace[..k]) + [trace[k].now]);
        SameAnswers(p, trace[..k], token, trace[k].now);
      } else {
        TwoBelowZero(p, trace[0], trace[1], token, trace[k].now);
        assert trace[..k] == [trace[0], trace[1]];
      }
    }
  }

  lemma TwoBelowZero(p: Policy, first: Call, second: Call, token: string, now: real)
    requires PolicyOk(p) && first.now < 0.0 && second.now < 0.0 && now < 0.0
    ensures SameAnswer(p, [first, second], token, now)
  {
    hide Accrued, Window, Refilled, AdmitVerdict;
    var one, two := [first], [first, second];
    assert one[..0] == [] && two[..1] == one;
    var s := After(p, Fresh(p, first.now), first.op, first.now);
    assert s.tokens == p.capacity;
    assert StatesAfter(p, []) == map[] && EagerStatesAfter(p, []) == map[] && Ticked(p, map[], first.now) == map[];
    assert StatesAfter(p, one) == map[first.token := s] && EagerStatesAfter(p, one) == map[first.token := s];
    FullOrSame(p, s, second.op, second.now, now);
  }

  /** A tick never tells on a full bucket, nor on one that has just been asked. */
  lemma FullOrSame(p: Policy, s: SourceState, op: Op, at: real, now: real)
    requires PolicyOk(p) && s.tokens == p.capacity
    ensures AdmitVerdict(p, Refilled(p, s, at), now) == AdmitVerdict(p, s, now)
    ensures AdmitVerdict(p, After(p, Refilled(p, s, at), op, at), now) == AdmitVerdict(p, After(p, s, op, at), now)
  {
    hide Accrued, Window;
    FullStays(p, s, at);
    FullStays(p, s, now);
    FullStays(p, Refilled(p, s, at), now);
    if op != AdmitOp || s.backoffUntil > at {
      FullStays(p, After(p, s, op, at), now);
      FullStays(p, After(p, Refilled(p, s, at), op, at), now);
    } else {
      assert After(p, Refilled(p, s, at), op, at) == After(p, s, op, at);
    }
  }

  lemma FullStays(p: Policy, s: SourceState, at: real)
    requires PolicyOk(p) && s.tokens == p.capacity
    ensures Refilled(p, s, at).tokens == p.capacity
  {
    if p.refill.Some? && s.lastRefill < at {
      AccruedNonNegative(p, at - s.lastRefill);
    }
  }

  // ---------- backoff ----------

  /** Failures of a source since its last success. */
  function TrailingFailures(trace: seq<Call>, token: string): nat {
    if trace == [] then 0 else
      var n, c := TrailingFailures(trace[..|trace| - 1], token), trace[|trace| - 1];
      if c.token != token || c.op == AdmitOp then n
      else if c.op == SuccessOp then 0
      else n + 1
  }

  function LastFailure(trace: seq<Call>, token: string): real
    requires TrailingFailures(trace, token) > 0
  {
    var c := trace[|trace| - 1];
    if c.token == token && c.op == FailureOp then c.now else LastFailure(trace[..|trace| - 1], token)
  }

  /** When the open window ends; zero stands for no window. */
  function Deadline(p: Policy, trace: seq<Call>, token: string): real {
    var n := TrailingFailures(trace, token);
    if n == 0 then 0.0 else LastFailure(trace, token) + Window(p, n)
  }

  lemma {:induction false} BackoffState(p: Policy, trace: seq<Call>, token: string)
    requires PolicyOk(p)
    ensures token !in StatesAfter(p, trace) ==> TrailingFailures(trace, token) == 0
    ensures token in StatesAfter(p, trace) ==>
      && StatesAfter(p, trace)[token].consecutiveFailures == TrailingFailures(trace, token)
      && StatesAfter(p, trace)[token].backoffUntil == Deadline(p, trace, token)
  {
    hide Accrued, Window, AdmitVerdict;
    if trace != [] {
      BackoffState(p, trace[..|trace| - 1], token);
    }
  }

  lemma {:induction false} Pow2Grows(m: nat, n: nat)
    requires m <= n
    ensures 1.0 <= Pow2(m) <= Pow2(n)
    decreases n
  {
    if m < n {
      Pow2Grows(m, n - 1);
    } else if m > 0 {
      Pow2Grows(m - 1, n - 1);
    }
  }

  lemma ScaleLe(a: real, b: real, c: real)
    requires a <= b && 0.0 <= c
    ensures c * a <= c * b
  {
    assert c * (b - a) >= 0.0;
    assert c * b == c * a + c * (b - a);
  }

  /** The window is min(base * 2^(n-1), max): it starts at the base, doubles with every failure
      until it meets the cap, never shrinks and never exceeds the cap. */
  lemma WindowGrows(p: Policy, m: nat, n: nat)
    requires PolicyOk(p) && 0 < m <= n
    ensures 0.0 < Window(p, m) <= Window(p, n) <= p.backoffMax
    ensures Window(p, 1) == Min(p.backoffBase, p.backoffMax)
    ensures Window(p, n + 1) == Min(2.0 * Window(p, n), p.backoffMax)
  {
    Pow2Grows(m - 1, n - 1);
    Pow2Grows(0, m - 1);
    ScaleLe(1.0, Pow2(m - 1), p.backoffBase);
    ScaleLe(Pow2(m - 1), Pow2(n - 1), p.backoffBase);
  }

  /** After any trace, a request is refused for backoff exactly while the window opened by the
      n-th consecutive failure lasts; a success closes it. */
  lemma BackoffExact(p: Policy, trace: seq<Call>, token: string, now: real)
    requires PolicyOk(p)
    ensures Answer(p, trace, token, now) == BackedOff <==> now < Deadline(p, trace, token)
    ensures TrailingFailures(trace, token) > 0 ==>
      (Answer(p, trace, token, now) == BackedOff <==>
         now < LastFailure(trace, token) + Window(p, TrailingFailures(trace, token)))
    ensures TrailingFailures(trace + [Call(SuccessOp, token, now)], token) == 0
  {
    hide Accrued, Window;
    BackoffState(p, trace, token);
    assert (trace + [Call(SuccessOp, token, now)])[..|trace|] == trace;
  }

  /** Zero as the mark of "no window" is sound exactly for clocks that are not negative: a
      source without failures is refused for backoff if and only if the clock is below zero. */
  lemma {:induction false} NegativeClockLooksBackedOff(p: Policy, trace: seq<Call>, token: string, now: real)
    requires PolicyOk(p) && TrailingFailures(trace, token) == 0
    ensures Answer(p, trace, token, now) == BackedOff <==> now < 0.0
  {
    BackoffExact(p, trace, token, now);
  }

  /** Admission, exactly: the window is over and a whole token is there. */
  lemma AdmittedExactly(p: Policy, trace: seq<Call>, token: string, now: real)
    requires PolicyOk(p)
    ensures Answer(p, trace, token, now).Run? <==>
      now >= Deadline(p, trace, token) && Level(p, trace, token, now) >= 1.0
  {
    hide Accrued, Window, Refilled;
    BackoffState(p, trace, token);
  }

  /** The bound that an admission carries: five seconds by default, none after an explicit null,
      the configured one if it is positive and finite, and otherwise no say in the matter. */
  lemma AdmissionCarries(config: Config, trace: seq<Call>, token: string, now: real)
    ensures var verdict, t := Answer(Resolve(config), trace, token, now), config.defaultTimeoutMs;
      verdict.Run? ==>
        && (t.Undefined? ==> verdict.timeoutMs == Finite(5000.0))
        && (t.Null? ==> verdict.timeoutMs == Null)
        && (t.Finite? && t.value > 0.0 ==> verdict.timeoutMs == t)
        && (t.NotANumber? || t.NonFinite? || (t.Finite? && t.value <= 0.0) ==> verdict.timeoutMs == Undefined)
  {
    hide StatesAfter, Refilled;
  }

  /** No starvation: with capacity at least one and refill on, a source is admitted once its
      backoff has passed and one refill interval has gone by since its own last call. */
  lemma EventuallyAdmitted(p: Policy, trace: seq<Call>, token: string, last: real, now: real)
    requires PolicyOk(p) && p.capacity >= 1.0 && p.refill.Some?
    requires NotBefore(Readings(OfSource(trace, token)), last)
    requires now >= last + p.refill.value && now >= Deadline(p, trace, token)
    ensures Answer(p, trace, token, now).Run?
  {
    hide Accrued, Window, StatesAfter, Refilled;
    var mine := OfSource(trace, token);
    SourcesAreIndependent(p, trace, token);
    BackoffState(p, trace, token);
    BackoffState(p, mine, token);
    QuietlyAdmitted(p, mine, token, last, now);
  }

  lemma QuietlyAdmitted(p: Policy, trace: seq<Call>, token: string, last: real, now: real)
    requires PolicyOk(p) && p.capacity >= 1.0 && p.refill.Some?
    requires NotBefore(Readings(trace), last) && now >= last + p.refill.value && now >= Deadline(p, trace, token)
    ensures Answer(p, trace, token, now).Run?
  {
    hide Accrued, Window;
    AdmittedExactly(p, trace, token, now);
    if token in StatesAfter(p, trace) {
      var s := StatesAfter(p, trace)[token];
      RefillsInThePast(p, trace, token, last);
      TokensInRange(p, trace, token);
      AccruedInterval(p);
      AccruedNonNegative(p, now - s.lastRefill - p.refill.value);
      AccruedAdds(p, p.refill.value, now - s.lastRefill - p.refill.value);
      assert p.refill.value + (now - s.lastRefill - p.refill.value) == now - s.lastRefill;
    }
  }

  /** A capacity below one, which the configuration accepts, admits nothing at all. */
  lemma FractionalCapacityStarves(p: Policy, trace: seq<Call>, token: string, now: real)
    requires PolicyOk(p)
    ensures p.capacity < 1.0 ==> !Answer(p, trace, token, now).Run?
  {
    AdmittedExactly(p, trace, token, now);
    LevelInRange(p, trace, token, now);
  }
}
