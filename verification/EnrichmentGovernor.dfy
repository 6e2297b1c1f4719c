/** The per-source governor: a lazily refilled token bucket plus exponential backoff
    (packages/core/src/enrichment-governor.ts). The clock is the `now` argument of each
    call; tokens and time are reals. */
module EnrichmentGovernor {
  import opened Wrappers
  import opened EnrichmentSchema

  datatype Config = Config(
    defaultTimeoutMs: JsNumber,
    capacity: JsNumber,
    refillIntervalMs: JsNumber,
    backoffBaseMs: JsNumber,
    backoffMaxMs: JsNumber)

  /** `refill` is the interval, or `None` when refill is disabled. */
  datatype Policy = Policy(timeoutMs: JsNumber, capacity: real, refill: Option<real>, backoffBase: real, backoffMax: real)

  ghost predicate PolicyOk(p: Policy) {
    && p.capacity > 0.0 && p.backoffBase > 0.0 && p.backoffMax > 0.0
    && (p.refill.Some? ==> p.refill.value > 0.0)
  }

  function PositiveOr(value: JsNumber, fallback: real): real {
    if value.Finite? && value.value > 0.0 then value.value else fallback
  }

  /** The documented defaults, and what counts as disabling refill. */
  function Resolve(c: Config): (p: Policy)
    ensures PolicyOk(p)
    ensures c == Config(Undefined, Undefined, Undefined, Undefined, Undefined) ==>
      p == Policy(Finite(5000.0), 10.0, Some(1000.0), 1000.0, 30000.0)
    ensures p.timeoutMs == if c.defaultTimeoutMs.Undefined? then Finite(5000.0) else c.defaultTimeoutMs
    ensures c.capacity.Finite? && c.capacity.value > 0.0 ==> p.capacity == c.capacity.value
    ensures c.refillIntervalMs.Finite? && c.refillIntervalMs.value > 0.0 ==> p.refill == Some(c.refillIntervalMs.value)
    ensures c.backoffBaseMs.Finite? && c.backoffBaseMs.value > 0.0 ==> p.backoffBase == c.backoffBaseMs.value
    ensures c.backoffMaxMs.Finite? && c.backoffMaxMs.value > 0.0 ==> p.backoffMax == c.backoffMaxMs.value
    ensures p.refill.None? <==> c.refillIntervalMs.NotANumber? || c.refillIntervalMs.NonFinite? ||
                                (c.refillIntervalMs.Finite? && c.refillIntervalMs.value <= 0.0)
  {
    Policy(
      if c.defaultTimeoutMs.Undefined? then Finite(5000.0) else c.defaultTimeoutMs,
      PositiveOr(c.capacity, 10.0),
      match c.refillIntervalMs
        case Undefined => Some(1000.0)
        case Null => Some(1000.0)
        case Finite(v) => if v > 0.0 then Some(v) else None
        case _ => None,
      PositiveOr(c.backoffBaseMs, 1000.0),
      PositiveOr(c.backoffMaxMs, 30000.0))
  }

  datatype SourceState = SourceState(tokens: real, lastRefill: real, consecutiveFailures: nat, backoffUntil: real)

  datatype Verdict = Run(timeoutMs: JsNumber) | OverBudget | BackedOff

  datatype Op = AdmitOp | SuccessOp | FailureOp

  // ---------- one source, one call ----------

  function Fresh(p: Policy, now: real): SourceState {
    SourceState(p.capacity, now, 0, 0.0)
  }

  /** Tokens regained over a span of time. */
  function Accrued(p: Policy, span: real): real
    requires p.refill.Some? && p.refill.value > 0.0
  {
    span / p.refill.value
  }

  function Min(a: real, b: real): real {
    if a <= b then a else b
  }

  function Refilled(p: Policy, s: SourceState, now: real): SourceState
    requires PolicyOk(p)
  {
    if p.refill.None? then s.(lastRefill := now)
    else if now - s.lastRefill <= 0.0 then s
    else s.(tokens := Min(p.capacity, s.tokens + Accrued(p, now - s.lastRefill)), lastRefill := now)
  }

  function Pow2(n: nat): real {
    if n == 0 then 1.0 else 2.0 * Pow2(n - 1)
  }

  /** The backoff window after `n` consecutive failures. */
  function Window(p: Policy, n: nat): real
    requires n > 0
  {
    Min(p.backoffBase * Pow2(n - 1), p.backoffMax)
  }

  function Granted(p: Policy): Verdict {
    Run(if p.timeoutMs.Null? || (p.timeoutMs.Finite? && p.timeoutMs.value > 0.0) then p.timeoutMs else Undefined)
  }

  function AdmitVerdict(p: Policy, s: SourceState, now: real): Verdict
    requires PolicyOk(p)
  {
    if s.backoffUntil > now then BackedOff
    else if Refilled(p, s, now).tokens < 1.0 then OverBudget
    else Granted(p)
  }

  function After(p: Policy, s: SourceState, op: Op, now: real): SourceState
    requires PolicyOk(p)
  {
    match op
    case SuccessOp => s.(consecutiveFailures := 0, backoffUntil := 0.0)
    case FailureOp =>
      s.(consecutiveFailures := s.consecutiveFailures + 1, backoffUntil := now + Window(p, s.consecutiveFailures + 1))
    case AdmitOp =>
      if s.backoffUntil > now then s
      else
        var r := Refilled(p, s, now);
        if r.tokens < 1.0 then r else r.(tokens := r.tokens - 1.0)
  }

  function StateOf(p: Policy, states: map<string, SourceState>, token: string, now: real): SourceState {
    if token in states then states[token] else Fresh(p, now)
  }

  // ---------- traces ----------

  datatype Call = Call(op: Op, token: string, now: real)

  /** The governor's state after any sequence of calls. */
  function StatesAfter(p: Policy, trace: seq<Call>): map<string, SourceState>
    requires PolicyOk(p)
  {
    if trace == [] then map[] else
      var before, c := StatesAfter(p, trace[..|trace| - 1]), trace[|trace| - 1];
      before[c.token := After(p, StateOf(p, before, c.token, c.now), c.op, c.now)]
  }

  /** What an admission request at the end of a trace is told. */
  function Answer(p: Policy, trace: seq<Call>, token: string, now: real): Verdict
    requires PolicyOk(p)
  {
    AdmitVerdict(p, StateOf(p, StatesAfter(p, trace), token, now), now)
  }

  /** Granted admissions of one source in a trace. */
  function Admissions(p: Policy, trace: seq<Call>, token: string): nat
    requires PolicyOk(p)
  {
    if trace == [] then 0 else
      var before, c := trace[..|trace| - 1], trace[|trace| - 1];
      Admissions(p, before, token) +
      (if c.token == token && c.op == AdmitOp && Answer(p, before, token, c.now).Run? then 1 else 0)
  }

  lemma StatesAppend(p: Policy, trace: seq<Call>, c: Call)
    requires PolicyOk(p)
    ensures var before := StatesAfter(p, trace);
      StatesAfter(p, trace + [c]) == before[c.token := After(p, StateOf(p, before, c.token, c.now), c.op, c.now)]
  {
    assert (trace + [c])[..|trace|] == trace;
  }

  // ---------- the governor itself ----------

  /** The governor object. The ghost `history` is the sequence of calls made so far, and the
      state is always the one that history determines. */
  class InMemoryEnrichmentGovernor {
    const policy: Policy
    var states: map<string, SourceState>
    ghost var history: seq<Call>

    ghost predicate Valid()
      reads this
    {
      PolicyOk(policy) && states == StatesAfter(policy, history)
    }

    constructor (config: Config)
      ensures Valid() && policy == Resolve(config) && history == []
    {
      policy := Resolve(config);
      states := map[];
      history := [];
    }

    /** Fetch, or lazily create (starting full), the state of a source. */
    method StateFor(token: string, now: real)
      modifies this`states
      ensures states == old(states)[token := StateOf(policy, old(states), token, now)]
    {
      if token !in states {
        states := states[token := SourceState(policy.capacity, now, 0, 0.0)];
      }
    }

    /** Accrue tokens for the elapsed interval, capped at capacity. */
    method Refill(token: string, now: real)
      requires PolicyOk(policy) && token in states
      modifies this`states
      ensures states == old(states)[token := Refilled(policy, old(states)[token], now)]
    {
      var s := states[token];
      if policy.refill.None? {
        states := states[token := s.(lastRefill := now)];
        return;
      }
      var elapsed := now - s.lastRefill;
      if elapsed <= 0.0 {
        return;
      }
      var filled := s.tokens + elapsed / policy.refill.value;
      states := states[token := s.(tokens := if policy.capacity <= filled then policy.capacity else filled, lastRefill := now)];
    }

    method Admit(token: string, now: real) returns (verdict: Verdict)
      requires Valid()
      modifies this
      ensures Valid() && history == old(history) + [Call(AdmitOp, token, now)]
      ensures verdict == Answer(policy, old(history), token, now)
    {
      hide StatesAfter, Window;
      StatesAppend(policy, history, Call(AdmitOp, token, now));
      history := history + [Call(AdmitOp, token, now)];
      StateFor(token, now);
      if states[token].backoffUntil > now {
        return BackedOff;
      }
      Refill(token, now);
      if states[token].tokens < 1.0 {
        return OverBudget;
      }
      states := states[token := states[token].(tokens := states[token].tokens - 1.0)];
      if policy.timeoutMs.Null? {
        return Run(Null);
      }
      return Run(if policy.timeoutMs.Finite? && policy.timeoutMs.value > 0.0 then policy.timeoutMs else Undefined);
    }

    method RecordSuccess(token: string, now: real)
      requires Valid()
      modifies this
      ensures Valid() && history == old(history) + [Call(SuccessOp, token, now)]
    {
      hide StatesAfter, Refilled, Window;
      StatesAppend(policy, history, Call(SuccessOp, token, now));
      history := history + [Call(SuccessOp, token, now)];
      StateFor(token, now);
      states := states[token := states[token].(consecutiveFailures := 0, backoffUntil := 0.0)];
    }

    method RecordFailure(token: string, now: real)
      requires Valid()
      modifies this
      ensures Valid() && history == old(history) + [Call(FailureOp, token, now)]
    {
      hide StatesAfter, Refilled, Pow2;
      StatesAppend(policy, history, Call(FailureOp, token, now));
      history := history + [Call(FailureOp, token, now)];
      StateFor(token, now);
      var failures := states[token].consecutiveFailures + 1;
      var raw := policy.backoffBase * Pow2(failures - 1);
      var window := if raw <= policy.backoffMax then raw else policy.backoffMax;
      states := states[token := states[token].(consecutiveFailures := failures, backoffUntil := now + window)];
    }
  }
}
