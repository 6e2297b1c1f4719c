/** The dependency plan: preflight, staged execution, blocked propagation, cycle
    extraction and cancellation (executeEnrichmentPlan,
    packages/core/src/inspect-async.ts). */
module EnrichmentPlan {
  import opened Wrappers
  import opened EnrichmentSchema
  import opened Normalization
  import opened SourceRunner
  import opened CycleFinder

  // ---------- the planned steps ----------

  /** `[...new Set(s)]`: first occurrences, in order. */
  function Dedup(s: seq<string>): (r: seq<string>)
    ensures forall d :: d in r <==> d in s
    ensures forall i, j :: 0 <= i < j < |r| ==> r[i] != r[j]
  {
    if s == [] then [] else
      var rest, last := Dedup(s[..|s| - 1]), s[|s| - 1];
      assert forall d :: d in s <==> d in s[..|s| - 1] || d == last;
      if last in rest then rest else rest + [last]
  }

  predicate DependencyShapeValid(raw: RawDependencies) {
    match raw
    case Absent => true
    case NotAnArray => false
    case Listed(items) => forall i :: 0 <= i < |items| ==> items[i].Gap? || (items[i].Text? && !IsBlank(items[i].text))
  }

  function TextsOf(items: seq<RawDependency>): (texts: seq<string>)
    ensures forall t :: t in texts <==> Text(t) in items
  {
    if items == [] then [] else
      var rest, last := TextsOf(items[..|items| - 1]), items[|items| - 1];
      assert items == items[..|items| - 1] + [last];
      if last.Text? then rest + [last.text] else rest
  }

  /** The check of the list skips a hole, but reading the list yields an undefined entry. */
  predicate HasGap(raw: RawDependencies) {
    raw.Listed? && DependencyShapeValid(raw) && Gap in raw.items
  }

  function DependencyTokens(raw: RawDependencies): seq<string> {
    if raw.Listed? && DependencyShapeValid(raw)
    then Dedup(TextsOf(raw.items))
    else []
  }

  /** A list of distinct names is kept as written. */
  lemma {:induction false} TokensInOrder(items: seq<RawDependency>, names: seq<string>)
    requires |names| == |items| && forall k :: 0 <= k < |items| ==> items[k] == Text(names[k])
    requires forall i, j :: 0 <= i < j < |names| ==> names[i] != names[j]
    ensures TextsOf(items) == names && Dedup(names) == names
    ensures DependencyShapeValid(Listed(items)) ==> DependencyTokens(Listed(items)) == names
  {
    if items != [] {
      var n := |items| - 1;
      TokensInOrder(items[..n], names[..n]);
      assert names == names[..n] + [names[n]];
    }
  }

  function Planned(e: Enricher, index: nat): PlannedEnricher {
    PlannedEnricher(index, CheckToken(e), e, DependencyTokens(e.dependsOn), DependencyShapeValid(e.dependsOn),
                    HasGap(e.dependsOn))
  }

  function Steps(plan: seq<Enricher>): (steps: seq<PlannedEnricher>)
    ensures |steps| == |plan|
    ensures forall i :: 0 <= i < |plan| ==> steps[i] == Planned(plan[i], i)
  {
    seq(|plan|, i requires 0 <= i < |plan| => Planned(plan[i], i))
  }

  ghost predicate UniqueToken(steps: seq<PlannedEnricher>, i: nat) {
    i < |steps| && forall j :: 0 <= j < |steps| && steps[j].token == steps[i].token ==> j == i
  }

  /** `tokenToIndex` holds exactly the tokens that name one configured step. */
  ghost predicate WellIndexed(g: Graph) {
    && (forall t :: t in g.tokenToIndex ==>
          UniqueToken(g.steps, g.tokenToIndex[t]) && g.steps[g.tokenToIndex[t]].token == t)
    && (forall i :: 0 <= i < |g.steps| && UniqueToken(g.steps, i) ==> g.steps[i].token in g.tokenToIndex)
  }

  /** How many of the first `k` steps carry token `t`. */
  function Occurrences(steps: seq<PlannedEnricher>, k: nat, t: string): nat
    requires k <= |steps|
  {
    if k == 0 then 0 else Occurrences(steps, k - 1, t) + (if steps[k - 1].token == t then 1 else 0)
  }

  ghost predicate CountsTokens(steps: seq<PlannedEnricher>, k: nat, counts: map<string, nat>)
    requires k <= |steps|
  {
    forall t :: Occurrences(steps, k, t) == if t in counts then counts[t] else 0
  }

  method CountTokens(steps: seq<PlannedEnricher>) returns (counts: map<string, nat>)
    ensures CountsTokens(steps, |steps|, counts)
  {
    counts := map[];
    for k := 0 to |steps|
      invariant CountsTokens(steps, k, counts)
    {
      var t := steps[k].token;
      counts := counts[t := (if t in counts then counts[t] else 0) + 1];
    }
  }

  /** A token occurs once exactly when no two steps carry it. */
  lemma {:induction false} OccurrencesOf(steps: seq<PlannedEnricher>, k: nat, t: string)
    requires k <= |steps|
    ensures Occurrences(steps, k, t) == 0 <==> forall i :: 0 <= i < k ==> steps[i].token != t
    ensures Occurrences(steps, k, t) <= 1 <==>
      forall i, j :: 0 <= i < k && 0 <= j < k && steps[i].token == t && steps[j].token == t ==> i == j
  {
    if k > 0 {
      OccurrencesOf(steps, k - 1, t);
      if steps[k - 1].token == t && Occurrences(steps, k - 1, t) > 0 {
        var i :| 0 <= i < k - 1 && steps[i].token == t;
      }
    }
  }

  lemma DuplicateIffCounted(steps: seq<PlannedEnricher>, counts: map<string, nat>, i: nat)
    requires CountsTokens(steps, |steps|, counts) && i < |steps|
    ensures steps[i].token in counts && (counts[steps[i].token] > 1 <==> !UniqueToken(steps, i))
    ensures counts[steps[i].token] == 1 <==> UniqueToken(steps, i)
  {
    OccurrencesOf(steps, |steps|, steps[i].token);
    assert Occurrences(steps, |steps|, steps[i].token) > 0;
  }

  /** Keeping the tokens that were counted once. */
  method IndexTokens(steps: seq<PlannedEnricher>, counts: map<string, nat>) returns (tokenToIndex: map<string, nat>)
    requires CountsTokens(steps, |steps|, counts)
    requires forall i :: 0 <= i < |steps| ==> steps[i].index == i
    ensures WellIndexed(Graph(steps, tokenToIndex))
  {
    tokenToIndex := map[];
    for k := 0 to |steps|
      invariant forall t :: t in tokenToIndex ==>
        UniqueToken(steps, tokenToIndex[t]) && steps[tokenToIndex[t]].token == t
      invariant forall i :: 0 <= i < k && UniqueToken(steps, i) ==> steps[i].token in tokenToIndex
    {
      DuplicateIffCounted(steps, counts, k);
      if counts[steps[k].token] == 1 {
        tokenToIndex := tokenToIndex[steps[k].token := steps[k].index];
      }
    }
  }

  // ---------- readiness ----------

  type Slots = seq<Option<EnricherRun>>

  /** A step that survives preflight: unique, well-shaped, and naming only unique steps. */
  ghost predicate PreflightOk(g: Graph, i: nat) {
    && UniqueToken(g.steps, i) && g.steps[i].dependencyShapeValid && !g.steps[i].hasGap
    && (forall d :: d in g.steps[i].dependencies ==> d in g.tokenToIndex)
  }

  predicate SettledAs(slots: Slots, i: nat, available: bool) {
    i < |slots| && slots[i].Some? && RunIsAvailable(slots[i].value) == available
  }

  predicate PrerequisiteIs(g: Graph, slots: Slots, d: string, available: bool) {
    d in g.tokenToIndex && SettledAs(slots, g.tokenToIndex[d], available)
  }

  predicate IsReady(g: Graph, slots: Slots, i: nat) {
    i < |g.steps| && forall d :: d in g.steps[i].dependencies ==> PrerequisiteIs(g, slots, d, true)
  }

  predicate IsBlocked(g: Graph, slots: Slots, i: nat) {
    i < |g.steps| && exists d :: d in g.steps[i].dependencies && PrerequisiteIs(g, slots, d, false)
  }

  /** All outcomes settled so far, in plan order. */
  function Accumulated(slots: Slots): seq<Element<Outcome>> {
    if slots == [] then [] else
      var last := slots[|slots| - 1];
      Accumulated(slots[..|slots| - 1]) + (if last.Some? then last.value.report.outcomes else [])
  }

  ghost function Masked(slots: Slots, kept: set<nat>): Slots {
    seq(|slots|, i requires 0 <= i < |slots| => if i in kept then slots[i] else None)
  }

  /** Plan order: what is accumulated of two stretches is accumulated of each, in turn. */
  lemma {:induction false} AccumulatedConcat(a: Slots, b: Slots, run: EnricherRun)
    ensures Accumulated(a + b) == Accumulated(a) + Accumulated(b)
    ensures Accumulated([Some(run)]) == run.report.outcomes && Accumulated([None]) == []
  {
    var one: Slots, none: Slots := [Some(run)], [None];
    assert one[..0] == [] && none[..0] == [];
    if b == [] {
      assert a + b == a;
    } else {
      assert (a + b)[..|a + b| - 1] == a + b[..|b| - 1];
      AccumulatedConcat(a, b[..|b| - 1], run);
    }
  }

  /** What the caller wrote, judged by itself: a list of names, each of which names one step. */
  ghost predicate WellWritten(plan: seq<Enricher>, raw: RawDependencies) {
    match raw
    case Absent => true
    case NotAnArray => false
    case Listed(items) => forall k :: 0 <= k < |items| ==>
      items[k].Text? && (exists c :: c in items[k].text && !IsWhite(c)) && NamesOne(plan, items[k].text)
  }

  /** Exactly one enricher of the plan has this token. */
  ghost predicate NamesOne(plan: seq<Enricher>, token: string) {
    exists i: nat :: NamedBy(plan, token, i) && forall j: nat :: NamedBy(plan, token, j) ==> j == i
  }

  ghost predicate NamedBy(plan: seq<Enricher>, token: string, i: nat) {
    i < |plan| && CheckToken(plan[i]) == token
  }

  /** A step passes preflight if and only if it names one step itself and its dependency list is
      well written. */
  lemma PreflightExactly(plan: seq<Enricher>, g: Graph, i: nat)
    requires g.steps == Steps(plan) && WellIndexed(g) && i < |plan|
    ensures PreflightOk(g, i) <==> NamesOne(plan, CheckToken(plan[i])) && WellWritten(plan, plan[i].dependsOn)
  {
    hide CheckToken, WellIndexed, Dedup, IsWhite;
    var step, raw := g.steps[i], plan[i].dependsOn;
    UniqueExactly(plan, g, i);
    forall d: string ensures d in g.tokenToIndex <==> NamesOne(plan, d) {
      IndexedExactly(plan, g, d);
    }
    if raw.Listed? {
      ListedExactly(raw);
    }
  }

  lemma UniqueExactly(plan: seq<Enricher>, g: Graph, i: nat)
    requires g.steps == Steps(plan) && i < |plan|
    ensures UniqueToken(g.steps, i) <==> NamesOne(plan, CheckToken(plan[i]))
  {
    hide CheckToken;
    assert NamedBy(plan, CheckToken(plan[i]), i);
    if UniqueToken(g.steps, i) {
      forall j: nat | NamedBy(plan, CheckToken(plan[i]), j) ensures j == i {
        assert g.steps[j].token == g.steps[i].token;
      }
    }
    if NamesOne(plan, CheckToken(plan[i])) {
      forall j | 0 <= j < |g.steps| && g.steps[j].token == g.steps[i].token ensures j == i {
        assert NamedBy(plan, CheckToken(plan[i]), j);
      }
    }
  }

  lemma IndexedExactly(plan: seq<Enricher>, g: Graph, d: string)
    requires g.steps == Steps(plan) && WellIndexed(g)
    ensures d in g.tokenToIndex <==> NamesOne(plan, d)
  {
    hide CheckToken;
    if d in g.tokenToIndex {
      UniqueExactly(plan, g, g.tokenToIndex[d]);
    }
    if NamesOne(plan, d) {
      var i: nat :| NamedBy(plan, d, i) && forall j: nat :: NamedBy(plan, d, j) ==> j == i;
      UniqueExactly(plan, g, i);
    }
  }

  lemma ListedExactly(raw: RawDependencies)
    requires raw.Listed?
    ensures DependencyShapeValid(raw) && !HasGap(raw) <==>
      forall k :: 0 <= k < |raw.items| ==> raw.items[k].Text? && exists c :: c in raw.items[k].text && !IsWhite(c)
    ensures DependencyShapeValid(raw) ==> forall d :: d in DependencyTokens(raw) <==> Text(d) in raw.items
  {
    hide IsWhite, Dedup;
    forall k | 0 <= k < |raw.items| && raw.items[k].Text?
      ensures !IsBlank(raw.items[k].text) <==> exists c :: c in raw.items[k].text && !IsWhite(c)
    {
      BlankExactly(raw.items[k].text);
    }
    if DependencyShapeValid(raw) && !HasGap(raw) {
      forall k | 0 <= k < |raw.items| ensures raw.items[k].Text? {
        assert raw.items[k] in raw.items;
      }
    }
    if forall k :: 0 <= k < |raw.items| ==> raw.items[k].Text? && exists c :: c in raw.items[k].text && !IsWhite(c) {
      assert DependencyShapeValid(raw) && Gap !in raw.items;
    }
  }

  lemma BlankExactly(s: string)
    ensures !IsBlank(s) <==> exists c :: c in s && !IsWhite(c)
  {
    if c :| c in s && !IsWhite(c) {
      var i :| 0 <= i < |s| && s[i] == c;
    }
  }

  // ---------- the least fixed point ----------

  /** `i` may run once exactly the members of `ran` have run, `available` being the usable ones. */
  ghost predicate Enabled(g: Graph, available: set<nat>, ran: set<nat>, i: nat) {
    && i < |g.steps| && PreflightOk(g, i)
    && (forall d :: d in g.steps[i].dependencies ==> g.tokenToIndex[d] in ran && g.tokenToIndex[d] in available)
  }

  ghost predicate Closed(g: Graph, available: set<nat>, ran: set<nat>) {
    forall i :: Enabled(g, available, ran, i) ==> i in ran
  }

  ghost predicate IsLeastFixedPoint(g: Graph, available: set<nat>, ran: set<nat>) {
    && (forall i :: i in ran <==> Enabled(g, available, ran, i))
    && (forall other: set<nat> :: Closed(g, available, other) ==> ran <= other)
  }

  // ---------- what a run of the plan records and keeps ----------

  /** A step handed to `runEnricher`: the pass that started it, the snapshot it received, the
      slots settled before its stage, the answers its boundaries gave and the calls it made. */
  datatype Start = Start(index: nat, stage: nat, previous: seq<Element<Outcome>>, settled: set<nat>, answers: Answers, events: seq<Event>)

  ghost function Indexes(starts: seq<Start>): set<nat> {
    set k | 0 <= k < |starts| :: starts[k].index
  }

  ghost predicate HasSettled(slots: Slots, i: nat) {
    i < |slots| && slots[i].Some?
  }

  /** One start, judged against the slots: its prerequisites were settled, available and
      themselves started earlier, and its snapshot is exactly what was settled before. */
  ghost predicate StartOk(g: Graph, env: Environment, slots: Slots, starts: seq<Start>, k: nat)
    requires k < |starts|
  {
    var s := starts[k];
    && s.index < |g.steps| && PreflightOk(g, s.index) && s.index !in s.settled
    && HasSettled(slots, s.index)
    && RunContract(g.steps[s.index].enricher, env, s.answers, s.events, slots[s.index].value)
    && (forall i :: i in s.settled ==> HasSettled(slots, i))
    && s.previous == Accumulated(Masked(slots, s.settled))
    && (forall d :: d in g.steps[s.index].dependencies ==>
          && g.tokenToIndex[d] in s.settled && PrerequisiteIs(g, slots, d, true)
          && g.tokenToIndex[d] in Indexes(starts[..k]))
  }

  ghost predicate StartsOk(g: Graph, env: Environment, slots: Slots, starts: seq<Start>) {
    && (forall k :: 0 <= k < |starts| ==> StartOk(g, env, slots, starts, k))
    && (forall j, k :: 0 <= j < k < |starts| ==>
          starts[j].index != starts[k].index && starts[j].settled <= starts[k].settled)
  }

  /** Every start got the answers the world gives it for its snapshot. */
  ghost predicate AnsweredBy(starts: seq<Start>, respond: (nat, seq<Element<Outcome>>) -> Answers) {
    forall k :: 0 <= k < |starts| ==> starts[k].answers == respond(starts[k].index, starts[k].previous)
  }

  /** `i` lies on a genuine dependency cycle of the plan. */
  ghost predicate OnCycle(g: Graph, i: nat) {
    exists pending: set<nat>, cycle: seq<nat> :: g.IsCycle(pending, cycle) && i in cycle
  }

  /** Why a settled step was never started. */
  ghost predicate SkippedBecause(g: Graph, slots: Slots, i: nat, aborted: bool)
    requires HasSettled(slots, i)
  {
    if !PreflightOk(g, i) then IsFrameworkRun(slots[i].value, InvalidPlan)
    else if aborted && IsFrameworkRun(slots[i].value, CallerAborted) then true
    else
      && IsBlocked(g, slots, i)
      && ((IsFrameworkRun(slots[i].value, PrerequisiteUnavailable) && NamesCulprits(g, slots, i)) ||
          (IsFrameworkRun(slots[i].value, DependencyCycle) && OnCycle(g, i)))
  }

  /** The skip names prerequisites of the step, all of them settled and unavailable. */
  ghost predicate NamesCulprits(g: Graph, slots: Slots, i: nat)
    requires HasSettled(slots, i)
  {
    var outcomes := slots[i].value.report.outcomes;
    && i < |g.steps| && |outcomes| == 1 && outcomes[0].Item? && outcomes[0].value.cause.Some?
    && outcomes[0].value.cause.value.prerequisites != []
    && (forall d :: d in outcomes[0].value.cause.value.prerequisites ==>
          d in g.steps[i].dependencies && PrerequisiteIs(g, slots, d, false))
  }

  ghost predicate SlotOk(g: Graph, registry: Registry, slots: Slots, started: set<nat>, aborted: bool, i: nat)
    requires i < |g.steps|
  {
    HasSettled(slots, i) ==>
      && slots[i].value.token == g.steps[i].token && Foldable(slots[i].value.report, registry)
      && (i in started || SkippedBecause(g, slots, i, aborted))
  }

  /** The plan invariant on slots: a step is pending exactly until its slot is settled,
      pending steps passed preflight and were not started, and every settled slot is accounted for. */
  ghost predicate SlotsOk(g: Graph, registry: Registry, slots: Slots, pending: set<nat>, started: set<nat>, aborted: bool) {
    && |slots| == |g.steps|
    && (forall i :: i in pending ==> i < |slots|)
    && (forall i :: 0 <= i < |slots| ==> (i in pending <==> slots[i].None?))
    && (forall i :: i in pending ==> PreflightOk(g, i) && i !in started)
    && (forall i :: 0 <= i < |slots| ==> SlotOk(g, registry, slots, started, aborted, i))
  }

  /** Settled slots are final. */
  ghost predicate Extends(slots: Slots, slots': Slots) {
    |slots'| == |slots| && forall i :: 0 <= i < |slots| && slots[i].Some? ==> slots'[i] == slots[i]
  }

  lemma BlockedExtends(g: Graph, slots: Slots, slots': Slots, i: nat)
    requires Extends(slots, slots') && IsBlocked(g, slots, i)
    ensures IsBlocked(g, slots', i)
  {
    var d :| d in g.steps[i].dependencies && PrerequisiteIs(g, slots, d, false);
    assert PrerequisiteIs(g, slots', d, false);
  }

  lemma CulpritsExtend(g: Graph, slots: Slots, slots': Slots, i: nat)
    requires Extends(slots, slots') && HasSettled(slots, i) && NamesCulprits(g, slots, i)
    ensures NamesCulprits(g, slots', i)
  {
    forall d | d in slots[i].value.report.outcomes[0].value.cause.value.prerequisites
      ensures PrerequisiteIs(g, slots', d, false)
    {
      assert PrerequisiteIs(g, slots, d, false);
    }
  }

  lemma SkippedExtends(g: Graph, slots: Slots, slots': Slots, i: nat, aborted: bool)
    requires Extends(slots, slots') && HasSettled(slots, i) && SkippedBecause(g, slots, i, false)
    ensures SkippedBecause(g, slots', i, aborted)
  {
    if PreflightOk(g, i) {
      BlockedExtends(g, slots, slots', i);
      if NamesCulprits(g, slots, i) {
        CulpritsExtend(g, slots, slots', i);
      }
    }
  }

  /** Settling a batch of pending steps keeps the slot invariant. */
  lemma SettleBatch(g: Graph, registry: Registry, slots: Slots, slots': Slots, pending: set<nat>, pending': set<nat>,
                    started: set<nat>, started': set<nat>, aborted: bool)
    requires SlotsOk(g, registry, slots, pending, started, false) && Extends(slots, slots')
    requires pending' <= pending && started <= started' && started' !! pending'
    requires forall i :: 0 <= i < |slots'| ==> (i in pending' <==> slots'[i].None?)
    requires forall i :: i in pending && i !in pending' ==> SlotOk(g, registry, slots', started', aborted, i)
    ensures SlotsOk(g, registry, slots', pending', started', aborted)
  {
    forall i | 0 <= i < |slots'|
      ensures SlotOk(g, registry, slots', started', aborted, i)
    {
      assert SlotOk(g, registry, slots, started, false, i);
      if i !in pending && i !in started {
        SkippedExtends(g, slots, slots', i, aborted);
      }
    }
  }

  lemma MaskedExtends(slots: Slots, slots': Slots, kept: set<nat>)
    requires Extends(slots, slots') && forall i :: i in kept ==> HasSettled(slots, i)
    ensures Masked(slots', kept) == Masked(slots, kept)
  {
  }

  lemma StartOkExtends(g: Graph, env: Environment, slots: Slots, slots': Slots, starts: seq<Start>, starts': seq<Start>, k: nat)
    requires Extends(slots, slots') && starts <= starts' && k < |starts|
    requires StartOk(g, env, slots, starts, k)
    ensures StartOk(g, env, slots', starts', k)
  {
    MaskedExtends(slots, slots', starts[k].settled);
    assert starts'[..k] == starts[..k];
    forall d | d in g.steps[starts[k].index].dependencies
      ensures PrerequisiteIs(g, slots', d, true)
    {
      assert PrerequisiteIs(g, slots, d, true);
    }
  }
}
