/** Runs that share one governor: what the run protocol (runEnricher,
    packages/core/src/inspect-async.ts) and the token bucket
    (packages/core/src/enrichment-governor.ts) guarantee together. */
module GovernedRuns {
  import opened Wrappers
  import opened EnrichmentSchema
  import opened Normalization
  import opened Clocks
  import Runner = SourceRunner
  import Governor = EnrichmentGovernor
  import Theorems = GovernorTheorems

  /** A run, and which call of the governor's history is its request for admission. */
  datatype GovernedRun = GovernedRun(
    enricher: Enricher,
    env: Environment,
    answers: Runner.Answers,
    events: seq<Runner.Event>,
    at: nat)

  /** The run obeyed its protocol, and its admission is what the governor decided at that call. */
  ghost predicate Governed(p: Governor.Policy, trace: seq<Governor.Call>, r: GovernedRun)
    requires Governor.PolicyOk(p)
  {
    && r.env.hasGovernor && Runner.Protocol(r.enricher, r.env, r.answers, r.events)
    && (Runner.Admit in r.events ==>
          && r.at < |trace| && trace[r.at].op == Governor.AdmitOp && trace[r.at].token == CheckToken(r.enricher)
          && (r.answers.decision.Admitted? <==>
                Governor.Answer(p, trace[..r.at], CheckToken(r.enricher), trace[r.at].now).Run?))
  }

  /** All runs are governed by one history, each by a request of its own, in any interleaving. */
  ghost predicate Shared(p: Governor.Policy, trace: seq<Governor.Call>, runs: seq<GovernedRun>)
    requires Governor.PolicyOk(p)
  {
    && (forall k :: 0 <= k < |runs| ==> Governed(p, trace, runs[k]))
    && (forall k, m :: 0 <= k < m < |runs| && Runner.Admit in runs[k].events && Runner.Admit in runs[m].events ==>
          runs[k].at != runs[m].at)
  }

  /** The runs of a source that called their provider, admitted by calls `i` to `j`. */
  ghost function CallsOf(runs: seq<GovernedRun>, token: string, i: nat, j: nat): set<nat> {
    set k: nat | k < |runs| && Runner.EnrichCalled(runs[k].events) && CheckToken(runs[k].enricher) == token && i <= runs[k].at < j
  }

  ghost predicate IsGrant(p: Governor.Policy, trace: seq<Governor.Call>, token: string, k: nat)
    requires Governor.PolicyOk(p)
  {
    && k < |trace| && trace[k].op == Governor.AdmitOp && trace[k].token == token
    && Governor.Answer(p, trace[..k], token, trace[k].now).Run?
  }

  ghost function Grants(p: Governor.Policy, trace: seq<Governor.Call>, token: string, i: nat, j: nat): set<nat>
    requires Governor.PolicyOk(p)
  {
    set k: nat | i <= k < j && IsGrant(p, trace, token, k)
  }

  lemma {:induction false} GrantsAreAdmissions(p: Governor.Policy, trace: seq<Governor.Call>, token: string, i: nat, j: nat)
    requires Governor.PolicyOk(p) && i <= j <= |trace|
    ensures |Grants(p, trace, token, i, j)| == Governor.Admissions(p, trace[..j], token) - Governor.Admissions(p, trace[..i], token)
    decreases j
  {
    hide Governor.Admissions, IsGrant;
    if i == j {
      assert Grants(p, trace, token, i, j) == {};
    } else {
      GrantsAreAdmissions(p, trace, token, i, j - 1);
      AdmissionStep(p, trace, token, j);
      var before := Grants(p, trace, token, i, j - 1);
      if IsGrant(p, trace, token, j - 1) {
        assert Grants(p, trace, token, i, j) == before + {j - 1};
      } else {
        assert Grants(p, trace, token, i, j) == before;
      }
    }
  }

  lemma AdmissionStep(p: Governor.Policy, trace: seq<Governor.Call>, token: string, j: nat)
    requires Governor.PolicyOk(p) && 0 < j <= |trace|
    ensures Governor.Admissions(p, trace[..j], token) ==
      Governor.Admissions(p, trace[..j - 1], token) + if IsGrant(p, trace, token, j - 1) then 1 else 0
  {
    hide Governor.Answer;
    assert trace[..j][..j - 1] == trace[..j - 1];
  }

  /** Each provider call follows a grant of its own. */
  lemma CallFollowsGrant(p: Governor.Policy, trace: seq<Governor.Call>, r: GovernedRun)
    requires Governor.PolicyOk(p) && Governed(p, trace, r) && Runner.EnrichCalled(r.events)
    ensures Runner.Admit in r.events && IsGrant(p, trace, CheckToken(r.enricher), r.at)
  {
  }

  lemma {:induction false} OneEach(runs: seq<GovernedRun>, calls: set<nat>, grants: set<nat>)
    requires forall k :: k in calls ==> k < |runs| && runs[k].at in grants
    requires forall k, m :: k in calls && m in calls && k != m ==> runs[k].at != runs[m].at
    ensures |calls| <= |grants|
    decreases |calls|
  {
    if calls != {} {
      var k :| k in calls;
      OneEach(runs, calls - {k}, grants - {runs[k].at});
    }
  }

  lemma CallsWithinGrants(p: Governor.Policy, trace: seq<Governor.Call>, runs: seq<GovernedRun>, token: string, i: nat, j: nat)
    requires Governor.PolicyOk(p) && Shared(p, trace, runs) && i <= j <= |trace|
    ensures |CallsOf(runs, token, i, j)| <= Governor.Admissions(p, trace[..j], token) - Governor.Admissions(p, trace[..i], token)
  {
    hide Runner.Protocol, Runner.EnrichCalled, Governed, IsGrant, CheckToken;
    var calls, grants := CallsOf(runs, token, i, j), Grants(p, trace, token, i, j);
    forall k | k in calls ensures runs[k].at in grants && Runner.Admit in runs[k].events {
      CallFollowsGrant(p, trace, runs[k]);
    }
    forall k, m | k in calls && m in calls && k != m ensures runs[k].at != runs[m].at {
      assert k < m || m < k;
    }
    OneEach(runs, calls, grants);
    GrantsAreAdmissions(p, trace, token, i, j);
  }

  /** Rate limit of the provider itself: however runs interleave, on a forward clock a source is
      called at most capacity + span / interval times in any window. */
  lemma ProviderRateLimit(p: Governor.Policy, trace: seq<Governor.Call>, runs: seq<GovernedRun>, token: string,
                          i: nat, j: nat, from: real, to: real)
    requires Governor.PolicyOk(p) && Shared(p, trace, runs) && p.refill.Some?
    requires Forward(Theorems.Readings(trace)) && i <= j <= |trace| && from <= to
    requires forall k :: i <= k < j ==> from <= trace[k].now <= to
    requires NotBefore(Theorems.Readings(trace[..i]), from)
    ensures |CallsOf(runs, token, i, j)| as real <= p.capacity + (to - from) / p.refill.value
  {
    hide Shared, Governor.Admissions, CallsOf;
    CallsWithinGrants(p, trace, runs, token, i, j);
    Theorems.WindowBound(p, trace, token, i, j, from, to);
  }

  /** Without refill a provider is called at most floor(capacity) times, ever, on any clock. */
  lemma ProviderBudget(p: Governor.Policy, trace: seq<Governor.Call>, runs: seq<GovernedRun>, token: string)
    requires Governor.PolicyOk(p) && Shared(p, trace, runs) && p.refill.None?
    ensures |CallsOf(runs, token, 0, |trace|)| <= p.capacity.Floor
  {
    hide Shared, CallsOf;
    CallsWithinGrants(p, trace, runs, token, 0, |trace|);
    assert trace[..|trace|] == trace && trace[..0] == [];
    Theorems.WithoutRefill(p, trace, token);
  }
}
