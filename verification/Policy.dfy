// app/policy/engine.py: every question the agent asks of policy.
//
// The thresholds are held as log-odds. The logistic transform is strictly
// increasing, so `p_fraud <= allow_below` and the comparison of log-odds agree.

module Policies {
  import opened Domain

  const NUMBER_RECYCLED := "NUMBER_RECYCLED"

  function UnresolvedSignals(): set<string> {
    {"CONSENT_REQUIRED", "PROVIDER_UNAVAILABLE", "EVIDENCE_UNAVAILABLE"}
  }

  datatype Enrichment = Enrichment(enabled: bool, cost: real)

  datatype Price = Price(cost: real, gain: real)

  datatype Policy = Policy(
    allowBelow: real,
    declineAbove: real,
    signals: map<string, real>,
    corroboration: map<string, seq<Action>>,
    minResolved: int,
    parallelBatch: int,
    defaultBudget: nat,
    highValueBudget: nat,
    actions: map<Action, Price>,
    swapDate: Option<Enrichment>,
    relevant: map<Hypothesis, set<Action>>,
    numberVerifyWeight: real,
    relevantWeight: real,
    baseWeight: real,
    adverseDelta: real,
    minNetworkLinksForAllow: int,
    minLinks: map<Hypothesis, int>,
    defaultMinLinks: int
  )
  {
    // What the source needs of the file: every action that is not local is
    // priced, and a price is divided by.
    ghost predicate Valid() {
      forall a: Action :: !Free(a) ==> a in actions && actions[a].cost > 0.0
    }

    // ---- signals ----

    function SignalDelta(signal: string): real {
      if signal in signals then signals[signal] else 0.0
    }

    function CorroborationFor(signal: string): seq<Action> {
      if signal in corroboration then corroboration[signal] else []
    }

    function MinResolved(): (n: nat)
      ensures n >= 1
    {
      if minResolved < 1 then 1 else minResolved
    }

    function BatchSize(): (n: nat)
      ensures n >= 1
    {
      if parallelBatch < 1 then 1 else parallelBatch
    }

    function BudgetFor(highValue: bool): real {
      (if highValue then highValueBudget else defaultBudget) as real
    }

    // ---- prices ----

    static predicate Free(a: Action) {
      a == RegistryCheck || a == CallAnnouncement
    }

    function Cost(a: Action): (c: real)
      requires Valid()
      ensures c >= 0.0
      ensures c == 0.0 <==> Free(a)
    {
      if Free(a) then 0.0 else actions[a].cost
    }

    function Gain(a: Action): real
      requires Valid()
    {
      if Free(a) then 0.0 else actions[a].gain
    }

    // An enrichment that is missing, disabled or priced at nothing is not
    // performed at all.
    predicate DatesEnabled() {
      swapDate.Some? && swapDate.value.enabled && swapDate.value.cost > 0.0
    }

    function DateCost(): (c: real)
      ensures DatesEnabled() ==> c > 0.0
    {
      if swapDate.Some? && swapDate.value.enabled then swapDate.value.cost else 0.0
    }

    function Relevant(h: Hypothesis): set<Action> {
      if h in relevant then relevant[h] else {}
    }

    function Score(a: Action, h: Hypothesis): real
      requires Valid() && !Free(a)
    {
      var weight := if a == NumberVerify then numberVerifyWeight
                    else if a in Relevant(h) then relevantWeight
                    else baseWeight;
      Gain(a) * weight / Cost(a)
    }

    // ---- decision ----

    function Decide(logodds: real): Decision {
      if logodds <= allowBelow then Allow
      else if logodds >= declineAbove then Decline
      else Challenge
    }

    predicate IsDecisive(logodds: real) {
      logodds <= allowBelow || logodds >= declineAbove
    }

    // ---- grade ----

    function MinLinksFor(h: Hypothesis): int {
      if h in minLinks then minLinks[h] else defaultMinLinks
    }

    function GradeOf(logodds: real, unresolved: bool, deltas: seq<real>, h: Hypothesis,
                     corroborationUnmet: bool): Grade
    {
      if unresolved then Unresolved
      else if |deltas| == 0 then Unresolved
      else if corroborationUnmet then Degraded
      else if logodds >= declineAbove then Refuted
      else if logodds > allowBelow then Degraded
      else if exists i :: 0 <= i < |deltas| && deltas[i] >= adverseDelta then AttestedPartial
      else if |deltas| < MinLinksFor(h) then AttestedPartial
      else AttestedFull
    }
  }
}
