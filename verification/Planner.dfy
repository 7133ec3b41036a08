// app/agent/planner.py: the deterministic planner, and the planner that asks a
// model. Whatever the model answers, what comes back is STOP or one candidate
// that is unused and affordable.

module Planners {
  import opened Domain
  import opened Policies

  // Actions a planner may choose: not the OTP, not local lookups, and not the
  // two checks that are priced but never offered.
  const CANDIDATES: seq<Action> :=
    [NumberVerify, SimSwap, DeviceSwap, LocationVerify, Reachability, Roaming]

  const STEP_UPS: seq<Action> := [LocationVerify, NumberVerify, Reachability]

  // Every action but the OTP, the local lookups, and the two never offered.
  lemma CandidatesAreTheOffered(a: Action)
    ensures a in CANDIDATES <==>
      a !in {StepUpOtp, RegistryCheck, CallAnnouncement, DeviceIntelligence, NumberRecycling}
  {
  }

  datatype Source = FromModel | FromGreedy | FromPolicy

  datatype Choice = Choice(action: Option<Action>, source: Source)

  predicate Buyable(p: Policy, a: Action, used: set<Action>, budget: real)
    requires p.Valid()
  {
    a !in used && p.Cost(a) <= budget
  }

  function BuyableOf(p: Policy, from: seq<Action>, used: set<Action>, budget: real): (r: seq<Action>)
    requires p.Valid()
    ensures forall a :: a in r <==> a in from && Buyable(p, a, used, budget)
  {
    if |from| == 0 then []
    else
      var rest := BuyableOf(p, from[..|from| - 1], used, budget);
      var a := from[|from| - 1];
      if Buyable(p, a, used, budget) then rest + [a] else rest
  }

  function Affordable(p: Policy, used: set<Action>, budget: real): (r: seq<Action>)
    requires p.Valid()
    ensures forall a :: a in r <==> a in CANDIDATES && Buyable(p, a, used, budget)
  {
    BuyableOf(p, CANDIDATES, used, budget)
  }

  lemma OnlyPricedCandidates(p: Policy, used: set<Action>, budget: real)
    requires p.Valid()
    ensures forall a :: a in Affordable(p, used, budget) ==> !Policy.Free(a)
  {
  }

  // ---- greedy ----

  // A candidate that is unused and within budget, by the policy's own price.
  predicate IsOffered(p: Policy, used: set<Action>, budget: real, a: Action) {
    a in CANDIDATES && a !in used && a in p.actions && p.actions[a].cost <= budget
  }

  // What the policy expects of a check, weighted by what the hypothesis needs.
  ghost function Worth(p: Policy, h: Hypothesis, a: Action): real
    requires a in p.actions
  {
    if a == NumberVerify then p.actions[a].gain * p.numberVerifyWeight
    else if h in p.relevant && a in p.relevant[h] then p.actions[a].gain * p.relevantWeight
    else p.actions[a].gain * p.baseWeight
  }

  ghost predicate IsListedBefore(a: Action, b: Action) {
    exists i, j :: 0 <= i < j < |CANDIDATES| && CANDIDATES[i] == a && CANDIDATES[j] == b
  }

  // The offered action worth most for its price, the earliest listed of equals;
  // and none exactly when nothing offered is worth anything.
  ghost predicate IsBest(p: Policy, h: Hypothesis, used: set<Action>, budget: real, best: Option<Action>) {
    match best
    case None => forall a :: IsOffered(p, used, budget, a) ==> Worth(p, h, a) <= 0.0
    case Some(b) =>
      && IsOffered(p, used, budget, b) && Worth(p, h, b) > 0.0
      && forall a :: IsOffered(p, used, budget, a) ==>
           && Worth(p, h, b) * p.actions[a].cost >= Worth(p, h, a) * p.actions[b].cost
           && (IsListedBefore(a, b) ==> Worth(p, h, b) * p.actions[a].cost > Worth(p, h, a) * p.actions[b].cost)
  }

  lemma BestIsUnique(p: Policy, h: Hypothesis, used: set<Action>, budget: real, a: Option<Action>, b: Option<Action>)
    requires IsBest(p, h, used, budget, a) && IsBest(p, h, used, budget, b)
    ensures a == b
  {
    hide Worth;
    if a.Some? && b.Some? && a != b {
      OneIsListedFirst(a.value, b.value);
      assert false;
    }
  }

  lemma OneIsListedFirst(a: Action, b: Action)
    requires a in CANDIDATES && b in CANDIDATES && a != b
    ensures IsListedBefore(a, b) || IsListedBefore(b, a)
  {
    var i :| 0 <= i < |CANDIDATES| && CANDIDATES[i] == a;
    var j :| 0 <= j < |CANDIDATES| && CANDIDATES[j] == b;
    assert IsListedBefore(if i < j then a else b, if i < j then b else a);
  }

  // A check that cannot speak to the hypothesis is never chosen beside one that
  // can, of the same price and the same gain.
  lemma RelevantComesFirst(p: Policy, h: Hypothesis, used: set<Action>, budget: real, best: Action, other: Action)
    requires IsBest(p, h, used, budget, Some(best)) && IsOffered(p, used, budget, other)
    requires p.Valid() && h in p.relevant && other in p.relevant[h]
    requires best != NumberVerify && other != NumberVerify && p.relevantWeight > p.baseWeight
    requires p.actions[best].cost == p.actions[other].cost && p.actions[best].gain == p.actions[other].gain > 0.0
    ensures best in p.relevant[h]
  {
    hide IsOffered, IsListedBefore, Worth;
    assert best in CANDIDATES && best in p.actions && other in p.actions by { OfferedIsPriced(p, used, budget); }
    PricedAbove(p, best);
    WorthNoLess(Worth(p, h, best), p.actions[best].cost, Worth(p, h, other), p.actions[other].cost);
    if best !in p.relevant[h] { WeighsLess(p, h, best, other); }
  }

  lemma WorthNoLess(x: real, c: real, y: real, d: real)
    requires c == d > 0.0 && x * d >= y * c
    ensures x >= y
  {
    if x < y { ProductOrder(c, x, y); }
  }

  lemma OfferedIsPriced(p: Policy, used: set<Action>, budget: real)
    ensures forall a :: IsOffered(p, used, budget, a) ==> a in CANDIDATES && a in p.actions
  {
  }

  lemma PricedAbove(p: Policy, a: Action)
    requires p.Valid() && a in p.actions && a in CANDIDATES
    ensures p.actions[a].cost > 0.0
  {
  }

  lemma WeighsLess(p: Policy, h: Hypothesis, a: Action, b: Action)
    requires a in p.actions && b in p.actions && p.actions[a].gain == p.actions[b].gain > 0.0
    requires a != NumberVerify && b != NumberVerify && p.relevantWeight > p.baseWeight
    requires h in p.relevant && a !in p.relevant[h] && b in p.relevant[h]
    ensures Worth(p, h, a) < Worth(p, h, b)
  {
    ProductOrder(p.actions[a].gain, p.baseWeight, p.relevantWeight);
  }

  lemma ProductOrder(c: real, x: real, y: real)
    requires c > 0.0 && x < y
    ensures c * x < c * y && x * c < y * c
  {
  }

  // The source compares worth per price; over positive prices that is comparing
  // worth crosswise.
  lemma ScoresCompare(p: Policy, h: Hypothesis, a: Action, b: Action)
    requires p.Valid() && !Policy.Free(a) && !Policy.Free(b)
    ensures p.Score(a, h) <= p.Score(b, h) <==> Worth(p, h, b) * p.actions[a].cost >= Worth(p, h, a) * p.actions[b].cost
    ensures p.Score(a, h) < p.Score(b, h) <==> Worth(p, h, b) * p.actions[a].cost > Worth(p, h, a) * p.actions[b].cost
    ensures p.Score(b, h) > 0.0 <==> Worth(p, h, b) > 0.0
  {
    hide Policy.Score, Worth;
    ScoreIsWorthPerPrice(p, h, a);
    ScoreIsWorthPerPrice(p, h, b);
    QuotientsCompare(Worth(p, h, a), p.actions[a].cost, Worth(p, h, b), p.actions[b].cost);
  }

  lemma ScoreIsWorthPerPrice(p: Policy, h: Hypothesis, a: Action)
    requires p.Valid() && !Policy.Free(a)
    ensures p.Score(a, h) == Worth(p, h, a) / p.actions[a].cost
  {
  }

  lemma QuotientsCompare(x: real, c: real, y: real, d: real)
    requires c > 0.0 && d > 0.0
    ensures x / c <= y / d <==> y * c >= x * d
    ensures x / c < y / d <==> y * c > x * d
    ensures y / d > 0.0 <==> y > 0.0
  {
    var u, v := x / c, y / d;
    assert x == u * c && y == v * d;
    assert y * c == v * (c * d) && x * d == u * (c * d);
    if u < v { ProductOrder(c * d, u, v); } else if v < u { ProductOrder(c * d, v, u); }
    if v > 0.0 { ProductOrder(d, 0.0, v); } else if v < 0.0 { ProductOrder(d, v, 0.0); }
  }

  // What is offered before an action is what is affordable before it.
  lemma {:induction false} PlacedInOrder(p: Policy, from: seq<Action>, used: set<Action>, budget: real, k: nat)
    returns (i: nat)
    requires p.Valid() && k < |from| && Buyable(p, from[k], used, budget)
    ensures var r := BuyableOf(p, from, used, budget);
            i < |r| && r[i] == from[k] && r[..i] == BuyableOf(p, from[..k], used, budget)
  {
    var n := |from| - 1;
    var r, rest := BuyableOf(p, from, used, budget), BuyableOf(p, from[..n], used, budget);
    if k == n {
      i := |rest|;
    } else {
      i := PlacedInOrder(p, from[..n], used, budget, k);
      assert from[..n][..k] == from[..k] && r[..i] == rest[..i];
    }
  }

  // The scan of the offered list finds the best.
  lemma ScanFindsBest(p: Policy, h: Hypothesis, used: set<Action>, budget: real, at: nat)
    requires p.Valid() && at < |Affordable(p, used, budget)|
    requires forall a :: a in Affordable(p, used, budget) ==> !Policy.Free(a)
    requires var from := Affordable(p, used, budget);
             && p.Score(from[at], h) > 0.0
             && (forall j :: 0 <= j < |from| ==> p.Score(from[j], h) <= p.Score(from[at], h))
             && (forall j :: 0 <= j < at ==> p.Score(from[j], h) < p.Score(from[at], h))
    ensures IsBest(p, h, used, budget, Some(Affordable(p, used, budget)[at]))
  {
    hide Policy.Score, Worth, BuyableOf, IsListedBefore;
    var from := Affordable(p, used, budget);
    var b := from[at];
    assert b in from && IsOffered(p, used, budget, b);
    ScoresCompare(p, h, b, b);
    forall a | IsOffered(p, used, budget, a)
      ensures Worth(p, h, b) * p.actions[a].cost >= Worth(p, h, a) * p.actions[b].cost
      ensures IsListedBefore(a, b) ==> Worth(p, h, b) * p.actions[a].cost > Worth(p, h, a) * p.actions[b].cost
    {
      assert a in from;
      ScoresCompare(p, h, a, b);
      if IsListedBefore(a, b) { EarlierIsEarlier(p, used, budget, a, at); }
    }
  }

  lemma EarlierIsEarlier(p: Policy, used: set<Action>, budget: real, a: Action, at: nat)
    requires p.Valid() && at < |Affordable(p, used, budget)|
    requires IsListedBefore(a, Affordable(p, used, budget)[at]) && IsOffered(p, used, budget, a)
    ensures exists j :: 0 <= j < at && Affordable(p, used, budget)[j] == a
  {
    hide BuyableOf;
    var from := Affordable(p, used, budget);
    var m, k :| 0 <= m < k < |CANDIDATES| && CANDIDATES[m] == a && CANDIDATES[k] == from[at];
    assert from[at] in from;
    var i := PlacedInOrder(p, CANDIDATES, used, budget, k);
    ListedOnce(m, k);
    assert from[..i] == BuyableOf(p, CANDIDATES[..k], used, budget);
    var j :| 0 <= j < i && from[..i][j] == a;
    assert from[j] == a && a != from[at];
    assert from[at] !in from[..i];
    assert forall l :: 0 <= l < i ==> from[l] in from[..i];
  }

  lemma ListedOnce(m: nat, k: nat)
    requires m < k < |CANDIDATES|
    ensures CANDIDATES[m] in CANDIDATES[..k] && CANDIDATES[k] !in CANDIDATES[..k] && CANDIDATES[m] != CANDIDATES[k]
  {
    assert CANDIDATES[..k][m] == CANDIDATES[m];
  }

  method NextBest(p: Policy, h: Hypothesis, used: set<Action>, budget: real)
    returns (best: Option<Action>)
    requires p.Valid()
    ensures IsBest(p, h, used, budget, best)
    ensures best.Some? ==> best.value in CANDIDATES && Buyable(p, best.value, used, budget)
  {
    hide Policy.Score, Policy.Cost, Policy.Valid, Affordable, BuyableOf, IsBest, IsOffered, Worth;
    OnlyPricedCandidates(p, used, budget);
    best := None;
    var bestScore := 0.0;
    var from := Affordable(p, used, budget);
    assert forall i :: 0 <= i < |from| ==> from[i] in from;
    ghost var at: nat := 0;
    for n := 0 to |from|
      invariant best.None? ==> bestScore == 0.0
      invariant best.Some? ==> at < n && from[at] == best.value && bestScore == p.Score(from[at], h) > 0.0
      invariant forall j :: 0 <= j < n ==> p.Score(from[j], h) <= bestScore
      invariant best.Some? ==> forall j :: 0 <= j < at ==> p.Score(from[j], h) < bestScore
    {
      var score := p.Score(from[n], h);
      if score > bestScore {
        bestScore, best, at := score, Some(from[n]), n;
      }
    }
    if best.Some? { ScanFindsBest(p, h, used, budget, at); } else { ScanFindsNone(p, h, used, budget); }
  }

  lemma ScanFindsNone(p: Policy, h: Hypothesis, used: set<Action>, budget: real)
    requires p.Valid() && forall a :: a in Affordable(p, used, budget) ==> !Policy.Free(a)
    requires forall j :: 0 <= j < |Affordable(p, used, budget)| ==> p.Score(Affordable(p, used, budget)[j], h) <= 0.0
    ensures IsBest(p, h, used, budget, None)
  {
    hide Policy.Score, Worth, BuyableOf;
    forall a | IsOffered(p, used, budget, a) ensures Worth(p, h, a) <= 0.0 {
      assert a in Affordable(p, used, budget);
      ScoresCompare(p, h, a, a);
    }
  }

  method GreedyChoose(p: Policy, h: Hypothesis, used: set<Action>, budget: real)
    returns (choice: Choice)
    requires p.Valid()
    ensures choice.source == FromGreedy
    ensures IsBest(p, h, used, budget, choice.action)
    ensures choice.action.Some? ==> choice.action.value in Affordable(p, used, budget)
  {
    hide IsBest;
    var action := NextBest(p, h, used, budget);
    choice := Choice(action, FromGreedy);
  }

  ghost predicate IsCheapestStepUp(p: Policy, used: set<Action>, budget: real, best: Action)
    requires p.Valid()
  {
    && best in {LocationVerify, NumberVerify, Reachability} && Buyable(p, best, used, budget)
    && forall a :: a in {LocationVerify, NumberVerify, Reachability} && Buyable(p, a, used, budget) ==>
         && p.actions[best].cost <= p.actions[a].cost
         && (a != best && (a == LocationVerify || best == Reachability) ==>
               p.actions[best].cost < p.actions[a].cost)
  }

  // The cheapest low-friction check, the earliest listed of equals, or none.
  // Never an OTP.
  method CheapestStepUp(p: Policy, used: set<Action>, budget: real) returns (r: Option<Action>)
    requires p.Valid()
    ensures r.None? <==> forall a :: a in {LocationVerify, NumberVerify, Reachability} ==> !Buyable(p, a, used, budget)
    ensures r.Some? ==> IsCheapestStepUp(p, used, budget, r.value)
  {
    var lowFriction := BuyableOf(p, STEP_UPS, used, budget);
    StepUpsInOrder(p, used, budget);
    if |lowFriction| == 0 { return None; }
    var best := lowFriction[0];
    ghost var at := 0;
    for n := 1 to |lowFriction|
      invariant 0 <= at < n && best == lowFriction[at]
      invariant forall j :: 0 <= j < n ==> p.Cost(best) <= p.Cost(lowFriction[j])
      invariant forall j :: 0 <= j < at ==> p.Cost(best) < p.Cost(lowFriction[j])
    {
      if p.Cost(lowFriction[n]) < p.Cost(best) { best, at := lowFriction[n], n; }
    }
    assert best in lowFriction;
    r := Some(best);
  }

  lemma StepUpsInOrder(p: Policy, used: set<Action>, budget: real)
    requires p.Valid()
    ensures var r := BuyableOf(p, STEP_UPS, used, budget);
      && (forall a :: a in r <==> a in {LocationVerify, NumberVerify, Reachability} && Buyable(p, a, used, budget))
      && (forall a :: a in r ==> p.Cost(a) == p.actions[a].cost)
      && (forall i, j :: 0 <= i < j < |r| ==> r[i] != r[j] && r[i] != Reachability && r[j] != LocationVerify)
  {
    hide Buyable, BuyableOf;
    StepUpsListed(p, used, budget);
  }

  lemma StepUpsListed(p: Policy, used: set<Action>, budget: real)
    requires p.Valid()
    ensures BuyableOf(p, STEP_UPS, used, budget) ==
      (if Buyable(p, LocationVerify, used, budget) then [LocationVerify] else []) +
      (if Buyable(p, NumberVerify, used, budget) then [NumberVerify] else []) +
      (if Buyable(p, Reachability, used, budget) then [Reachability] else [])
  {
    hide Buyable;
    assert STEP_UPS == [] + [LocationVerify] + [NumberVerify] + [Reachability];
    BuyableAppend(p, [], LocationVerify, used, budget);
    BuyableAppend(p, [] + [LocationVerify], NumberVerify, used, budget);
    BuyableAppend(p, [] + [LocationVerify] + [NumberVerify], Reachability, used, budget);
  }

  lemma BuyableAppend(p: Policy, from: seq<Action>, a: Action, used: set<Action>, budget: real)
    requires p.Valid()
    ensures BuyableOf(p, from + [a], used, budget) ==
      BuyableOf(p, from, used, budget) + if Buyable(p, a, used, budget) then [a] else []
  {
    assert (from + [a])[..|from|] == from;
  }

  // ---- the model ----

  // What asking the model can end in. The first three mean no answer exists;
  // `Rejected` means something answered and was refused.
  datatype Reply =
    | QuotaExhausted
    | NoResponse
    | TransportFailure
    | Rejected
    | Reply(action: string)

  function Id(a: Action): string {
    match a
    case NumberVerify => "number_verify"
    case SimSwap => "sim_swap"
    case DeviceSwap => "device_swap"
    case LocationVerify => "location_verify"
    case Reachability => "reachability"
    case Roaming => "roaming"
    case DeviceIntelligence => "device_intelligence"
    case NumberRecycling => "number_recycling"
    case StepUpOtp => "step_up_otp"
    case RegistryCheck => "registry_check"
    case CallAnnouncement => "call_announcement"
  }

  lemma IdIsInjective(a: Action, b: Action)
    requires Id(a) == Id(b)
    ensures a == b
  {
    var n := |Id(a)|;
    assert n == |Id(b)|;
    assert Id(a)[0] == Id(b)[0] && Id(a)[1] == Id(b)[1] && Id(a)[4] == Id(b)[4];
    assert Id(a)[n - 1] == Id(b)[n - 1] && Id(a)[n - 3] == Id(b)[n - 3];
  }

  lemma NoIdIsStop(a: Action)
    ensures Id(a) != "STOP"
  {
    assert Id(a)[0] != 'S';
  }

  // What `str.strip` removes.
  predicate IsSpace(c: char) {
    || '\t' <= c <= '\r' || '\U{1c}' <= c <= ' ' || c == '\U{85}' || c == '\U{a0}' || c == '\U{1680}'
    || '\U{2000}' <= c <= '\U{200a}' || c == '\U{2028}' || c == '\U{2029}' || c == '\U{202f}' || c == '\U{205f}'
    || c == '\U{3000}'
  }

  function StripLeft(s: string): string {
    if |s| > 0 && IsSpace(s[0]) then StripLeft(s[1..]) else s
  }

  function StripRight(s: string): string {
    if |s| > 0 && IsSpace(s[|s| - 1]) then StripRight(s[..|s| - 1]) else s
  }

  function Strip(s: string): string { StripRight(StripLeft(s)) }

  ghost predicate IsBlank(s: string) { forall i :: 0 <= i < |s| ==> IsSpace(s[i]) }

  // Stripping takes whitespace off both ends and nothing else, and leaves none
  // there.
  lemma StripTakesTheEnds(s: string) returns (before: string, after: string)
    ensures s == before + Strip(s) + after && IsBlank(before) && IsBlank(after)
    ensures Strip(s) != "" ==> !IsSpace(Strip(s)[0]) && !IsSpace(Strip(s)[|Strip(s)| - 1])
  {
    before := StripLeftTakes(s);
    after := StripRightTakes(StripLeft(s));
    assert s == before + (Strip(s) + after) == before + Strip(s) + after;
  }

  lemma {:induction false} StripLeftTakes(s: string) returns (before: string)
    ensures s == before + StripLeft(s) && IsBlank(before)
    ensures StripLeft(s) != "" ==> !IsSpace(StripLeft(s)[0])
  {
    before := "";
    if |s| > 0 && IsSpace(s[0]) {
      var rest := StripLeftTakes(s[1..]);
      before := [s[0]] + rest;
    }
  }

  lemma {:induction false} StripRightTakes(s: string) returns (after: string)
    ensures s == StripRight(s) + after && IsBlank(after)
    ensures StripRight(s) != "" ==> !IsSpace(StripRight(s)[|StripRight(s)| - 1]) && StripRight(s)[0] == s[0]
  {
    after := "";
    if |s| > 0 && IsSpace(s[|s| - 1]) {
      var rest := StripRightTakes(s[..|s| - 1]);
      after := rest + [s[|s| - 1]];
    }
  }

  const SPACES: set<char> :=
    {'\t', '\n', '\U{0b}', '\U{0c}', '\r', '\U{1c}', '\U{1d}', '\U{1e}', '\U{1f}', ' ', '\U{85}', '\U{a0}',
     '\U{1680}', '\U{2000}', '\U{2001}', '\U{2002}', '\U{2003}', '\U{2004}', '\U{2005}', '\U{2006}', '\U{2007}',
     '\U{2008}', '\U{2009}', '\U{200a}', '\U{2028}', '\U{2029}', '\U{202f}', '\U{205f}', '\U{3000}'}

  lemma SpacesListed(c: char)
    ensures IsSpace(c) <==> c in SPACES
  {
  }

  // What the planner may do: stop, or take one action it was offered.
  ghost predicate Permitted(p: Policy, used: set<Action>, budget: real, choice: Choice)
    requires p.Valid()
  {
    choice.source != FromPolicy &&
    (choice.action.Some? ==> choice.action.value in CANDIDATES &&
                             Buyable(p, choice.action.value, used, budget))
  }

  class LLMPlanner {
    const policy: Policy
    const client: bool
    const model: nat -> Reply
    const maxCalls: int
    var calls: nat

    constructor (policy: Policy, client: bool, model: nat -> Reply, configured: int, requested: Option<int>)
      ensures this.policy == policy && this.client == client && this.model == model && calls == 0
      ensures maxCalls <= configured
      ensures requested.Some? ==> maxCalls <= requested.value
      ensures maxCalls == configured || (requested.Some? && maxCalls == requested.value)
    {
      this.policy, this.client, this.model := policy, client, model;
      maxCalls := match requested
        case None => configured
        case Some(m) => if m <= configured then m else configured;
      calls := 0;
    }

    // The choice, for every reply the model could give. Greedy selects only when
    // no answer arrived; an answer is taken only if it names an offered action.
    method Choose(h: Hypothesis, used: set<Action>, budget: real) returns (choice: Choice)
      requires policy.Valid()
      modifies this
      ensures Permitted(policy, used, budget, choice)
      ensures calls == old(calls) || (calls == old(calls) + 1 && calls <= maxCalls)
      ensures choice.source == FromGreedy ==>
        IsBest(policy, h, used, budget, choice.action) &&
        (!client || (calls == old(calls) + 1 && !model(old(calls)).Rejected? && !model(old(calls)).Reply?))
      ensures choice.source == FromModel && choice.action.Some? ==>
        client && calls == old(calls) + 1 && model(old(calls)).Reply? &&
        Strip(model(old(calls)).action) == Id(choice.action.value)
      ensures client && old(calls) < maxCalls && model(old(calls)).Reply? ==>
        forall a :: a in Affordable(policy, used, budget) && Id(a) == Strip(model(old(calls)).action) ==>
          choice == Choice(Some(a), FromModel)
    {
      var affordable := Affordable(policy, used, budget);
      if |affordable| == 0 { return Choice(None, FromModel); }
      if !client {
        choice := GreedyChoose(policy, h, used, budget);
        return;
      }
      if calls >= maxCalls { return Choice(None, FromModel); }
      choice := Ask(h, used, affordable, budget);
    }

    method Ask(h: Hypothesis, used: set<Action>, affordable: seq<Action>, budget: real)
      returns (choice: Choice)
      requires policy.Valid() && client && calls < maxCalls
      requires affordable == Affordable(policy, used, budget)
      modifies this
      ensures calls == old(calls) + 1
      ensures var reply := model(old(calls));
        match reply
        case Rejected => choice == Choice(None, FromModel)
        case Reply(text) =>
          && choice.source == FromModel
          && (choice.action.Some? ==> choice.action.value in affordable && Id(choice.action.value) == Strip(text))
          && (forall a :: a in affordable && Id(a) == Strip(text) ==> choice.action == Some(a))
        case _ =>
          && choice.source == FromGreedy
          && IsBest(policy, h, used, budget, choice.action)
          && (choice.action.Some? ==> choice.action.value in affordable)
    {
      var reply := model(calls);
      calls := calls + 1;
      match reply {
        case Rejected => choice := Choice(None, FromModel);
        case Reply(text) => choice := Validate(text, affordable);
        case _ => choice := GreedyChoose(policy, h, used, budget);
      }
    }

    // Exact equality against the offered list, or stop.
    static method Validate(text: string, affordable: seq<Action>) returns (choice: Choice)
      ensures choice.source == FromModel
      ensures choice.action.Some? ==> choice.action.value in affordable && Id(choice.action.value) == Strip(text)
      ensures forall a :: a in affordable && Id(a) == Strip(text) ==> choice.action == Some(a)
    {
      hide Id, Strip;
      var chosen := Strip(text);
      if chosen == "STOP" {
        forall a ensures Id(a) != "STOP" { NoIdIsStop(a); }
        return Choice(None, FromModel);
      }
      for n := 0 to |affordable|
        invariant forall j :: 0 <= j < n ==> Id(affordable[j]) != chosen
      {
        if Id(affordable[n]) == chosen {
          forall a | Id(a) == chosen ensures a == affordable[n] { IdIsInjective(a, affordable[n]); }
          return Choice(Some(affordable[n]), FromModel);
        }
      }
      choice := Choice(None, FromModel);
    }
  }
}
