// app/agent/investigator.py: the budgeted evidence run. Six ways to buy
// evidence, dates paid on the side, and one gate every exit passes through.
//
// The provider, the model and the order in which concurrent calls finish are
// arbitrary functions: what is proved holds whatever they answer.

module Investigators {
  import opened Domain
  import opened Policies
  import opened Beliefs
  import opened Evidence
  import opened Planners

  datatype Answer = Answer(result: Result, signal: string, source: string)

  datatype DateReply = NoDateOperation | DateAnswer(availability: string) | DateError

  // `gather` and `dates` are indexed by the position in the run at which the
  // call is made, so one provider may answer the same question differently.
  datatype Provider = Provider(
    gather: (nat, Action) -> Answer,
    dates: Option<(nat, Action) -> DateReply>
  )

  datatype LocalFact = LocalFact(action: Action, result: Result, signal: string, source: string)

  datatype Planner = Greedy | Model(llm: LLMPlanner)

  datatype Stopping = BudgetExhausted | DecisiveBelief | NothingAffordable | PlannerStop

  datatype Verdict = Verdict(
    decision: Decision,
    grade: Grade,
    logodds: real,
    chain: seq<Link>,
    evidenceCost: real,
    budgetRemaining: real,
    operations: nat,
    stopping: Stopping,
    gaps: seq<Gap>
  )

  datatype Outcome = Refused | Done(verdict: Verdict)

  // ---- what is held back for a corroborating check ----

  // Smallest price in a list, zero for the empty list.
  function CheapestOf(p: Policy, from: seq<Action>): (c: real)
    requires p.Valid()
    ensures from == [] ==> c == 0.0
    ensures c >= 0.0
    ensures forall a :: a in from ==> c <= p.Cost(a)
    ensures from != [] ==> exists a :: a in from && c == p.Cost(a)
  {
    if |from| == 0 then 0.0
    else if |from| == 1 then p.Cost(from[0])
    else Min(CheapestOf(p, from[..|from| - 1]), p.Cost(from[|from| - 1]))
  }

  function CorroborationReserve(p: Policy, signal: string, links: seq<Link>, used: set<Action>,
                                blocked: set<Action>, budget: real): (reserve: real)
    requires p.Valid()
    ensures reserve >= 0.0
  {
    if Uncorroborated(p, links, signal)
    then CheapestOf(p, BuyableOf(p, p.CorroborationFor(signal), used + blocked, budget))
    else 0.0
  }

  // What is held back: nothing for a signal that stands; otherwise the price of
  // the cheapest check it asks for that can still be bought, if any can.
  lemma ReserveExactly(p: Policy, signal: string, links: seq<Link>, used: set<Action>, blocked: set<Action>,
                       budget: real)
    requires p.Valid()
    ensures var reserve := CorroborationReserve(p, signal, links, used, blocked, budget);
      && (Stands(p, links, signal) ==> reserve == 0.0)
      && (!Stands(p, links, signal) ==>
            signal in p.corroboration &&
            var open := set a | a in p.corroboration[signal] && Buyable(p, a, used + blocked, budget);
            && (open == {} ==> reserve == 0.0)
            && (open != {} ==> exists a :: a in open && reserve == p.Cost(a))
            && (forall a :: a in open ==> reserve <= p.Cost(a)))
  {
    hide ResolvedCorroborators, Buyable, Stands, BuyableOf, CheapestOf, Policy.CorroborationFor, Uncorroborated;
    StandsExactly(p, links, signal);
    var from := BuyableOf(p, p.CorroborationFor(signal), used + blocked, budget);
    if !Stands(p, links, signal) {
      UncorroboratedIsListed(p, links, signal);
      var open := set a | a in p.corroboration[signal] && Buyable(p, a, used + blocked, budget);
      assert forall a :: a in from <==> a in open;
      if from != [] { assert from[0] in from; }
    }
  }

  // Paying for a date from what is left after the reserve never puts the
  // cheapest outstanding check out of reach.
  lemma DateNeverPricesOutTheCheck(p: Policy, signal: string, links: seq<Link>, used: set<Action>,
                                   blocked: set<Action>, budget: real, spent: real)
    requires p.Valid() && Uncorroborated(p, links, signal)
    requires spent <= budget - CorroborationReserve(p, signal, links, used, blocked, budget)
    ensures forall a :: a in p.CorroborationFor(signal) && Buyable(p, a, used + blocked, budget) ==>
      exists c :: c in p.CorroborationFor(signal) && Buyable(p, c, used + blocked, budget - spent) &&
        p.Cost(c) <= p.Cost(a)
  {
    var from := BuyableOf(p, p.CorroborationFor(signal), used + blocked, budget);
    if from != [] {
      var c :| c in from && CheapestOf(p, from) == p.Cost(c);
      assert Buyable(p, c, used + blocked, budget - spent);
    }
  }

  // ---- the parallel batch, chosen before any of its answers is known ----

  function Prices(p: Policy): (m: map<Action, real>)
    requires p.Valid()
    ensures AllActions() <= m.Keys
    ensures forall a :: a in m ==> m[a] == p.Cost(a)
  {
    map a | a in AllActions() :: p.Cost(a)
  }

  function Shifts(p: Policy, provider: Provider, at: nat): (m: map<Action, real>)
    ensures AllActions() <= m.Keys
    ensures forall a :: a in m ==> m[a] == p.SignalDelta(provider.gather(at, a).signal)
  {
    map a | a in AllActions() :: p.SignalDelta(provider.gather(at, a).signal)
  }

  function Members(s: seq<Action>): set<Action> { set a | a in s }

  ghost predicate ChosenInTurn(p: Policy, h: Hypothesis, taken: set<Action>, budget: real, batch: seq<Action>)
    requires p.Valid()
  {
    forall k :: 0 <= k < |batch| ==> NextOf(p, h, taken, budget, batch[..k], Some(batch[k]))
  }

  ghost predicate NextOf(p: Policy, h: Hypothesis, taken: set<Action>, budget: real,
                         batch: seq<Action>, next: Option<Action>)
    requires p.Valid()
  {
    IsBest(p, h, taken + Members(batch), budget - Total(Prices(p), batch), next)
  }

  ghost predicate IsBatch(p: Policy, h: Hypothesis, taken: set<Action>, budget: real, batch: seq<Action>)
    requires p.Valid()
  {
    && |batch| <= p.BatchSize()
    && ChosenInTurn(p, h, taken, budget, batch)
    && (|batch| < p.BatchSize() ==> NextOf(p, h, taken, budget, batch, None))
  }

  lemma {:induction false} BatchesAgree(p: Policy, h: Hypothesis, taken: set<Action>, budget: real,
                                        a: seq<Action>, b: seq<Action>, k: nat)
    requires p.Valid() && IsBatch(p, h, taken, budget, a) && IsBatch(p, h, taken, budget, b)
    requires k <= |a| && k <= |b|
    ensures a[..k] == b[..k]
  {
    hide IsBest, Total, Members, Prices;
    if k > 0 {
      BatchesAgree(p, h, taken, budget, a, b, k - 1);
      var left := budget - Total(Prices(p), a[..k - 1]);
      assert NextOf(p, h, taken, budget, a[..k - 1], Some(a[k - 1]));
      assert NextOf(p, h, taken, budget, b[..k - 1], Some(b[k - 1]));
      BestIsUnique(p, h, taken + Members(a[..k - 1]), left, Some(a[k - 1]), Some(b[k - 1]));
      assert a[..k] == a[..k - 1] + [a[k - 1]] && b[..k] == b[..k - 1] + [b[k - 1]];
    }
  }

  // The batch is a function of the policy, the hypothesis, what is taken and
  // the budget: nothing about the provider or the model can change it.
  lemma BatchIsDetermined(p: Policy, h: Hypothesis, taken: set<Action>, budget: real,
                          a: seq<Action>, b: seq<Action>)
    requires p.Valid() && IsBatch(p, h, taken, budget, a) && IsBatch(p, h, taken, budget, b)
    ensures a == b
  {
    hide IsBest, Total, Members, Prices;
    var k := if |a| <= |b| then |a| else |b|;
    BatchesAgree(p, h, taken, budget, a, b, k);
    var shared := a[..k];
    assert shared == b[..k];
    var left := budget - Total(Prices(p), shared);
    if |a| < |b| {
      assert a == shared && NextOf(p, h, taken, budget, shared, None);
      assert NextOf(p, h, taken, budget, shared, Some(b[k]));
      BestIsUnique(p, h, taken + Members(shared), left, None, Some(b[k]));
    } else if |b| < |a| {
      assert b == shared && NextOf(p, h, taken, budget, shared, None);
      assert NextOf(p, h, taken, budget, shared, Some(a[k]));
      BestIsUnique(p, h, taken + Members(shared), left, None, Some(a[k]));
    }
  }

  // What the checks of a list cost together, by the policy's own prices.
  ghost function PricesOf(p: Policy, s: seq<Action>): seq<real>
    requires forall a :: a in s ==> a in p.actions
  {
    seq(|s|, i requires 0 <= i < |s| => p.actions[s[i]].cost)
  }

  lemma {:induction false} TotalIsPrices(p: Policy, s: seq<Action>)
    requires p.Valid() && forall a :: a in s ==> a in CANDIDATES
    ensures forall a :: a in s ==> a in p.actions
    ensures Total(Prices(p), s) == Sum(PricesOf(p, s))
  {
    if s != [] {
      var n := |s| - 1;
      TotalIsPrices(p, s[..n]);
      assert PricesOf(p, s)[..n] == PricesOf(p, s[..n]);
      assert s[n] in CANDIDATES;
      assert PricesOf(p, s)[n] == p.Cost(s[n]);
    }
  }

  // Every member of the batch is the best buy among what is left, with what the
  // members before it leave; and the batch falls short of its size only when
  // nothing left is worth anything.
  lemma BatchIsBestInTurn(p: Policy, h: Hypothesis, taken: set<Action>, budget: real, batch: seq<Action>)
    requires p.Valid() && IsBatch(p, h, taken, budget, batch)
    ensures forall a :: a in batch ==> a in p.actions
    ensures |batch| <= (if p.parallelBatch < 1 then 1 else p.parallelBatch)
    ensures forall k :: 0 <= k < |batch| ==>
      IsBest(p, h, taken + (set a | a in batch[..k]), budget - Sum(PricesOf(p, batch[..k])), Some(batch[k]))
    ensures |batch| < (if p.parallelBatch < 1 then 1 else p.parallelBatch) ==>
      IsBest(p, h, taken + (set a | a in batch), budget - Sum(PricesOf(p, batch)), None)
  {
    hide IsBest, Sum, Total, PricesOf;
    forall k | 0 <= k < |batch| ensures batch[k] in CANDIDATES {
      assert NextOf(p, h, taken, budget, batch[..k], Some(batch[k]));
      BestIsOffered(p, h, taken + Members(batch[..k]), budget - Total(Prices(p), batch[..k]), batch[k]);
    }
    forall k | 0 <= k < |batch|
      ensures IsBest(p, h, taken + (set a | a in batch[..k]), budget - Sum(PricesOf(p, batch[..k])), Some(batch[k]))
    {
      TotalIsPrices(p, batch[..k]);
      assert NextOf(p, h, taken, budget, batch[..k], Some(batch[k]));
    }
    TotalIsPrices(p, batch);
  }

  lemma BestIsOffered(p: Policy, h: Hypothesis, used: set<Action>, budget: real, a: Action)
    requires IsBest(p, h, used, budget, Some(a))
    ensures a in CANDIDATES && IsOffered(p, used, budget, a)
  {
  }

  // ---- what each turn of the loop calls for ----

  // The first check, link by link and in the policy's own order, that a signal
  // asks for and that can still be bought.
  ghost predicate IsFirstOutstanding(p: Policy, links: seq<Link>, taken: set<Action>, left: real, a: Action)
    requires p.Valid()
  {
    exists n, k :: 0 <= n < |links| && links[n].signal in p.corroboration &&
      0 <= k < |p.corroboration[links[n].signal]| && p.corroboration[links[n].signal][k] == a &&
      Buyable(p, a, taken, left) &&
      (forall j :: 0 <= j < k ==> !Buyable(p, p.corroboration[links[n].signal][j], taken, left)) &&
      (forall m :: 0 <= m < n ==> NothingOutstandingFor(p, links[m].signal, taken, left))
  }

  ghost predicate NothingOutstandingFor(p: Policy, signal: string, taken: set<Action>, left: real)
    requires p.Valid()
  {
    signal in p.corroboration ==> forall a :: a in p.corroboration[signal] ==> !Buyable(p, a, taken, left)
  }

  ghost predicate NothingOutstanding(p: Policy, links: seq<Link>, taken: set<Action>, left: real)
    requires p.Valid()
  {
    forall n :: 0 <= n < |links| ==> NothingOutstandingFor(p, links[n].signal, taken, left)
  }

  // A decisive belief buys the corroboration still outstanding, then the network
  // fact an allow must rest on, and nothing else; an undecided one, what the
  // planner chooses.
  ghost predicate IsTurn(p: Policy, h: Hypothesis, greedy: bool, links: seq<Link>, taken: set<Action>, left: real,
                         logodds: real, next: Option<Action>)
    requires p.Valid()
  {
    var decisive := logodds <= p.allowBelow || logodds >= p.declineAbove;
    var outstanding := logodds >= p.declineAbove && !NothingOutstanding(p, links, taken, left);
    var unsupported := logodds <= p.allowBelow && |SupportingAt(p, h, links)| < p.minNetworkLinksForAllow;
    && (outstanding ==> next.Some? && IsFirstOutstanding(p, links, taken, left, next.value))
    && (decisive && !outstanding && unsupported ==> IsBest(p, h, taken, left, next))
    && (decisive && !outstanding && !unsupported ==> next.None?)
    && (!decisive && greedy ==> IsBest(p, h, taken, left, next))
  }

  // Link i is what its turn called for, given the chain before it and what that
  // chain had cost.
  ghost predicate ChosenAt(p: Policy, h: Hypothesis, greedy: bool, prior: real, budget: real, blocked: set<Action>,
                           links: seq<Link>, local: nat, i: nat)
    requires p.Valid() && local <= i < |links|
  {
    IsTurn(p, h, greedy, links[..i], ActionsOf(links[local..i]) + blocked,
           budget - Sum(Costs(p, links[local..i])), prior + Sum(Deltas(links[..i])), Some(links[i].action))
  }

  lemma ChosenStays(p: Policy, h: Hypothesis, greedy: bool, prior: real, budget: real, blocked: set<Action>,
                    was: seq<Link>, now: seq<Link>, local: nat)
    requires p.Valid() && |was| <= |now| && now[..|was|] == was
    ensures forall i :: local <= i < |was| ==>
      (ChosenAt(p, h, greedy, prior, budget, blocked, was, local, i) <==>
       ChosenAt(p, h, greedy, prior, budget, blocked, now, local, i))
  {
    hide IsTurn, Sum, Costs, Deltas, ActionsOf, HolesOf, Policy.Valid;
    forall i | local <= i < |was| ensures was[..i] == now[..i] && was[local..i] == now[local..i] && was[i] == now[i] {
      assert now[..|was|][..i] == now[..i] && now[..|was|][local..i] == now[local..i];
    }
  }

  // ---- dates ----

  function DatesAsked(links: seq<Link>): nat {
    if |links| == 0 then 0
    else DatesAsked(links[..|links| - 1]) + (if Charged(links[|links| - 1].timing) then 1 else 0)
  }

  function DatesPaid(p: Policy, links: seq<Link>): (paid: real)
    ensures paid >= 0.0
  {
    if |links| == 0 then 0.0
    else DatesPaid(p, links[..|links| - 1]) +
         (if p.DatesEnabled() && Charged(links[|links| - 1].timing) then p.DateCost() else 0.0)
  }

  // The same links, up to dates that arrived since.
  ghost predicate DatesOnlyAdded(was: seq<Link>, now: seq<Link>) {
    |was| == |now| && forall i :: 0 <= i < |was| ==>
      was[i].(timing := now[i].timing) == now[i] && (Charged(was[i].timing) ==> now[i] == was[i])
  }

  lemma {:induction false} DatesPaidGrows(p: Policy, was: seq<Link>, now: seq<Link>)
    requires DatesOnlyAdded(was, now)
    ensures DatesPaid(p, was) <= DatesPaid(p, now)
  {
    if |was| > 0 { DatesPaidGrows(p, was[..|was| - 1], now[..|now| - 1]); }
  }

  // ---- the books of a run ----

  // The books of a run whose first k links have been accounted for. The first
  // `local` of them were free.
  ghost predicate Balanced(p: Policy, prior: real, budget: real, links: seq<Link>, local: nat, k: nat,
                           logodds: real, cost: real, left: real, used: set<Action>, holes: set<string>)
    requires p.Valid()
  {
    && local <= k <= |links|
    && logodds == prior + Sum(Deltas(links[..k]))
    && cost == Sum(Costs(p, links[local..k]))
    && cost + left == budget
    && used == ActionsOf(links[local..k])
    && holes == HolesOf(links[local..k])
  }

  // Numbered 1..n, scored from policy, dated only where a date can exist.
  ghost predicate Shaped(p: Policy, links: seq<Link>, local: nat, k: nat) {
    && local <= k <= |links|
    && (forall i :: 0 <= i < |links| ==>
          links[i].step == i + 1 && links[i].delta == p.SignalDelta(links[i].signal))
    && (forall i :: 0 <= i < local || k <= i < |links| ==> links[i].timing.None?)
    && (forall i :: 0 <= i < |links| && links[i].timing.Some? ==>
          Timed(links[i].action) && p.DatesEnabled())
  }

  lemma ShapedStep(p: Policy, was: seq<Link>, local: nat, k: nat, timing: Option<Timing>)
    requires Shaped(p, was, local, k) && k < |was|
    requires timing.Some? ==> Timed(was[k].action) && p.DatesEnabled()
    ensures Shaped(p, was[k := was[k].(timing := timing)], local, k + 1)
  {
  }

  lemma NotYetDated(p: Policy, links: seq<Link>, local: nat, k: nat)
    requires Shaped(p, links, local, k) && k < |links|
    ensures local <= k && links[k].timing.None?
  {
  }

  lemma NothingBought(p: Policy, prior: real, budget: real, logodds: real, cost: real, left: real,
                      used: set<Action>, holes: set<string>)
    requires p.Valid() && Balanced(p, prior, budget, [], 0, 0, logodds, cost, left, used, holes)
    ensures cost == 0.0 && left == budget && used == {} && holes == {}
  {
  }

  lemma LocalLinkIsFree(p: Policy, prior: real, budget: real, was: seq<Link>, link: Link, logodds: real)
    requires p.Valid() && Shaped(p, was, |was|, |was|)
    requires Balanced(p, prior, budget, was, |was|, |was|, logodds, 0.0, budget, {}, {})
    requires link.step == |was| + 1 && link.delta == p.SignalDelta(link.signal) && link.timing.None?
    ensures var links := was + [link];
      && Shaped(p, links, |links|, |links|)
      && Balanced(p, prior, budget, links, |links|, |links|, logodds + link.delta, 0.0, budget, {}, {})
  {
    var links := was + [link];
    assert was[..|was|] == was && links[..|links|] == links;
    DeltasOfAppend(was, link);
    assert links[|links|..|links|] == [] && Costs(p, []) == [];
    assert forall a :: !Attempted([], a);
  }

  lemma DatedOnlyWherePriced(p: Policy, links: seq<Link>, local: nat, k: nat, i: nat)
    requires Shaped(p, links, local, k) && i < |links|
    ensures Charged(links[i].timing) ==> p.DatesEnabled() && Timed(links[i].action)
  {
  }

  lemma DeferredIsBought(p: Policy, links: seq<Link>, local: nat, i: nat)
    requires Shaped(p, links, local, |links|) && i < |links| && IsDeferred(links[i].timing)
    ensures local <= i && Timed(links[i].action) && p.DatesEnabled() && !Charged(links[i].timing)
  {
  }

  lemma FreeLinksAreUndated(p: Policy, links: seq<Link>, local: nat)
    requires Shaped(p, links, local, |links|)
    ensures forall i :: 0 <= i < local ==> links[i].timing.None?
  {
  }

  lemma RedatedStaysShaped(p: Policy, was: seq<Link>, local: nat, i: nat, timing: Option<Timing>)
    requires Shaped(p, was, local, |was|) && local <= i < |was|
    requires timing.Some? ==> Timed(was[i].action) && p.DatesEnabled()
    ensures Shaped(p, was[i := was[i].(timing := timing)], local, |was|)
  {
  }

  // A link that was just called for is not yet on the books.
  lemma CallKeepsBooks(p: Policy, prior: real, budget: real, was: seq<Link>, link: Link, local: nat, k: nat,
                       logodds: real, cost: real, left: real, used: set<Action>, holes: set<string>)
    requires p.Valid() && Shaped(p, was, local, k)
    requires Balanced(p, prior, budget, was, local, k, logodds, cost, left, used, holes)
    requires link.step == |was| + 1 && link.delta == p.SignalDelta(link.signal) && link.timing.None?
    ensures Shaped(p, was + [link], local, k)
    ensures Balanced(p, prior, budget, was + [link], local, k, logodds, cost, left, used, holes)
  {
    assert (was + [link])[..k] == was[..k] && (was + [link])[local..k] == was[local..k];
  }

  function ActionsOf(links: seq<Link>): (r: set<Action>)
    ensures forall a :: a in r <==> Attempted(links, a)
  {
    set i | 0 <= i < |links| :: links[i].action
  }

  function HolesOf(links: seq<Link>): (r: set<string>)
    ensures forall s :: s in r <==>
      s in UnresolvedSignals() && exists i :: 0 <= i < |links| && links[i].signal == s
  {
    set i | 0 <= i < |links| && links[i].signal in UnresolvedSignals() :: links[i].signal
  }

  // Accounting for link k, whose date (if any) was settled as it was accounted for.
  lemma BalancedStep(p: Policy, prior: real, budget: real, was: seq<Link>, links: seq<Link>, local: nat,
                     k: nat, logodds: real, cost: real, left: real, used: set<Action>, holes: set<string>)
    requires p.Valid() && k < |was| == |links| && was[..k] == links[..k]
    requires Balanced(p, prior, budget, was, local, k, logodds, cost, left, used, holes)
    ensures var spent := LinkCost(p, links[k]);
      Balanced(p, prior, budget, links, local, k + 1, logodds + links[k].delta, cost + spent, left - spent,
               used + {links[k].action},
               if links[k].signal in UnresolvedSignals() then holes + {links[k].signal} else holes)
  {
    hide LinkCost, Sum, Policy.Valid;
    var before, after := links[local..k], links[local..k + 1];
    assert before == was[local..k] by { assert before == links[..k][local..] && was[local..k] == was[..k][local..]; }
    assert after == before + [links[k]];
    assert links[..k + 1] == was[..k] + [links[k]];
    DeltasOfAppend(was[..k], links[k]);
    CostsOfAppend(p, before, links[k]);
    ActionsOfAppend(before, links[k]);
    HolesOfAppend(before, links[k]);
  }

  lemma DeltasOfAppend(links: seq<Link>, link: Link)
    ensures Sum(Deltas(links + [link])) == Sum(Deltas(links)) + link.delta
  {
    assert Deltas(links + [link]) == Deltas(links) + [link.delta];
    SumAppend(Deltas(links), link.delta);
  }

  lemma CostsOfAppend(p: Policy, links: seq<Link>, link: Link)
    requires p.Valid()
    ensures Sum(Costs(p, links + [link])) == Sum(Costs(p, links)) + LinkCost(p, link)
  {
    assert Costs(p, links + [link]) == Costs(p, links) + [LinkCost(p, link)];
    SumAppend(Costs(p, links), LinkCost(p, link));
  }

  lemma ActionsOfAppend(links: seq<Link>, link: Link)
    ensures ActionsOf(links + [link]) == ActionsOf(links) + {link.action}
  {
    var after := links + [link];
    assert after[|links|] == link;
    forall a ensures a in ActionsOf(after) <==> a in ActionsOf(links) || a == link.action {
      if a in ActionsOf(links) {
        var i :| 0 <= i < |links| && links[i].action == a;
        assert after[i].action == a;
      }
    }
  }

  lemma HolesOfAppend(links: seq<Link>, link: Link)
    ensures HolesOf(links + [link]) ==
      HolesOf(links) + (if link.signal in UnresolvedSignals() then {link.signal} else {})
  {
    var after := links + [link];
    assert after[|links|] == link;
    forall s ensures s in HolesOf(after) <==>
      s in HolesOf(links) || (s == link.signal && s in UnresolvedSignals())
    {
      if s in HolesOf(links) {
        var i :| 0 <= i < |links| && links[i].signal == s;
        assert after[i].signal == s;
      }
    }
  }

  // A date that arrives later moves the cost by its price and nothing else.
  lemma BalancedDate(p: Policy, prior: real, budget: real, was: seq<Link>, i: nat, timing: Option<Timing>,
                     local: nat, logodds: real, cost: real, left: real, used: set<Action>, holes: set<string>)
    requires p.Valid() && local <= i < |was| && !Charged(was[i].timing)
    requires Balanced(p, prior, budget, was, local, |was|, logodds, cost, left, used, holes)
    ensures var spent := if Charged(timing) then p.DateCost() else 0.0;
      Balanced(p, prior, budget, was[i := was[i].(timing := timing)], local, |was|, logodds, cost + spent,
               left - spent, used, holes)
  {
    var links := was[i := was[i].(timing := timing)];
    assert links[..|links|] == links && was[..|was|] == was;
    assert Deltas(links) == Deltas(was);
    var a := was[local..];
    assert links[local..] == a[i - local := links[i]];
    assert links[local..|was|] == links[local..] && was[local..|was|] == a;
    CostsOfDate(p, a, i - local, timing);
  }

  // What a stretch of links added to the books since they were last balanced.
  lemma BooksSince(p: Policy, prior: real, budget: real, was: seq<Link>, links: seq<Link>, local: nat,
                   start: nat, logodds: real, logodds': real, cost: real, cost': real, left: real, left': real,
                   used: set<Action>, used': set<Action>, holes: set<string>, holes': set<string>)
    requires p.Valid() && start <= |was| == |links| && was[..start] == links[..start]
    requires Balanced(p, prior, budget, was, local, start, logodds, cost, left, used, holes)
    requires Balanced(p, prior, budget, links, local, |links|, logodds', cost', left', used', holes')
    ensures logodds' == logodds + Sum(Deltas(links[start..]))
    ensures left' == left - Sum(Costs(p, links[start..]))
  {
    hide Sum, LinkCost, ActionsOf, HolesOf, Policy.Valid;
    assert links[..|links|] == links[..start] + links[start..];
    assert links[local..start] == was[local..start] by {
      assert links[local..start] == links[..start][local..] && was[local..start] == was[..start][local..];
    }
    assert links[local..|links|] == links[local..start] + links[start..];
    DeltasOfConcat(links[..start], links[start..]);
    CostsOfConcat(p, links[local..start], links[start..]);
  }

  lemma DeltasOfConcat(a: seq<Link>, b: seq<Link>)
    ensures Sum(Deltas(a + b)) == Sum(Deltas(a)) + Sum(Deltas(b))
  {
    assert Deltas(a + b) == Deltas(a) + Deltas(b);
    SumConcat(Deltas(a), Deltas(b));
  }

  lemma CostsOfConcat(p: Policy, a: seq<Link>, b: seq<Link>)
    requires p.Valid()
    ensures Sum(Costs(p, a + b)) == Sum(Costs(p, a)) + Sum(Costs(p, b))
  {
    assert Costs(p, a + b) == Costs(p, a) + Costs(p, b);
    SumConcat(Costs(p, a), Costs(p, b));
  }

  // Over the links of a batch, scores and prices add up as over its actions.
  lemma {:induction false} DeltasByAction(shift: map<Action, real>, links: seq<Link>, order: seq<Action>)
    requires AllActions() <= shift.Keys && |links| == |order|
    requires forall i :: 0 <= i < |order| ==> order[i] in shift && links[i].delta == shift[order[i]]
    ensures Sum(Deltas(links)) == Total(shift, order)
  {
    if |links| > 0 {
      var n := |links| - 1;
      DeltasByAction(shift, links[..n], order[..n]);
      assert Deltas(links)[..n] == Deltas(links[..n]);
    }
  }

  lemma {:induction false} CostsByAction(p: Policy, links: seq<Link>, order: seq<Action>)
    requires p.Valid() && |links| == |order|
    requires forall i :: 0 <= i < |order| ==>
      links[i].action == order[i] && (Charged(links[i].timing) ==> p.DatesEnabled())
    ensures Sum(Costs(p, links)) == Total(Prices(p), order) + DatesPaid(p, links)
  {
    hide Policy.Cost, Policy.DateCost, Policy.DatesEnabled, Policy.Valid;
    if |links| > 0 {
      var n := |links| - 1;
      CostsByAction(p, links[..n], order[..n]);
      assert Costs(p, links)[..n] == Costs(p, links[..n]);
      EveryActionIsListed(order[n]);
    }
  }

  lemma BatchSums(p: Policy, provider: Provider, start: nat, links: seq<Link>, local: nat, order: seq<Action>)
    requires p.Valid() && |links| == start + |order| && Shaped(p, links, local, |links|)
    requires forall i :: 0 <= i < |order| ==>
      links[start + i].action == order[i] &&
      links[start + i].signal == provider.gather(start, order[i]).signal
    ensures Sum(Deltas(links[start..])) == Total(Shifts(p, provider, start), order)
    ensures Sum(Costs(p, links[start..])) == Total(Prices(p), order) + DatesPaid(p, links[start..])
  {
    hide Total, Sum, DatesPaid, Costs, Deltas;
    var part := links[start..];
    forall i | 0 <= i < |order| ensures order[i] in Shifts(p, provider, start) { EveryActionIsListed(order[i]); }
    assert forall i :: 0 <= i < |order| ==> part[i] == links[start + i];
    DeltasByAction(Shifts(p, provider, start), part, order);
    CostsByAction(p, part, order);
  }

  lemma CostsOfDate(p: Policy, a: seq<Link>, i: nat, timing: Option<Timing>)
    requires p.Valid() && i < |a| && !Charged(a[i].timing)
    ensures var b := a[i := a[i].(timing := timing)];
      && Sum(Costs(p, b)) == Sum(Costs(p, a)) + (if Charged(timing) then p.DateCost() else 0.0)
      && ActionsOf(b) == ActionsOf(a) && HolesOf(b) == HolesOf(a)
  {
    var b := a[i := a[i].(timing := timing)];
    assert Costs(p, b) == Costs(p, a)[i := LinkCost(p, b[i])];
    SumUpdate(Costs(p, a), i, LinkCost(p, b[i]));
    assert forall j :: 0 <= j < |a| ==> a[j].action == b[j].action && a[j].signal == b[j].signal;
    forall x ensures Attempted(a, x) <==> Attempted(b, x) {
      if j :| 0 <= j < |a| && a[j].action == x { assert b[j].action == x; }
      if j :| 0 <= j < |b| && b[j].action == x { assert a[j].action == x; }
    }
    forall s ensures s in HolesOf(a) <==> s in HolesOf(b) {
      if j :| 0 <= j < |a| && a[j].signal == s { assert b[j].signal == s; }
      if j :| 0 <= j < |b| && b[j].signal == s { assert a[j].signal == s; }
    }
  }

  // What the planner is shown: action, signal and shift of each link, in order.
  ghost predicate SeenBy(observations: seq<Observation>, links: seq<Link>, k: nat) {
    && |observations| == k <= |links|
    && forall i :: 0 <= i < k ==>
         observations[i] == Observation(links[i].action, links[i].signal, links[i].delta)
  }

  // Every corroborator of every gathered signal is bought, blocked, priced out
  // or not a priced check at all.
  ghost predicate ExhaustedIn(p: Policy, links: seq<Link>, used: set<Action>, blocked: set<Action>, budget: real)
    requires p.Valid()
  {
    forall i, a :: 0 <= i < |links| && a in p.CorroborationFor(links[i].signal) ==>
      a in used || a in blocked || p.Cost(a) > budget || Policy.Free(a)
  }

  // No check is bought twice.
  ghost predicate NoRepeatIn(links: seq<Link>, local: nat) {
    forall i, j :: local <= i < j < |links| ==> links[i].action != links[j].action
  }

  lemma NoRepeatAfterBatch(was: seq<Link>, links: seq<Link>, local: nat, used: set<Action>,
                           batch: seq<Action>, order: seq<Action>)
    requires NoRepeatIn(was, local) && local <= |was| && |links| == |was| + |order| && links[..|was|] == was
    requires forall i :: local <= i < |was| ==> was[i].action in used
    requires Distinct(batch) && multiset(batch) == multiset(order) && forall a :: a in batch ==> a !in used
    requires forall i :: 0 <= i < |order| ==> links[|was| + i].action == order[i]
    ensures NoRepeatIn(links, local)
  {
    SameMembers(batch, order);
    DistinctPermutation(batch, order);
    forall i, j | local <= i < j < |links| ensures links[i].action != links[j].action {
      if |was| <= j {
        assert links[j].action == order[j - |was|];
        if |was| <= i { assert links[i].action == order[i - |was|]; } else { assert links[i] == was[i]; }
      } else {
        assert links[i] == was[i] && links[j] == was[j];
      }
    }
  }

  lemma NoRepeatIgnoresDates(was: seq<Link>, now: seq<Link>, local: nat)
    requires DatesOnlyAdded(was, now)
    ensures NoRepeatIn(was, local) ==> NoRepeatIn(now, local)
  {
    assert forall i :: 0 <= i < |was| ==> was[i].(timing := now[i].timing) == now[i];
  }

  lemma ActionsIgnoreDates(was: seq<Link>, now: seq<Link>)
    requires DatesOnlyAdded(was, now)
    ensures forall i :: 0 <= i < |was| ==> now[i].action == was[i].action
  {
    assert forall i :: 0 <= i < |was| ==> was[i].(timing := now[i].timing) == now[i];
  }

  lemma StillExhausted(p: Policy, was: seq<Link>, now: seq<Link>, used: set<Action>, blocked: set<Action>,
                       budget: real, budget': real)
    requires p.Valid() && DatesOnlyAdded(was, now) && budget' <= budget
    requires ExhaustedIn(p, was, used, blocked, budget)
    ensures ExhaustedIn(p, now, used, blocked, budget')
  {
    forall i, a | 0 <= i < |now| && a in p.CorroborationFor(now[i].signal)
      ensures a in used || a in blocked || p.Cost(a) > budget' || Policy.Free(a)
    {
      assert was[i].(timing := now[i].timing) == now[i];
    }
  }

  // When corroboration was exhausted, a gap always has a reason: the check came
  // back empty, cannot be bought at all, or costs more than what is left.
  lemma GapsAreExplained(p: Policy, links: seq<Link>, used: set<Action>, blocked: set<Action>, budget: real,
                         i: nat)
    requires p.Valid() && ExhaustedIn(p, links, used, blocked, budget)
    requires used <= ActionsOf(links)
    requires i < |links| && p.CorroborationFor(links[i].signal) != []
    requires forall a :: a in p.CorroborationFor(links[i].signal) ==> !Policy.Free(a)
    ensures GapFor(p, links, links[i].signal, blocked, budget).reason != NeverAttempted
  {
    var required := p.CorroborationFor(links[i].signal);
    forall a | a in required && !Attempted(links, a) ensures a in blocked || p.Cost(a) > budget {
      assert a !in used;
    }
    assert AllOutstandingOutOfReach(p, links, required, blocked, budget);
  }

  // ---- the run ----

  class Investigation {
    const policy: Policy
    const hypothesis: Hypothesis
    const provider: Provider
    const planner: Planner
    const blocked: set<Action>
    const completion: seq<Action> -> seq<Action>
    const prior: real
    const budget: real
    const belief: Belief

    var links: seq<Link>
    var budgetLeft: real
    var evidenceCost: real
    var used: set<Action>
    var observations: seq<Observation>
    var unresolved: set<string>

    ghost var local: nat      // the first `local` links cost nothing
    ghost var batchFrom: nat  // links[batchFrom..batchTo] were bought in one parallel batch
    ghost var batchTo: nat

    ghost function PlannerState(): set<object> {
      match planner case Greedy => {} case Model(llm) => {llm}
    }

    ghost predicate Sound() {
      && policy.Valid()
      && (planner.Model? ==> planner.llm.policy == policy)
      && (forall batch :: multiset(completion(batch)) == multiset(batch))
    }

    // The books after the first k links have been accounted for.
    ghost predicate Books(k: nat)
      reads this, belief
    {
      && policy.Valid()
      && Balanced(policy, prior, budget, links, local, k, belief.logodds, evidenceCost, budgetLeft, used, unresolved)
      && Shaped(policy, links, local, k)
      && local <= batchFrom <= batchTo <= |links|
    }

    // Nothing left to pay: the run never overspends, except by the dates it
    // bought while a parallel batch was already committed.
    ghost predicate Solvent()
      requires policy.Valid() && batchFrom <= batchTo <= |links|
      reads this
    {
      budgetLeft + DatesPaid(policy, links[batchFrom..batchTo]) >= 0.0
    }

    ghost predicate Observed(k: nat)
      reads this
    {
      SeenBy(observations, links, k)
    }

    ghost predicate NoRepeat()
      reads this
    {
      NoRepeatIn(links, local)
    }

    ghost predicate CorroborationExhausted()
      requires policy.Valid()
      reads this
    {
      ExhaustedIn(policy, links, used, blocked, budgetLeft)
    }

    constructor (policy: Policy, hypothesis: Hypothesis, provider: Provider, planner: Planner,
                 blocked: set<Action>, completion: seq<Action> -> seq<Action>, prior: real, highValue: bool)
      requires policy.Valid() && (planner.Model? ==> planner.llm.policy == policy)
      requires forall batch :: multiset(completion(batch)) == multiset(batch)
      ensures this.policy == policy && this.hypothesis == hypothesis && this.provider == provider
      ensures this.planner == planner && this.blocked == blocked && this.completion == completion
      ensures this.prior == prior && budgetLeft == budget
      ensures budget == (if highValue then policy.highValueBudget else policy.defaultBudget) as real
      ensures evidenceCost == 0.0
      ensures fresh(belief) && links == [] && local == batchFrom == batchTo == 0
      ensures Sound() && Books(0) && Observed(0) && NoRepeat() && Solvent()
    {
      this.policy, this.hypothesis, this.provider, this.planner := policy, hypothesis, provider, planner;
      this.blocked, this.completion, this.prior := blocked, completion, prior;
      this.budget, budgetLeft, evidenceCost := policy.BudgetFor(highValue), policy.BudgetFor(highValue), 0.0;
      links, used, observations, unresolved := [], {}, [], {};
      local, batchFrom, batchTo := 0, 0, 0;
      belief := new Belief(prior);
    }

    // ---- one call ----

    // Ask the provider and append its link. Nothing is scored or paid here.
    method Call(action: Action, at: nat)
      modifies this`links
      ensures var answer := provider.gather(at, action);
        links == old(links) + [Link(old(|links|) + 1, action, answer.result, answer.signal, answer.source,
                                    policy.SignalDelta(answer.signal), None)]
    {
      var answer := provider.gather(at, action);
      var link := Link(|links| + 1, action, answer.result, answer.signal, answer.source, 0.0, None);
      link := link.(delta := policy.SignalDelta(link.signal));
      links := links + [link];
    }

    // Whether asking for link k's date would reach the operator at all.
    ghost predicate DateReachesOperator(link: Link) {
      provider.dates.Some? && !provider.dates.value(link.step, link.action).NoDateOperation?
    }

    // Policy sells the operator's dates.
    ghost predicate IsPricedDate() {
      policy.swapDate.Some? && policy.swapDate.value.enabled && policy.swapDate.value.cost > 0.0
    }

    lemma DateIsPriced()
      ensures policy.DatesEnabled() <==> IsPricedDate()
      ensures IsPricedDate() ==> policy.DateCost() == policy.swapDate.value.cost
    {
    }

    lemma PriceOfLink(link: Link, spent: real)
      requires policy.Valid() && (Charged(link.timing) ==> IsPricedDate())
      requires spent == if IsPricedDate() && Charged(link.timing) then policy.swapDate.value.cost else 0.0
      ensures LinkCost(policy, link) == policy.Cost(link.action) + spent
    {
    }

    // Ask for the operator's date of link k, from `available`. Touches nothing
    // but that link's timing.
    method EnrichTiming(k: nat, available: real) returns (spent: real)
      requires k < |links| && !Charged(links[k].timing)
      modifies this`links
      ensures |links| == |old(links)| && links == old(links)[k := old(links)[k].(timing := links[k].timing)]
      ensures spent == if IsPricedDate() && Charged(links[k].timing) then policy.swapDate.value.cost else 0.0
      ensures Charged(links[k].timing) <==>
        links[k].action in {SimSwap, DeviceSwap} && IsPricedDate() && policy.swapDate.value.cost <= available &&
        DateReachesOperator(links[k])
      ensures links[k].timing ==
        if links[k].action !in {SimSwap, DeviceSwap} || !IsPricedDate() then old(links[k].timing)
        else if policy.swapDate.value.cost > available then
          Some(NotAttempted(links[k].signal in policy.corroboration && policy.corroboration[links[k].signal] != []))
        else if !DateReachesOperator(links[k]) then Some(Unsupported)
        else match provider.dates.value(links[k].step, links[k].action)
          case DateAnswer(availability) => Some(Asked(availability))
          case _ => Some(Asked("invalid"))
    {
      var link := links[k];
      if !Timed(link.action) || !policy.DatesEnabled() { return 0.0; }
      var cost := policy.DateCost();
      if cost > available {
        var deferred := policy.CorroborationFor(link.signal) != [];
        links := links[k := link.(timing := Some(NotAttempted(deferred)))];
        return 0.0;
      }
      if provider.dates.None? {
        links := links[k := link.(timing := Some(Unsupported))];
        return 0.0;
      }
      var timing := match provider.dates.value(link.step, link.action)
        case NoDateOperation => Unsupported
        case DateAnswer(availability) => Asked(availability)
        case DateError => Asked("invalid");
      links := links[k := link.(timing := Some(timing))];
      spent := if timing.Unsupported? then 0.0 else cost;
    }

    // The block every buying path runs on its link: score it, pay for it, pay
    // for its date if the reserve allows, and remember what was learned.
    method AccountFor(k: nat, observe: bool)
      requires Books(k) && k < |links|
      requires observe ==> Observed(k)
      modifies this`links, this`budgetLeft, this`evidenceCost, this`used, this`observations,
        this`unresolved, belief
      ensures Books(k + 1)
      ensures observe ==> Observed(k + 1)
      ensures !observe ==> observations == old(observations)
      ensures links == old(links)[k := old(links)[k].(timing := links[k].timing)]
      ensures used == old(used) + {links[k].action}
      ensures budgetLeft == old(budgetLeft) - LinkCost(policy, links[k])
      ensures Charged(links[k].timing) <==>
        links[k].action in {SimSwap, DeviceSwap} && IsPricedDate() && DateReachesOperator(links[k]) &&
        policy.swapDate.value.cost <= old(budgetLeft) - policy.Cost(links[k].action) -
          CorroborationReserve(policy, links[k].signal, old(links), old(used), blocked,
                               old(budgetLeft) - policy.Cost(links[k].action))
      ensures belief.logodds == old(belief.logodds) + links[k].delta
    {
      hide Balanced, Shaped, CorroborationReserve, UnresolvedSignals, DateReachesOperator, IsPricedDate, LinkCost,
        Policy.Valid, Policy.Cost, Policy.DateCost, Policy.DatesEnabled, Timed;
      NotYetDated(policy, links, local, k);
      DateIsPriced();
      ghost var was, wasUsed, wasHoles := links, used, unresolved;
      ghost var logodds, paid, had := belief.logodds, evidenceCost, budgetLeft;
      var link := links[k];
      var cost := policy.Cost(link.action);
      var left := budgetLeft - cost;
      var reserve := CorroborationReserve(policy, link.signal, links, used, blocked, left);
      var spent := EnrichTiming(k, left - reserve);
      ghost var now := links;
      assert now == was[k := was[k].(timing := now[k].timing)];
      ShapedStep(policy, was, local, k, now[k].timing);
      BalancedStep(policy, prior, budget, was, now, local, k, logodds, paid, had, wasUsed, wasHoles);
      PriceOfLink(now[k], spent);
      Enter(link, cost + spent, observe);
    }

    // Write one scored and paid link into the books.
    method Enter(link: Link, paid: real, observe: bool)
      modifies this`budgetLeft, this`evidenceCost, this`used, this`observations, this`unresolved, belief
      ensures belief.logodds == old(belief.logodds) + link.delta
      ensures evidenceCost == old(evidenceCost) + paid && budgetLeft == old(budgetLeft) - paid
      ensures used == old(used) + {link.action}
      ensures unresolved ==
        if link.signal in UnresolvedSignals() then old(unresolved) + {link.signal} else old(unresolved)
      ensures observations ==
        if observe then old(observations) + [Observation(link.action, link.signal, link.delta)] else old(observations)
    {
      belief.Apply(link.signal, link.delta);
      evidenceCost := evidenceCost + paid;
      budgetLeft := budgetLeft - paid;
      unresolved := if link.signal in UnresolvedSignals() then unresolved + {link.signal} else unresolved;
      used := used + {link.action};
      observations := if observe then observations + [Observation(link.action, link.signal, link.delta)]
                      else observations;
    }

    // The link at k is what the provider answered there.
    ghost predicate IsAnswered(k: nat)
      requires k < |links|
      reads this`links
    {
      Tells(links[k], k)
    }

    ghost predicate Tells(link: Link, k: nat) {
      var answer := provider.gather(k, link.action);
      link.result == answer.result && link.signal == answer.signal && link.source == answer.source
    }

    // Call, then account: one sequential purchase.
    method Buy(action: Action, observe: bool)
      requires Books(|links|) && (observe ==> Observed(|links|))
      modifies this`links, this`budgetLeft, this`evidenceCost, this`used, this`observations,
        this`unresolved, belief
      ensures |links| == old(|links|) + 1 && links[..old(|links|)] == old(links)
      ensures links[old(|links|)].action == action && IsAnswered(old(|links|))
      ensures Books(|links|) && (observe ==> Observed(|links|))
      ensures used == old(used) + {action}
      ensures budgetLeft == old(budgetLeft) - LinkCost(policy, links[old(|links|)])
      ensures policy.Cost(action) <= old(budgetLeft) ==> budgetLeft >= 0.0
      ensures old(NoRepeat()) && action !in old(used) ==> NoRepeat()
    {
      hide Balanced, Shaped, CorroborationReserve;
      ghost var was := links;
      BoughtIsUsed();
      Call(action, |links|);
      CallKeepsBooks(policy, prior, budget, was, links[|was|], local, |was|, belief.logodds, evidenceCost,
                     budgetLeft, used, unresolved);
      AccountFor(|links| - 1, observe);
    }

    lemma BoughtIsUsed()
      requires Books(|links|)
      ensures forall i :: local <= i < |links| ==> links[i].action in used
    {
      forall i | local <= i < |links| ensures links[i].action in used {
        assert links[local..|links|][i - local] == links[i];
        assert Attempted(links[local..|links|], links[i].action);
      }
    }

    // ---- the phases, in the order a run takes them ----

    // Free evidence already in hand.
    method ApplyLocal(facts: seq<LocalFact>)
      requires Books(0) && Observed(0) && links == [] && local == batchFrom == batchTo == 0
      modifies this`links, this`observations, this`local, this`batchFrom, this`batchTo, belief
      ensures Books(|links|) && Observed(|links|) && |links| == local == batchFrom == batchTo == |facts|
      ensures used == {} && budgetLeft == budget
      ensures forall i :: 0 <= i < |facts| ==>
        links[i] == Link(i + 1, facts[i].action, facts[i].result, facts[i].signal, facts[i].source,
                         policy.SignalDelta(facts[i].signal), None)
      ensures NoRepeat()
    {
      hide Balanced, Shaped;
      NothingBought(policy, prior, budget, belief.logodds, evidenceCost, budgetLeft, used, unresolved);
      for n := 0 to |facts|
        invariant Books(n) && Observed(n) && |links| == local == batchFrom == batchTo == n
        invariant used == {} && evidenceCost == 0.0 && budgetLeft == budget && unresolved == {}
        invariant forall i :: 0 <= i < n ==>
          links[i] == Link(i + 1, facts[i].action, facts[i].result, facts[i].signal, facts[i].source,
                           policy.SignalDelta(facts[i].signal), None)
      {
        var fact := facts[n];
        var link := Link(|links| + 1, fact.action, fact.result, fact.signal, fact.source,
                         policy.SignalDelta(fact.signal), None);
        ghost var was, logodds := links, belief.logodds;
        links := links + [link];
        belief.Apply(fact.signal, link.delta);
        observations := observations + [Observation(link.action, link.signal, link.delta)];
        local, batchFrom, batchTo := n + 1, n + 1, n + 1;
        LocalLinkIsFree(policy, prior, budget, was, link, logodds);
      }
    }

    // The next outstanding exculpatory check for a belief past the decline line.
    method NextCorroboration() returns (next: Option<Action>)
      requires policy.Valid() && Observed(|links|)
      ensures next.Some? ==>
        && belief.logodds >= policy.declineAbove && Buyable(policy, next.value, used + blocked, budgetLeft)
        && IsFirstOutstanding(policy, links, used + blocked, budgetLeft, next.value)
      ensures next.None? <==>
        belief.logodds < policy.declineAbove || NothingOutstanding(policy, links, used + blocked, budgetLeft)
    {
      if belief.logodds < policy.declineAbove { return None; }
      for n := 0 to |observations|
        invariant forall m :: 0 <= m < n ==>
          NothingOutstandingFor(policy, links[m].signal, used + blocked, budgetLeft)
      {
        var required := policy.CorroborationFor(observations[n].signal);
        for k := 0 to |required|
          invariant forall j :: 0 <= j < k ==> !Buyable(policy, required[j], used + blocked, budgetLeft)
        {
          var action := required[k];
          if action !in used + blocked && policy.Cost(action) <= budgetLeft {
            assert required == policy.corroboration[links[n].signal];
            return Some(action);
          }
        }
        assert NothingOutstandingFor(policy, links[n].signal, used + blocked, budgetLeft);
      }
      next := None;
    }

    method AskPlanner() returns (choice: Choice)
      requires policy.Valid() && Sound()
      modifies PlannerState()
      ensures Permitted(policy, used + blocked, budgetLeft, choice)
      ensures planner.Greedy? ==> IsBest(policy, hypothesis, used + blocked, budgetLeft, choice.action)
    {
      hide IsBest;
      match planner {
        case Greedy => choice := GreedyChoose(policy, hypothesis, used + blocked, budgetLeft);
        case Model(llm) => choice := llm.Choose(hypothesis, used + blocked, budgetLeft);
      }
    }

    lemma NoneOutstanding()
      requires policy.Valid() && NothingOutstanding(policy, links, used + blocked, budgetLeft)
      ensures CorroborationExhausted()
    {
      forall i, a | 0 <= i < |links| && a in policy.CorroborationFor(links[i].signal)
        ensures a in used || a in blocked || policy.Cost(a) > budgetLeft
      {
        assert NothingOutstandingFor(policy, links[i].signal, used + blocked, budgetLeft);
        assert !Buyable(policy, a, used + blocked, budgetLeft);
      }
    }

    lemma OutOfBudget()
      requires policy.Valid() && budgetLeft <= 0.0
      ensures StopsFor(BudgetExhausted) && CorroborationExhausted()
    {
    }

    // A sequential purchase the budget covers.
    method BuyAffordable(action: Action, observe: bool)
      requires Books(|links|) && (observe ==> Observed(|links|)) && Solvent()
      requires Buyable(policy, action, used, budgetLeft)
      modifies this`links, this`budgetLeft, this`evidenceCost, this`used, this`observations,
        this`unresolved, belief
      ensures Books(|links|) && (observe ==> Observed(|links|)) && Solvent() && budgetLeft >= 0.0
      ensures |links| == old(|links|) + 1 && links[..old(|links|)] == old(links)
      ensures links[old(|links|)].action == action && IsAnswered(old(|links|))
      ensures old(NoRepeat()) ==> NoRepeat()
      ensures |AllActions() - used| < |AllActions() - old(used)|
    {
      hide Balanced, Shaped, LinkCost, DatesPaid, AllActions;
      ghost var was, left := links, AllActions() - used;
      EveryActionIsListed(action);
      Buy(action, observe);
      SliceOfPrefix(was, links, batchFrom, batchTo);
      assert action in left;
      assert AllActions() - used == left - {action};
    }

    // The links the loop bought, in a state whose books are balanced.
    lemma TurnIsChosen(now: seq<Link>, link: Link)
      requires Books(|links|) && now == links + [link]
      requires IsTurn(policy, hypothesis, planner.Greedy?, links, used + blocked, budgetLeft, belief.logodds,
                      Some(link.action))
      ensures ChosenAt(policy, hypothesis, planner.Greedy?, prior, budget, blocked, now, local, |links|)
    {
      hide IsTurn, Shaped, Sum, Costs, Deltas, ActionsOf, HolesOf, Policy.Valid;
      assert now[..|links|] == links && links[..|links|] == links;
      assert now[local..|links|] == links[local..|links|];
    }

    // An allow must rest on a network fact: chosen by the deterministic rule,
    // never by asking the planner.
    method ChooseAttestation() returns (next: Option<Action>)
      requires policy.Valid()
      ensures next.Some? ==> Buyable(policy, next.value, used + blocked, budgetLeft)
      ensures IsBest(policy, hypothesis, used + blocked, budgetLeft, next)
    {
      next := NextBest(policy, hypothesis, used + blocked, budgetLeft);
    }

    // One turn of the loop: what to buy next, or why to stop. A decisive belief
    // asks no planner: the corroboration still outstanding comes first, then the
    // network fact an allow must rest on, and nothing else.
    method NextAction() returns (next: Option<Action>, stopping: Stopping)
      requires policy.Valid() && Sound() && Observed(|links|) && budgetLeft > 0.0
      modifies PlannerState()
      ensures IsTurn(policy, hypothesis, planner.Greedy?, links, used + blocked, budgetLeft, belief.logodds, next)
      ensures next.Some? ==> Buyable(policy, next.value, used + blocked, budgetLeft)
      ensures next.None? ==> StopsFor(stopping) && !stopping.BudgetExhausted?
      ensures next.None? && belief.logodds >= policy.declineAbove ==> CorroborationExhausted()
    {
      hide IsBest, SupportingAt, Supporting, IsFirstOutstanding, NothingOutstanding, SeenBy;
      SupportingCount(policy, hypothesis, links);
      stopping := PlannerStop;
      if policy.IsDecisive(belief.logodds) {
        next := NextCorroboration();
        if next.Some? { return; }
        if belief.logodds >= policy.declineAbove { NoneOutstanding(); }
        if !NeedsANetworkFact(policy, belief.logodds, links, hypothesis) { return None, DecisiveBelief; }
        next := ChooseAttestation();
        stopping := NothingAffordable;
      } else {
        var choice := AskPlanner();
        next := choice.action;
      }
    }

    // What each way out of the loop means.
    ghost predicate StopsFor(stopping: Stopping)
      requires policy.Valid()
      reads this, belief
    {
      match stopping
      case BudgetExhausted => budgetLeft <= 0.0
      case DecisiveBelief =>
        policy.IsDecisive(belief.logodds) && !NeedsANetworkFact(policy, belief.logodds, links, hypothesis)
      case NothingAffordable =>
        NeedsANetworkFact(policy, belief.logodds, links, hypothesis) &&
        IsBest(policy, hypothesis, used + blocked, budgetLeft, None)
      case PlannerStop => !policy.IsDecisive(belief.logodds)
    }

    // Every link from there on is the one its turn called for, as the provider
    // answered.
    ghost predicate BoughtByRule(from: nat)
      reads this
    {
      policy.Valid() && local <= from && forall i :: from <= i < |links| ==>
        ChosenAt(policy, hypothesis, planner.Greedy?, prior, budget, blocked, links, local, i) && IsAnswered(i)
    }

    lemma OneMoreByRule(was: seq<Link>, from: nat)
      requires policy.Valid() && local <= from <= |was| && |links| == |was| + 1 && links[..|was|] == was
      requires forall i :: from <= i < |was| ==>
        ChosenAt(policy, hypothesis, planner.Greedy?, prior, budget, blocked, was, local, i) && Tells(was[i], i)
      requires ChosenAt(policy, hypothesis, planner.Greedy?, prior, budget, blocked, links, local, |was|)
      requires IsAnswered(|was|)
      ensures BoughtByRule(from)
    {
      hide ChosenAt, Tells;
      assert forall i :: 0 <= i < |was| ==> links[i] == was[i];
      ChosenStays(policy, hypothesis, planner.Greedy?, prior, budget, blocked, was, links, local);
    }

    lemma RuleSoFar(from: nat)
      requires BoughtByRule(from)
      ensures policy.Valid() && local <= from && forall i :: from <= i < |links| ==>
        ChosenAt(policy, hypothesis, planner.Greedy?, prior, budget, blocked, links, local, i) && Tells(links[i], i)
    {
      hide ChosenAt, Tells;
      forall i | from <= i < |links|
        ensures ChosenAt(policy, hypothesis, planner.Greedy?, prior, budget, blocked, links, local, i)
        ensures Tells(links[i], i)
      {
        assert IsAnswered(i);
      }
    }

    // One turn: buy what it calls for, or stop.
    method TakeTurn(ghost from: nat) returns (stopping: Option<Stopping>)
      requires Sound() && Books(|links|) && Observed(|links|) && Solvent() && budgetLeft > 0.0
      requires from <= |links| && BoughtByRule(from)
      modifies this`links, this`budgetLeft, this`evidenceCost, this`used, this`observations,
        this`unresolved, belief, PlannerState()
      ensures Books(|links|) && Observed(|links|) && Solvent() && BoughtByRule(from)
      ensures old(NoRepeat()) ==> NoRepeat()
      ensures stopping.None? ==> |links| == old(|links|) + 1 && links[..old(|links|)] == old(links)
      ensures stopping.None? ==> |AllActions() - used| < |AllActions() - old(used)|
      ensures stopping.Some? ==> links == old(links) && StopsFor(stopping.value)
      ensures stopping.Some? && belief.logodds >= policy.declineAbove ==> CorroborationExhausted()
    {
      hide Balanced, Shaped, StopsFor, ExhaustedIn, Observed, NoRepeat, Solvent, Sound, LinkCost, IsTurn, ChosenAt,
        NoRepeatIn, SeenBy, DatesPaid, Policy.Valid, IsBest, AllActions, Tells, BoughtByRule;
      ghost var was := links;
      RuleSoFar(from);
      var next, why := NextAction();
      if next.None? { return Some(why); }
      forall link: Link | link.action == next.value
        ensures ChosenAt(policy, hypothesis, planner.Greedy?, prior, budget, blocked, was + [link], local, |was|)
      {
        TurnIsChosen(was + [link], link);
      }
      BuyAffordable(next.value, true);
      var bought := links[|was|];
      assert links == was + [bought] && bought.action == next.value;
      OneMoreByRule(was, from);
      stopping := None;
    }

    // The gather loop: cheapest evidence first, stop when decisive.
    method Gather() returns (stopping: Stopping)
      requires Sound() && Books(|links|) && Observed(|links|) && Solvent()
      modifies this`links, this`budgetLeft, this`evidenceCost, this`used, this`observations,
        this`unresolved, belief, PlannerState()
      ensures Books(|links|) && Observed(|links|) && Solvent()
      ensures old(|links|) <= |links| && links[..old(|links|)] == old(links)
      ensures old(NoRepeat()) ==> NoRepeat()
      ensures StopsFor(stopping)
      ensures belief.logodds >= policy.declineAbove ==> CorroborationExhausted()
      ensures BoughtByRule(old(|links|))
    {
      hide Balanced, Shaped, StopsFor, ExhaustedIn, Observed, NoRepeat, Solvent, Sound, LinkCost, BoughtByRule,
        NoRepeatIn, SeenBy, DatesPaid, Policy.Valid, AllActions;
      NoneByRule();
      while budgetLeft > 0.0
        invariant Books(|links|) && Observed(|links|) && Solvent()
        invariant old(|links|) <= |links| && links[..old(|links|)] == old(links)
        invariant old(NoRepeat()) ==> NoRepeat()
        invariant BoughtByRule(old(|links|))
        decreases |AllActions() - used|
      {
        var stop := TakeTurn(old(|links|));
        if stop.Some? { return stop.value; }
      }
      stopping := BudgetExhausted;
      OutOfBudget();
    }

    lemma NoneByRule()
      requires Books(|links|)
      ensures local <= |links| && BoughtByRule(|links|)
    {
    }

    // The batch is a spend decision made before any of its answers is known.
    method ChooseBatch() returns (batch: seq<Action>)
      requires policy.Valid() && budgetLeft >= 0.0
      ensures IsBatch(policy, hypothesis, used + blocked, budgetLeft, batch)
      ensures Distinct(batch) && forall a :: a in batch ==> a !in used
      ensures Total(Prices(policy), batch) <= budgetLeft
    {
      hide IsBest, Prices, Policy.Valid, Policy.Cost;
      ghost var taken := used + blocked;
      batch := [];
      var remaining := budgetLeft;
      while |batch| < policy.BatchSize()
        invariant |batch| <= policy.BatchSize()
        invariant ChosenInTurn(policy, hypothesis, taken, budgetLeft, batch)
        invariant Distinct(batch) && forall a :: a in batch ==> a !in used
        invariant remaining == budgetLeft - Total(Prices(policy), batch) >= 0.0
        decreases policy.BatchSize() - |batch|
      {
        assert used + blocked + Members(batch) == used + Members(batch) + blocked;
        var next := NextBest(policy, hypothesis, used + Members(batch) + blocked, remaining);
        assert NextOf(policy, hypothesis, taken, budgetLeft, batch, next);
        if next.None? { return; }
        ghost var was := batch;
        batch := batch + [next.value];
        remaining := remaining - policy.Cost(next.value);
        assert batch[..|was|] == was;
        assert forall k :: 0 <= k < |was| ==> batch[..k] == was[..k];
        EveryActionIsListed(next.value);
        assert next.value !in Members(was);
      }
    }

    // Start every call of the batch; each appends its link as it finishes.
    method CallAll(order: seq<Action>)
      requires Books(|links|) && Observed(|links|)
      modifies this`links
      ensures |links| == old(|links|) + |order| && links[..old(|links|)] == old(links)
      ensures forall i :: 0 <= i < |order| ==>
        links[old(|links|) + i].action == order[i] &&
        links[old(|links|) + i].signal == provider.gather(old(|links|), order[i]).signal
      ensures Books(old(|links|)) && Observed(old(|links|))
    {
      hide Balanced, Shaped;
      var start := |links|;
      for n := 0 to |order|
        invariant Books(start) && Observed(start) && |links| == start + n && links[..start] == old(links)
        invariant forall i :: 0 <= i < n ==>
          links[start + i].action == order[i] &&
          links[start + i].signal == provider.gather(start, order[i]).signal
      {
        ghost var was := links;
        Call(order[n], start);
        CallKeepsBooks(policy, prior, budget, was, links[|was|], local, start, belief.logodds, evidenceCost,
                       budgetLeft, used, unresolved);
        assert links[..start] == was[..start];
      }
    }

    // Settle the finished calls in chain order.
    method SettleBatch(start: nat, order: seq<Action>)
      requires Books(start) && Observed(start) && |links| == start + |order|
      requires forall i :: 0 <= i < |order| ==>
        links[start + i].action == order[i] &&
        links[start + i].signal == provider.gather(start, order[i]).signal
      modifies this`links, this`budgetLeft, this`evidenceCost, this`used, this`observations,
        this`unresolved, belief
      ensures Books(|links|) && Observed(|links|)
      ensures |links| == old(|links|) && links[..start] == old(links)[..start]
      ensures forall i :: 0 <= i < |order| ==> links[start + i].action == order[i]
      ensures budgetLeft == old(budgetLeft) - Total(Prices(policy), order) - DatesPaid(policy, links[start..])
      ensures belief.logodds == old(belief.logodds) + Total(Shifts(policy, provider, start), order)
    {
      hide Balanced, Shaped, CorroborationReserve, Prices, Shifts, DatesPaid, LinkCost;
      ghost var was, logodds, paid, had, wasUsed, wasHoles :=
        links, belief.logodds, evidenceCost, budgetLeft, used, unresolved;
      for n := 0 to |order|
        invariant Books(start + n) && Observed(start + n)
        invariant |links| == |was| && links[..start] == was[..start]
        invariant forall i :: 0 <= i < |order| ==>
          links[start + i].action == order[i] && links[start + i].signal == was[start + i].signal
      {
        ghost var before := links;
        AccountFor(start + n, true);
        assert forall i :: 0 <= i < start ==> links[i] == before[i];
        assert links[..start] == before[..start];
      }
      BooksSince(policy, prior, budget, was, links, local, start, logodds, belief.logodds, paid, evidenceCost,
                 had, budgetLeft, wasUsed, used, wasHoles, unresolved);
      BatchSums(policy, provider, start, links, local, order);
    }

    // Fire the whole batch; the calls finish in any order and are settled in
    // the order they finished.
    method FireBatch(batch: seq<Action>)
      requires Sound() && Books(|links|) && Observed(|links|)
      modifies this`links, this`budgetLeft, this`evidenceCost, this`used, this`observations,
        this`unresolved, this`batchFrom, this`batchTo, belief
      ensures Books(|links|) && Observed(|links|)
      ensures |links| == old(|links|) + |batch| && links[..old(|links|)] == old(links)
      ensures |completion(batch)| == |batch|
      ensures forall i :: 0 <= i < |batch| ==> links[old(|links|) + i].action == completion(batch)[i]
      ensures batchFrom == old(|links|) && batchTo == |links|
      ensures budgetLeft == old(budgetLeft) - Total(Prices(policy), batch) -
        DatesPaid(policy, links[batchFrom..batchTo])
      ensures belief.logodds == old(belief.logodds) + Total(Shifts(policy, provider, old(|links|)), batch)
    {
      hide Balanced, Shaped, DatesPaid, Prices, Shifts, Total, SeenBy, Sound;
      var start := |links|;
      var order := completion(batch);
      CompletionPermutes(batch);
      CallAll(order);
      SettleBatch(start, order);
      TotalIgnoresOrder(Prices(policy), batch, order);
      TotalIgnoresOrder(Shifts(policy, provider, start), batch, order);
      batchFrom, batchTo := start, |links|;
      assert links[batchFrom..batchTo] == links[start..];
    }

    // The optional parallel batch.
    method GatherParallel() returns (batch: seq<Action>)
      requires Sound() && Books(|links|) && Observed(|links|) && budgetLeft >= 0.0
      modifies this`links, this`budgetLeft, this`evidenceCost, this`used, this`observations,
        this`unresolved, this`batchFrom, this`batchTo, belief
      ensures Books(|links|) && Observed(|links|) && Solvent()
      ensures old(NoRepeat()) ==> NoRepeat()
      ensures IsBatch(policy, hypothesis, old(used) + blocked, old(budgetLeft), batch)
      ensures |links| == old(|links|) + |batch| && links[..old(|links|)] == old(links)
      ensures belief.logodds ==
        old(belief.logodds) + Total(Shifts(policy, provider, old(|links|)), batch)
    {
      hide Balanced, Shaped, IsBatch, DatesPaid, Prices, Shifts, Total, SeenBy, Sound, NoRepeatIn, Members,
        Policy.Valid, LinkCost;
      batch := ChooseBatch();
      BoughtIsUsed();
      CompletionPermutes(batch);
      ghost var was, hadUsed := links, used;
      FireBatch(batch);
      if NoRepeatIn(was, local) {
        NoRepeatAfterBatch(was, links, local, hadUsed, batch, completion(batch));
      }
    }

    lemma CompletionPermutes(batch: seq<Action>)
      requires Sound()
      ensures multiset(batch) == multiset(completion(batch)) && |completion(batch)| == |batch|
    {
      assert |multiset(batch)| == |batch|;
      assert |multiset(completion(batch))| == |completion(batch)|;
    }

    // Continuity before reused trust: bought when the merchant holds a date and
    // the budget covers it.
    method CheckContinuity(lastVerified: bool)
      requires Books(|links|) && Observed(|links|) && Solvent() && budgetLeft >= 0.0
      modifies this`links, this`budgetLeft, this`evidenceCost, this`used, this`observations,
        this`unresolved, belief
      ensures Books(|links|) && Observed(|links|) && Solvent() && budgetLeft >= 0.0
      ensures old(|links|) <= |links| && links[..old(|links|)] == old(links)
      ensures old(NoRepeat()) && old(used) == {} ==> NoRepeat() && used <= {NumberRecycling}
      ensures !lastVerified ==> used == old(used)
      ensures if lastVerified && policy.Cost(NumberRecycling) <= old(budgetLeft)
              then |links| == old(|links|) + 1 && links[old(|links|)].action == NumberRecycling
              else links == old(links)
      ensures budgetLeft == old(budgetLeft) -
        (if lastVerified && policy.Cost(NumberRecycling) <= old(budgetLeft)
         then policy.Cost(NumberRecycling) else 0.0)
    {
      hide Balanced, Shaped, DatesPaid;
      if lastVerified && policy.Cost(NumberRecycling) <= budgetLeft {
        ghost var was := links;
        Buy(NumberRecycling, true);
        SliceOfPrefix(was, links, batchFrom, batchTo);
        DatedOnlyWherePriced(policy, links, local, |links|, |was|);
      }
    }

    // One check the caller is already authorized for: bought once, or the whole
    // run is refused.
    method BuyRequired(required: Option<Action>) returns (ok: bool)
      requires Books(|links|) && Observed(|links|) && Solvent() && budgetLeft >= 0.0
      modifies this`links, this`budgetLeft, this`evidenceCost, this`used, this`observations,
        this`unresolved, belief
      ensures ok <==> required.None? || policy.Cost(required.value) <= old(budgetLeft)
      ensures Books(|links|) && Observed(|links|) && Solvent() && budgetLeft >= 0.0
      ensures old(|links|) <= |links| && links[..old(|links|)] == old(links)
      ensures required.Some? && ok ==> required.value in used
      ensures old(used) <= used && (!ok ==> links == old(links))
      ensures required.Some? && ok ==> |links| == old(|links|) + 1 && links[old(|links|)].action == required.value
      ensures old(NoRepeat()) && (ok && required.Some? ==> required.value !in old(used)) ==> NoRepeat()
    {
      hide Balanced, Shaped, DatesPaid, LinkCost;
      if required.None? { return true; }
      if policy.Cost(required.value) > budgetLeft { return false; }
      ghost var was := links;
      Buy(required.value, true);
      SliceOfPrefix(was, links, batchFrom, batchTo);
      ok := true;
    }

    // The single cheapest doubt-resolving step of a challenge.
    method StepUp() returns (stepped: bool)
      requires Books(|links|) && Solvent()
      modifies this`links, this`budgetLeft, this`evidenceCost, this`used, this`observations,
        this`unresolved, belief
      ensures Books(|links|) && Solvent()
      ensures old(|links|) <= |links| && links[..old(|links|)] == old(links)
      ensures old(NoRepeat()) ==> NoRepeat()
      ensures stepped <==> |links| == old(|links|) + 1
      ensures !stepped ==> |links| == old(|links|) && budgetLeft == old(budgetLeft)
      ensures !stepped ==> used == old(used) && belief.logodds == old(belief.logodds)
      ensures stepped <==>
        policy.allowBelow < old(belief.logodds) < policy.declineAbove &&
        exists a :: a in {LocationVerify, NumberVerify, Reachability} &&
          Buyable(policy, a, old(used) + blocked, old(budgetLeft))
      ensures stepped ==>
        IsCheapestStepUp(policy, old(used) + blocked, old(budgetLeft), links[old(|links|)].action)
    {
      hide Balanced, Shaped, DatesPaid, LinkCost;
      if policy.Decide(belief.logodds) != Challenge { return false; }
      var next := CheapestStepUp(policy, used + blocked, budgetLeft);
      if next.None? { return false; }
      BuyAffordable(next.value, false);
      stepped := true;
    }

    // Every date that stood aside for a required check gets its answer now, if
    // the budget survived that check.
    method SettleDeferred()
      requires Books(|links|) && Solvent()
      modifies this`links, this`budgetLeft, this`evidenceCost
      ensures Books(|links|) && Solvent()
      ensures |links| == |old(links)| && DatesOnlyAdded(old(links), links)
      ensures budgetLeft <= old(budgetLeft)
      ensures forall i :: 0 <= i < |links| && links[i].timing == Some(NotAttempted(true)) ==>
        policy.DateCost() > budgetLeft
      ensures forall i :: 0 <= i < |links| && old(links)[i].timing != Some(NotAttempted(true)) ==>
        links[i] == old(links)[i]
    {
      hide Balanced, Shaped, DatesPaid, DateReachesOperator;
      var spent := 0.0;
      ghost var was := links;
      for n := 0 to |links|
        invariant |links| == |was| && DatesOnlyAdded(was, links) && spent >= 0.0
        invariant budgetLeft == old(budgetLeft) && evidenceCost == old(evidenceCost)
        invariant Balanced(policy, prior, budget, links, local, |links|, belief.logodds, evidenceCost + spent,
                           budgetLeft - spent, used, unresolved)
        invariant Shaped(policy, links, local, |links|)
        invariant spent == 0.0 || budgetLeft - spent >= 0.0
        invariant forall i :: 0 <= i < n && IsDeferred(links[i].timing) ==> policy.DateCost() > budgetLeft - spent
        invariant forall i :: 0 <= i < |links| && (i >= n || !IsDeferred(was[i].timing)) ==> links[i] == was[i]
      {
        if IsDeferred(links[n].timing) {
          DeferredIsBought(policy, links, local, n);
          ghost var before := links;
          var paid := EnrichTiming(n, budgetLeft - spent);
          RedatedStaysShaped(policy, before, local, n, links[n].timing);
          BalancedDate(policy, prior, budget, before, n, links[n].timing, local, belief.logodds,
                       evidenceCost + spent, budgetLeft - spent, used, unresolved);
          assert evidenceCost + spent + paid == evidenceCost + (spent + paid);
          assert budgetLeft - spent - paid == budgetLeft - (spent + paid);
          spent := spent + paid;
        }
      }
      evidenceCost := evidenceCost + spent;
      budgetLeft := budgetLeft - spent;
      DatesPaidGrows(policy, was[batchFrom..batchTo], links[batchFrom..batchTo]);
    }

    // Decide, gate and grade the finished chain.
    method Conclude(stopping: Stopping) returns (v: Verdict)
      requires Books(|links|)
      ensures v.chain == links && v.logodds == belief.logodds && v.stopping == stopping
      ensures v.decision == FinalDecision(policy, hypothesis, v.logodds, v.chain, unresolved != {})
      ensures v.grade == FinalGrade(policy, hypothesis, v.logodds, v.chain, unresolved != {})
      ensures v.evidenceCost == evidenceCost && v.budgetRemaining == Max(budgetLeft, 0.0)
      ensures v.operations == |v.chain| + DatesAsked(v.chain)
      ensures forall g :: g in v.gaps ==> g == GapFor(policy, v.chain, g.signal, blocked, budgetLeft)
      ensures forall s :: HasGap(v.gaps, s) <==>
        Uncorroborated(policy, v.chain, s) &&
        exists i :: 0 <= i < |v.chain| && Adverse(policy, v.chain[i]) && v.chain[i].signal == s
    {
      hide Balanced, Shaped, Uncorroborated, GapFor, Supporting;
      var decision := policy.Decide(belief.logodds);
      var gaps := CorroborationGaps(policy, links, blocked, budgetLeft);
      var uncorroborated;
      decision, uncorroborated := ApplyCorroborationGate(policy, decision, links, gaps);
      var evidenceUnresolved := unresolved != {} || NeedsANetworkFact(policy, belief.logodds, links, hypothesis);
      if decision == Allow && evidenceUnresolved { decision := Challenge; }
      if decision == Allow && Recycled(links) { decision := Challenge; }
      var grade := policy.GradeOf(belief.logodds, evidenceUnresolved, Deltas(links), hypothesis, uncorroborated != {});
      v := Verdict(decision, grade, belief.logodds, links, evidenceCost, Max(budgetLeft, 0.0),
                   |links| + DatesAsked(links), stopping, gaps);
    }

    // What every finished run satisfies, whatever the planner chose and the
    // provider answered.
    ghost predicate Explains(v: Verdict)
      requires policy.Valid()
      reads this
    {
      && v.chain == links
      // the receipt recomputes
      && Shaped(policy, v.chain, local, |v.chain|)
      && v.logodds == prior + Sum(Deltas(v.chain))
      // the money adds up
      && local <= |v.chain|
      && v.evidenceCost == Sum(Costs(policy, v.chain[local..]))
      && v.evidenceCost + budgetLeft == budget
      && v.budgetRemaining == Max(budgetLeft, 0.0)
      && v.operations == |v.chain| + DatesAsked(v.chain)
      // a date still deferred could not be paid
      && (forall i :: 0 <= i < |v.chain| && v.chain[i].timing == Some(NotAttempted(true)) ==>
            policy.DateCost() > budgetLeft)
      // the decision and the grade are those of the chain
      && var holes := HolesOf(v.chain[local..]) != {};
      && v.decision == FinalDecision(policy, hypothesis, v.logodds, v.chain, holes)
      && v.grade == FinalGrade(policy, hypothesis, v.logodds, v.chain, holes)
      && (forall g :: g in v.gaps ==> g == GapFor(policy, v.chain, g.signal, blocked, budgetLeft))
      && (forall s :: HasGap(v.gaps, s) <==>
            Uncorroborated(policy, v.chain, s) &&
            exists i :: 0 <= i < |v.chain| && Adverse(policy, v.chain[i]) && v.chain[i].signal == s)
    }

    // What happens before either planner mode: free evidence, continuity, and
    // the check the caller was authorized for.
    method Open(facts: seq<LocalFact>, lastVerified: bool, required: Option<Action>) returns (ok: bool)
      requires Books(0) && Observed(0) && links == [] && local == batchFrom == batchTo == 0
      requires budget >= 0.0
      modifies this`links, this`budgetLeft, this`evidenceCost, this`used, this`observations, this`unresolved,
        this`local, this`batchFrom, this`batchTo, belief
      ensures Books(|links|) && Observed(|links|) && Solvent() && budgetLeft >= 0.0
      ensures ok <==>
        required.None? || policy.Cost(required.value) <= budget -
          (if lastVerified && policy.Cost(NumberRecycling) <= budget then policy.Cost(NumberRecycling) else 0.0)
      ensures local == batchFrom == batchTo == |facts| <= |links|
      ensures forall i :: 0 <= i < |facts| ==>
        links[i] == Link(i + 1, facts[i].action, facts[i].result, facts[i].signal, facts[i].source,
                         policy.SignalDelta(facts[i].signal), None)
      ensures NoRepeat() || AsksTwice(lastVerified, required)
      ensures ok && AsksTwice(lastVerified, required) ==> RepeatsAt(|facts|)
      ensures ok && required.Some? ==> required.value in used
    {
      hide Balanced, Shaped, DatesPaid, SeenBy, NoRepeatIn;
      ApplyLocal(facts);
      CheckContinuity(lastVerified);
      ok := BuyRequired(required);
    }

    // Continuity buys the one check the caller also requires.
    predicate AsksTwice(lastVerified: bool, required: Option<Action>)
      requires policy.Valid()
    {
      lastVerified && required == Some(NumberRecycling) && policy.Cost(NumberRecycling) <= budget
    }

    ghost predicate RepeatsAt(i: nat)
      reads this
    {
      i + 1 < |links| && links[i].action == links[i + 1].action
    }

    lemma RepeatsIsARepeat(i: nat)
      requires RepeatsAt(i) && local <= i
      ensures !NoRepeat()
    {
    }

    // What happens after it: the step-up, the dates that waited, the gate.
    method Close(stopping: Stopping) returns (v: Verdict, ghost steppedUp: bool)
      requires Books(|links|) && Solvent()
      modifies this`links, this`budgetLeft, this`evidenceCost, this`used, this`observations, this`unresolved,
        belief
      ensures Books(|links|) && Solvent() && Explains(v)
      ensures old(|links|) <= |links| && forall i :: 0 <= i < local ==> links[i] == old(links)[i]
      ensures forall i :: 0 <= i < old(|links|) ==> links[i].action == old(links)[i].action
      ensures old(NoRepeat()) ==> NoRepeat()
      ensures !steppedUp ==> v.logodds == old(belief.logodds)
      ensures !steppedUp && old(CorroborationExhausted()) ==> CorroborationExhausted()
      ensures v.stopping == stopping
    {
      hide Balanced, Shaped, DatesPaid, DatesOnlyAdded, NoRepeatIn, Explains, ExhaustedIn;
      ghost var was, had, hadUsed := links, budgetLeft, used;
      steppedUp := StepUp();
      ghost var stepped := links;
      assert stepped[..|was|] == was;
      FreeLinksAreUndated(policy, links, local);
      SettleDeferred();
      NoRepeatIgnoresDates(stepped, links, local);
      ActionsIgnoreDates(stepped, links);
      if !steppedUp && ExhaustedIn(policy, was, hadUsed, blocked, had) {
        assert stepped == was;
        StillExhausted(policy, was, links, used, blocked, had, budgetLeft);
      }
      v := Conclude(stopping);
      BooksExplain(v);
    }

    lemma NoBatchNoOverdraft()
      requires Books(|links|) && Solvent() && batchFrom == batchTo
      ensures budgetLeft >= 0.0
    {
      assert links[batchFrom..batchTo] == [];
    }

    lemma BooksExplain(v: Verdict)
      requires Books(|links|)
      requires v.chain == links && v.logodds == belief.logodds
      requires v.decision == FinalDecision(policy, hypothesis, v.logodds, v.chain, unresolved != {})
      requires v.grade == FinalGrade(policy, hypothesis, v.logodds, v.chain, unresolved != {})
      requires v.evidenceCost == evidenceCost && v.budgetRemaining == Max(budgetLeft, 0.0)
      requires v.operations == |v.chain| + DatesAsked(v.chain)
      requires forall g :: g in v.gaps ==> g == GapFor(policy, v.chain, g.signal, blocked, budgetLeft)
      requires forall s :: HasGap(v.gaps, s) <==>
        Uncorroborated(policy, v.chain, s) &&
        exists i :: 0 <= i < |v.chain| && Adverse(policy, v.chain[i]) && v.chain[i].signal == s
      requires forall i :: 0 <= i < |links| && links[i].timing == Some(NotAttempted(true)) ==>
        policy.DateCost() > budgetLeft
      ensures Explains(v)
    {
      assert links[..|links|] == links && links[local..|links|] == links[local..];
    }

    method Investigate(facts: seq<LocalFact>, lastVerified: bool, parallel: bool, required: Option<Action>)
      returns (outcome: Outcome, ghost steppedUp: bool)
      requires Sound() && Books(0) && Observed(0) && links == [] && local == batchFrom == batchTo == 0
      requires evidenceCost == 0.0 && budget >= 0.0
      modifies this`links, this`budgetLeft, this`evidenceCost, this`used, this`observations, this`unresolved,
        this`local, this`batchFrom, this`batchTo, belief, PlannerState()
      ensures outcome.Refused? <==>
        required.Some? && policy.Cost(required.value) > budget -
          (if lastVerified && policy.Cost(NumberRecycling) <= budget then policy.Cost(NumberRecycling) else 0.0)
      ensures local == |facts| <= |links|
      ensures forall i :: 0 <= i < |facts| ==>
        links[i] == Link(i + 1, facts[i].action, facts[i].result, facts[i].signal, facts[i].source,
                         policy.SignalDelta(facts[i].signal), None)
      ensures outcome.Done? ==> Explains(outcome.verdict)
      ensures local <= batchFrom <= batchTo <= |links| && Solvent()
      ensures !parallel ==> budgetLeft >= 0.0
      // no check is bought twice, but for the one both phases were told to buy
      ensures outcome.Done? ==> (NoRepeat() <==> !AsksTwice(lastVerified, required))
      ensures outcome.Done? && !steppedUp && outcome.verdict.logodds >= policy.declineAbove ==>
        CorroborationExhausted()
    {
      hide Balanced, Shaped, DatesPaid, SeenBy, NoRepeatIn, StopsFor, Explains, ExhaustedIn, IsBatch, Sound,
        Total, Shifts, Solvent;
      steppedUp := false;
      var ok := Open(facts, lastVerified, required);
      if !ok { return Refused, false; }
      if parallel && !policy.IsDecisive(belief.logodds) {
        var _ := GatherParallel();
      }
      var stopping := Gather();
      var v;
      v, steppedUp := Close(stopping);
      if !parallel { NoBatchNoOverdraft(); }
      if AsksTwice(lastVerified, required) { RepeatsIsARepeat(|facts|); }
      outcome := Done(v);
    }

    // What a finished run's verdict means, read off its chain. An allow rests on
    // evidence from the network and on no hole in it. A decline is past the line
    // and, where anything adverse was found, rests on an adverse finding that
    // stands by itself or was answered for by the checks policy names.
    lemma VerdictMeaning(v: Verdict)
      requires policy.Valid() && Explains(v)
      ensures v.decision == Allow <==>
        v.logodds <= policy.allowBelow &&
        (forall i :: local <= i < |v.chain| ==>
           v.chain[i].signal !in {"CONSENT_REQUIRED", "PROVIDER_UNAVAILABLE", "EVIDENCE_UNAVAILABLE"}) &&
        |SupportingAt(policy, hypothesis, v.chain)| >= policy.minNetworkLinksForAllow &&
        (forall i :: 0 <= i < |v.chain| ==> v.chain[i].signal != "NUMBER_RECYCLED")
      ensures v.decision == Decline <==>
        v.logodds > policy.allowBelow && v.logodds >= policy.declineAbove &&
        ((forall i :: 0 <= i < |v.chain| ==> v.chain[i].delta < policy.adverseDelta) ||
         exists i :: 0 <= i < |v.chain| && v.chain[i].delta >= policy.adverseDelta &&
           Stands(policy, v.chain, v.chain[i].signal))
    {
      hide FinalDecision, FinalGrade, Shaped, SupportingAt, Costs, Sum, GapFor, Uncorroborated, Stands;
      var bought := v.chain[local..];
      HolesAreUnresolved(v.chain, local);
      AllowExactly(policy, hypothesis, v.logodds, v.chain, HolesOf(bought) != {});
      DeclineExactly(policy, hypothesis, v.logodds, v.chain, HolesOf(bought) != {});
    }

    // A run whose every adverse link needs other checks, too few of which were
    // resolved, does not decline; and past the line, with something adverse, only
    // such a run does not.
    lemma UnresolvedChecksHoldTheDecline(v: Verdict)
      requires policy.Valid() && Explains(v)
      requires exists i :: 0 <= i < |v.chain| && v.chain[i].delta >= policy.adverseDelta
      ensures var unresolved := forall i :: 0 <= i < |v.chain| && v.chain[i].delta >= policy.adverseDelta ==>
          v.chain[i].signal in policy.corroboration && policy.corroboration[v.chain[i].signal] != [] &&
          |set k: nat | k < |policy.corroboration[v.chain[i].signal]| &&
             (exists j :: 0 <= j < |v.chain| && v.chain[j].result != Info &&
                v.chain[j].action == policy.corroboration[v.chain[i].signal][k])| <
            (if policy.minResolved < 1 then 1 else policy.minResolved);
        && (unresolved ==> v.decision != Decline)
        && (v.logodds > policy.allowBelow && v.logodds >= policy.declineAbove && v.decision != Decline ==> unresolved)
    {
      hide Explains, FinalDecision, Shaped, Costs, Sum;
      VerdictMeaning(v);
      forall i | 0 <= i < |v.chain| && v.chain[i].signal in policy.corroboration
        ensures var required := policy.corroboration[v.chain[i].signal];
          ResolvedAt(v.chain, required) ==
            set k: nat | k < |required| &&
              (exists j :: 0 <= j < |v.chain| && v.chain[j].result != Info && v.chain[j].action == required[k])
      {
      }
    }

    // The grade, likewise.
    lemma GradeMeaning(v: Verdict)
      requires policy.Valid() && Explains(v)
      ensures var hole := v.chain == [] ||
          (exists i :: local <= i < |v.chain| &&
             v.chain[i].signal in {"CONSENT_REQUIRED", "PROVIDER_UNAVAILABLE", "EVIDENCE_UNAVAILABLE"}) ||
          (v.logodds <= policy.allowBelow &&
             |SupportingAt(policy, hypothesis, v.chain)| < policy.minNetworkLinksForAllow);
        var adverse := exists i :: 0 <= i < |v.chain| && v.chain[i].delta >= policy.adverseDelta;
        var stands := adverse ==>
          exists i :: 0 <= i < |v.chain| && v.chain[i].delta >= policy.adverseDelta &&
            Stands(policy, v.chain, v.chain[i].signal);
        var enough := |v.chain| >=
          (if hypothesis in policy.minLinks then policy.minLinks[hypothesis] else policy.defaultMinLinks);
        var cleared := v.logodds <= policy.allowBelow && v.logodds < policy.declineAbove;
        && (v.grade == Unresolved <==> hole)
        && (v.grade == Refuted <==>
              !hole && v.logodds >= policy.declineAbove && (stands || v.logodds <= policy.allowBelow))
        && (v.grade == Degraded <==>
              !hole && v.logodds > policy.allowBelow && (v.logodds < policy.declineAbove || !stands))
        && (v.grade == AttestedFull <==> !hole && cleared && !adverse && enough)
        && (v.grade == AttestedPartial <==> !hole && cleared && (adverse || !enough))
    {
      hide FinalDecision, FinalGrade, Shaped, SupportingAt, Costs, Sum, GapFor, Uncorroborated, Stands;
      HolesAreUnresolved(v.chain, local);
      GradeExactly(policy, hypothesis, v.logodds, v.chain, HolesOf(v.chain[local..]) != {});
    }

    // And the gaps: exactly the adverse signals that do not stand, each with the
    // checks policy names for it.
    lemma GapsMeaning(v: Verdict)
      requires policy.Valid() && Explains(v)
      ensures forall s :: HasGap(v.gaps, s) <==>
        !Stands(policy, v.chain, s) &&
        exists i :: 0 <= i < |v.chain| && v.chain[i].delta >= policy.adverseDelta && v.chain[i].signal == s
      ensures forall g :: g in v.gaps ==>
        g.signal in policy.corroboration && g.required == policy.corroboration[g.signal] &&
        (forall a :: a in g.resolved <==> a in g.required && IsResolved(v.chain, a))
    {
      hide Explains, Stands, ResolvedCorroborators, Uncorroborated, Answered, IsResolved;
      GapsOf(v);
      forall s ensures Stands(policy, v.chain, s) <==> !Uncorroborated(policy, v.chain, s) {
        StandsExactly(policy, v.chain, s);
      }
      forall g | g in v.gaps
        ensures g.signal in policy.corroboration && g.required == policy.corroboration[g.signal]
        ensures forall a :: a in g.resolved <==> a in g.required && IsResolved(v.chain, a)
      {
        assert HasGap(v.gaps, g.signal);
        UncorroboratedIsListed(policy, v.chain, g.signal);
        forall a ensures Answered(v.chain, a) <==> IsResolved(v.chain, a) { AnsweredIsResolved(v.chain, a); }
      }
    }

    lemma GapsOf(v: Verdict)
      requires policy.Valid() && Explains(v)
      ensures forall g :: g in v.gaps ==> g == GapFor(policy, v.chain, g.signal, blocked, budgetLeft)
      ensures forall s :: HasGap(v.gaps, s) <==>
        Uncorroborated(policy, v.chain, s) &&
        exists i :: 0 <= i < |v.chain| && v.chain[i].delta >= policy.adverseDelta && v.chain[i].signal == s
    {
      hide GapFor, Uncorroborated, FinalDecision, FinalGrade, Shaped, HasGap, Costs, Sum;
      forall s ensures HasGap(v.gaps, s) <==>
          Uncorroborated(policy, v.chain, s) &&
          exists i :: 0 <= i < |v.chain| && v.chain[i].delta >= policy.adverseDelta && v.chain[i].signal == s
      {
        assert HasGap(v.gaps, s) <==>
          Uncorroborated(policy, v.chain, s) &&
          exists i :: 0 <= i < |v.chain| && Adverse(policy, v.chain[i]) && v.chain[i].signal == s;
      }
    }

    // What the run cost, link by link, and how often the operator was asked.
    lemma MoneyMeaning(v: Verdict)
      requires policy.Valid() && Explains(v)
      ensures local <= |v.chain| && v.evidenceCost == Sum(Bills(policy, v.chain[local..]))
      ensures v.budgetRemaining == if budgetLeft < 0.0 then 0.0 else budgetLeft
      ensures v.evidenceCost + budgetLeft == budget
      ensures v.operations == |v.chain| + |set i | 0 <= i < |v.chain| && IsAsked(v.chain[i])|
    {
      hide Shaped, FinalDecision, FinalGrade, Sum, GapFor, Uncorroborated;
      BillsAreCosts(policy, v.chain[local..]);
      AskedCount(v.chain);
    }

    lemma ReadOff(v: Verdict)
      requires policy.Valid() && Explains(v)
      ensures v.chain == links && v.logodds == prior + Sum(Deltas(v.chain))
      ensures forall i :: 0 <= i < |v.chain| ==> v.chain[i].delta == policy.SignalDelta(v.chain[i].signal)
    {
    }
  }

  // The operator was asked for the link's date and may charge for it.
  ghost predicate IsAsked(link: Link) { link.timing.Some? && link.timing.value.Asked? }

  // One bill a link: the price of its check, if it has one, and of its date, if
  // the operator was asked for it.
  ghost function Bills(p: Policy, links: seq<Link>): seq<real> {
    seq(|links|, i requires 0 <= i < |links| =>
      (if links[i].action !in {RegistryCheck, CallAnnouncement} && links[i].action in p.actions
       then p.actions[links[i].action].cost else 0.0) +
      (if IsAsked(links[i]) && p.swapDate.Some? && p.swapDate.value.enabled then p.swapDate.value.cost else 0.0))
  }

  lemma BillsAreCosts(p: Policy, links: seq<Link>)
    requires p.Valid()
    ensures Bills(p, links) == Costs(p, links)
  {
  }

  lemma {:induction false} AskedCount(links: seq<Link>)
    ensures DatesAsked(links) == |set i | 0 <= i < |links| && IsAsked(links[i])|
  {
    var all := set i | 0 <= i < |links| && IsAsked(links[i]);
    if links != [] {
      var n := |links| - 1;
      AskedCount(links[..n]);
      var before := set i | 0 <= i < |links[..n]| && IsAsked(links[..n][i]);
      assert all == before + if IsAsked(links[n]) then {n} else {};
    }
  }

  lemma HolesAreUnresolved(links: seq<Link>, from: nat)
    requires from <= |links|
    ensures HolesOf(links[from..]) != {} <==>
      exists i :: from <= i < |links| && links[i].signal in UnresolvedSignals()
  {
    var part := links[from..];
    if i :| from <= i < |links| && links[i].signal in UnresolvedSignals() {
      assert part[i - from] == links[i];
      assert links[i].signal in HolesOf(part);
    }
    if HolesOf(part) != {} {
      var s :| s in HolesOf(part);
      var j :| 0 <= j < |part| && part[j].signal == s;
      assert links[from + j] == part[j];
    }
  }

  // ---- a decline that nothing adverse stands behind ----

  // The shipped prices, thresholds and gates, and signals all kept below the
  // line past which one counts as adverse.
  function MildPolicy(): Policy {
    Policy(-1.7346, 1.3863,
           map["ROAMING_NETWORK" := 0.2, "REACHABLE_UNAVAILABLE" := 0.35, "REGISTRY_CLAIM_MISMATCH" := 0.35],
           map["SIM_SWAPPED" := [DeviceSwap, LocationVerify]], 1, 3, 8, 12,
           map[NumberVerify := Price(1.0, 1.2), SimSwap := Price(2.0, 2.0), DeviceSwap := Price(2.0, 1.5),
               LocationVerify := Price(3.0, 1.5), Reachability := Price(2.0, 1.3), Roaming := Price(2.0, 1.6),
               DeviceIntelligence := Price(2.0, 1.4), NumberRecycling := Price(1.0, 1.1), StepUpOtp := Price(6.0, 2.5)],
           Some(Enrichment(true, 1.0)), map[], 1.0, 1.0, 1.0, 0.4, 1, map[], 2)
  }

  lemma MildPolicyIsMild()
    ensures var p := MildPolicy();
            && p.Valid() && p.allowBelow == -1.7346 && p.declineAbove == 1.3863 && p.BudgetFor(false) == 8.0
            && p.adverseDelta == 0.4 && p.SignalDelta("REGISTRY_CLAIM_MISMATCH") == 0.35
            && p.SignalDelta("ROAMING_NETWORK") == 0.2 && p.SignalDelta("REACHABLE_UNAVAILABLE") == 0.35
            && p.Cost(Roaming) == p.Cost(Reachability) == 2.0
    ensures forall s :: 0.0 <= MildPolicy().SignalDelta(s) < 0.4
  {
  }

  // Two different checks, neither finding adverse.
  function MildChain(): seq<Link> {
    [Link(1, Roaming, Flag, "ROAMING_NETWORK", "nac", 0.2, None),
     Link(2, Reachability, Flag, "REACHABLE_UNAVAILABLE", "nac", 0.35, None)]
  }

  lemma MildChainIsOne()
    ensures MildPolicy().Valid() && |MildChain()| == 2
    ensures Shaped(MildPolicy(), MildChain(), 0, 2) && NoRepeatIn(MildChain(), 0)
    ensures Sum(Costs(MildPolicy(), MildChain())) == 4.0
    ensures Sum(Deltas(MildChain())) == 0.55 && Sum(Deltas(MildChain()[..1])) == 0.2
    ensures forall i :: 0 <= i < |MildChain()| ==> !Adverse(MildPolicy(), MildChain()[i])
  {
    hide MildPolicy, Sum, Policy.Valid, Policy.SignalDelta, Policy.Cost, Policy.BudgetFor;
    MildPolicyIsMild();
    SumOfTwo(Deltas(MildChain()));
    SumOfTwo(Costs(MildPolicy(), MildChain()));
    assert Deltas(MildChain()[..1]) == Deltas(MildChain())[..1];
  }

  // Without an adverse link the gate never applies: belief alone may decline.
  // The chain is within the budget, scored from policy, repeats no check, and is
  // not decisive before its last link.
  lemma DeclineWithoutAdverseLink()
    ensures var p, links := MildPolicy(), MildChain();
            && p.Valid() && Shaped(p, links, 0, |links|) && NoRepeatIn(links, 0)
            && Sum(Costs(p, links)) <= p.BudgetFor(false)
            && !p.IsDecisive(0.9) && !p.IsDecisive(0.9 + Sum(Deltas(links[..1])))
            && (forall i :: 0 <= i < |links| ==> !Adverse(p, links[i]))
            && FinalDecision(p, Impersonation, 0.9 + Sum(Deltas(links)), links, HolesOf(links) != {}) == Decline
  {
    hide MildPolicy, MildChain, Sum, FinalDecision, Policy.Valid, HolesOf, Shaped, NoRepeatIn, Costs, Deltas;
    hide Policy.BudgetFor, ResolvedCorroborators;
    MildPolicyIsMild();
    MildChainIsOne();
    var links := MildChain();
    DeclineExactly(MildPolicy(), Impersonation, 0.9 + Sum(Deltas(links)), links, HolesOf(links) != {});
  }

  lemma SumOfTwo(xs: seq<real>)
    requires |xs| == 2
    ensures Sum(xs) == xs[0] + xs[1] && Sum(xs[..1]) == xs[0]
  {
    assert Sum(xs[..1][..0]) == 0.0 && xs[..1][0] == xs[0];
    assert Sum(xs) == Sum(xs[..1]) + xs[1];
  }

  // And a run that does: one local finding, short of adverse, on an undecided
  // prior, whatever the operator then answers.
  method DeclineOnBeliefAlone(provider: Provider) returns (v: Verdict)
    ensures v.decision == Decline && v.chain != [] && v.chain[0].action == RegistryCheck
    ensures forall i :: 0 <= i < |v.chain| ==> !Adverse(MildPolicy(), v.chain[i])
    ensures !MildPolicy().IsDecisive(1.1) && v.logodds == 1.1 + Sum(Deltas(v.chain))
  {
    hide MildPolicy, Policy.Valid, Policy.SignalDelta, Policy.BudgetFor, Sum, Balanced, Shaped, DatesPaid, SeenBy;
    hide NoRepeatIn, ExhaustedIn, Uncorroborated, ResolvedCorroborators, SupportingAt, Stands, Investigation.Explains;
    MildPolicyIsMild();
    var run := new Investigation(MildPolicy(), Impersonation, provider, Greedy, {}, batch => batch, 1.1, false);
    var fact := LocalFact(RegistryCheck, Flag, "REGISTRY_CLAIM_MISMATCH", "local");
    var outcome, _ := run.Investigate([fact], false, false, None);
    v := outcome.verdict;
    run.ReadOff(v);
    NeverLess(Deltas(v.chain));
    run.VerdictMeaning(v);
  }

  lemma {:induction false} NeverLess(xs: seq<real>)
    requires xs != [] && forall i :: 0 <= i < |xs| ==> xs[i] >= 0.0
    ensures Sum(xs) >= xs[0]
  {
    if |xs| > 1 { NeverLess(xs[..|xs| - 1]); } else { assert Sum(xs[..0]) == 0.0; }
  }

  // ---- an Info corroborates nothing ----

  // The SIM moved, as the shipped policy prices it; of the two checks it asks
  // for, one could not be made and the other came back with `result`.
  function SwapPolicy(): Policy { MildPolicy().(signals := map["SIM_SWAPPED" := 2.2]) }

  function SwapChain(result: Result): seq<Link> {
    [Link(1, NumberVerify, Info, "CONSENT_REQUIRED", "nac", 0.0, None),
     Link(2, SimSwap, Flag, "SIM_SWAPPED", "nac", 2.2, None),
     Link(3, DeviceSwap, Info, "PROVIDER_UNAVAILABLE", "nac", 0.0, None),
     Link(4, LocationVerify, result, "LOCATION_UNKNOWN", "nac", 0.0, None)]
  }

  lemma SwapDeltas()
    ensures var p := SwapPolicy();
      && p.SignalDelta("SIM_SWAPPED") == 2.2 && p.SignalDelta("CONSENT_REQUIRED") == 0.0
      && p.SignalDelta("PROVIDER_UNAVAILABLE") == 0.0 && p.SignalDelta("LOCATION_UNKNOWN") == 0.0
  {
  }

  lemma SwapChainIsOne(result: Result)
    ensures Shaped(SwapPolicy(), SwapChain(result), 0, 4) && NoRepeatIn(SwapChain(result), 0)
  {
    hide SwapPolicy, Policy.SignalDelta;
    SwapDeltas();
  }

  lemma SwapStands(result: Result)
    ensures Stands(SwapPolicy(), SwapChain(result), "SIM_SWAPPED") <==> result != Info
  {
    var links := SwapChain(result);
    assert IsResolved(links, LocationVerify) <==> links[3].result != Info;
    assert ResolvedAt(links, [DeviceSwap, LocationVerify]) == if result == Info then {} else {1};
  }

  lemma OnlyAnAnswerCorroborates(result: Result)
    ensures var p, links := SwapPolicy(), SwapChain(result);
            && Shaped(p, links, 0, |links|) && NoRepeatIn(links, 0)
            && FinalDecision(p, AccountTakeover, 2.46, links, true) == if result == Info then Challenge else Decline
  {
    hide Stands, ResolvedAt, SupportingAt, FinalDecision, Shaped, NoRepeatIn;
    var p, links := SwapPolicy(), SwapChain(result);
    SwapChainIsOne(result);
    SwapStands(result);
    assert links[1].delta >= p.adverseDelta && links[1].signal == "SIM_SWAPPED";
    DeclineExactly(p, AccountTakeover, 2.46, links, true);
    AllowExactly(p, AccountTakeover, 2.46, links, true);
  }
}
