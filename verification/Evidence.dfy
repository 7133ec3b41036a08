// The evidence chain (app/chain/models.py) and the read-only gates the
// investigator applies to a finished chain.

module Evidence {
  import opened Domain
  import opened Policies

  // The operator's date on a swap link. `NotAttempted` and `Unsupported` mean
  // no request left the process; everything else was asked for and is paid.
  datatype Timing =
    | NotAttempted(deferred: bool)
    | Unsupported
    | Asked(availability: string)

  datatype Link = Link(
    step: nat,
    action: Action,
    result: Result,
    signal: string,
    source: string,
    delta: real,
    timing: Option<Timing>
  )

  datatype Observation = Observation(action: Action, signal: string, delta: real)

  predicate Charged(t: Option<Timing>) { t.Some? && t.value.Asked? }

  predicate IsDeferred(t: Option<Timing>) {
    t.Some? && t.value.NotAttempted? && t.value.deferred
  }

  predicate Timed(a: Action) { a == SimSwap || a == DeviceSwap }

  function Deltas(links: seq<Link>): (ds: seq<real>)
    ensures |ds| == |links|
    ensures forall i :: 0 <= i < |links| ==> ds[i] == links[i].delta
  {
    seq(|links|, i requires 0 <= i < |links| => links[i].delta)
  }

  // What one bought link cost: its check, and its date if the date was asked for.
  function LinkCost(p: Policy, link: Link): real
    requires p.Valid()
  {
    p.Cost(link.action) + (if Charged(link.timing) then p.DateCost() else 0.0)
  }

  function Costs(p: Policy, links: seq<Link>): (cs: seq<real>)
    requires p.Valid()
    ensures |cs| == |links|
    ensures forall i :: 0 <= i < |links| ==> cs[i] == LinkCost(p, links[i])
  {
    seq(|links|, i requires 0 <= i < |links| => LinkCost(p, links[i]))
  }

  // ---- corroboration ----

  predicate Answers(link: Link, a: Action) {
    link.action == a && (link.result == Pass || link.result == Flag)
  }

  predicate Answered(links: seq<Link>, a: Action) {
    exists i :: 0 <= i < |links| && Answers(links[i], a)
  }

  predicate Attempted(links: seq<Link>, a: Action) {
    exists i :: 0 <= i < |links| && links[i].action == a
  }

  // Which of the required checks actually answered, in the policy's order.
  function ResolvedCorroborators(links: seq<Link>, required: seq<Action>): (r: seq<Action>)
    ensures forall a :: a in r <==> a in required && Answered(links, a)
  {
    if |required| == 0 then []
    else
      var rest := ResolvedCorroborators(links, required[..|required| - 1]);
      var a := required[|required| - 1];
      if Answered(links, a) then rest + [a] else rest
  }

  predicate Uncorroborated(p: Policy, links: seq<Link>, signal: string) {
    var required := p.CorroborationFor(signal);
    |required| > 0 && |ResolvedCorroborators(links, required)| < p.MinResolved()
  }

  predicate Adverse(p: Policy, link: Link) { link.delta >= p.adverseDelta }

  datatype GapReason = Budget | NotResolved | Unavailable | NeverAttempted

  datatype Gap = Gap(signal: string, required: seq<Action>, resolved: seq<Action>, reason: GapReason)

  predicate AllOutstandingBlocked(links: seq<Link>, required: seq<Action>, blocked: set<Action>) {
    forall a :: a in required && !Attempted(links, a) ==> a in blocked
  }

  predicate AllOutstandingOutOfReach(p: Policy, links: seq<Link>, required: seq<Action>,
                                     blocked: set<Action>, budget: real)
    requires p.Valid()
  {
    forall a :: a in required && !Attempted(links, a) ==> a in blocked || p.Cost(a) > budget
  }

  function ReasonFor(p: Policy, links: seq<Link>, required: seq<Action>, blocked: set<Action>,
                     budget: real): GapReason
    requires p.Valid()
  {
    if exists a :: a in required && Attempted(links, a) then NotResolved
    else if |required| > 0 && AllOutstandingBlocked(links, required, blocked) then Unavailable
    else if |required| > 0 && AllOutstandingOutOfReach(p, links, required, blocked, budget) then Budget
    else NeverAttempted
  }

  function GapFor(p: Policy, links: seq<Link>, signal: string, blocked: set<Action>, budget: real): Gap
    requires p.Valid()
  {
    var required := p.CorroborationFor(signal);
    Gap(signal, required, ResolvedCorroborators(links, required),
        ReasonFor(p, links, required, blocked, budget))
  }

  ghost predicate HasGap(gaps: seq<Gap>, signal: string) {
    exists g :: g in gaps && g.signal == signal
  }

  // Every adverse signal whose required corroboration is unmet, once each.
  method CorroborationGaps(p: Policy, links: seq<Link>, blocked: set<Action>, budget: real)
    returns (gaps: seq<Gap>)
    requires p.Valid()
    ensures forall g :: g in gaps ==> g == GapFor(p, links, g.signal, blocked, budget)
    ensures forall s :: HasGap(gaps, s) <==>
      Uncorroborated(p, links, s) &&
      exists i :: 0 <= i < |links| && Adverse(p, links[i]) && links[i].signal == s
    ensures forall i, j :: 0 <= i < j < |gaps| ==> gaps[i].signal != gaps[j].signal
  {
    gaps := [];
    var seen: set<string> := {};
    for n := 0 to |links|
      invariant forall g :: g in gaps ==> g == GapFor(p, links, g.signal, blocked, budget)
      invariant forall g :: g in gaps ==> g.signal in seen
      invariant forall s :: s in seen <==>
        |p.CorroborationFor(s)| > 0 &&
        exists i :: 0 <= i < n && Adverse(p, links[i]) && links[i].signal == s
      invariant forall s :: HasGap(gaps, s) <==> s in seen && Uncorroborated(p, links, s)
      invariant forall i, j :: 0 <= i < j < |gaps| ==> gaps[i].signal != gaps[j].signal
    {
      var link := links[n];
      if link.delta < p.adverseDelta || link.signal in seen { continue; }
      var required := p.CorroborationFor(link.signal);
      if |required| == 0 { continue; }
      seen := seen + {link.signal};
      var resolved := ResolvedCorroborators(links, required);
      if |resolved| >= p.MinResolved() { continue; }
      ghost var before := gaps;
      var gap := Gap(link.signal, required, resolved, ReasonFor(p, links, required, blocked, budget));
      gaps := gaps + [gap];
      forall s ensures HasGap(gaps, s) <==> HasGap(before, s) || s == link.signal {
        assert gap in gaps;
        if HasGap(before, s) {
          var g :| g in before && g.signal == s;
          assert g in gaps;
        }
      }
    }
  }

  // The gate itself: a decline stands unless every adverse link carries a
  // signal whose corroboration is unmet. Returns the gated signals on downgrade.
  method ApplyCorroborationGate(p: Policy, decision: Decision, links: seq<Link>, gaps: seq<Gap>)
    returns (gated: Decision, uncorroborated: set<string>)
    requires forall s :: HasGap(gaps, s) <==>
      Uncorroborated(p, links, s) &&
      exists i :: 0 <= i < |links| && Adverse(p, links[i]) && links[i].signal == s
    ensures gated == if decision == Decline && GateApplies(p, links) then Challenge else decision
    ensures uncorroborated != {} <==> decision == Decline && GateApplies(p, links)
    ensures uncorroborated != {} ==> forall s :: s in uncorroborated <==> HasGap(gaps, s)
  {
    if decision != Decline || gaps == [] {
      if GateApplies(p, links) {
        var i :| 0 <= i < |links| && Adverse(p, links[i]);
        assert HasGap(gaps, links[i].signal);
      }
      return decision, {};
    }
    var gatedSignals := set g | g in gaps :: g.signal;
    assert forall s :: s in gatedSignals <==> HasGap(gaps, s);
    var adverse := set i | 0 <= i < |links| && links[i].delta >= p.adverseDelta :: links[i].signal;
    if adverse == {} || exists s :: s in adverse && s !in gatedSignals {
      if adverse == {} {
        assert forall i :: 0 <= i < |links| && Adverse(p, links[i]) ==> links[i].signal in adverse;
      } else {
        var s :| s in adverse && s !in gatedSignals;
        var i :| 0 <= i < |links| && links[i].delta >= p.adverseDelta && links[i].signal == s;
        assert Adverse(p, links[i]) && !Uncorroborated(p, links, s);
      }
      return decision, {};
    }
    forall i | 0 <= i < |links| && Adverse(p, links[i]) ensures Uncorroborated(p, links, links[i].signal) {
      assert links[i].signal in adverse;
    }
    var s0 :| s0 in adverse;
    var i :| 0 <= i < |links| && links[i].delta >= p.adverseDelta && links[i].signal == s0;
    assert Adverse(p, links[i]);
    assert s0 in gatedSignals;
    return Challenge, gatedSignals;
  }

  // There is an adverse finding, and none that stands on its own.
  predicate GateApplies(p: Policy, links: seq<Link>) {
    (exists i :: 0 <= i < |links| && Adverse(p, links[i])) &&
    forall i :: 0 <= i < |links| && Adverse(p, links[i]) ==> Uncorroborated(p, links, links[i].signal)
  }

  // ---- support ----

  predicate Supports(p: Policy, h: Hypothesis, link: Link) {
    link.source != "local" && link.delta < 0.0 &&
    (p.Relevant(h) == {} || link.action in p.Relevant(h))
  }

  function Supporting(p: Policy, h: Hypothesis, links: seq<Link>): nat {
    if |links| == 0 then 0
    else Supporting(p, h, links[..|links| - 1]) +
         (if Supports(p, h, links[|links| - 1]) then 1 else 0)
  }

  predicate NeedsANetworkFact(p: Policy, logodds: real, links: seq<Link>, h: Hypothesis) {
    logodds <= p.allowBelow && Supporting(p, h, links) < p.minNetworkLinksForAllow
  }

  predicate Recycled(links: seq<Link>) {
    exists i :: 0 <= i < |links| && links[i].signal == NUMBER_RECYCLED
  }

  // ---- the decision a finished chain gets ----

  function FinalDecision(p: Policy, h: Hypothesis, logodds: real, links: seq<Link>,
                         holes: bool): Decision
  {
    var raw := p.Decide(logodds);
    var gated := if raw == Decline && GateApplies(p, links) then Challenge else raw;
    if gated == Allow && (holes || NeedsANetworkFact(p, logodds, links, h)) then Challenge
    else if gated == Allow && Recycled(links) then Challenge
    else gated
  }

  function FinalGrade(p: Policy, h: Hypothesis, logodds: real, links: seq<Link>, holes: bool): Grade {
    p.GradeOf(logodds, holes || NeedsANetworkFact(p, logodds, links, h), Deltas(links), h,
              p.Decide(logodds) == Decline && GateApplies(p, links))
  }

  // ---- what that comes to, counted over the chain itself ----

  // Some link of the chain came back with an answer to the check, for or
  // against. An Info is no answer.
  ghost predicate IsResolved(links: seq<Link>, a: Action) {
    exists j :: 0 <= j < |links| && links[j].action == a && links[j].result != Info
  }

  // The places in a list of checks that were resolved.
  ghost function ResolvedAt(links: seq<Link>, required: seq<Action>): set<nat> {
    set k: nat | k < |required| && IsResolved(links, required[k])
  }

  // The link comes from the network and lowers the risk of this hypothesis.
  ghost predicate IsSupport(p: Policy, h: Hypothesis, link: Link) {
    link.source != "local" && link.delta < 0.0 &&
    (h !in p.relevant || p.relevant[h] == {} || link.action in p.relevant[h])
  }

  ghost function SupportingAt(p: Policy, h: Hypothesis, links: seq<Link>): set<nat> {
    set k: nat | k < |links| && IsSupport(p, h, links[k])
  }

  lemma AnsweredIsResolved(links: seq<Link>, a: Action)
    ensures Answered(links, a) <==> IsResolved(links, a)
  {
    if j :| 0 <= j < |links| && links[j].action == a && links[j].result != Info { assert Answers(links[j], a); }
  }

  lemma {:induction false} ResolvedCount(links: seq<Link>, required: seq<Action>)
    ensures |ResolvedCorroborators(links, required)| == |ResolvedAt(links, required)|
  {
    hide Answered, IsResolved;
    if |required| > 0 {
      var n := |required| - 1;
      ResolvedCount(links, required[..n]);
      AnsweredIsResolved(links, required[n]);
      assert ResolvedAt(links, required) ==
        ResolvedAt(links, required[..n]) + if IsResolved(links, required[n]) then {n} else {};
    }
  }

  lemma SupportsExactly(p: Policy, h: Hypothesis, link: Link)
    ensures Supports(p, h, link) <==> IsSupport(p, h, link)
  {
  }

  lemma UncorroboratedIsListed(p: Policy, links: seq<Link>, signal: string)
    requires Uncorroborated(p, links, signal)
    ensures signal in p.corroboration && p.corroboration[signal] != []
    ensures p.CorroborationFor(signal) == p.corroboration[signal]
  {
  }

  lemma SupportingGrows(p: Policy, h: Hypothesis, links: seq<Link>, n: nat)
    requires |links| == n + 1
    ensures SupportingAt(p, h, links) == SupportingAt(p, h, links[..n]) + if Supports(p, h, links[n]) then {n} else {}
    ensures n !in SupportingAt(p, h, links[..n])
  {
    hide Supports, IsSupport;
    SupportsExactly(p, h, links[n]);
  }

  lemma {:induction false} SupportingCount(p: Policy, h: Hypothesis, links: seq<Link>)
    ensures Supporting(p, h, links) == |SupportingAt(p, h, links)|
  {
    hide Supports, IsSupport;
    if |links| > 0 {
      hide SupportingAt;
      SupportingCount(p, h, links[..|links| - 1]);
      SupportingGrows(p, h, links, |links| - 1);
    }
  }

  // A signal needs no other check to stand on, or enough of those it needs were
  // resolved.
  ghost predicate Stands(p: Policy, links: seq<Link>, signal: string) {
    signal !in p.corroboration || p.corroboration[signal] == [] ||
    |ResolvedAt(links, p.corroboration[signal])| >= (if p.minResolved < 1 then 1 else p.minResolved)
  }

  lemma StandsExactly(p: Policy, links: seq<Link>, signal: string)
    ensures Stands(p, links, signal) <==> !Uncorroborated(p, links, signal)
  {
    ResolvedCount(links, p.CorroborationFor(signal));
  }

  // The decline exactly: past the line, and either nothing adverse to corroborate
  // or an adverse link whose signal stands.
  lemma DeclineExactly(p: Policy, h: Hypothesis, logodds: real, links: seq<Link>, holes: bool)
    ensures FinalDecision(p, h, logodds, links, holes) == Decline <==>
      logodds > p.allowBelow && logodds >= p.declineAbove &&
      ((forall i :: 0 <= i < |links| ==> links[i].delta < p.adverseDelta) ||
       exists i :: 0 <= i < |links| && links[i].delta >= p.adverseDelta && Stands(p, links, links[i].signal))
  {
    hide Stands, Uncorroborated;
    forall signal ensures Stands(p, links, signal) <==> !Uncorroborated(p, links, signal) {
      StandsExactly(p, links, signal);
    }
    assert GateApplies(p, links) <==>
      (exists i :: 0 <= i < |links| && Adverse(p, links[i])) &&
      forall i :: 0 <= i < |links| && Adverse(p, links[i]) ==> Uncorroborated(p, links, links[i].signal);
  }

  // The allow exactly.
  lemma AllowExactly(p: Policy, h: Hypothesis, logodds: real, links: seq<Link>, holes: bool)
    ensures FinalDecision(p, h, logodds, links, holes) == Allow <==>
      logodds <= p.allowBelow && !holes &&
      |SupportingAt(p, h, links)| >= p.minNetworkLinksForAllow &&
      forall i :: 0 <= i < |links| ==> links[i].signal != "NUMBER_RECYCLED"
  {
    SupportingCount(p, h, links);
  }

  // The grade exactly. Each is the claim about the links its name makes.
  lemma GradeExactly(p: Policy, h: Hypothesis, logodds: real, links: seq<Link>, holes: bool)
    ensures var g := FinalGrade(p, h, logodds, links, holes);
      var hole := links == [] || holes ||
        (logodds <= p.allowBelow && |SupportingAt(p, h, links)| < p.minNetworkLinksForAllow);
      var adverse := exists i :: 0 <= i < |links| && links[i].delta >= p.adverseDelta;
      var stands := adverse ==>
        exists i :: 0 <= i < |links| && links[i].delta >= p.adverseDelta && Stands(p, links, links[i].signal);
      var enough := |links| >= (if h in p.minLinks then p.minLinks[h] else p.defaultMinLinks);
      && (g == Unresolved <==> hole)
      && (g == Refuted <==> !hole && logodds >= p.declineAbove && (stands || logodds <= p.allowBelow))
      && (g == Degraded <==> !hole && logodds > p.allowBelow && (logodds < p.declineAbove || !stands))
      && (g == AttestedFull <==>
            !hole && logodds <= p.allowBelow && logodds < p.declineAbove && !adverse && enough)
      && (g == AttestedPartial <==>
            !hole && logodds <= p.allowBelow && logodds < p.declineAbove && (adverse || !enough))
  {
    hide Stands, Uncorroborated, SupportingAt, Supporting;
    SupportingCount(p, h, links);
    forall signal ensures Stands(p, links, signal) <==> !Uncorroborated(p, links, signal) {
      StandsExactly(p, links, signal);
    }
    assert GateApplies(p, links) <==>
      (exists i :: 0 <= i < |links| && Adverse(p, links[i])) &&
      forall i :: 0 <= i < |links| && Adverse(p, links[i]) ==> Uncorroborated(p, links, links[i].signal);
    if i :| 0 <= i < |links| && links[i].delta >= p.adverseDelta { assert Deltas(links)[i] >= p.adverseDelta; }
  }

  // What a reported gap says: which signal, which of its checks were resolved,
  // and why no more of them were.
  lemma GapExactly(p: Policy, links: seq<Link>, signal: string, blocked: set<Action>, budget: real)
    requires p.Valid() && signal in p.corroboration && p.corroboration[signal] != []
    ensures var gap := GapFor(p, links, signal, blocked, budget);
      var required := p.corroboration[signal];
      var tried := exists a, j :: a in required && 0 <= j < |links| && links[j].action == a;
      var barred := forall a :: a in required ==> a in blocked;
      var priced := forall a :: a in required && a !in blocked ==> !Policy.Free(a) && p.actions[a].cost > budget;
      && gap.signal == signal && gap.required == required
      && (forall a :: a in gap.resolved <==>
            a in required && exists j :: 0 <= j < |links| && links[j].action == a && links[j].result != Info)
      && (gap.reason == NotResolved <==> tried)
      && (gap.reason == Unavailable <==> !tried && barred)
      && (budget >= 0.0 ==>
            (gap.reason == GapReason.Budget <==> !tried && !barred && priced) &&
            (gap.reason == NeverAttempted <==> !tried && !barred && !priced))
  {
    var required := p.corroboration[signal];
    assert p.CorroborationFor(signal) == required;
    assert (exists a :: a in required && Attempted(links, a)) <==>
      exists a, j :: a in required && 0 <= j < |links| && links[j].action == a;
  }

  // ---- the verdict does not depend on the order of the chain ----

  lemma SameMembers<T>(a: seq<T>, b: seq<T>)
    requires multiset(a) == multiset(b)
    ensures |a| == |b|
    ensures forall x :: x in a <==> x in b
  {
    assert |a| == |multiset(a)| == |multiset(b)| == |b|;
    forall x ensures x in a <==> x in b {
      assert x in a <==> x in multiset(a);
      assert x in b <==> x in multiset(b);
    }
  }

  lemma ResolvedIgnoresOrder(a: seq<Link>, b: seq<Link>, required: seq<Action>)
    requires forall x :: x in a <==> x in b
    ensures ResolvedCorroborators(a, required) == ResolvedCorroborators(b, required)
  {
    forall c ensures Answered(a, c) <==> Answered(b, c) {
      assert Answered(a, c) <==> exists x :: x in a && Answers(x, c);
      assert Answered(b, c) <==> exists x :: x in b && Answers(x, c);
    }
    if |required| > 0 {
      ResolvedIgnoresOrder(a, b, required[..|required| - 1]);
    }
  }

  lemma GateIgnoresOrder(p: Policy, a: seq<Link>, b: seq<Link>)
    requires multiset(a) == multiset(b)
    ensures GateApplies(p, a) == GateApplies(p, b)
  {
    SameMembers(a, b);
    forall s: string ensures Uncorroborated(p, a, s) == Uncorroborated(p, b, s) {
      ResolvedIgnoresOrder(a, b, p.CorroborationFor(s));
    }
    assert forall ls: seq<Link> :: GateApplies(p, ls) <==>
      (exists x :: x in ls && Adverse(p, x)) &&
      forall x :: x in ls && Adverse(p, x) ==> Uncorroborated(p, ls, x.signal);
  }

  lemma {:induction false} SupportOfConcat(p: Policy, h: Hypothesis, a: seq<Link>, b: seq<Link>)
    ensures Supporting(p, h, a + b) == Supporting(p, h, a) + Supporting(p, h, b)
  {
    if |b| == 0 {
      assert a + b == a;
    } else {
      assert (a + b)[..|a + b| - 1] == a + b[..|b| - 1];
      SupportOfConcat(p, h, a, b[..|b| - 1]);
    }
  }

  lemma {:induction false} SupportIgnoresOrder(p: Policy, h: Hypothesis, a: seq<Link>, b: seq<Link>)
    requires multiset(a) == multiset(b)
    ensures Supporting(p, h, a) == Supporting(p, h, b)
  {
    if |a| > 0 {
      var k := PermutationStep(a, b);
      SupportIgnoresOrder(p, h, a[..|a| - 1], b[..k] + b[k + 1..]);
      SupportOfConcat(p, h, b[..k], [b[k]] + b[k + 1..]);
      SupportOfConcat(p, h, [b[k]], b[k + 1..]);
      SupportOfConcat(p, h, b[..k], b[k + 1..]);
    } else {
      assert |multiset(b)| == |b|;
    }
  }

  // Two runs that gathered the same links in different orders decide alike.
  lemma DecisionIgnoresOrder(p: Policy, h: Hypothesis, prior: real, a: seq<Link>, b: seq<Link>,
                             holes: bool)
    requires multiset(a) == multiset(b)
    ensures Sum(Deltas(a)) == Sum(Deltas(b))
    ensures FinalDecision(p, h, prior + Sum(Deltas(a)), a, holes)
         == FinalDecision(p, h, prior + Sum(Deltas(b)), b, holes)
  {
    DeltaSumIgnoresOrder(a, b);
    GateIgnoresOrder(p, a, b);
    SupportIgnoresOrder(p, h, a, b);
    SameMembers(a, b);
    assert forall ls: seq<Link> :: Recycled(ls) <==> exists x :: x in ls && x.signal == NUMBER_RECYCLED;
  }

  lemma DeltaSumWithout(b: seq<Link>, k: nat)
    requires k < |b|
    ensures Sum(Deltas(b)) == Sum(Deltas(b[..k] + b[k + 1..])) + b[k].delta
  {
    var before, after := Deltas(b[..k]), Deltas(b[k + 1..]);
    assert Deltas(b) == before + ([b[k].delta] + after);
    assert Deltas(b[..k] + b[k + 1..]) == before + after;
    SumConcat(before, [b[k].delta] + after);
    SumConcat([b[k].delta], after);
    SumConcat(before, after);
    SumAppend([], b[k].delta);
    assert [] + [b[k].delta] == [b[k].delta];
  }

  lemma {:induction false} DeltaSumIgnoresOrder(a: seq<Link>, b: seq<Link>)
    requires multiset(a) == multiset(b)
    ensures Sum(Deltas(a)) == Sum(Deltas(b))
  {
    if |a| == 0 {
      assert |multiset(b)| == |b|;
    } else {
      var k := PermutationStep(a, b);
      DeltaSumIgnoresOrder(a[..|a| - 1], b[..k] + b[k + 1..]);
      DeltaSumWithout(b, k);
      assert Deltas(a)[..|a| - 1] == Deltas(a[..|a| - 1]);
    }
  }

  // ---- decision and grade never contradict each other ----

  lemma DecisionAndGradeAgree(p: Policy, h: Hypothesis, logodds: real, links: seq<Link>, holes: bool)
    requires p.allowBelow < p.declineAbove
    ensures var d := FinalDecision(p, h, logodds, links, holes);
      var g := FinalGrade(p, h, logodds, links, holes);
      && (g == Refuted ==> d == Decline)
      && (d == Decline ==> g == Refuted || g == Unresolved)
      && (p.Decide(logodds) == Decline && GateApplies(p, links) ==>
            d == Challenge && (g == Degraded || g == Unresolved))
      && (d == Allow && p.minNetworkLinksForAllow > 0 ==> g == AttestedFull || g == AttestedPartial)
      && (g == AttestedFull || g == AttestedPartial ==>
            if Recycled(links) then d == Challenge else d == Allow)
  {
    if |links| == 0 { assert Supporting(p, h, links) == 0; }
  }
}
