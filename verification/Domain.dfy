// The vocabulary of app/domain/enums.py, and the few sequence facts the other
// modules share.

module Domain {
  datatype Option<+T> = None | Some(value: T)

  // Declaration order matters: the planner breaks ties by it.
  datatype Action =
    | NumberVerify
    | SimSwap
    | DeviceSwap
    | LocationVerify
    | Reachability
    | Roaming
    | DeviceIntelligence
    | NumberRecycling
    | StepUpOtp
    | RegistryCheck
    | CallAnnouncement

  datatype Result = Pass | Flag | Info

  datatype Decision = Allow | Challenge | Decline

  datatype Grade = AttestedFull | AttestedPartial | Unresolved | Degraded | Refuted

  datatype Hypothesis =
    | AccountTakeover
    | Mule
    | BotFarm
    | Legit
    | LegitThinFile
    | Impersonation

  function Min(a: real, b: real): real { if a <= b then a else b }

  function Max(a: real, b: real): real { if a <= b then b else a }

  function AllActions(): set<Action> {
    {NumberVerify, SimSwap, DeviceSwap, LocationVerify, Reachability, Roaming,
     DeviceIntelligence, NumberRecycling, StepUpOtp, RegistryCheck, CallAnnouncement}
  }

  lemma EveryActionIsListed(a: Action)
    ensures a in AllActions()
  {
    match a {
      case NumberVerify => case SimSwap => case DeviceSwap => case LocationVerify =>
      case Reachability => case Roaming => case DeviceIntelligence => case NumberRecycling =>
      case StepUpOtp => case RegistryCheck => case CallAnnouncement =>
    }
  }

  ghost predicate Distinct<T>(s: seq<T>) {
    forall i, j :: 0 <= i < j < |s| ==> s[i] != s[j]
  }

  lemma SliceOfPrefix<T>(was: seq<T>, now: seq<T>, a: nat, b: nat)
    requires a <= b <= |was| <= |now| && now[..|was|] == was
    ensures now[a..b] == was[a..b]
  {
    forall i | 0 <= i < b - a ensures now[a..b][i] == was[a..b][i] {
      assert now[..|was|][a + i] == now[a + i];
    }
  }

  // ---- sums of reals ----

  function Sum(xs: seq<real>): real {
    if |xs| == 0 then 0.0 else Sum(xs[..|xs| - 1]) + xs[|xs| - 1]
  }

  lemma SumAppend(xs: seq<real>, x: real)
    ensures Sum(xs + [x]) == Sum(xs) + x
  {
    assert (xs + [x])[..|xs|] == xs;
  }

  lemma {:induction false} SumConcat(xs: seq<real>, ys: seq<real>)
    ensures Sum(xs + ys) == Sum(xs) + Sum(ys)
  {
    if |ys| == 0 {
      assert xs + ys == xs;
    } else {
      var n := |ys| - 1;
      assert (xs + ys)[..|xs + ys| - 1] == xs + ys[..n];
      SumConcat(xs, ys[..n]);
    }
  }

  lemma {:induction false} SumUpdate(xs: seq<real>, i: nat, v: real)
    requires i < |xs|
    ensures Sum(xs[i := v]) == Sum(xs) - xs[i] + v
  {
    var n := |xs| - 1;
    if i < n {
      assert xs[i := v][..n] == xs[..n][i := v];
      SumUpdate(xs[..n], i, v);
    } else {
      assert xs[i := v][..n] == xs[..n];
    }
  }

  // One step of an induction over a permutation: where the last element went.
  lemma PermutationStep<T>(a: seq<T>, b: seq<T>) returns (k: nat)
    requires |a| > 0 && multiset(a) == multiset(b)
    ensures k < |b| && b[k] == a[|a| - 1]
    ensures b == b[..k] + ([b[k]] + b[k + 1..])
    ensures multiset(b[..k] + b[k + 1..]) == multiset(a[..|a| - 1])
  {
    var x := a[|a| - 1];
    assert a == a[..|a| - 1] + [x];
    assert x in multiset(b);
    k :| 0 <= k < |b| && b[k] == x;
    assert b == b[..k] + ([b[k]] + b[k + 1..]);
    var front, before, after := multiset(a[..|a| - 1]), multiset(b[..k]), multiset(b[k + 1..]);
    assert multiset(a) == front + multiset{x};
    assert multiset(b) == multiset(b[..k] + ([b[k]] + b[k + 1..])) == before + (multiset{x} + after);
    OneFewer(front, before, after, x);
  }

  lemma OneFewer<T>(front: multiset<T>, before: multiset<T>, after: multiset<T>, x: T)
    requires front + multiset{x} == before + (multiset{x} + after)
    ensures before + after == front
  {
    forall t ensures front[t] == (before + after)[t] {
      assert (front + multiset{x})[t] == front[t] + multiset{x}[t];
      assert (before + (multiset{x} + after))[t] == before[t] + multiset{x}[t] + after[t];
    }
  }

  // ---- amounts per action ----

  function Total(amount: map<Action, real>, s: seq<Action>): real
    requires AllActions() <= amount.Keys
  {
    if |s| == 0 then 0.0
    else
      EveryActionIsListed(s[|s| - 1]);
      Total(amount, s[..|s| - 1]) + amount[s[|s| - 1]]
  }

  lemma {:induction false} TotalOfConcat(amount: map<Action, real>, s: seq<Action>, t: seq<Action>)
    requires AllActions() <= amount.Keys
    ensures Total(amount, s + t) == Total(amount, s) + Total(amount, t)
  {
    if |t| == 0 {
      assert s + t == s;
    } else {
      assert (s + t)[..|s + t| - 1] == s + t[..|t| - 1];
      TotalOfConcat(amount, s, t[..|t| - 1]);
    }
  }

  // The order in which amounts are added does not matter.
  lemma {:induction false} TotalIgnoresOrder(amount: map<Action, real>, s: seq<Action>, t: seq<Action>)
    requires AllActions() <= amount.Keys
    requires multiset(s) == multiset(t)
    ensures Total(amount, s) == Total(amount, t)
  {
    if |s| == 0 {
      assert |multiset(t)| == |t|;
    } else {
      var k := PermutationStep(s, t);
      TotalIgnoresOrder(amount, s[..|s| - 1], t[..k] + t[k + 1..]);
      TotalOfConcat(amount, t[..k], [t[k]] + t[k + 1..]);
      TotalOfConcat(amount, [t[k]], t[k + 1..]);
      TotalOfConcat(amount, t[..k], t[k + 1..]);
    }
  }

  lemma {:induction false} DistinctPermutation<T>(s: seq<T>, t: seq<T>)
    requires multiset(s) == multiset(t) && Distinct(s)
    ensures Distinct(t)
  {
    if |s| == 0 {
      assert |multiset(t)| == |t|;
    } else {
      var k := PermutationStep(s, t);
      var rest := t[..k] + t[k + 1..];
      DistinctPermutation(s[..|s| - 1], rest);
      forall i | 0 <= i < |t| && i != k ensures t[i] != t[k] {
        var x := if i < k then rest[i] else rest[i - 1];
        assert t[i] == x && x in multiset(rest);
        assert x in s[..|s| - 1];
      }
      forall i, j | 0 <= i < j < |t| ensures t[i] != t[j] {
        if i != k && j != k {
          assert t[i] == rest[if i < k then i else i - 1] && t[j] == rest[if j < k then j else j - 1];
        }
      }
    }
  }
}
