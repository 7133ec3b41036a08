// app/judge/access.py: sessions, and the allowance every real run must pass.
//
// The ghost history records every outbound attempt, so the rolling-hour limit
// can be stated about what was actually sent and not about the ledger.

module Ledger {
  const HOUR: real := 3600.0

  datatype Entry = Entry(run: string, at: real)

  datatype Live<S> = Live(run: string, session: S, n: nat)

  // ---- the rolling hour ----

  function Runs(entries: seq<Entry>): (runs: seq<string>)
    ensures |runs| == |entries|
    ensures forall i :: 0 <= i < |entries| ==> runs[i] == entries[i].run
  {
    seq(|entries|, i requires 0 <= i < |entries| => entries[i].run)
  }

  function CountOf(entries: seq<Entry>, run: string): nat { multiset(Runs(entries))[run] }

  // Entries stamped after the cutoff, or held by a live reservation.
  function Pruned(hourly: seq<Entry>, live: set<string>, cutoff: real): (r: seq<Entry>)
    ensures |r| <= |hourly|
    ensures forall e :: e in r <==> e in hourly && (e.at > cutoff || e.run in live)
  {
    if |hourly| == 0 then []
    else
      var rest := Pruned(hourly[..|hourly| - 1], live, cutoff);
      var e := hourly[|hourly| - 1];
      if e.at > cutoff || e.run in live then rest + [e] else rest
  }

  function Without(hourly: seq<Entry>, run: string): (r: seq<Entry>)
    ensures |r| <= |hourly|
    ensures forall e :: e in r <==> e in hourly && e.run != run
  {
    if |hourly| == 0 then []
    else
      var rest := Without(hourly[..|hourly| - 1], run);
      if hourly[|hourly| - 1].run == run then rest else rest + [hourly[|hourly| - 1]]
  }

  function Copies(n: nat, e: Entry): (r: seq<Entry>)
    ensures |r| == n && forall i :: 0 <= i < n ==> r[i] == e
  {
    seq(n, _ => e)
  }

  // ---- the attempts actually made ----

  function AttemptsIn(made: seq<Entry>, from: real, to: real): nat {
    if |made| == 0 then 0
    else AttemptsIn(made[..|made| - 1], from, to) + (if from < made[|made| - 1].at <= to then 1 else 0)
  }

  // Which attempts were made after one instant and no later than another.
  ghost function AttemptsAfter(made: seq<Entry>, from: real, to: real): set<nat> {
    set i | 0 <= i < |made| && from < made[i].at <= to
  }

  lemma AttemptsGrow(made: seq<Entry>, from: real, to: real, n: nat)
    requires |made| == n + 1
    ensures AttemptsAfter(made, from, to) ==
      AttemptsAfter(made[..n], from, to) + if from < made[n].at <= to then {n} else {}
    ensures n !in AttemptsAfter(made[..n], from, to)
  {
  }

  lemma {:induction false} AttemptsCounted(made: seq<Entry>, from: real, to: real)
    ensures AttemptsIn(made, from, to) == |AttemptsAfter(made, from, to)|
  {
    if made != [] {
      hide AttemptsAfter;
      AttemptsCounted(made[..|made| - 1], from, to);
      AttemptsGrow(made, from, to, |made| - 1);
    }
  }

  function Recent(made: seq<Entry>, cutoff: real): seq<Entry> {
    if |made| == 0 then []
    else
      var rest := Recent(made[..|made| - 1], cutoff);
      if made[|made| - 1].at > cutoff then rest + [made[|made| - 1]] else rest
  }

  // Every recent attempt has a ledger entry of its own run standing for it.
  ghost predicate Covered(made: seq<Entry>, hourly: seq<Entry>, cutoff: real) {
    forall run :: CountOf(Recent(made, cutoff), run) <= CountOf(hourly, run)
  }

  // A settled run's entries are no older than its attempts.
  ghost predicate Dated(made: seq<Entry>, hourly: seq<Entry>, live: set<string>) {
    forall a, e :: a in made && e in hourly && a.run == e.run && e.run !in live ==> a.at <= e.at
  }

  // A live run's whole budget is in the ledger, and bounds its attempts.
  ghost predicate Reserved<S>(made: seq<Entry>, hourly: seq<Entry>, live: seq<Live<S>>) {
    forall i :: 0 <= i < |live| ==>
      CountOf(hourly, live[i].run) == live[i].n && CountOf(made, live[i].run) <= live[i].n
  }

  ghost predicate HourHolds(made: seq<Entry>, cap: nat) {
    forall z: real :: AttemptsInHourTo(made, z) <= cap
  }

  function AttemptsInHourTo(made: seq<Entry>, z: real): nat { AttemptsIn(made, z - HOUR, z) }

  function LiveRuns<S>(live: seq<Live<S>>): set<string> { set i | 0 <= i < |live| :: live[i].run }

  ghost predicate DistinctRuns<S>(live: seq<Live<S>>) {
    forall i, j :: 0 <= i < j < |live| ==> live[i].run != live[j].run
  }

  // ---- counting ----

  lemma CountOfAppend(entries: seq<Entry>, e: Entry, run: string)
    ensures CountOf(entries + [e], run) == CountOf(entries, run) + (if e.run == run then 1 else 0)
  {
    assert Runs(entries + [e]) == Runs(entries) + [e.run];
  }

  lemma CountOfConcat(a: seq<Entry>, b: seq<Entry>, run: string)
    ensures CountOf(a + b, run) == CountOf(a, run) + CountOf(b, run)
  {
    assert Runs(a + b) == Runs(a) + Runs(b);
  }

  lemma {:induction false} CountOfCopies(n: nat, e: Entry, run: string)
    ensures CountOf(Copies(n, e), run) == if e.run == run then n else 0
  {
    if n == 0 {
      assert Copies(0, e) == [];
    } else {
      assert Copies(n, e) == Copies(n - 1, e) + [e];
      CountOfCopies(n - 1, e, run);
      CountOfAppend(Copies(n - 1, e), e, run);
    }
  }

  lemma CountOfLast(entries: seq<Entry>, run: string)
    requires |entries| > 0
    ensures CountOf(entries, run) ==
      CountOf(entries[..|entries| - 1], run) + (if entries[|entries| - 1].run == run then 1 else 0)
  {
    assert entries == entries[..|entries| - 1] + [entries[|entries| - 1]];
    CountOfAppend(entries[..|entries| - 1], entries[|entries| - 1], run);
  }

  lemma {:induction false} CountOfNone(entries: seq<Entry>, run: string)
    requires forall e :: e in entries ==> e.run != run
    ensures CountOf(entries, run) == 0
  {
    if |entries| > 0 {
      CountOfNone(entries[..|entries| - 1], run);
      CountOfLast(entries, run);
    }
  }

  // Pruning touches a run only if it drops an aged entry of it.
  lemma {:induction false} CountOfPruned(hourly: seq<Entry>, live: set<string>, cutoff: real, run: string)
    requires run in live || forall e :: e in hourly && e.run == run ==> e.at > cutoff
    ensures CountOf(Pruned(hourly, live, cutoff), run) == CountOf(hourly, run)
  {
    if |hourly| > 0 {
      var rest, e := hourly[..|hourly| - 1], hourly[|hourly| - 1];
      assert e in hourly && forall x :: x in rest ==> x in hourly;
      CountOfPruned(rest, live, cutoff, run);
      CountOfLast(hourly, run);
      CountOfAppend(Pruned(rest, live, cutoff), e, run);
    }
  }

  lemma {:induction false} CountOfWithout(hourly: seq<Entry>, gone: string, run: string)
    ensures CountOf(Without(hourly, gone), run) == if run == gone then 0 else CountOf(hourly, run)
    ensures |Without(hourly, gone)| == |hourly| - CountOf(hourly, gone)
  {
    if |hourly| > 0 {
      var rest, e := hourly[..|hourly| - 1], hourly[|hourly| - 1];
      CountOfWithout(rest, gone, run);
      CountOfLast(hourly, run);
      CountOfLast(hourly, gone);
      CountOfAppend(Without(rest, gone), e, run);
    }
  }

  lemma {:induction false} RecentIsSome(made: seq<Entry>, cutoff: real, run: string)
    ensures CountOf(Recent(made, cutoff), run) <= CountOf(made, run)
    ensures (forall a :: a in made && a.run == run ==> a.at <= cutoff) ==> CountOf(Recent(made, cutoff), run) == 0
  {
    if |made| > 0 {
      var rest, e := made[..|made| - 1], made[|made| - 1];
      RecentIsSome(rest, cutoff, run);
      CountOfLast(made, run);
      CountOfAppend(Recent(rest, cutoff), e, run);
      assert e in made && forall x :: x in rest ==> x in made;
    }
  }

  lemma {:induction false} RecentShrinks(made: seq<Entry>, early: real, late: real, run: string)
    requires early <= late
    ensures CountOf(Recent(made, late), run) <= CountOf(Recent(made, early), run)
  {
    if |made| > 0 {
      var rest, e := made[..|made| - 1], made[|made| - 1];
      RecentShrinks(rest, early, late, run);
      CountOfAppend(Recent(rest, early), e, run);
      CountOfAppend(Recent(rest, late), e, run);
    }
  }

  lemma {:induction false} WindowWithinRecent(made: seq<Entry>, from: real, to: real)
    ensures AttemptsIn(made, from, to) <= |Recent(made, from)|
  {
    if |made| > 0 { WindowWithinRecent(made[..|made| - 1], from, to); }
  }

  // Covered attempts are no more numerous than the ledger.
  lemma CoveredIsBounded(made: seq<Entry>, hourly: seq<Entry>, cutoff: real)
    requires Covered(made, hourly, cutoff)
    ensures |Recent(made, cutoff)| <= |hourly|
  {
    var a, b := Runs(Recent(made, cutoff)), Runs(hourly);
    forall run ensures multiset(a)[run] <= multiset(b)[run] {
      assert CountOf(Recent(made, cutoff), run) <= CountOf(hourly, run);
    }
    assert multiset(a) <= multiset(b);
    assert multiset(b) == multiset(a) + (multiset(b) - multiset(a));
    assert |multiset(a)| == |a| && |multiset(b)| == |b|;
  }

  // ---- what each step keeps ----

  ghost predicate Sound<S>(made: seq<Entry>, hourly: seq<Entry>, live: seq<Live<S>>, clock: real, cap: nat) {
    && |hourly| <= cap
    && Covered(made, hourly, clock - HOUR)
    && Dated(made, hourly, LiveRuns(live))
    && Reserved(made, hourly, live)
    && (forall a :: a in made ==> a.at <= clock)
    && HourHolds(made, cap)
  }

  lemma SoundAfterTick<S>(made: seq<Entry>, hourly: seq<Entry>, live: seq<Live<S>>, clock: real,
                          later: real, cap: nat)
    requires Sound(made, hourly, live, clock, cap) && clock <= later
    ensures Sound(made, hourly, live, later, cap)
  {
    forall run ensures CountOf(Recent(made, later - HOUR), run) <= CountOf(hourly, run) {
      RecentShrinks(made, clock - HOUR, later - HOUR, run);
    }
  }

  // Pruning by a clock reading that is already stale is still safe: what it
  // drops has aged out by the true clock.
  lemma SoundAfterPrune<S>(made: seq<Entry>, hourly: seq<Entry>, live: seq<Live<S>>, clock: real,
                           now: real, cap: nat)
    requires Sound(made, hourly, live, clock, cap) && now <= clock
    ensures Sound(made, Pruned(hourly, LiveRuns(live), now - HOUR), live, clock, cap)
  {
    hide Covered, Dated, Reserved, HourHolds, Pruned;
    CoveredAfterPrune(made, hourly, LiveRuns(live), clock, now);
    DatedAfterPrune(made, hourly, LiveRuns(live), now - HOUR);
    ReservedAfterPrune(made, hourly, live, now - HOUR);
  }

  lemma CoveredAfterPrune(made: seq<Entry>, hourly: seq<Entry>, live: set<string>, clock: real, now: real)
    requires Covered(made, hourly, clock - HOUR) && Dated(made, hourly, live) && now <= clock
    ensures Covered(made, Pruned(hourly, live, now - HOUR), clock - HOUR)
  {
    hide Recent, CountOf, Pruned;
    var cutoff := now - HOUR;
    forall run ensures CountOf(Recent(made, clock - HOUR), run) <= CountOf(Pruned(hourly, live, cutoff), run) {
      if run in live || forall e :: e in hourly && e.run == run ==> e.at > cutoff {
        CountOfPruned(hourly, live, cutoff, run);
      } else {
        var e :| e in hourly && e.run == run && e.at <= cutoff;
        assert forall a :: a in made && a.run == run ==> a.at <= e.at;
        RecentIsSome(made, clock - HOUR, run);
      }
    }
  }

  lemma DatedAfterPrune(made: seq<Entry>, hourly: seq<Entry>, live: set<string>, cutoff: real)
    requires Dated(made, hourly, live)
    ensures Dated(made, Pruned(hourly, live, cutoff), live)
  {
  }

  lemma ReservedAfterPrune<S>(made: seq<Entry>, hourly: seq<Entry>, live: seq<Live<S>>, cutoff: real)
    requires Reserved(made, hourly, live)
    ensures Reserved(made, Pruned(hourly, LiveRuns(live), cutoff), live)
  {
    forall i | 0 <= i < |live| ensures CountOf(Pruned(hourly, LiveRuns(live), cutoff), live[i].run) == live[i].n {
      CountOfPruned(hourly, LiveRuns(live), cutoff, live[i].run);
    }
  }

  lemma SoundAfterReserve<S>(made: seq<Entry>, hourly: seq<Entry>, live: seq<Live<S>>, clock: real, cap: nat,
                             run: string, session: S, n: nat, now: real)
    requires Sound(made, hourly, live, clock, cap) && |hourly| + n <= cap
    requires forall e :: e in hourly || e in made ==> e.run != run
    requires run !in LiveRuns(live)
    ensures Sound(made, hourly + Copies(n, Entry(run, now)), live + [Live(run, session, n)], clock, cap)
  {
    var added, live' := Copies(n, Entry(run, now)), live + [Live(run, session, n)];
    forall x ensures CountOf(hourly + added, x) == CountOf(hourly, x) + (if x == run then n else 0) {
      CountOfConcat(hourly, added, x);
      CountOfCopies(n, Entry(run, now), x);
    }
    CountOfNone(hourly, run);
    CountOfNone(made, run);
    OneMoreLive(live, Live(run, session, n));
    forall i | 0 <= i < |live'|
      ensures CountOf(hourly + added, live'[i].run) == live'[i].n && CountOf(made, live'[i].run) <= live'[i].n
    {
      if i < |live| {
        assert live'[i] == live[i];
        assert live[i].run in LiveRuns(live);
      }
    }
  }

  lemma OneMoreLive<S>(live: seq<Live<S>>, l: Live<S>)
    ensures LiveRuns(live + [l]) == LiveRuns(live) + {l.run}
  {
    var after := live + [l];
    assert after[|live|] == l;
    forall run ensures run in LiveRuns(after) <==> run in LiveRuns(live) || run == l.run {
      if run in LiveRuns(live) {
        var i :| 0 <= i < |live| && live[i].run == run;
        assert after[i].run == run;
      }
    }
  }

  // An attempt under a live reservation with budget left.
  lemma SoundAfterAttempt<S>(made: seq<Entry>, hourly: seq<Entry>, live: seq<Live<S>>, clock: real, cap: nat,
                             k: nat)
    requires Sound(made, hourly, live, clock, cap)
    requires k < |live| && CountOf(made, live[k].run) < live[k].n
    requires DistinctRuns(live)
    ensures Sound(made + [Entry(live[k].run, clock)], hourly, live, clock, cap)
  {
    var attempt := Entry(live[k].run, clock);
    var made' := made + [attempt];
    assert made'[..|made'| - 1] == made;
    assert Recent(made', clock - HOUR) == Recent(made, clock - HOUR) + [attempt];
    forall run ensures CountOf(Recent(made', clock - HOUR), run) <= CountOf(hourly, run) {
      CountOfAppend(Recent(made, clock - HOUR), attempt, run);
      RecentIsSome(made, clock - HOUR, run);
    }
    forall i | 0 <= i < |live| ensures CountOf(made', live[i].run) <= live[i].n {
      CountOfAppend(made, attempt, live[i].run);
      if i < k { assert live[i].run != live[k].run; } else if k < i { assert live[k].run != live[i].run; }
    }
    forall z: real ensures AttemptsInHourTo(made', z) <= cap {
      if z < clock {
        assert AttemptsInHourTo(made', z) == AttemptsInHourTo(made, z);
      } else {
        HourEndingLater(made', clock, z);
        CoveredIsBounded(made', hourly, clock - HOUR);
      }
    }
  }

  lemma {:induction false} HourEndingLater(made: seq<Entry>, clock: real, z: real)
    requires z >= clock && forall a :: a in made ==> a.at <= clock
    ensures AttemptsInHourTo(made, z) <= |Recent(made, clock - HOUR)|
  {
    if |made| > 0 {
      assert forall a :: a in made[..|made| - 1] ==> a in made;
      HourEndingLater(made[..|made| - 1], clock, z);
    }
  }

  // Settling replaces the run's entries by what it is charged, stamped with a
  // reading taken after its last attempt.
  lemma SoundAfterSettle<S>(made: seq<Entry>, hourly: seq<Entry>, live: seq<Live<S>>, clock: real, cap: nat,
                            k: nat, spent: nat, now: real)
    requires Sound(made, hourly, live, clock, cap)
    requires k < |live| && CountOf(made, live[k].run) <= spent <= live[k].n
    requires DistinctRuns(live)
    requires forall a :: a in made && a.run == live[k].run ==> a.at <= now
    ensures Sound(made, Charge(hourly, live[k].run, spent, now), live[..k] + live[k + 1..], clock, cap)
  {
    hide Covered, Dated, Reserved, HourHolds;
    CountsAfterSettle(hourly, live[k].run, spent, now);
    assert CountOf(hourly, live[k].run) == live[k].n by { ReservedAt(made, hourly, live, k); }
    OthersStayLive(live, k);
    CoveredAfterSettle(made, hourly, clock - HOUR, live[k].run, spent, now);
    DatedAfterSettle(made, hourly, LiveRuns(live), live[k].run, spent, now);
    ReservedAfterSettle(made, hourly, live, k, spent, now);
  }

  function Charge(hourly: seq<Entry>, run: string, spent: nat, now: real): seq<Entry> {
    Without(hourly, run) + Copies(spent, Entry(run, now))
  }

  lemma CountsAfterSettle(hourly: seq<Entry>, run: string, spent: nat, now: real)
    ensures forall x :: CountOf(Charge(hourly, run, spent, now), x) == if x == run then spent else CountOf(hourly, x)
    ensures |Charge(hourly, run, spent, now)| == |hourly| - CountOf(hourly, run) + spent
  {
    forall x ensures CountOf(Charge(hourly, run, spent, now), x) == if x == run then spent else CountOf(hourly, x) {
      CountOfConcat(Without(hourly, run), Copies(spent, Entry(run, now)), x);
      CountOfWithout(hourly, run, x);
      CountOfCopies(spent, Entry(run, now), x);
    }
    CountOfWithout(hourly, run, run);
  }

  // What settling and pruning leave of each entry.
  lemma SettledEntries(hourly: seq<Entry>, run: string, spent: nat, now: real, live: set<string>)
    ensures var after := Pruned(Charge(hourly, run, spent, now), live, now - HOUR);
            && CountOf(after, run) == spent
            && forall e :: multiset(after)[e] ==
                 if e == Entry(run, now) then spent
                 else if e.run != run && (e.at > now - 3600.0 || e.run in live) then multiset(hourly)[e] else 0
  {
    var charged := Charge(hourly, run, spent, now);
    var after := Pruned(charged, live, now - HOUR);
    forall e ensures multiset(after)[e] ==
        if e == Entry(run, now) then spent
        else if e.run != run && (e.at > now - 3600.0 || e.run in live) then multiset(hourly)[e] else 0
    {
      EntriesPruned(charged, live, now - HOUR, e);
      EntriesWithout(hourly, run, e);
      EntriesCopied(spent, Entry(run, now), e);
      assert multiset(charged) == multiset(Without(hourly, run)) + multiset(Copies(spent, Entry(run, now)));
    }
    assert forall e :: e in charged && e.run == run ==> e == Entry(run, now);
    AllKept(charged, live, now - HOUR, run);
    CountsAfterSettle(hourly, run, spent, now);
  }

  lemma {:induction false} EntriesPruned(hourly: seq<Entry>, live: set<string>, cutoff: real, e: Entry)
    ensures multiset(Pruned(hourly, live, cutoff))[e] ==
      if e.at > cutoff || e.run in live then multiset(hourly)[e] else 0
  {
    if hourly != [] {
      var n := |hourly| - 1;
      EntriesPruned(hourly[..n], live, cutoff, e);
      assert hourly == hourly[..n] + [hourly[n]];
    }
  }

  lemma {:induction false} EntriesWithout(hourly: seq<Entry>, run: string, e: Entry)
    ensures multiset(Without(hourly, run))[e] == if e.run != run then multiset(hourly)[e] else 0
  {
    if hourly != [] {
      var n := |hourly| - 1;
      EntriesWithout(hourly[..n], run, e);
      assert hourly == hourly[..n] + [hourly[n]];
    }
  }

  lemma {:induction false} EntriesCopied(n: nat, c: Entry, e: Entry)
    ensures multiset(Copies(n, c))[e] == if e == c then n else 0
  {
    if n > 0 {
      EntriesCopied(n - 1, c, e);
      assert Copies(n, c) == Copies(n - 1, c) + [c];
    }
  }

  lemma {:induction false} AllKept(hourly: seq<Entry>, live: set<string>, cutoff: real, run: string)
    requires forall e :: e in hourly && e.run == run ==> e.at > cutoff
    ensures CountOf(Pruned(hourly, live, cutoff), run) == CountOf(hourly, run)
  {
    hide CountOf;
    if hourly == [] {
      assert Pruned(hourly, live, cutoff) == hourly;
    } else {
      var n := |hourly| - 1;
      var rest := Pruned(hourly[..n], live, cutoff);
      AllKept(hourly[..n], live, cutoff, run);
      CountOfLast(hourly, run);
      CountOfAppend(rest, hourly[n], run);
    }
  }

  lemma ReservedAt<S>(made: seq<Entry>, hourly: seq<Entry>, live: seq<Live<S>>, k: nat)
    requires Reserved(made, hourly, live) && k < |live|
    ensures CountOf(hourly, live[k].run) == live[k].n && CountOf(made, live[k].run) <= live[k].n
  {
  }

  lemma CoveredAfterSettle(made: seq<Entry>, hourly: seq<Entry>, cutoff: real, run: string, spent: nat, now: real)
    requires Covered(made, hourly, cutoff) && CountOf(made, run) <= spent
    ensures Covered(made, Charge(hourly, run, spent, now), cutoff)
  {
    hide Charge, Recent;
    CountsAfterSettle(hourly, run, spent, now);
    forall x ensures CountOf(Recent(made, cutoff), x) <= CountOf(Charge(hourly, run, spent, now), x) {
      RecentIsSome(made, cutoff, x);
    }
  }

  lemma DatedAfterSettle(made: seq<Entry>, hourly: seq<Entry>, live: set<string>, run: string, spent: nat, now: real)
    requires Dated(made, hourly, live) && forall a :: a in made && a.run == run ==> a.at <= now
    ensures Dated(made, Charge(hourly, run, spent, now), live - {run})
  {
    forall a, e | a in made && e in Charge(hourly, run, spent, now) && a.run == e.run && e.run !in live - {run}
      ensures a.at <= e.at
    {
      if e in Without(hourly, run) { assert e in hourly; } else { assert e == Entry(run, now); }
    }
  }

  lemma ReservedAfterSettle<S>(made: seq<Entry>, hourly: seq<Entry>, live: seq<Live<S>>, k: nat, spent: nat, now: real)
    requires Reserved(made, hourly, live) && k < |live| && DistinctRuns(live)
    ensures Reserved(made, Charge(hourly, live[k].run, spent, now), live[..k] + live[k + 1..])
  {
    hide Charge, CountOf;
    var rest := live[..k] + live[k + 1..];
    CountsAfterSettle(hourly, live[k].run, spent, now);
    forall i | 0 <= i < |rest|
      ensures CountOf(Charge(hourly, live[k].run, spent, now), rest[i].run) == rest[i].n &&
        CountOf(made, rest[i].run) <= rest[i].n
    {
      var j := if i < k then i else i + 1;
      assert rest[i] == live[j] && live[j].run != live[k].run;
    }
  }

  lemma OthersStayLive<S>(live: seq<Live<S>>, k: nat)
    requires k < |live| && DistinctRuns(live)
    ensures LiveRuns(live[..k] + live[k + 1..]) == LiveRuns(live) - {live[k].run}
    ensures DistinctRuns(live[..k] + live[k + 1..])
  {
    var rest := live[..k] + live[k + 1..];
    assert forall i :: 0 <= i < |rest| ==> rest[i] == live[if i < k then i else i + 1];
    forall run ensures run in LiveRuns(rest) <==> run in LiveRuns(live) && run != live[k].run {
      if run in LiveRuns(live) && run != live[k].run {
        var i :| 0 <= i < |live| && live[i].run == run;
        assert rest[if i < k then i else i - 1] in rest;
      }
      if run in LiveRuns(rest) {
        var i :| 0 <= i < |rest| && rest[i].run == run;
        assert live[if i < k then i else i + 1] in live;
      }
    }
  }

  lemma {:induction false} DistinctRunsCount<S>(live: seq<Live<S>>)
    requires DistinctRuns(live)
    ensures |LiveRuns(live)| == |live|
  {
    if |live| > 0 {
      var front, last := live[..|live| - 1], live[|live| - 1];
      DistinctRunsCount(front);
      OneMoreLive(front, last);
      assert front + [last] == live;
      assert last.run !in LiveRuns(front);
    }
  }

  // ---- per-session sums ----

  function HeldBy<S(==)>(live: seq<Live<S>>, session: S): nat {
    if |live| == 0 then 0
    else HeldBy(live[..|live| - 1], session) +
         (if live[|live| - 1].session == session then live[|live| - 1].n else 0)
  }

  lemma {:induction false} HeldByConcat<S>(a: seq<Live<S>>, b: seq<Live<S>>, session: S)
    ensures HeldBy(a + b, session) == HeldBy(a, session) + HeldBy(b, session)
  {
    if |b| == 0 {
      assert a + b == a;
    } else {
      assert (a + b)[..|a + b| - 1] == a + b[..|b| - 1];
      HeldByConcat(a, b[..|b| - 1], session);
    }
  }

  lemma HeldByOne<S>(l: Live<S>, session: S)
    ensures HeldBy([l], session) == if l.session == session then l.n else 0
  {
    assert [l][..0] == [];
  }

  lemma HeldByWithout<S>(live: seq<Live<S>>, k: nat, session: S)
    requires k < |live|
    ensures HeldBy(live[..k] + live[k + 1..], session) ==
      HeldBy(live, session) - (if live[k].session == session then live[k].n else 0)
  {
    hide HeldBy;
    assert live == live[..k] + ([live[k]] + live[k + 1..]);
    HeldByOne(live[k], session);
    HeldByConcat(live[..k], [live[k]] + live[k + 1..], session);
    HeldByConcat([live[k]], live[k + 1..], session);
    HeldByConcat(live[..k], live[k + 1..], session);
  }
}

module Access {
  import opened Domain
  import opened Ledger

  const MAX_LIVE_SESSIONS: nat := 256

  class JudgeSession {
    const token: string
    const expiresAt: real
    var nacCapability: bool
    var attemptsUsed: nat
    var reserved: nat
    var runs: nat

    constructor (token: string, expiresAt: real)
      ensures this.token == token && this.expiresAt == expiresAt
      ensures !nacCapability && attemptsUsed == 0 && reserved == 0 && runs == 0
    {
      this.token, this.expiresAt := token, expiresAt;
      nacCapability, attemptsUsed, reserved, runs := false, 0, 0, 0;
    }

    predicate IsExpired(now: real) { now >= expiresAt }
  }

  datatype Refusal = CapabilityRequired | SessionRequired | Busy | SessionExhausted | DeploymentExhausted

  datatype Reservation = Granted(run: string) | Refused(why: Refusal)

  // What a settled run is charged.
  function Spent(reserved: nat, attemptsMade: int, clean: bool): (spent: nat)
    ensures spent <= reserved && (!clean ==> spent == reserved)
    ensures clean && 0 <= attemptsMade <= reserved ==> spent == attemptsMade
    ensures clean && attemptsMade < 0 ==> spent == 0
    ensures clean && attemptsMade > reserved ==> spent == reserved
  {
    if !clean || attemptsMade >= reserved then reserved else if attemptsMade < 0 then 0 else attemptsMade
  }

  class JudgeAccess {
    const attemptsPerSession: nat
    const attemptsPerHour: nat
    const maxConcurrent: nat
    const sessionTtl: real

    var sessions: map<string, JudgeSession>
    var hourly: seq<Entry>
    var reservations: map<string, (JudgeSession, nat)>
    var activeRealRuns: nat

    ghost var known: set<JudgeSession>       // every session ever issued
    ghost var live: seq<Live<JudgeSession>>  // unsettled reservations, oldest first
    ghost var made: seq<Entry>               // every outbound attempt ever made
    ghost var issued: set<string>            // every reservation id ever issued
    ghost var clock: real                    // the true time; readings may lag it

    ghost predicate Valid()
      reads this, known
    {
      && Sound(made, hourly, live, clock, attemptsPerHour)
      && Booked(reservations, live) && DistinctRuns(live) && activeRealRuns == |live| <= maxConcurrent
      && (forall t :: t in sessions ==> sessions[t] in known && sessions[t].token == t)
      && (forall i :: 0 <= i < |live| ==> live[i].session in known)
      && (forall s :: s in known ==> s.reserved == HeldBy(live, s) && s.attemptsUsed + s.reserved <= attemptsPerSession)
      && (forall e :: e in hourly || e in made ==> e.run in issued)
      && (forall i :: 0 <= i < |live| ==> live[i].run in issued)
    }

    // The reservation table is exactly the live runs.
    ghost static predicate Booked(table: map<string, (JudgeSession, nat)>, live: seq<Live<JudgeSession>>) {
      && (forall run :: run in table <==> run in LiveRuns(live))
      && (forall i :: 0 <= i < |live| ==> live[i].run in table && table[live[i].run] == (live[i].session, live[i].n))
    }

    constructor (attemptsPerSession: nat, attemptsPerHour: nat, maxConcurrent: nat, sessionTtl: real)
      ensures Valid() && sessions == map[] && known == {} && made == [] && live == [] && hourly == []
      ensures this.attemptsPerSession == attemptsPerSession && this.attemptsPerHour == attemptsPerHour
      ensures this.maxConcurrent == maxConcurrent && this.sessionTtl == sessionTtl
    {
      this.attemptsPerSession, this.attemptsPerHour := attemptsPerSession, attemptsPerHour;
      this.maxConcurrent, this.sessionTtl := maxConcurrent, sessionTtl;
      sessions, hourly, reservations, activeRealRuns := map[], [], map[], 0;
      known, live, made, issued, clock := {}, [], [], {}, 0.0;
      new;
      assert Recent([], clock - HOUR) == [];
      assert Sound(made, hourly, live, clock, attemptsPerHour);
    }

    // Time passes.
    ghost method Tick(later: real)
      requires Valid() && clock <= later
      modifies this`clock
      ensures Valid() && clock == later
    {
      SoundAfterTick(made, hourly, live, clock, later, attemptsPerHour);
      hide Sound;
      clock := later;
    }

    // One outbound attempt of a live run: the run's own log admits no more than
    // it reserved.
    ghost method Attempt(k: nat)
      requires Valid() && k < |live| && CountOf(made, live[k].run) < live[k].n
      modifies this`made
      ensures Valid() && made == old(made) + [Entry(live[k].run, clock)]
    {
      SoundAfterAttempt(made, hourly, live, clock, attemptsPerHour, k);
      made := made + [Entry(live[k].run, clock)];
    }

    method PruneHour(now: real)
      requires Valid() && now <= clock
      modifies this`hourly
      ensures Valid() && hourly == Pruned(old(hourly), LiveRuns(live), now - HOUR)
    {
      hide Sound;
      SoundAfterPrune(made, hourly, live, clock, now, attemptsPerHour);
      assert reservations.Keys == LiveRuns(live);
      hourly := Pruned(hourly, reservations.Keys, now - HOUR);
    }

    // Reserve a run's whole outbound budget, or say which limit refused it.
    // `now` was read before the lock was taken, so it may lag the clock.
    method ReserveRealRun(session: JudgeSession, attempts: nat, now: real, run: string)
      returns (r: Reservation)
      requires Valid() && session in known && now <= clock && run !in issued
      modifies this`hourly, this`reservations, this`activeRealRuns, this`live, this`issued, session`reserved
      ensures Valid()
      ensures r.Granted? <==>
        && session.nacCapability
        && now < session.expiresAt && session.token in sessions && sessions[session.token] == session
        && |old(live)| < maxConcurrent
        && session.attemptsUsed + old(session.reserved) + attempts <= attemptsPerSession
        && |Pruned(old(hourly), LiveRuns(old(live)), now - HOUR)| + attempts <= attemptsPerHour
      ensures r.Granted? ==>
        && r.run == run && live == old(live) + [Live(run, session, attempts)]
        && session.reserved == old(session.reserved) + attempts
        && hourly == Pruned(old(hourly), LiveRuns(old(live)), now - HOUR) + Copies(attempts, Entry(run, now))
        && issued == old(issued) + {run}
      ensures r.Refused? ==> live == old(live) && session.reserved == old(session.reserved)
      ensures r.Refused? ==> issued == old(issued) && reservations == old(reservations)
      ensures r == Refused(CapabilityRequired) <==> !session.nacCapability
      ensures r == Refused(SessionRequired) <==>
        && session.nacCapability
        && (now >= session.expiresAt || session.token !in sessions || sessions[session.token] != session)
      ensures r.Refused? && r.why !in {CapabilityRequired, SessionRequired} ==>
        r.why == if |live| >= maxConcurrent then Busy
                 else if session.attemptsUsed + session.reserved + attempts > attemptsPerSession then SessionExhausted
                 else DeploymentExhausted
    {
      hide Sound, Pruned, HeldBy, Booked, DistinctRuns, LiveRuns;
      if !session.nacCapability { return Refused(CapabilityRequired); }
      if session.IsExpired(now) || session.token !in sessions || sessions[session.token] != session {
        return Refused(SessionRequired);
      }
      PruneHour(now);
      if activeRealRuns >= maxConcurrent { return Refused(Busy); }
      if attemptsPerSession < session.attemptsUsed + session.reserved + attempts {
        return Refused(SessionExhausted);
      }
      if |hourly| + attempts > attemptsPerHour { return Refused(DeploymentExhausted); }
      Book(session, attempts, now, run);
      r := Granted(run);
    }

    // Write a reservation every limit allows.
    method Book(session: JudgeSession, attempts: nat, now: real, run: string)
      requires Valid() && session in known && run !in issued
      requires activeRealRuns < maxConcurrent && |hourly| + attempts <= attemptsPerHour
      requires session.attemptsUsed + session.reserved + attempts <= attemptsPerSession
      modifies this`hourly, this`reservations, this`activeRealRuns, this`live, this`issued, session`reserved
      ensures Valid()
      ensures live == old(live) + [Live(run, session, attempts)] && issued == old(issued) + {run}
      ensures session.reserved == old(session.reserved) + attempts
      ensures hourly == old(hourly) + Copies(attempts, Entry(run, now))
    {
      hide Sound, HeldBy, LiveRuns, Booked, DistinctRuns, Copies;
      NotYetLive(run);
      BookedWith(reservations, live, Live(run, session, attempts));
      SoundAfterReserve(made, hourly, live, clock, attemptsPerHour, run, session, attempts, now);
      OneMoreLive(live, Live(run, session, attempts));
      HeldByOneMore(Live(run, session, attempts));
      session.reserved := session.reserved + attempts;
      activeRealRuns := activeRealRuns + 1;
      reservations := reservations[run := (session, attempts)];
      hourly := hourly + Copies(attempts, Entry(run, now));
      live := live + [Live(run, session, attempts)];
      issued := issued + {run};
    }

    lemma NotYetLive(run: string)
      requires Valid() && run !in issued
      ensures run !in LiveRuns(live) && run !in reservations
      ensures forall e :: e in hourly || e in made ==> e.run != run
    {
    }

    lemma HeldByOneMore(l: Live<JudgeSession>)
      ensures forall s: JudgeSession :: s in known ==>
        HeldBy(live + [l], s) == HeldBy(live, s) + (if l.session == s then l.n else 0)
    {
      forall s: JudgeSession | s in known
        ensures HeldBy(live + [l], s) == HeldBy(live, s) + (if l.session == s then l.n else 0)
      {
        assert (live + [l])[..|live|] == live;
      }
    }

    // Reconcile a finished run with what it spent: a clean run is charged the
    // attempts it made and gives the rest of its reservation back, to its session
    // and to the hour; an unclean one is charged all of it. A second settlement
    // changes nothing.
    method SettleRealRun(session: JudgeSession, run: string, attemptsMade: int, clean: bool, now: real)
      returns (accepted: bool)
      requires Valid() && session in known && now <= clock
      // The run's log is sealed and counted before the settlement reads the clock.
      requires run in LiveRuns(live) ==> SealedBy(run, attemptsMade, clean, now)
      modifies this`hourly, this`reservations, this`activeRealRuns, this`live,
        session`reserved, session`attemptsUsed, session`runs
      ensures Valid()
      ensures accepted <==> run !in old(reservations) || old(reservations)[run].0 == session
      ensures run !in old(reservations) || !accepted ==>
        live == old(live) && hourly == old(hourly) && reservations == old(reservations) && unchanged(session)
      ensures run in old(reservations) && accepted ==>
        var n := old(reservations)[run].1;
        var spent := if !clean || attemptsMade > n then n else if attemptsMade < 0 then 0 else attemptsMade;
        && reservations == old(reservations) - {run} && run !in LiveRuns(live)
        && session.reserved == old(session.reserved) - n
        && session.attemptsUsed == old(session.attemptsUsed) + spent
        && session.runs == old(session.runs) + 1
        && session.attemptsUsed + session.reserved ==
             old(session.attemptsUsed + session.reserved) - (n - spent)
        && CountOf(hourly, run) == spent
        && (forall e :: multiset(hourly)[e] ==
              if e == Entry(run, now) then spent
              else if e.run != run && (e.at > now - 3600.0 || e.run in LiveRuns(live)) then multiset(old(hourly))[e]
              else 0)
      ensures run in old(reservations) && accepted ==>
        exists k :: 0 <= k < |old(live)| && old(live)[k].run == run && live == old(live)[..k] + old(live)[k + 1..]
    {
      hide Sound, Pruned, HeldBy, Charge, LiveRuns, DistinctRuns;
      if run !in reservations { return true; }
      var (owner, n) := reservations[run];
      if owner != session { return false; }
      ghost var k := FindLive(run);
      ReservedWithin(k);
      Unbook(session, run, n, Spent(n, attemptsMade, clean), now, k);
      PruneHour(now);
      SettledEntries(old(hourly), run, Spent(n, attemptsMade, clean), now, LiveRuns(live));
      NotLiveOnceSettled(old(live), k);
      accepted := true;
    }

    lemma NotLiveOnceSettled(was: seq<Live<JudgeSession>>, k: nat)
      requires DistinctRuns(was) && k < |was|
      ensures was[k].run !in LiveRuns(was[..k] + was[k + 1..])
    {
      OthersStayLive(was, k);
    }

    // A clean run reports what it made; an unclean one's number is not used.
    ghost predicate SealedBy(run: string, attemptsMade: int, clean: bool, now: real)
      reads this
    {
      (clean ==> CountOf(made, run) <= attemptsMade) && forall a :: a in made && a.run == run ==> a.at <= now
    }

    lemma FindLive(run: string) returns (k: nat)
      requires Valid() && run in reservations
      ensures k < |live| && live[k].run == run && run in LiveRuns(live)
      ensures (live[k].session, live[k].n) == reservations[run]
    {
      k :| k < |live| && live[k].run == run;
    }

    // Close one reservation and charge its entries.
    method Unbook(session: JudgeSession, run: string, n: nat, spent: nat, now: real, ghost k: nat)
      requires Valid() && k < |live| && live[k] == Live(run, session, n)
      requires CountOf(made, run) <= spent <= n <= session.reserved
      requires forall a :: a in made && a.run == run ==> a.at <= now
      modifies this`hourly, this`reservations, this`activeRealRuns, this`live,
        session`reserved, session`attemptsUsed, session`runs
      ensures Valid()
      ensures live == old(live)[..k] + old(live)[k + 1..] && reservations == old(reservations) - {run}
      ensures session.reserved == old(session.reserved) - n
      ensures session.attemptsUsed == old(session.attemptsUsed) + spent
      ensures session.runs == old(session.runs) + 1
      ensures hourly == Charge(old(hourly), run, spent, now)
    {
      hide Sound, HeldBy, Charge, LiveRuns, DistinctRuns, Booked, CountOf;
      ghost var rest := live[..k] + live[k + 1..];
      SoundAfterSettle(made, hourly, live, clock, attemptsPerHour, k, spent, now);
      OthersStayLive(live, k);
      HeldByAllWithout(k);
      BookedWithout(reservations, live, k);
      ChargeKeepsRuns(hourly, run, spent, now);
      RestIsKnown(rest, k);
      reservations := reservations - {run};
      activeRealRuns := activeRealRuns - 1;
      session.reserved := session.reserved - n;
      session.attemptsUsed := session.attemptsUsed + spent;
      session.runs := session.runs + 1;
      hourly := Charge(hourly, run, spent, now);
      live := rest;
    }

    lemma RestIsKnown(rest: seq<Live<JudgeSession>>, k: nat)
      requires Valid() && k < |live| && rest == live[..k] + live[k + 1..]
      ensures forall i :: 0 <= i < |rest| ==> rest[i].session in known && rest[i].run in issued
      ensures live[k].run in issued
    {
      hide Sound, HeldBy, Booked, DistinctRuns;
      assert forall i :: 0 <= i < |rest| ==> rest[i] == live[if i < k then i else i + 1];
    }

    lemma ReservedWithin(k: nat)
      requires Valid() && k < |live|
      ensures CountOf(made, live[k].run) <= live[k].n && live[k].session.reserved >= live[k].n
    {
      HeldByWithout(live, k, live[k].session);
    }

    lemma HeldByAllWithout(k: nat)
      requires k < |live|
      ensures forall s: JudgeSession :: s in known ==>
        HeldBy(live[..k] + live[k + 1..], s) == HeldBy(live, s) - (if live[k].session == s then live[k].n else 0)
    {
      forall s: JudgeSession | s in known
        ensures HeldBy(live[..k] + live[k + 1..], s) ==
          HeldBy(live, s) - (if live[k].session == s then live[k].n else 0)
      {
        HeldByWithout(live, k, s);
      }
    }

    lemma ChargeKeepsRuns(hourly: seq<Entry>, run: string, spent: nat, now: real)
      ensures forall e :: e in Charge(hourly, run, spent, now) ==> e in hourly || e.run == run
    {
    }

    // ---- sessions ----

    // A new session. Makes room by expiry first, then by earliest expiry.
    method Mint(token: string, now: real) returns (session: JudgeSession)
      requires Valid() && now <= clock && token !in sessions
      modifies this`sessions, this`known
      ensures Valid() && fresh(session) && known == old(known) + {session}
      ensures session.token == token && session.expiresAt == now + sessionTtl && !session.nacCapability
      ensures token in sessions && sessions[token] == session && |sessions| <= MAX_LIVE_SESSIONS
      ensures RoomMadeIn(old(sessions), sessions - {token}, now)
      ensures var n := |set t | t in old(sessions) && now < old(sessions)[t].expiresAt|;
        |sessions - {token}| == if n < 256 then n else 255
    {
      hide Sound, Booked, DistinctRuns, HeldBy, RoomMadeIn, LiveRuns;
      var kept := Survivors(now);
      session := new JudgeSession(token, now + sessionTtl);
      Adopt(session);
      AddOne(kept, token, session);
      assert kept[token := session] - {token} == kept;
      Install(kept[token := session]);
    }

    // The sessions that stay when room is made for one more.
    method Survivors(now: real) returns (kept: map<string, JudgeSession>)
      ensures RoomMadeIn(sessions, kept, now) && forall t :: t in kept ==> t in sessions && kept[t] == sessions[t]
      ensures var n := |set t | t in sessions && now < sessions[t].expiresAt|; |kept| == if n < 256 then n else 255
    {
      hide RoomMadeIn, Unexpired;
      kept := MakeRoom(sessions, now);
      UnexpiredCounted(sessions, now);
      KeptIsPart(sessions, kept, now);
    }

    method Install(table: map<string, JudgeSession>)
      requires Valid() && forall t :: t in table ==> table[t] in known && table[t].token == t
      modifies this`sessions
      ensures Valid() && sessions == table
    {
      hide Sound, Booked, DistinctRuns, HeldBy;
      sessions := table;
    }

    ghost method Adopt(session: JudgeSession)
      requires Valid() && session !in known && session.reserved == session.attemptsUsed == 0
      modifies this`known
      ensures Valid() && known == old(known) + {session}
    {
      hide Sound, Booked, DistinctRuns, HeldBy;
      NobodyHolds(session);
      known := known + {session};
    }

    lemma NobodyHolds(session: JudgeSession)
      requires forall i :: 0 <= i < |live| ==> live[i].session != session
      ensures HeldBy(live, session) == 0
    {
      HeldByStranger(live, session);
    }

    static method Oldest(pool: map<string, JudgeSession>) returns (oldest: string)
      requires |pool| > 0
      ensures oldest in pool && forall u :: u in pool ==> pool[oldest].expiresAt <= pool[u].expiresAt
    {
      var left := pool.Keys;
      assert |left| > 0;
      oldest :| oldest in left;
      left := left - {oldest};
      while left != {}
        invariant oldest in pool && left <= pool.Keys
        invariant forall u :: u in pool && u !in left ==> pool[oldest].expiresAt <= pool[u].expiresAt
        decreases left
      {
        var t :| t in left;
        left := left - {t};
        if pool[t].expiresAt < pool[oldest].expiresAt { oldest := t; }
      }
    }

    // The session behind a token, unless it has expired.
    method Get(token: string, now: real) returns (session: Option<JudgeSession>)
      requires Valid() && now <= clock
      modifies this`sessions
      ensures Valid()
      ensures session == if token in old(sessions) && now < old(sessions)[token].expiresAt
                         then Some(old(sessions)[token]) else None
      ensures sessions == map t | t in old(sessions) && now < old(sessions)[t].expiresAt :: old(sessions)[t]
    {
      hide Sound, Booked, DistinctRuns, HeldBy;
      sessions := map t | t in sessions && !sessions[t].IsExpired(now) :: sessions[t];
      session := if token in sessions then Some(sessions[token]) else None;
    }

    // Exchange a recognized organizer code for the capability.
    method GrantNac(token: string, recognized: bool, enabled: bool, now: real) returns (session: Option<JudgeSession>)
      requires Valid() && now <= clock
      modifies this`sessions, (set t | t in sessions :: sessions[t])`nacCapability
      ensures Valid()
      ensures session.Some? <==>
        token in old(sessions) && now < old(sessions)[token].expiresAt && enabled && recognized
      ensures session.Some? ==> session.value == old(sessions)[token] && session.value.nacCapability
      ensures forall s :: s in known && !(session.Some? && s == session.value) ==>
        s.nacCapability == old(s.nacCapability)
    {
      hide Sound, Booked, DistinctRuns, HeldBy;
      session := Get(token, now);
      if session.None? { return; }
      if !enabled || !recognized { return None; }
      session.value.nacCapability := true;
    }

    // ---- the theorem ----

    // The counters and the tables tell one story: every live reservation is
    // counted once as an active run, holds exactly its attempts in the rolling
    // hour, and weighs on its own session and on no other.
    lemma LedgerAgrees()
      requires Valid()
      ensures activeRealRuns == |reservations| <= maxConcurrent && |hourly| <= attemptsPerHour
      ensures forall run :: run in reservations ==> CountOf(hourly, run) == reservations[run].1
      ensures forall run :: run in reservations ==> CountOf(made, run) <= reservations[run].1
      ensures forall s :: s in known ==> s.reserved == HeldBy(live, s)
      ensures forall s :: s in known ==> s.attemptsUsed + s.reserved <= attemptsPerSession
    {
      hide HeldBy, Covered, Dated, HourHolds, CountOf;
      DistinctRunsCount(live);
      assert reservations.Keys == LiveRuns(live);
      assert |reservations.Keys| == |reservations|;
      forall run | run in reservations
        ensures CountOf(hourly, run) == reservations[run].1 && CountOf(made, run) <= reservations[run].1
      {
        var k := FindLive(run);
        ReservedAt(made, hourly, live, k);
      }
    }

    // In any hour, at any time in the history of the deployment, no more
    // attempts were made than the deployment allows.
    lemma NoHourExceedsTheAllowance(z: real)
      requires Valid()
      ensures |AttemptsAfter(made, z - 3600.0, z)| <= attemptsPerHour
    {
      AttemptsCounted(made, z - HOUR, z);
      assert AttemptsInHourTo(made, z) <= attemptsPerHour;
    }
  }

  // Nothing expired stays, and nothing live is dropped while something that
  // expires sooner stays.
  ghost predicate RoomMadeIn(before: map<string, JudgeSession>, kept: map<string, JudgeSession>, now: real) {
    && (forall t :: t in kept ==> t in before && kept[t] == before[t] && !before[t].IsExpired(now))
    && (forall t, u :: t in before && t !in kept && !before[t].IsExpired(now) && u in kept ==>
          before[t].expiresAt <= kept[u].expiresAt)
  }

  lemma KeptIsPart(before: map<string, JudgeSession>, kept: map<string, JudgeSession>, now: real)
    requires RoomMadeIn(before, kept, now)
    ensures forall t :: t in kept ==> t in before && kept[t] == before[t]
  {
  }

  function Unexpired(sessions: map<string, JudgeSession>, now: real): map<string, JudgeSession> {
    map t | t in sessions && !sessions[t].IsExpired(now) :: sessions[t]
  }

  lemma UnexpiredCounted(sessions: map<string, JudgeSession>, now: real)
    ensures |Unexpired(sessions, now)| == |set t | t in sessions && now < sessions[t].expiresAt|
  {
    assert Unexpired(sessions, now).Keys == set t | t in sessions && now < sessions[t].expiresAt;
    assert |Unexpired(sessions, now).Keys| == |Unexpired(sessions, now)|;
  }

  // All of them, or as many as leave room for one more.
  function RoomFor(n: nat): nat { if n < MAX_LIVE_SESSIONS then n else MAX_LIVE_SESSIONS - 1 }

  method MakeRoom(sessions: map<string, JudgeSession>, now: real) returns (kept: map<string, JudgeSession>)
    ensures RoomMadeIn(sessions, kept, now) && |kept| == RoomFor(|Unexpired(sessions, now)|)
    ensures |Unexpired(sessions, now)| < MAX_LIVE_SESSIONS ==> kept == Unexpired(sessions, now)
  {
    kept := map t | t in sessions && !sessions[t].IsExpired(now) :: sessions[t];
    ghost var swept := kept;
    while |kept| >= MAX_LIVE_SESSIONS
      invariant RoomMadeIn(sessions, kept, now)
      invariant |kept| >= RoomFor(|swept|) && (|swept| < MAX_LIVE_SESSIONS ==> kept == swept)
      decreases |kept|
    {
      var oldest := JudgeAccess.Oldest(kept);
      DropOne(kept, oldest);
      kept := kept - {oldest};
    }
  }

  lemma {:induction false} HeldByStranger(live: seq<Live<JudgeSession>>, session: JudgeSession)
    requires forall i :: 0 <= i < |live| ==> live[i].session != session
    ensures HeldBy(live, session) == 0
  {
    if |live| > 0 { HeldByStranger(live[..|live| - 1], session); }
  }

  lemma BookedWith(table: map<string, (JudgeSession, nat)>, live: seq<Live<JudgeSession>>, l: Live<JudgeSession>)
    requires JudgeAccess.Booked(table, live) && DistinctRuns(live) && l.run !in LiveRuns(live)
    ensures JudgeAccess.Booked(table[l.run := (l.session, l.n)], live + [l]) && DistinctRuns(live + [l])
  {
    OneMoreLive(live, l);
    forall i | 0 <= i < |live| ensures live[i].run != l.run {
      assert live[i].run in LiveRuns(live);
    }
  }

  lemma BookedWithout(table: map<string, (JudgeSession, nat)>, live: seq<Live<JudgeSession>>, k: nat)
    requires JudgeAccess.Booked(table, live) && DistinctRuns(live) && k < |live|
    ensures JudgeAccess.Booked(table - {live[k].run}, live[..k] + live[k + 1..])
  {
    OthersStayLive(live, k);
    var rest := live[..k] + live[k + 1..];
    forall i | 0 <= i < |rest|
      ensures rest[i].run in table && rest[i].run != live[k].run && table[rest[i].run] == (rest[i].session, rest[i].n)
    {
      var j := if i < k then i else i + 1;
      assert rest[i] == live[j];
      if j < k { assert live[j].run != live[k].run; } else { assert live[k].run != live[j].run; }
    }
  }

  lemma DropOne(m: map<string, JudgeSession>, t: string)
    requires t in m
    ensures |m - {t}| == |m| - 1
  {
    assert (m - {t}).Keys == m.Keys - {t};
    assert |(m - {t}).Keys| == |m - {t}|;
    assert |m.Keys| == |m|;
  }

  lemma AddOne(m: map<string, JudgeSession>, t: string, s: JudgeSession)
    ensures |m[t := s]| <= |m| + 1
  {
    assert m[t := s].Keys == m.Keys + {t};
    assert |m[t := s].Keys| == |m[t := s]| && |m.Keys| == |m|;
  }
}
