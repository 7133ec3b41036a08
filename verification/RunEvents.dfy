// app/db/run_events.py: the durable journal of a run, and its replay.
//
// Every number is claimed by reading the greatest one stored and then inserting
// the next; the primary key settles the race. The log keeps every event ever
// persisted, so a replay can be compared with what happened. Retention may
// empty the table, and numbering then starts again: a new incarnation.

module RunEvents {
  import opened Domain

  datatype Entry = Entry(kind: string, body: string, serverTime: real)

  type Rows = map<nat, Entry>

  // ---- dense rows ----

  // The rows are the series from one past `dropped` on, numbered from 1.
  ghost predicate Dense(rows: Rows, series: seq<Entry>, dropped: nat) {
    && dropped <= |series|
    && (forall n :: n in rows <==> dropped < n <= |series|)
    && (forall n :: n in rows ==> rows[n] == series[n - 1])
  }

  ghost predicate InOrder(series: seq<Entry>) {
    forall i, j :: 0 <= i < j < |series| ==> series[i].serverTime <= series[j].serverTime
  }

  ghost predicate IsNotBefore(at: real, series: seq<Entry>) {
    forall i :: 0 <= i < |series| ==> series[i].serverTime <= at
  }

  function Retained(rows: Rows, cutoff: real): Rows { map n | n in rows && rows[n].serverTime > cutoff :: rows[n] }

  // How many of the series' events are gone once this cutoff has passed.
  function Aged(series: seq<Entry>, cutoff: real): (n: nat)
    ensures n <= |series|
  {
    if series == [] || series[0].serverTime > cutoff then 0 else 1 + Aged(series[1..], cutoff)
  }

  lemma {:induction false} AgedIsAPrefix(series: seq<Entry>, cutoff: real, i: nat)
    requires InOrder(series) && i < |series|
    ensures series[i].serverTime <= cutoff <==> i < Aged(series, cutoff)
  {
    if series[0].serverTime <= cutoff && i > 0 {
      assert forall j :: 0 <= j < |series[1..]| ==> series[1..][j] == series[j + 1];
      AgedIsAPrefix(series[1..], cutoff, i - 1);
    } else if i > 0 {
      assert series[0].serverTime <= series[i].serverTime;
    }
  }

  function Later(a: nat, b: nat): nat { if a < b then b else a }

  // A purge by time drops a prefix: what is left is dense again.
  lemma DensePurge(rows: Rows, series: seq<Entry>, dropped: nat, cutoff: real)
    requires Dense(rows, series, dropped) && InOrder(series)
    ensures Dense(Retained(rows, cutoff), series, Later(dropped, Aged(series, cutoff)))
  {
    hide Aged, InOrder;
    forall n | n in rows ensures n in Retained(rows, cutoff) <==> n > Aged(series, cutoff) {
      AgedIsAPrefix(series, cutoff, n - 1);
    }
  }

  // ---- replay ----

  // The first `limit` rows above the cursor, in order.
  ghost predicate IsPage(rows: Rows, after: int, limit: nat, page: seq<nat>) {
    && |page| <= limit
    && (forall i :: 0 <= i < |page| ==> page[i] in rows && page[i] > after)
    && (forall i, j :: 0 <= i < j < |page| ==> page[i] < page[j])
    && (forall n :: n in rows && n > after && n !in page ==>
          |page| == limit && forall i :: 0 <= i < |page| ==> page[i] < n)
  }

  predicate HasGap(rows: Rows, after: int) { after > 0 && after !in rows }

  function Upto(from: nat, n: nat): (s: seq<nat>)
    ensures |s| == n && forall i :: 0 <= i < n ==> s[i] == from + i
  {
    seq(n, i => from + i)
  }

  function Lesser(a: nat, b: nat): nat { if a < b then a else b }

  lemma UptoEmpty(from: nat)
    ensures [] == Upto(from, 0)
  {
  }

  // A page after what was seen continues it, and is empty only at the end.
  lemma PageAppends(from: nat, seen: seq<nat>, page: seq<nat>, limit: nat, rest: nat)
    requires |seen| <= rest && seen == Upto(from, |seen|) && limit > 0
    requires page == Upto(from + |seen|, Lesser(limit, rest - |seen|))
    ensures seen + page == Upto(from, |seen + page|) && |seen + page| <= rest
    ensures page != [] ==> (seen + page)[|seen + page| - 1] == from + |seen + page| - 1
    ensures page == [] ==> |seen| == rest
  {
  }

  // From a cursor the journal still holds, a page continues at the next number
  // and skips none.
  lemma PageContinues(rows: Rows, series: seq<Entry>, dropped: nat, after: nat, limit: nat, page: seq<nat>)
    requires Dense(rows, series, dropped) && IsPage(rows, after, limit, page)
    requires dropped <= after <= |series|
    ensures page == Upto(after + 1, Lesser(limit, |series| - after))
  {
    forall i | 0 <= i < |page| ensures page[i] == after + 1 + i {
      PageAt(rows, series, dropped, after, limit, page, i);
    }
    if |page| > 0 { assert page[|page| - 1] == after + |page|; }
    assert after + |page| + 1 !in page;
  }

  lemma {:induction false} PageAt(rows: Rows, series: seq<Entry>, dropped: nat, after: nat, limit: nat, page: seq<nat>,
                                  i: nat)
    requires Dense(rows, series, dropped) && IsPage(rows, after, limit, page)
    requires dropped <= after <= |series| && i < |page|
    ensures page[i] == after + 1 + i
  {
    if i > 0 { PageAt(rows, series, dropped, after, limit, page, i - 1); }
    var n := after + 1 + i;
    assert n <= page[i] && n in rows;
    assert n in page;
    var j :| 0 <= j < |page| && page[j] == n;
    assert j <= i;
    assert i > 0 ==> page[i - 1] < page[j];
    assert j >= i;
  }

  // Starting from nothing is gap-free by definition, and is complete exactly
  // when nothing was dropped.
  lemma FreshReplayIsCompleteExactlyWhenNothingWasDropped(rows: Rows, series: seq<Entry>, dropped: nat, limit: nat,
                                                          page: seq<nat>)
    requires Dense(rows, series, dropped) && series != [] && limit > 0 && IsPage(rows, 0, limit, page)
    ensures !HasGap(rows, 0)
    ensures (page != [] && page[0] == 1) <==> dropped == 0
  {
    if dropped == 0 { PageContinues(rows, series, 0, 0, limit, page); }
  }

  // ---- the journal of one run, step by step ----

  // A number read and not yet inserted. Its event is stamped after the read.
  datatype Claim = Claim(next: nat, at: Option<real>, isOpen: bool)

  // Every query names one owner and one run, so runs never meet. The last four
  // fields are history.
  datatype Journal = Journal(
    rows: Rows,
    clock: real,
    claims: seq<Claim>,
    log: seq<Entry>,     // every event ever persisted, as committed
    numbers: seq<nat>,   // and the number each was given
    base: nat,           // how many of them precede the current incarnation
    dropped: nat)        // how many of the current incarnation are purged
  {
    function Series(): seq<Entry> { if base <= |log| then log[base..] else [] }

    function Numbering(): seq<nat> { if base <= |numbers| then numbers[base..] else [] }
  }

  datatype Step =
    | Tick(later: real)
    | Read(top: nat)
    | Stamp(k: nat)
    | Insert(k: nat, kind: string, body: string)
    | GiveUp(k: nat)
    | Purge(cutoff: real)

  // The greatest number stored, or 0.
  ghost predicate IsTop(rows: Rows, top: nat) {
    (if rows == map[] then top == 0 else top in rows) && forall n :: n in rows ==> n <= top
  }

  ghost predicate CanStep(j: Journal, step: Step) {
    match step
    case Tick(later) => j.clock <= later
    case Read(top) => IsTop(j.rows, top)
    case Stamp(k) => k < |j.claims| && j.claims[k].isOpen && j.claims[k].at.None?
    case Insert(k, _, _) => k < |j.claims| && j.claims[k].isOpen && j.claims[k].at.Some?
    case GiveUp(k) => k < |j.claims|
    case Purge(cutoff) => cutoff <= j.clock
  }

  ghost function Apply(j: Journal, step: Step): Journal
    requires CanStep(j, step)
  {
    match step
    case Tick(later) => j.(clock := later)
    case Read(top) => j.(claims := j.claims + [Claim(top + 1, None, true)])
    case Stamp(k) => j.(claims := j.claims[k := j.claims[k].(at := Some(j.clock))])
    case Insert(k, kind, body) => Inserted(j, k, Entry(kind, body, j.claims[k].at.value))
    case GiveUp(k) => Closed(j, k)
    case Purge(cutoff) => Purged(j, cutoff)
  }

  function Closed(j: Journal, k: nat): Journal
    requires k < |j.claims|
  {
    j.(claims := j.claims[k := j.claims[k].(isOpen := false)])
  }

  // The primary key refuses a number already taken.
  function Inserted(j: Journal, k: nat, e: Entry): Journal
    requires k < |j.claims|
  {
    var n := j.claims[k].next;
    if n in j.rows then Closed(j, k)
    else Closed(j, k).(rows := j.rows[n := e], log := j.log + [e], numbers := j.numbers + [n])
  }

  // What the cutoff takes away of the current series.
  function Gone(j: Journal, cutoff: real): nat { Later(j.dropped, Aged(j.Series(), cutoff)) }

  // A table left empty forgets its numbers: the next event starts from 1.
  function Purged(j: Journal, cutoff: real): Journal {
    var rows := Retained(j.rows, cutoff);
    if rows == map[] && j.rows != map[] then j.(rows := rows, base := |j.log|, dropped := 0)
    else j.(rows := rows, dropped := Gone(j, cutoff))
  }

  // ---- the promise, and what retention must wait for ----

  // The current incarnation is numbered 1, 2, 3... as it was committed, its
  // rows are a suffix of it, and time does not run backwards along it.
  ghost predicate IsFaithful(j: Journal) {
    && j.base <= |j.log| == |j.numbers|
    && (forall i :: 0 <= i < |j.Numbering()| ==> j.Numbering()[i] == i + 1)
    && Dense(j.rows, j.Series(), j.dropped)
    && InOrder(j.Series())
  }

  // A claim may be stale, but never points past the next number, nor at one
  // whose row has been purged.
  ghost predicate IsSound(c: Claim, j: Journal) {
    c.isOpen ==>
      && j.dropped < c.next <= |j.Series()| + 1
      && (c.at.Some? ==> c.at.value <= j.clock)
      && (c.at.Some? && c.next == |j.Series()| + 1 ==> IsNotBefore(c.at.value, j.Series()))
  }

  ghost predicate Inv(j: Journal) {
    && IsFaithful(j)
    && (j.Series() == [] || j.dropped < |j.Series()|)
    && IsNotBefore(j.clock, j.Series())
    && (forall i :: 0 <= i < |j.numbers| ==> j.numbers[i] >= 1)
    && (forall k :: 0 <= k < |j.claims| ==> IsSound(j.claims[k], j))
  }

  // A claim under way whose insert this purge would let through at a number
  // that is not the next one.
  predicate IsInTheWay(c: Claim, j: Journal, cutoff: real) {
    c.isOpen && if Gone(j, cutoff) == |j.Series()| then c.next != 1 else c.next <= Gone(j, cutoff)
  }

  predicate IsClear(j: Journal, cutoff: real) {
    forall k :: 0 <= k < |j.claims| ==> !IsInTheWay(j.claims[k], j, cutoff)
  }

  predicate IsPatient(j: Journal, step: Step) { step.Purge? ==> IsClear(j, step.cutoff) }

  lemma StepKeepsInv(j: Journal, step: Step)
    requires Inv(j) && CanStep(j, step) && IsPatient(j, step)
    ensures Inv(Apply(j, step))
  {
    hide Inv, IsClear, Inserted, Purged, IsTop;
    match step
    case Insert(k, kind, body) => InsertKeepsInv(j, k, Entry(kind, body, j.claims[k].at.value));
    case Purge(cutoff) => PurgeKeepsInv(j, cutoff);
    case Read(top) => ReadKeepsInv(j, top);
    case _ => QuietStepKeepsInv(j, step);
  }

  // The greatest stored number is that of the last event persisted.
  lemma TopIsLast(j: Journal, top: nat)
    requires Inv(j) && IsTop(j.rows, top)
    ensures top == |j.Series()| && j.dropped <= top
  {
    if j.Series() != [] { assert |j.Series()| in j.rows; }
  }

  lemma ReadKeepsInv(j: Journal, top: nat)
    requires Inv(j) && IsTop(j.rows, top)
    ensures Inv(Apply(j, Read(top)))
  {
    TopIsLast(j, top);
    hide IsTop, IsFaithful;
    var j' := Apply(j, Read(top));
    SameBooks(j, j');
    forall k | 0 <= k < |j'.claims| ensures IsSound(j'.claims[k], j') {
      if k < |j.claims| { assert IsSound(j.claims[k], j); }
    }
  }

  lemma SameBooks(j: Journal, j': Journal)
    requires j'.rows == j.rows && j'.log == j.log && j'.numbers == j.numbers
    requires j'.base == j.base && j'.dropped == j.dropped
    ensures j'.Series() == j.Series() && (IsFaithful(j) ==> IsFaithful(j'))
  {
    assert j'.Numbering() == j.Numbering();
  }

  lemma QuietStepKeepsInv(j: Journal, step: Step)
    requires Inv(j) && CanStep(j, step) && (step.Tick? || step.Stamp? || step.GiveUp?)
    ensures Inv(Apply(j, step))
  {
    hide IsFaithful;
    var j' := Apply(j, step);
    SameBooks(j, j');
    forall k | 0 <= k < |j'.claims| ensures IsSound(j'.claims[k], j') {
      assert IsSound(j.claims[k], j);
    }
  }

  lemma InsertKeepsInv(j: Journal, k: nat, e: Entry)
    requires Inv(j) && k < |j.claims| && j.claims[k].isOpen && j.claims[k].at == Some(e.serverTime)
    ensures Inv(Inserted(j, k, e))
    ensures j.claims[k].next !in j.rows <==> j.claims[k].next == |j.Series()| + 1
  {
    hide IsFaithful, Dense;
    assert IsSound(j.claims[k], j);
    NextIsFree(j, j.claims[k].next);
    var j' := Inserted(j, k, e);
    if j.claims[k].next in j.rows {
      SameBooks(j, j');
    } else {
      NextKeepsFaith(j, j', e);
    }
    forall i | 0 <= i < |j'.claims| ensures IsSound(j'.claims[i], j') {
      assert IsSound(j.claims[i], j);
    }
  }

  lemma NextIsFree(j: Journal, n: nat)
    requires IsFaithful(j) && j.dropped < n <= |j.Series()| + 1
    ensures n !in j.rows <==> n == |j.Series()| + 1
  {
  }

  lemma NextKeepsFaith(j: Journal, j': Journal, e: Entry)
    requires IsFaithful(j) && IsNotBefore(e.serverTime, j.Series())
    requires j'.rows == j.rows[|j.Series()| + 1 := e] && j'.log == j.log + [e]
    requires j'.numbers == j.numbers + [|j.Series()| + 1] && j'.base == j.base && j'.dropped == j.dropped
    ensures IsFaithful(j') && j'.Series() == j.Series() + [e]
  {
    assert j'.Series() == j.Series() + [e];
    assert j'.Numbering() == j.Numbering() + [|j.Series()| + 1];
    assert |j.Numbering()| == |j.Series()|;
  }

  lemma PurgeKeepsInv(j: Journal, cutoff: real)
    requires Inv(j) && IsClear(j, cutoff)
    ensures Inv(Purged(j, cutoff))
  {
    hide IsFaithful, Gone;
    var j' := Purged(j, cutoff);
    PurgeKeepsFaith(j, cutoff);
    forall k | 0 <= k < |j'.claims| ensures IsSound(j'.claims[k], j') {
      assert IsSound(j.claims[k], j) && !IsInTheWay(j.claims[k], j, cutoff);
    }
  }

  lemma PurgeKeepsFaith(j: Journal, cutoff: real)
    requires Inv(j)
    ensures var j' := Purged(j, cutoff);
            && IsFaithful(j') && (j'.Series() == [] || j'.dropped < |j'.Series()|)
            && j.dropped <= Gone(j, cutoff) <= |j.Series()|
            && (if Gone(j, cutoff) == |j.Series()| then j'.Series() == [] && j'.dropped == 0
                else j'.Series() == j.Series() && j'.dropped == Gone(j, cutoff))
  {
    hide Aged, Retained, InOrder;
    var j' := Purged(j, cutoff);
    DensePurge(j.rows, j.Series(), j.dropped, cutoff);
    EmptiedExactly(j, cutoff);
    AnythingIsInOrder([]);
    if j'.base == j.base {
      assert j'.Series() == j.Series() && j'.Numbering() == j.Numbering();
    } else {
      assert j'.Series() == [] && j'.Numbering() == [];
    }
  }

  lemma AnythingIsInOrder(series: seq<Entry>)
    requires |series| <= 1
    ensures InOrder(series)
  {
  }

  // A purge empties the table exactly when the whole series is gone.
  lemma EmptiedExactly(j: Journal, cutoff: real)
    requires Inv(j)
    ensures Retained(j.rows, cutoff) == map[] <==> Gone(j, cutoff) == |j.Series()|
    ensures j.rows == map[] <==> j.Series() == []
  {
    hide Aged, Retained;
    DensePurge(j.rows, j.Series(), j.dropped, cutoff);
    if j.Series() != [] { assert |j.Series()| in j.rows; }
    var rows := Retained(j.rows, cutoff);
    if Gone(j, cutoff) < |j.Series()| { assert |j.Series()| in rows; } else { assert forall n :: n !in rows; }
  }

  // ---- exactly when a purge is safe ----

  ghost predicate IsRun(j: Journal, steps: seq<Step>)
    decreases |steps|
  {
    steps == [] || (CanStep(j, steps[0]) && IsRun(Apply(j, steps[0]), steps[1..]))
  }

  ghost predicate IsPatientRun(j: Journal, steps: seq<Step>)
    requires IsRun(j, steps)
    decreases |steps|
  {
    steps == [] || (IsPatient(j, steps[0]) && IsPatientRun(Apply(j, steps[0]), steps[1..]))
  }

  ghost function After(j: Journal, steps: seq<Step>): Journal
    requires IsRun(j, steps)
    decreases |steps|
  {
    if steps == [] then j else After(Apply(j, steps[0]), steps[1..])
  }

  lemma {:induction false} RunKeepsInv(j: Journal, steps: seq<Step>)
    requires Inv(j) && IsRun(j, steps) && IsPatientRun(j, steps)
    ensures Inv(After(j, steps))
    decreases |steps|
  {
    hide Inv, CanStep, Apply, IsPatient;
    if steps != [] {
      StepKeepsInv(j, steps[0]);
      RunKeepsInv(Apply(j, steps[0]), steps[1..]);
    }
  }

  lemma TwoSteps(j: Journal, a: Step, b: Step)
    requires CanStep(j, a) && CanStep(Apply(j, a), b)
    ensures IsRun(j, [a, b]) && After(j, [a, b]) == Apply(Apply(j, a), b)
  {
    OneStep(Apply(j, a), b);
    assert [a, b][1..] == [b];
  }

  lemma OneStep(j: Journal, a: Step)
    requires CanStep(j, a)
    ensures IsRun(j, [a]) && After(j, [a]) == Apply(j, a)
  {
    assert [a][1..] == [];
  }

  // The claim in the way goes through, at a number that is not the next one.
  lemma PurgeTooSoonMisnumbers(j: Journal, cutoff: real) returns (steps: seq<Step>)
    requires Inv(j) && cutoff <= j.clock && !IsClear(j, cutoff)
    ensures IsRun(Purged(j, cutoff), steps) && IsPatientRun(Purged(j, cutoff), steps)
    ensures !IsFaithful(After(Purged(j, cutoff), steps))
  {
    var k :| 0 <= k < |j.claims| && IsInTheWay(j.claims[k], j, cutoff);
    var j' := Purged(j, cutoff);
    assert j'.claims == j.claims;
    if j.claims[k].at.Some? {
      MisplacedInsert(j, cutoff, k, j', Entry("kind", "body", j.claims[k].at.value));
      OneStep(j', Insert(k, "kind", "body"));
      steps := [Insert(k, "kind", "body")];
    } else {
      MisplacedInsert(j, cutoff, k, Apply(j', Stamp(k)), Entry("kind", "body", j'.clock));
      TwoSteps(j', Stamp(k), Insert(k, "kind", "body"));
      steps := [Stamp(k), Insert(k, "kind", "body")];
      assert steps[1..] == [Insert(k, "kind", "body")];
    }
  }

  lemma MisplacedInsert(j: Journal, cutoff: real, k: nat, j': Journal, e: Entry)
    requires Inv(j) && k < |j.claims| && IsInTheWay(j.claims[k], j, cutoff)
    requires j' == Purged(j, cutoff).(claims := j'.claims) && k < |j'.claims| && j'.claims[k].next == j.claims[k].next
    ensures !IsFaithful(Inserted(j', k, e))
  {
    hide Aged, Retained, InOrder, Purged, Dense;
    PurgeKeepsFaith(j, cutoff);
    assert IsSound(j.claims[k], j);
    var n := j.claims[k].next;
    SameBooks(Purged(j, cutoff), j');
    NotStored(j', n);
    assert n != |j'.Series()| + 1;
    var after := Inserted(j', k, e);
    assert |j'.Numbering()| == |j'.Series()|;
    assert after.Numbering() == j'.Numbering() + [n];
    assert after.Numbering()[|j'.Series()|] == n;
  }

  lemma NotStored(j: Journal, n: nat)
    requires IsFaithful(j) && (n <= j.dropped || n > |j.Series()|)
    ensures n !in j.rows
  {
  }

  ghost predicate StaysFaithful(j: Journal) {
    forall steps :: IsRun(j, steps) && IsPatientRun(j, steps) ==> IsFaithful(After(j, steps))
  }

  // Purging is safe exactly when no insert under way would be let through out of
  // turn: exactly then every patient run that follows stays dense and in order.
  lemma PurgeIsSafeExactlyWhenClear(j: Journal, cutoff: real)
    requires Inv(j) && cutoff <= j.clock
    ensures StaysFaithful(Purged(j, cutoff)) <==> IsClear(j, cutoff)
  {
    hide IsFaithful, IsClear, IsRun, After, Purged, Inv;
    if IsClear(j, cutoff) {
      PurgeKeepsInv(j, cutoff);
      forall steps | IsRun(Purged(j, cutoff), steps) && IsPatientRun(Purged(j, cutoff), steps)
        ensures IsFaithful(After(Purged(j, cutoff), steps))
      {
        RunKeepsInv(Purged(j, cutoff), steps);
        InvIsFaithful(After(Purged(j, cutoff), steps));
      }
    } else {
      var steps := PurgeTooSoonMisnumbers(j, cutoff);
    }
  }

  lemma InvIsFaithful(j: Journal)
    requires Inv(j)
    ensures IsFaithful(j)
  {
  }

  // ---- exactly when a replay has no silent hole ----

  // The events behind a list of numbers.
  function Events(rows: Rows, seen: seq<nat>): seq<Entry>
    requires forall i :: 0 <= i < |seen| ==> seen[i] in rows
  {
    seq(|seen|, i requires 0 <= i < |seen| => rows[seen[i]])
  }

  // A client whose last event was log[p], and whose cursor is therefore its
  // number, is told there is no gap. What paging then gives it is exactly what
  // was persisted since, if and only if the row it stands on is its own: the
  // event belongs to the current incarnation.
  lemma ReplayContinuesExactlyItsOwnIncarnation(j: Journal, p: nat, seen: seq<nat>)
    requires Inv(j) && p < |j.log| && !HasGap(j.rows, j.numbers[p])
    requires seen == Upto(j.numbers[p] + 1, |j.Series()| - j.numbers[p])
    ensures forall i :: 0 <= i < |seen| ==> seen[i] in j.rows
    ensures Events(j.rows, seen) == j.log[p + 1..] <==> p >= j.base
    ensures p >= j.base <==> p == j.base + j.numbers[p] - 1
  {
    var m := j.numbers[p];
    assert m in j.rows;
    OwnNumber(j, p);
    ReplayedIsTheRest(j, m, seen);
  }

  lemma OwnNumber(j: Journal, p: nat)
    requires Inv(j) && p < |j.log|
    ensures p >= j.base <==> p == j.base + j.numbers[p] - 1
  {
    if p >= j.base { assert j.Numbering()[p - j.base] == p - j.base + 1; }
  }

  lemma ReplayedIsTheRest(j: Journal, m: nat, seen: seq<nat>)
    requires Inv(j) && j.dropped <= m <= |j.Series()| && seen == Upto(m + 1, |j.Series()| - m)
    ensures forall i :: 0 <= i < |seen| ==> seen[i] in j.rows
    ensures Events(j.rows, seen) == j.log[j.base + m..]
  {
    forall i | 0 <= i < |seen| ensures seen[i] in j.rows && j.rows[seen[i]] == j.log[j.base + m..][i] {
      assert seen[i] == m + 1 + i;
      assert j.rows[seen[i]] == j.Series()[m + i];
    }
  }

  // A client never told of a gap, in a run that retention never emptied, misses
  // nothing: there is one incarnation.
  lemma NoHoleWithoutRestart(j: Journal, p: nat, seen: seq<nat>)
    requires Inv(j) && j.base == 0 && p < |j.log| && !HasGap(j.rows, j.numbers[p])
    requires seen == Upto(j.numbers[p] + 1, |j.Series()| - j.numbers[p])
    ensures j.numbers[p] == p + 1 && (forall i :: 0 <= i < |seen| ==> seen[i] in j.rows)
    ensures Events(j.rows, seen) == j.log[p + 1..]
  {
    ReplayContinuesExactlyItsOwnIncarnation(j, p, seen);
  }

  // Time never runs backwards along the numbers.
  lemma TimeFollowsSequence(j: Journal, m: nat, n: nat)
    requires Inv(j) && m in j.rows && n in j.rows && m <= n
    ensures j.rows[m].serverTime <= j.rows[n].serverTime
  {
    if m < n { assert j.Series()[m - 1].serverTime <= j.Series()[n - 1].serverTime; }
  }

  // ---- a run that restarts ----

  function Empty(): Journal { Journal(map[], 0.0, [], [], [], 0, 0) }

  // One event, emitted without interference.
  lemma Emits(j: Journal, top: nat, kind: string, body: string)
    requires Inv(j) && IsTop(j.rows, top)
    ensures var k := |j.claims|; var steps := [Read(top), Stamp(k), Insert(k, kind, body)];
            var e := Entry(kind, body, j.clock);
            && IsRun(j, steps) && IsPatientRun(j, steps)
            && var j' := After(j, steps);
               && Inv(j') && j'.rows == j.rows[top + 1 := e] && j'.log == j.log + [e]
               && j'.numbers == j.numbers + [top + 1]
               && j'.base == j.base && j'.dropped == j.dropped && j'.clock == j.clock
               && |j'.claims| == k + 1 && !j'.claims[k].isOpen && j'.claims[..k] == j.claims
  {
    hide IsFaithful, IsTop, IsRun, After, IsPatientRun;
    var k := |j.claims|;
    TopIsLast(j, top);
    NextIsFree(j, top + 1);
    var j1 := Apply(j, Read(top));
    var j2 := Apply(j1, Stamp(k));
    TwoSteps(j1, Stamp(k), Insert(k, kind, body));
    ThreeSteps(j, Read(top), Stamp(k), Insert(k, kind, body));
    RunKeepsInv(j, [Read(top), Stamp(k), Insert(k, kind, body)]);
  }

  lemma ThreeSteps(j: Journal, a: Step, b: Step, c: Step)
    requires CanStep(j, a) && CanStep(Apply(j, a), b) && CanStep(Apply(Apply(j, a), b), c)
    requires !a.Purge? && !b.Purge? && !c.Purge?
    ensures IsRun(j, [a, b, c]) && After(j, [a, b, c]) == Apply(Apply(Apply(j, a), b), c)
    ensures IsPatientRun(j, [a, b, c])
  {
    TwoSteps(Apply(j, a), b, c);
    assert [a, b, c][1..] == [b, c] && [b, c][1..] == [c] && [c][1..] == [];
    assert IsPatientRun(Apply(Apply(j, a), b), [c]);
    assert IsPatientRun(Apply(j, a), [b, c]);
  }

  // An event is emitted and seen, retention empties the table, and two more are
  // emitted. The client's cursor is held, so it is told there is no gap; its
  // replay gives it the last event and never the one before.
  lemma RestartedRunHidesEvents(later: real)
    requires later > 0.0
    ensures var steps := [Read(0), Stamp(0), Insert(0, "start", "first")] + [Tick(later), Purge(0.0)] +
              [Read(0), Stamp(1), Insert(1, "start", "second")] + [Read(1), Stamp(2), Insert(2, "link", "third")];
            && IsRun(Empty(), steps) && IsPatientRun(Empty(), steps)
            && var j := After(Empty(), steps);
               && Inv(j) && j.numbers == [1, 1, 2] && !HasGap(j.rows, j.numbers[0])
               && Upto(j.numbers[0] + 1, |j.Series()| - j.numbers[0]) == [2]
               && j.rows[2] == j.log[2] && j.log[1] == Entry("start", "second", later)
  {
    hide IsRun, After, IsPatientRun, Apply, CanStep, IsFaithful, IsSound, Empty;
    EmptyIsSound();
    Emits(Empty(), 0, "start", "first");
    var first := [Read(0), Stamp(0), Insert(0, "start", "first")];
    var j1 := After(Empty(), first);
    EmptiesAfterwards(j1, later);
    var pause := [Tick(later), Purge(0.0)];
    Join(Empty(), first, pause);
    var j2 := After(j1, pause);
    Emits(j2, 0, "start", "second");
    OneRowIsTop(j2.rows[1 := Entry("start", "second", later)]);
    var second := [Read(0), Stamp(1), Insert(1, "start", "second")];
    Join(Empty(), first + pause, second);
    var j3 := After(j2, second);
    Emits(j3, 1, "link", "third");
    Join(Empty(), first + pause + second, [Read(1), Stamp(2), Insert(2, "link", "third")]);
  }

  lemma OneRowIsTop(rows: Rows)
    requires forall n :: n in rows <==> n == 1
    ensures IsTop(rows, 1)
  {
    assert 1 in rows;
  }

  lemma EmptyIsSound()
    ensures Inv(Empty()) && IsTop(Empty().rows, 0)
    ensures Empty() == Journal(map[], 0.0, [], [], [], 0, 0)
  {
  }

  lemma EmptiesAfterwards(j: Journal, later: real)
    requires Inv(j) && j.rows == map[1 := Entry("start", "first", 0.0)] && j.log == [j.rows[1]] && j.numbers == [1]
    requires j.base == j.dropped == 0 && j.clock == 0.0 && later > 0.0 && |j.claims| == 1 && !j.claims[0].isOpen
    ensures var steps := [Tick(later), Purge(0.0)];
            && IsRun(j, steps) && IsPatientRun(j, steps)
            && var j' := After(j, steps);
               && Inv(j') && j'.rows == map[] && IsTop(j'.rows, 0) && j'.log == j.log && j'.numbers == j.numbers
               && j'.base == 1 && j'.dropped == 0 && j'.clock == later && j'.claims == j.claims
  {
    var j1 := Apply(j, Tick(later));
    TwoSteps(j, Tick(later), Purge(0.0));
    assert [Tick(later), Purge(0.0)][1..] == [Purge(0.0)] && [Purge(0.0)][1..] == [];
    assert IsClear(j1, 0.0);
    RunKeepsInv(j, [Tick(later), Purge(0.0)]);
    assert Retained(j1.rows, 0.0) == map[];
  }

  lemma {:induction false} Join(j: Journal, a: seq<Step>, b: seq<Step>)
    requires IsRun(j, a) && IsPatientRun(j, a) && IsRun(After(j, a), b) && IsPatientRun(After(j, a), b)
    ensures IsRun(j, a + b) && IsPatientRun(j, a + b) && After(j, a + b) == After(After(j, a), b)
    decreases |a|
  {
    hide CanStep, Apply, IsPatient;
    if a == [] {
      assert a + b == b;
    } else {
      assert (a + b)[1..] == a[1..] + b;
      Join(Apply(j, a[0]), a[1..], b);
    }
  }

  // ---- the methods ----

  // What happens while one emitter is between its read and its insert: others
  // persist events before and after it stamps its own, and time passes.
  datatype Interference = Interference(early: seq<Entry>, pause: real, late: seq<Entry>)

  predicate IsIdle(i: Interference) { i.early == [] && i.late == [] }

  function Landed(rivals: nat -> Interference, attempts: nat): nat {
    if attempts == 0 then 0
    else Landed(rivals, attempts - 1) + |rivals(attempts - 1).early| + |rivals(attempts - 1).late|
  }

  lemma LandedMore(rivals: nat -> Interference, attempts: nat)
    ensures Landed(rivals, 0) == 0
    ensures Landed(rivals, attempts + 1) ==
      Landed(rivals, attempts) + |rivals(attempts).early| + |rivals(attempts).late|
  {
  }

  class RunJournal {
    var rows: Rows
    var clock: real
    ghost var state: Journal

    ghost predicate Mirrors()
      reads this
    {
      state.rows == rows && state.clock == clock
    }

    ghost predicate Valid()
      reads this
    {
      Mirrors() && Inv(state)
    }

    constructor ()
      ensures Valid() && state == Empty()
    {
      rows, clock, state := map[], 0.0, Empty();
      new;
      EmptyIsSound();
    }

    method Wait(pause: real)
      requires Mirrors() && pause >= 0.0
      modifies this
      ensures Mirrors() && state == Apply(old(state), Tick(old(clock) + pause))
      ensures old(Valid()) ==> Valid()
    {
      if Inv(state) { StepKeepsInv(state, Tick(clock + pause)); }
      hide Inv;
      clock := clock + pause;
      state := Apply(state, Tick(clock));
    }

    // The greatest number stored, or 0.
    method MaxSequence() returns (max: nat)
      ensures IsTop(rows, max)
    {
      var left := rows.Keys;
      max := 0;
      while left != {}
        invariant left <= rows.Keys
        invariant max == 0 || max in rows
        invariant forall n :: n in rows && n !in left ==> n <= max
        decreases left
      {
        var n :| n in left;
        left := left - {n};
        if n > max { max := n; }
      }
      if rows != map[] {
        var n :| n in rows;
        assert n <= max;
      }
    }

    // Read the next number: one past the last of the current incarnation.
    method ReadNext() returns (next: nat, ghost k: nat)
      requires Mirrors()
      modifies this`state
      ensures Mirrors() && next >= 1 && CanStep(old(state), Read(next - 1))
      ensures state == Apply(old(state), Read(next - 1))
      ensures k == |old(state).claims|
      ensures old(Valid()) ==> Valid() && next == |state.Series()| + 1
    {
      var max := MaxSequence();
      if Inv(state) {
        StepKeepsInv(state, Read(max));
        TopIsLast(state, max);
      }
      hide Inv, IsTop;
      next, k := max + 1, |state.claims|;
      state := Apply(state, Read(max));
    }

    // The time the event will carry: whatever the clock says by then.
    method StampClaim(ghost k: nat) returns (at: real)
      requires Mirrors() && CanStep(state, Stamp(k))
      modifies this`state
      ensures Mirrors() && at == clock && state == Apply(old(state), Stamp(k))
      ensures old(Valid()) ==> Valid()
    {
      if Inv(state) { StepKeepsInv(state, Stamp(k)); }
      hide Inv;
      at := clock;
      state := Apply(state, Stamp(k));
    }

    // One insert. The primary key refuses a number already taken.
    method InsertRow(ghost k: nat, next: nat, at: real, kind: string, body: string) returns (stored: bool)
      requires Mirrors() && CanStep(state, Insert(k, kind, body))
      requires state.claims[k].next == next && state.claims[k].at == Some(at)
      modifies this`rows, this`state
      ensures Mirrors() && state == Apply(old(state), Insert(k, kind, body))
      ensures stored <==> next !in old(rows)
      ensures old(Valid()) ==> Valid() && (stored <==> next == |old(state).Series()| + 1)
    {
      if Inv(state) {
        StepKeepsInv(state, Insert(k, kind, body));
        InsertKeepsInv(state, k, Entry(kind, body, at));
      }
      hide Inv;
      stored := next !in rows;
      state := Apply(state, Insert(k, kind, body));
      if stored { rows := rows[next := Entry(kind, body, at)]; }
    }

    // What only grows while events are persisted.
    ghost predicate GrownBy(was: Journal, n: nat)
      reads this
    {
      && |state.log| == |was.log| + n && was.log <= state.log && state.base == was.base && was.base <= |was.log|
      && |was.claims| <= |state.claims| && was.clock <= state.clock
      && forall k :: 0 <= k < |was.claims| ==> state.claims[k] == was.claims[k]
    }

    // What other emitters of the run persist, in order.
    method Interfere(rivals: seq<Entry>)
      requires Valid()
      modifies this
      ensures Valid() && GrownBy(old(state), |rivals|) && clock == old(clock)
      ensures forall i :: 0 <= i < |rivals| ==>
        state.log[|old(state).log| + i] == Entry(rivals[i].kind, rivals[i].body, clock)
    {
      hide Inv;
      var i := 0;
      BaseIsWithin();
      while i < |rivals|
        invariant 0 <= i <= |rivals| && Valid() && GrownBy(old(state), i) && clock == old(clock)
        invariant forall j :: 0 <= j < i ==>
          state.log[|old(state).log| + j] == Entry(rivals[j].kind, rivals[j].body, clock)
      {
        EmitAlone(rivals[i].kind, rivals[i].body);
        i := i + 1;
      }
    }

    lemma BaseIsWithin()
      requires Valid()
      ensures state.base <= |state.log| && |state.Series()| == |state.log| - state.base
    {
    }

    method EmitAlone(kind: string, body: string)
      requires Valid()
      modifies this
      ensures Valid() && GrownBy(old(state), 1) && clock == old(clock)
      ensures state.log == old(state).log + [Entry(kind, body, clock)]
    {
      hide Inv, IsTop;
      BaseIsWithin();
      var next, k := ReadNext();
      var at := StampClaim(k);
      var stored := InsertRow(k, next, at, kind, body);
    }

    // One try: read the next number, stamp the event, insert.
    method TryOnce(kind: string, body: string, rivals: Interference) returns (sequence: Option<nat>)
      requires Valid() && rivals.pause >= 0.0
      modifies this
      ensures Valid() && state.base == old(state).base && old(state).log <= state.log && old(clock) <= clock
      ensures sequence.None? <==> !IsIdle(rivals)
      ensures sequence.None? ==> |state.log| == |old(state).log| + |rivals.early| + |rivals.late|
      ensures sequence.Some? ==> IsStoredLast(sequence.value, kind, body, old(clock))
    {
      hide Inv, IsTop;
      BaseIsWithin();
      var next, k := ReadNext();
      Interfere(rivals.early);
      Wait(rivals.pause);
      var at := StampClaim(k);
      Interfere(rivals.late);
      BaseIsWithin();
      var stored := InsertRow(k, next, at, kind, body);
      BaseIsWithin();
      LastIsStored();
      sequence := if stored then Some(next) else None;
    }

    // The event is the last persisted, under the last number, and carries a time
    // from within the call.
    ghost predicate IsStoredLast(n: nat, kind: string, body: string, since: real)
      reads this
    {
      && n == |state.Series()| > 0 && n in rows
      && rows[n].kind == kind && rows[n].body == body && since <= rows[n].serverTime <= clock
    }

    lemma LastIsStored()
      requires Valid()
      ensures |state.Series()| > 0 ==>
        |state.Series()| in rows && rows[|state.Series()|] == state.Series()[|state.Series()| - 1]
    {
    }

    // Persist one event, trying three numbers at most. It is dropped exactly
    // when rivals took the number each time; otherwise it is stored once, under
    // the number returned, after everything persisted before it.
    method PersistEvent(runId: string, kind: string, body: string, rivals: nat -> Interference)
      returns (sequence: Option<nat>)
      requires Valid() && forall k :: rivals(k).pause >= 0.0
      modifies this
      ensures Valid() && state.base == old(state).base && old(state).log <= state.log
      ensures runId == "" ==> sequence == None && state == old(state)
      ensures runId != "" ==> (sequence.None? <==> forall k :: 0 <= k < 3 ==> !IsIdle(rivals(k)))
      ensures sequence.Some? ==> IsStoredLast(sequence.value, kind, body, old(clock))
      ensures runId != "" && sequence.None? ==> |state.log| == |old(state).log| + Landed(rivals, 3)
    {
      hide Valid, IsStoredLast, Landed, IsIdle;
      if runId == "" { return None; }
      var attempt := 0;
      assert Landed(rivals, 0) == 0 by { LandedMore(rivals, 0); }
      while attempt < 3
        invariant 0 <= attempt <= 3 && Valid() && state.base == old(state).base && old(clock) <= clock
        invariant old(state).log <= state.log && |state.log| == |old(state).log| + Landed(rivals, attempt)
        invariant forall k :: 0 <= k < attempt ==> !IsIdle(rivals(k))
      {
        ghost var before := clock;
        sequence := TryOnce(kind, body, rivals(attempt));
        if sequence.Some? {
          StoredSinceEarlier(sequence.value, kind, body, before, old(clock));
          return;
        }
        LandedMore(rivals, attempt);
        attempt := attempt + 1;
      }
      sequence := None;
    }

    lemma StoredSinceEarlier(n: nat, kind: string, body: string, since: real, earlier: real)
      requires IsStoredLast(n, kind, body, since) && earlier <= since
      ensures IsStoredLast(n, kind, body, earlier)
    {
    }

    // Retention, whenever it runs. The journal stays faithful if no insert under
    // way is in its way, and by PurgeIsSafeExactlyWhenClear only then for good.
    method PurgeOlderThan(cutoff: real)
      requires Mirrors() && cutoff <= clock
      modifies this`rows, this`state
      ensures Mirrors() && state == Apply(old(state), Purge(cutoff)) && rows == Retained(old(rows), cutoff)
      ensures old(Valid()) && IsClear(old(state), cutoff) ==> Valid()
    {
      if Inv(state) && IsClear(state, cutoff) { StepKeepsInv(state, Purge(cutoff)); }
      hide Inv, IsClear;
      rows := map n | n in rows && rows[n].serverTime > cutoff :: rows[n];
      state := Apply(state, Purge(cutoff));
    }

    // A bounded page above the cursor, in order.
    method EventsAfter(after: int, limit: nat) returns (page: seq<nat>)
      ensures IsPage(rows, after, limit, page)
    {
      page := [];
      var left := set n | n in rows && n > after;
      while |page| < limit && left != {}
        invariant |page| <= limit
        invariant forall n :: n in left ==> n in rows && n > after
        invariant forall i :: 0 <= i < |page| ==> page[i] in rows && page[i] > after
        invariant forall i, j :: 0 <= i < j < |page| ==> page[i] < page[j]
        invariant forall n, i :: n in left && 0 <= i < |page| ==> page[i] < n
        invariant forall n :: n in rows && n > after && n !in page ==> n in left
        decreases left
      {
        var least := Least(left);
        page, left := page + [least], left - {least};
      }
    }

    static method Least(numbers: set<nat>) returns (least: nat)
      requires numbers != {}
      ensures least in numbers && forall n :: n in numbers ==> least <= n
    {
      least :| least in numbers;
      var left := numbers - {least};
      while left != {}
        invariant left <= numbers && least in numbers
        invariant forall n :: n in numbers && n !in left ==> least <= n
        decreases left
      {
        var n :| n in left;
        left := left - {n};
        if n < least { least := n; }
      }
    }

    method NextPage(after: nat, limit: nat) returns (page: seq<nat>)
      requires Valid() && state.dropped <= after <= |state.Series()|
      ensures page == Upto(after + 1, Lesser(limit, |state.Series()| - after))
    {
      page := EventsAfter(after, limit);
      PageContinues(rows, state.Series(), state.dropped, after, limit, page);
    }

    // A client paging from a cursor the journal still holds sees every later
    // number exactly once, in order, and then stops.
    method ReplayFrom(after: nat, limit: nat) returns (seen: seq<nat>)
      requires Valid() && limit > 0 && !HasGap(rows, after) && (after == 0 ==> state.dropped == 0)
      ensures after <= |state.Series()| && seen == Upto(after + 1, |state.Series()| - after)
    {
      hide Valid, Upto, Lesser, HasGap;
      HeldCursor(after);
      ghost var rest := |state.Series()| - after;
      seen := [];
      UptoEmpty(after + 1);
      var page := NextPage(after, limit);
      while page != []
        invariant |seen| <= rest && seen == Upto(after + 1, |seen|)
        invariant page == Upto(after + 1 + |seen|, Lesser(limit, rest - |seen|))
        decreases rest - |seen|
      {
        PageAppends(after + 1, seen, page, limit, rest);
        seen := seen + page;
        page := NextPage(seen[|seen| - 1], limit);
      }
      PageAppends(after + 1, seen, page, limit, rest);
    }

    lemma HeldCursor(after: nat)
      requires Valid() && !HasGap(rows, after) && (after == 0 ==> state.dropped == 0)
      ensures state.dropped <= after <= |state.Series()|
    {
    }
  }
}
