// app/db/outcomes.py: merchant outcomes as an append-only list of corrections.
//
// A report reads in one transaction and writes in another. Between the two any
// other report or purge may commit, so the log keeps every decision still open
// and each transaction is a method of its own: any order of calls is an
// interleaving.

module Outcomes {
  import opened Domain

  datatype Slot = Slot(owner: string, chainId: string, dimension: string)

  datatype Event = Event(slot: Slot, value: string, reportedAt: real, supersedes: Option<string>,
                         supersededBy: Option<string>)

  datatype Report = Report(slot: Slot, value: string, supersedes: Option<string>, key: string, fingerprint: string)

  // The answer a caller gets, and gets again on a retry.
  datatype Receipt = Receipt(eventId: string, slot: Slot, value: string, reportedAt: real, supersedes: Option<string>)

  datatype Record = Record(fingerprint: string, receipt: Receipt)

  // What a report decided from what it read, not yet written.
  datatype Draft = Draft(report: Report, head: Option<string>, eventId: string, now: real)

  datatype Ruling =
    | Proceed(draft: Draft)
    | Written(receipt: Receipt)
    | Replayed(receipt: Receipt)
    | KeyConflict
    | AlreadyLabelled
    | TargetNotFound
    | Collided

  type Events = map<string, Event>

  predicate IsHead(events: Events, slot: Slot, id: string) {
    id in events && events[id].slot == slot && events[id].supersededBy.None?
  }

  // The ids of one slot, oldest first, each linked to the next and back.
  ghost predicate IsTimeline(events: Events, slot: Slot, ids: seq<string>) {
    && Distinct(ids)
    && Lists(events, slot, ids)
    && IsLinked(events, ids)
    && (ids != [] ==> events[ids[|ids| - 1]].supersededBy.None?)
  }

  ghost predicate Lists(events: Events, slot: Slot, ids: seq<string>) {
    forall id :: id in ids <==> id in events && events[id].slot == slot
  }

  ghost predicate IsLinked(events: Events, ids: seq<string>) {
    forall i :: 0 < i < |ids| ==> Follows(events, ids[i - 1], ids[i])
  }

  // One event was corrected by the other, no earlier than it was reported.
  predicate Follows(events: Events, earlier: string, later: string) {
    && earlier in events && later in events
    && events[earlier].supersededBy == Some(later) && events[later].supersedes == Some(earlier)
    && events[earlier].reportedAt <= events[later].reportedAt
  }

  predicate IsLast(id: string, ids: seq<string>) { ids != [] && id == ids[|ids| - 1] }

  lemma LinkedAt(events: Events, ids: seq<string>, i: nat)
    requires IsLinked(events, ids) && i < |ids|
    ensures i + 1 < |ids| ==> Follows(events, ids[i], ids[i + 1])
  {
    if i + 1 < |ids| { assert Follows(events, ids[i + 1 - 1], ids[i + 1]); }
  }

  // A slot with events has exactly one current event, the last of its timeline.
  lemma OneHead(events: Events, slot: Slot, ids: seq<string>, id: string)
    requires IsTimeline(events, slot, ids)
    ensures IsHead(events, slot, id) <==> IsLast(id, ids)
  {
    if IsHead(events, slot, id) {
      assert id in ids;
      var i :| 0 <= i < |ids| && ids[i] == id;
      LinkedAt(events, ids, i);
    }
    if ids != [] { assert ids[|ids| - 1] in ids; }
  }

  // The links leave no choice: the timeline of a slot is the only one.
  lemma TimelineIsUnique(events: Events, slot: Slot, a: seq<string>, b: seq<string>)
    requires IsTimeline(events, slot, a) && IsTimeline(events, slot, b)
    ensures a == b
  {
    hide IsTimeline;
    if |a| <= |b| { SameTail(events, slot, a, b, |a|); NoEarlier(events, slot, a, b); }
    else { SameTail(events, slot, b, a, |b|); NoEarlier(events, slot, b, a); }
  }

  lemma {:induction false} SameTail(events: Events, slot: Slot, a: seq<string>, b: seq<string>, n: nat)
    requires IsTimeline(events, slot, a) && IsTimeline(events, slot, b) && n <= |a| <= |b|
    ensures a[|a| - n..] == b[|b| - n..]
  {
    hide Distinct;
    if n == 1 {
      OneHead(events, slot, a, a[|a| - 1]);
      OneHead(events, slot, b, a[|a| - 1]);
    } else if n > 1 {
      SameTail(events, slot, a, b, n - 1);
      assert a[|a| - n + 1..][0] == b[|b| - n + 1..][0];
      assert Follows(events, a[|a| - n], a[|a| - n + 1]) && Follows(events, b[|b| - n], b[|b| - n + 1]);
    }
  }

  lemma NoEarlier(events: Events, slot: Slot, a: seq<string>, b: seq<string>)
    requires IsTimeline(events, slot, a) && IsTimeline(events, slot, b) && |a| <= |b|
    requires a == b[|b| - |a|..]
    ensures |a| == |b|
  {
    hide Distinct, IsLinked;
    NoRoomBefore(a, b);
  }

  lemma NoRoomBefore(a: seq<string>, b: seq<string>)
    requires Distinct(b) && |a| <= |b| && a == b[|b| - |a|..] && forall id :: id in b ==> id in a
    ensures |a| == |b|
  {
    hide Distinct;
    var d := |b| - |a|;
    if d > 0 {
      assert b[0] in a;
      var i :| 0 <= i < |a| && a[i] == b[0];
      assert b[d + i] == b[0];
      DistinctAt(b, 0, d + i);
    }
  }

  lemma DistinctAt(ids: seq<string>, i: nat, j: nat)
    requires Distinct(ids) && i < |ids| && j < |ids| && ids[i] == ids[j]
    ensures i == j
  {
  }

  // ---- what each transaction does to a timeline ----

  function Superseding(events: Events, draft: Draft): Events {
    var marked := if draft.head.Some? && draft.head.value in events
                  then events[draft.head.value := events[draft.head.value].(supersededBy := Some(draft.eventId))]
                  else events;
    marked[draft.eventId := Event(draft.report.slot, draft.report.value, draft.now, draft.report.supersedes, None)]
  }

  // The draft corrects the slot's current event, or starts an empty slot.
  ghost predicate Fits(events: Events, draft: Draft, ids: seq<string>) {
    && draft.eventId !in events && draft.report.supersedes == draft.head
    && draft.head == (if ids == [] then None else Some(ids[|ids| - 1]))
    && (ids != [] ==> ids[|ids| - 1] in events && events[ids[|ids| - 1]].reportedAt <= draft.now)
  }

  lemma TimelineExtends(events: Events, draft: Draft, ids: seq<string>)
    requires IsTimeline(events, draft.report.slot, ids) && Fits(events, draft, ids)
    ensures IsTimeline(Superseding(events, draft), draft.report.slot, ids + [draft.eventId])
  {
    hide Distinct, IsLinked;
    ExtendedDistinct(events, draft.report.slot, ids, draft.eventId);
    ExtendedLinks(events, draft, ids);
  }

  lemma ExtendedDistinct(events: Events, slot: Slot, ids: seq<string>, id: string)
    requires Distinct(ids) && Lists(events, slot, ids) && id !in events
    ensures Distinct(ids + [id])
  {
    assert id !in ids;
  }

  lemma ExtendedLinks(events: Events, draft: Draft, ids: seq<string>)
    requires IsTimeline(events, draft.report.slot, ids) && Fits(events, draft, ids)
    ensures IsLinked(Superseding(events, draft), ids + [draft.eventId])
  {
    var after, ids' := Superseding(events, draft), ids + [draft.eventId];
    forall i | 0 < i < |ids'| ensures Follows(after, ids'[i - 1], ids'[i]) {
      if i < |ids| {
        assert Follows(events, ids[i - 1], ids[i]);
        assert ids[i - 1] != ids[|ids| - 1];
      }
    }
  }

  // Writing a correction touches nothing of what was reported before.
  lemma OnlyLinksChange(events: Events, draft: Draft)
    requires draft.eventId !in events
    ensures var after := Superseding(events, draft);
            && (forall id :: id in after <==> id in events || id == draft.eventId)
            && (forall id :: id in events ==> after[id] == events[id].(supersededBy := after[id].supersededBy))
            && after[draft.eventId] ==
                 Event(draft.report.slot, draft.report.value, draft.now, draft.report.supersedes, None)
  {
  }

  lemma OtherTimelineStays(events: Events, draft: Draft, slot: Slot, ids: seq<string>)
    requires IsTimeline(events, slot, ids) && draft.eventId !in events && slot != draft.report.slot
    requires draft.head.Some? && draft.head.value in events ==> events[draft.head.value].slot == draft.report.slot
    ensures IsTimeline(Superseding(events, draft), slot, ids)
  {
    hide Distinct;
    assert forall id :: id in ids ==> id in events && Superseding(events, draft)[id] == events[id];
    forall i | 0 < i < |ids| ensures Follows(Superseding(events, draft), ids[i - 1], ids[i]) {
      assert Follows(events, ids[i - 1], ids[i]);
    }
  }

  function Kept(events: Events, cutoff: real): Events {
    map id | id in events && events[id].reportedAt > cutoff :: events[id]
  }

  function Aged(events: Events, ids: seq<string>, cutoff: real): (n: nat)
    ensures n <= |ids|
  {
    if ids == [] || ids[0] !in events || events[ids[0]].reportedAt > cutoff then 0
    else 1 + Aged(events, ids[1..], cutoff)
  }

  // Along the links no event is older than the one before it.
  lemma {:induction false} NoEarlierReport(events: Events, ids: seq<string>, i: nat)
    requires IsLinked(events, ids) && i < |ids| && forall id :: id in ids ==> id in events
    ensures events[ids[0]].reportedAt <= events[ids[i]].reportedAt
  {
    if i > 0 {
      NoEarlierReport(events, ids, i - 1);
      assert Follows(events, ids[i - 1], ids[i]);
    }
  }

  lemma {:induction false} AgedIsAPrefix(events: Events, ids: seq<string>, cutoff: real, i: nat)
    requires IsLinked(events, ids) && i < |ids| && forall id :: id in ids ==> id in events
    ensures events[ids[i]].reportedAt <= cutoff <==> i < Aged(events, ids, cutoff)
  {
    if events[ids[0]].reportedAt > cutoff {
      NoEarlierReport(events, ids, i);
    } else if i > 0 {
      LinkedSuffix(events, ids, 1);
      AgedIsAPrefix(events, ids[1..], cutoff, i - 1);
    }
  }

  lemma LinkedSuffix(events: Events, ids: seq<string>, n: nat)
    requires IsLinked(events, ids) && n <= |ids|
    ensures IsLinked(events, ids[n..])
  {
    forall i | 0 < i < |ids[n..]| ensures Follows(events, ids[n..][i - 1], ids[n..][i]) {
      assert Follows(events, ids[n + i - 1], ids[n + i]);
    }
  }

  // A purge by age cuts a prefix off every timeline and leaves the rest linked.
  lemma PurgeCutsAPrefix(events: Events, slot: Slot, ids: seq<string>, cutoff: real)
    requires IsTimeline(events, slot, ids)
    ensures IsTimeline(Kept(events, cutoff), slot, ids[Aged(events, ids, cutoff)..])
  {
    hide Aged, Distinct, IsLinked, Kept;
    var n := Aged(events, ids, cutoff);
    SuffixIsDistinct(ids, n);
    LinkedSuffix(events, ids, n);
    SuffixIsListed(events, slot, ids, cutoff);
    StillLinked(events, ids[n..], cutoff);
    if ids[n..] != [] { assert ids[n..][|ids[n..]| - 1] == ids[|ids| - 1]; KeptAsIs(events, cutoff, ids[|ids| - 1]); }
  }

  lemma KeptAsIs(events: Events, cutoff: real, id: string)
    ensures id in Kept(events, cutoff) <==> id in events && events[id].reportedAt > cutoff
    ensures id in Kept(events, cutoff) ==> Kept(events, cutoff)[id] == events[id]
  {
  }

  lemma SuffixIsListed(events: Events, slot: Slot, ids: seq<string>, cutoff: real)
    requires Lists(events, slot, ids) && IsLinked(events, ids)
    ensures Lists(Kept(events, cutoff), slot, ids[Aged(events, ids, cutoff)..])
  {
    hide Aged, IsLinked;
    var n := Aged(events, ids, cutoff);
    forall id ensures id in ids[n..] <==> id in Kept(events, cutoff) && events[id].slot == slot {
      if id in ids[n..] {
        var i :| n <= i < |ids| && ids[i] == id;
        AgedIsAPrefix(events, ids, cutoff, i);
      }
      if id in Kept(events, cutoff) && events[id].slot == slot {
        assert id in ids;
        var i :| 0 <= i < |ids| && ids[i] == id;
        AgedIsAPrefix(events, ids, cutoff, i);
        assert ids[n..][i - n] == id;
      }
    }
  }

  lemma StillLinked(events: Events, ids: seq<string>, cutoff: real)
    requires IsLinked(events, ids) && forall id :: id in ids ==> id in Kept(events, cutoff)
    ensures IsLinked(Kept(events, cutoff), ids)
  {
    forall i | 0 < i < |ids| ensures Follows(Kept(events, cutoff), ids[i - 1], ids[i]) {
      assert Follows(events, ids[i - 1], ids[i]);
    }
  }

  lemma SuffixIsDistinct(ids: seq<string>, n: nat)
    requires Distinct(ids) && n <= |ids|
    ensures Distinct(ids[n..])
  {
  }

  function LineOf(timelines: map<Slot, seq<string>>, slot: Slot): seq<string> {
    if slot in timelines then timelines[slot] else []
  }

  ghost predicate AllLinked(events: Events, timelines: map<Slot, seq<string>>) {
    forall slot :: IsTimeline(events, slot, LineOf(timelines, slot))
  }

  function Trimmed(events: Events, timelines: map<Slot, seq<string>>, cutoff: real): map<Slot, seq<string>> {
    map slot | slot in timelines :: timelines[slot][Aged(events, timelines[slot], cutoff)..]
  }

  lemma AllTrimmed(events: Events, timelines: map<Slot, seq<string>>, cutoff: real)
    requires AllLinked(events, timelines)
    ensures AllLinked(Kept(events, cutoff), Trimmed(events, timelines, cutoff))
    ensures forall slot :: var line := LineOf(timelines, slot);
      LineOf(Trimmed(events, timelines, cutoff), slot) == line[Aged(events, line, cutoff)..]
  {
    hide IsTimeline, Kept;
    forall slot ensures IsTimeline(Kept(events, cutoff), slot, LineOf(Trimmed(events, timelines, cutoff), slot)) {
      PurgeCutsAPrefix(events, slot, LineOf(timelines, slot), cutoff);
    }
  }

  lemma AllExtended(events: Events, timelines: map<Slot, seq<string>>, d: Draft)
    requires AllLinked(events, timelines) && Fits(events, d, LineOf(timelines, d.report.slot))
    ensures var line := LineOf(timelines, d.report.slot);
            AllLinked(Superseding(events, d), timelines[d.report.slot := line + [d.eventId]])
  {
    hide IsTimeline, Superseding;
    var line := LineOf(timelines, d.report.slot);
    var after := timelines[d.report.slot := line + [d.eventId]];
    TimelineExtends(events, d, line);
    HeadIsListed(events, d.report.slot, line);
    forall slot ensures IsTimeline(Superseding(events, d), slot, LineOf(after, slot)) {
      if slot != d.report.slot { OtherTimelineStays(events, d, slot, LineOf(timelines, slot)); }
    }
  }

  lemma HeadIsListed(events: Events, slot: Slot, ids: seq<string>)
    requires IsTimeline(events, slot, ids)
    ensures ids != [] ==> ids[|ids| - 1] in events && events[ids[|ids| - 1]].slot == slot
  {
    if ids != [] { assert ids[|ids| - 1] in ids; }
  }

  // ---- the log ----

  class OutcomeLog {
    var events: Events
    var records: map<(string, string), Record>

    ghost var timelines: map<Slot, seq<string>>
    ghost var drafts: set<Draft>       // decided and not yet settled
    ghost var issued: set<string>      // every event id ever drawn
    ghost var clock: real

    ghost function Timeline(slot: Slot): seq<string>
      reads this`timelines
    {
      LineOf(timelines, slot)
    }

    ghost predicate Linked()
      reads this`events, this`timelines
    {
      AllLinked(events, timelines)
    }

    // What a decision may still rely on, however long ago it read.
    ghost predicate Holds(d: Draft)
      reads this
    {
      && d.eventId in issued && d.eventId !in events && d.now <= clock
      && d.report.supersedes == d.head
      && (d.head.Some? ==> d.head.value in issued && d.head.value != d.eventId)
      && (d.head.Some? && d.head.value in events ==>
            events[d.head.value].slot == d.report.slot && events[d.head.value].reportedAt <= d.now)
    }

    ghost predicate Valid()
      reads this
    {
      && Linked()
      && (forall id :: id in events ==> id in issued && events[id].reportedAt <= clock)
      && (forall d :: d in drafts ==> Holds(d))
      && (forall d, e :: d in drafts && e in drafts ==> Apart(d, e))
      && (forall k :: k in records ==> Attested(records[k].receipt))
      && (forall k, d :: k in records && d in drafts ==> records[k].receipt.eventId != d.eventId)
    }

    // What a retry is told is what was stored, for as long as it is stored.
    ghost predicate Attested(r: Receipt)
      reads this
    {
      r.eventId in issued && (r.eventId in events ==>
        var e := events[r.eventId];
        e.slot == r.slot && e.value == r.value && e.reportedAt == r.reportedAt && e.supersedes == r.supersedes)
    }

    // Two open decisions write different events, and neither corrects the
    // other's.
    ghost predicate Apart(d: Draft, e: Draft) {
      (d.eventId == e.eventId ==> d == e) && e.head != Some(d.eventId)
    }

    constructor ()
      ensures Valid() && events == map[] && records == map[] && drafts == {}
    {
      events, records := map[], map[];
      timelines, drafts, issued, clock := map[], {}, {}, 0.0;
    }

    ghost method Tick(later: real)
      requires Valid() && clock <= later
      modifies this`clock
      ensures Valid() && clock == later
    {
      hide AllLinked;
      clock := later;
    }

    method CurrentHead(slot: Slot) returns (head: Option<string>)
      requires Valid()
      ensures head == if Timeline(slot) == [] then None else Some(Timeline(slot)[|Timeline(slot)| - 1])
    {
      hide AllLinked;
      HeadsOf(slot);
      head := None;
      if exists id :: id in events && IsHead(events, slot, id) {
        var id :| id in events && IsHead(events, slot, id);
        head := Some(id);
      }
    }

    lemma HeadsOf(slot: Slot)
      requires Valid()
      ensures forall id :: IsHead(events, slot, id) <==> IsLast(id, Timeline(slot))
      ensures Timeline(slot) != [] ==> IsHead(events, slot, Timeline(slot)[|Timeline(slot)| - 1])
      ensures forall id :: id in Timeline(slot) <==> id in events && events[id].slot == slot
    {
      forall id ensures IsHead(events, slot, id) <==> IsLast(id, Timeline(slot)) {
        OneHead(events, slot, Timeline(slot), id);
      }
      assert IsTimeline(events, slot, Timeline(slot));
    }

    // The reading transaction: a retry is answered, a wrong target refused, and
    // otherwise the event to write is drawn up.
    method Decide(report: Report, eventId: string, now: real) returns (r: Ruling)
      requires Valid() && now == clock && eventId !in issued
      modifies this`drafts, this`issued
      ensures Valid()
      ensures var key := (report.slot.owner, report.key); var line := Timeline(report.slot);
              var head := if line == [] then None else Some(line[|line| - 1]);
              if key in records then
                r == if records[key].fingerprint == report.fingerprint
                     then Replayed(records[key].receipt) else KeyConflict
              else if report.supersedes == head then r == Proceed(Draft(report, head, eventId, now))
              else r == if report.supersedes.None? then AlreadyLabelled else TargetNotFound
      ensures r.Proceed? ==> drafts == old(drafts) + {r.draft}
      ensures !r.Proceed? ==> drafts == old(drafts)
    {
      hide AllLinked;
      var key := (report.slot.owner, report.key);
      if key in records {
        if records[key].fingerprint != report.fingerprint { return KeyConflict; }
        return Replayed(records[key].receipt);
      }
      var head := CurrentHead(report.slot);
      if head.None? {
        if report.supersedes.Some? { return TargetNotFound; }
      } else if report.supersedes != head {
        if report.supersedes.None? { return AlreadyLabelled; }
        return TargetNotFound;
      }
      HeadsOf(report.slot);
      var draft := Draft(report, head, eventId, now);
      drafts, issued := drafts + {draft}, issued + {eventId};
      r := Proceed(draft);
    }

    // The writing transaction: compare-and-swap the head, insert the event and
    // the record, and commit all of it or none.
    method Commit(d: Draft) returns (r: Ruling)
      requires Valid() && d in drafts
      modifies this`events, this`records, this`timelines, this`drafts
      ensures Valid() && drafts == old(drafts) - {d}
      ensures r.Written? <==>
        && (if d.head.Some? then IsHead(old(events), d.report.slot, d.head.value)
            else old(Timeline(d.report.slot)) == [])
        && (d.report.slot.owner, d.report.key) !in old(records)
      ensures r.Written? ==> Timeline(d.report.slot) == old(Timeline(d.report.slot)) + [d.eventId]
      ensures r.Written? ==> forall slot :: slot != d.report.slot ==> Timeline(slot) == old(Timeline(slot))
      ensures r.Written? ==> events == Superseding(old(events), d)
      ensures r.Written? ==>
        && r.receipt == Receipt(d.eventId, d.report.slot, d.report.value, d.now, d.report.supersedes)
        && records == old(records)[(d.report.slot.owner, d.report.key) := Record(d.report.fingerprint, r.receipt)]
      ensures !r.Written? ==> events == old(events) && records == old(records) && timelines == old(timelines)
      ensures r.TargetNotFound? <==> d.head.Some? && !IsHead(old(events), d.report.slot, d.head.value)
      ensures r.Written? || r.TargetNotFound? || r.Collided?
    {
      hide AllLinked, Superseding;
      var slot := d.report.slot;
      HeadsOf(slot);
      var blocked := exists id :: id in events && IsHead(events, slot, id) && d.head != Some(id);
      TakeUp(d);
      if d.head.Some? {
        if d.head.value !in events || events[d.head.value].supersededBy.Some? { return TargetNotFound; }
      }
      // The partial unique index, once the old head is marked; and the primary
      // key of the idempotency record.
      if blocked || (slot.owner, d.report.key) in records { return Collided; }
      OnlyLinksChange(events, d);
      Append(d);
      var receipt := Receipt(d.eventId, slot, d.report.value, d.now, d.report.supersedes);
      Keep(d, receipt);
      r := Written(receipt);
    }

    ghost method TakeUp(d: Draft)
      requires Valid() && d in drafts
      modifies this`drafts
      ensures Valid() && drafts == old(drafts) - {d} && Holds(d) && IsLoose(d)
    {
      hide AllLinked;
      drafts := drafts - {d};
    }

    // A decision that is no longer open, and that nothing refers to.
    ghost predicate IsLoose(d: Draft)
      reads this
    {
      && (forall e :: e in drafts ==> Apart(d, e) && Apart(e, d) && e.eventId != d.eventId)
      && (forall k :: k in records ==> records[k].receipt.eventId != d.eventId)
    }

    method Append(d: Draft)
      requires Valid() && Holds(d) && IsLoose(d) && Fits(events, d, Timeline(d.report.slot))
      modifies this`events, this`timelines
      ensures Valid() && events == Superseding(old(events), d) && IsLoose(d)
      ensures Timeline(d.report.slot) == old(Timeline(d.report.slot)) + [d.eventId]
      ensures forall slot :: slot != d.report.slot ==> Timeline(slot) == old(Timeline(slot))
    {
      hide AllLinked, Fits, Superseding;
      AllExtended(events, timelines, d);
      OnlyLinksChange(events, d);
      HeadIsStored(d);
      timelines := timelines[d.report.slot := Timeline(d.report.slot) + [d.eventId]];
      Write(d);
    }

    lemma HeadIsStored(d: Draft)
      requires Fits(events, d, Timeline(d.report.slot))
      ensures d.head.Some? ==> d.head.value in events
    {
    }

    method Write(d: Draft)
      requires d.head.Some? ==> d.head.value in events
      modifies this`events
      ensures events == Superseding(old(events), d)
    {
      if d.head.Some? { events := events[d.head.value := events[d.head.value].(supersededBy := Some(d.eventId))]; }
      events := events[d.eventId := Event(d.report.slot, d.report.value, d.now, d.report.supersedes, None)];
    }

    method Keep(d: Draft, receipt: Receipt)
      requires Valid() && Attested(receipt) && receipt.eventId == d.eventId && IsLoose(d)
      modifies this`records
      ensures Valid()
      ensures records == old(records)[(d.report.slot.owner, d.report.key) := Record(d.report.fingerprint, receipt)]
    {
      hide AllLinked;
      records := records[(d.report.slot.owner, d.report.key) := Record(d.report.fingerprint, receipt)];
    }

    // After a collision: the same key got there first, or the same slot did.
    method Recheck(report: Report) returns (r: Ruling)
      requires Valid()
      ensures var key := (report.slot.owner, report.key);
              r == if key !in records then AlreadyLabelled
                   else if records[key].fingerprint == report.fingerprint then Replayed(records[key].receipt)
                   else KeyConflict
    {
      var key := (report.slot.owner, report.key);
      if key !in records { return AlreadyLabelled; }
      if records[key].fingerprint != report.fingerprint { return KeyConflict; }
      r := Replayed(records[key].receipt);
    }

    // Retention: everything reported by the cutoff goes, current events too.
    method PurgeOutcomes(cutoff: real)
      requires Valid()
      modifies this`events, this`timelines
      ensures Valid() && events == Kept(old(events), cutoff)
      ensures forall slot :: Timeline(slot) == old(Timeline(slot))[Aged(old(events), old(Timeline(slot)), cutoff)..]
    {
      hide AllLinked, Trimmed, Aged;
      AllTrimmed(events, timelines, cutoff);
      events := map id | id in events && events[id].reportedAt > cutoff :: events[id];
      timelines := Trimmed(old(events), timelines, cutoff);
    }

    method PurgeRecords(cutoff: real)
      requires Valid()
      modifies this`records
      ensures Valid()
      ensures records == map k | k in old(records) && old(records)[k].receipt.reportedAt > cutoff :: old(records)[k]
    {
      hide AllLinked;
      records := map k | k in records && records[k].receipt.reportedAt > cutoff :: records[k];
    }

    // ---- what a reader may rely on ----

    // In every state a slot with events has exactly one current event, from
    // which every other is reached by going back.
    lemma OneCurrentEvent(slot: Slot)
      requires Valid() && exists id :: id in events && events[id].slot == slot
      ensures exists head :: IsHead(events, slot, head) && forall id :: IsHead(events, slot, id) ==> id == head
      ensures Timeline(slot) != [] && forall ids :: IsTimeline(events, slot, ids) ==> ids == Timeline(slot)
    {
      HeadsOf(slot);
      var line := Timeline(slot);
      assert IsHead(events, slot, line[|line| - 1]);
      forall ids | IsTimeline(events, slot, ids) ensures ids == line {
        TimelineIsUnique(events, slot, ids, line);
      }
    }

    // No retained event points at a successor that is gone.
    lemma SuccessorsAreRetained(id: string)
      requires Valid() && id in events && events[id].supersededBy.Some?
      ensures var next := events[id].supersededBy.value;
              && next in events && events[next].slot == events[id].slot && events[next].supersedes == Some(id)
              && events[id].reportedAt <= events[next].reportedAt
    {
      var line := Timeline(events[id].slot);
      assert IsTimeline(events, events[id].slot, line);
      var i :| 0 <= i < |line| && line[i] == id;
      if i + 1 < |line| { assert Follows(events, line[i], line[i + 1]); }
    }
  }
}
