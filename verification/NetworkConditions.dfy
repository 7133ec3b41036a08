// app/network_conditions.py: remote congestion subscriptions, recorded locally
// before the operator is asked for them.
//
// The local table is a class whose methods are proved equal to functions on its
// rows. The protocol runs those functions against an operator that may act on a
// request it never answers, long after the caller stopped waiting.

module NetworkConditions {
  import opened Domain

  datatype Status = Pending | Active | Unknown | Deleted | Expired | Failed

  datatype Row = Row(owner: string, device: string, status: Status, providerId: Option<string>, expiresAt: real)

  type Rows = map<string, Row>

  // Unknown is not terminal: the operator may still hold the subscription.
  predicate IsTerminal(s: Status) { s.Deleted? || s.Expired? || s.Failed? }

  // Expiry is a fact about the clock and not a job that has to have run.
  function EffectiveStatus(row: Row, now: real): (s: Status)
    ensures s == Expired <==> row.status == Expired || (row.status in {Pending, Active} && row.expiresAt <= now)
    ensures s != Expired ==> s == row.status
  {
    if IsTerminal(row.status) || row.status.Unknown? then row.status
    else if row.expiresAt <= now then Expired
    else row.status
  }

  // The predicate the store counts by, in the query's own terms.
  predicate IsLive(row: Row, now: real) { row.status.Unknown? || (!IsTerminal(row.status) && row.expiresAt > now) }

  // The query agrees with the status a caller is shown: what is unknown, and what
  // is pending or active and has not run out.
  lemma LiveIsNotTerminal(row: Row, now: real)
    ensures IsLive(row, now) <==> EffectiveStatus(row, now) in {Pending, Active, Unknown}
    ensures IsLive(row, now) <==> row.status == Unknown || (row.status in {Pending, Active} && now < row.expiresAt)
  {
  }

  function LiveOf(rows: Rows, owner: string, now: real): set<string> {
    set id | id in rows && rows[id].owner == owner && IsLive(rows[id], now)
  }

  function LiveOn(rows: Rows, owner: string, device: string, now: real): set<string> {
    set id | id in rows && rows[id].owner == owner && rows[id].device == device && IsLive(rows[id], now)
  }

  // How many live subscriptions one account, and one device of it, may have.
  datatype Limits = Limits(perOwner: nat, perDevice: nat)

  predicate HasRoom(rows: Rows, limits: Limits, owner: string, device: string, now: real) {
    |LiveOf(rows, owner, now)| < limits.perOwner && |LiveOn(rows, owner, device, now)| < limits.perDevice
  }

  // What takes a place under the caps, in the row's own fields.
  ghost predicate CountsBy(row: Row, now: real) {
    row.status == Unknown || (row.status in {Pending, Active} && now < row.expiresAt)
  }

  lemma RoomByCount(rows: Rows, limits: Limits, owner: string, device: string, now: real)
    ensures HasRoom(rows, limits, owner, device, now) <==>
      && |set k | k in rows && rows[k].owner == owner && CountsBy(rows[k], now)| < limits.perOwner
      && |set k | k in rows && rows[k].owner == owner && rows[k].device == device && CountsBy(rows[k], now)| <
           limits.perDevice
  {
    forall id | id in rows ensures IsLive(rows[id], now) <==> CountsBy(rows[id], now) {
      LiveIsNotTerminal(rows[id], now);
    }
    hide IsLive, CountsBy;
    assert LiveOf(rows, owner, now) == set k | k in rows && rows[k].owner == owner && CountsBy(rows[k], now);
    assert LiveOn(rows, owner, device, now) ==
      set k | k in rows && rows[k].owner == owner && rows[k].device == device && CountsBy(rows[k], now);
  }

  lemma NewRowIsLive(owner: string, device: string, now: real, expiresAt: real)
    requires expiresAt > now
    ensures IsLive(Row(owner, device, Pending, None, expiresAt), now)
  {
  }

  lemma OneMoreLive(rows: Rows, id: string, owner: string, device: string, now: real, expiresAt: real)
    requires id !in rows && expiresAt > now
    ensures |LiveOf(Reserved(rows, id, owner, device, expiresAt), owner, now)| == |LiveOf(rows, owner, now)| + 1
    ensures |LiveOn(Reserved(rows, id, owner, device, expiresAt), owner, device, now)| ==
      |LiveOn(rows, owner, device, now)| + 1
  {
    hide IsLive;
    NewRowIsLive(owner, device, now, expiresAt);
    OneMoreOf(rows, id, owner, device, now, expiresAt);
    var before := LiveOn(rows, owner, device, now);
    assert LiveOn(Reserved(rows, id, owner, device, expiresAt), owner, device, now) == before + {id};
  }

  lemma OneMoreOf(rows: Rows, id: string, owner: string, device: string, now: real, expiresAt: real)
    requires id !in rows && expiresAt > now
    ensures |LiveOf(Reserved(rows, id, owner, device, expiresAt), owner, now)| == |LiveOf(rows, owner, now)| + 1
  {
    hide IsLive;
    NewRowIsLive(owner, device, now, expiresAt);
    assert LiveOf(Reserved(rows, id, owner, device, expiresAt), owner, now) == LiveOf(rows, owner, now) + {id};
  }

  // Did the operator answer no, or did nobody hear back?
  predicate DefinitelyRejected(httpStatus: Option<int>) {
    httpStatus.Some? && 400 <= httpStatus.value < 500 && httpStatus.value != 408
  }

  // ---- the transactions ----

  function Reserved(rows: Rows, id: string, owner: string, device: string, expiresAt: real): Rows {
    rows[id := Row(owner, device, Pending, None, expiresAt)]
  }

  function Marked(rows: Rows, id: string, status: Status, providerId: Option<string>): Rows {
    if id !in rows then rows
    else
      rows[id := rows[id].(status := status,
                           providerId := if providerId.Some? then providerId else rows[id].providerId)]
  }

  function Forgotten(rows: Rows, id: string): Rows { rows - {id} }

  function Adopted(rows: Rows, id: string, providerId: string): Rows {
    if id in rows && rows[id].status.Unknown? && rows[id].providerId.None?
    then rows[id := rows[id].(status := Active, providerId := Some(providerId))] else rows
  }

  function Settled(rows: Rows, due: set<string>): Rows {
    map id | id in rows :: if id in due then rows[id].(status := Expired) else rows[id]
  }

  predicate IsDue(row: Row, now: real) {
    !IsTerminal(row.status) && !row.status.Unknown? && row.expiresAt <= now
  }

  predicate IsSpent(row: Row, cutoff: real) { IsTerminal(row.status) && row.expiresAt < cutoff }

  // What a delete may do with the row it read.
  datatype DeletePlan = NotFound | AlreadyDeleted | ReconcileFirst | Ask(providerId: string) | JustMark

  function PlanDelete(rows: Rows, id: string, owner: string): DeletePlan {
    if id !in rows || rows[id].owner != owner then NotFound
    else
      var row := rows[id];
      if row.providerId.None? && (row.status.Pending? || row.status.Unknown?) then ReconcileFirst
      else if row.status.Deleted? then AlreadyDeleted
      else if row.providerId.Some? then Ask(row.providerId.value)
      else JustMark
  }

  // The plan, by what the row knows. Only its own account may delete it, and
  // nothing is deleted locally while the operator may hold it unseen.
  lemma DeletePlanned(rows: Rows, id: string, owner: string)
    ensures PlanDelete(rows, id, owner).NotFound? <==> id !in rows || rows[id].owner != owner
    ensures id in rows && rows[id].owner == owner ==>
      PlanDelete(rows, id, owner) ==
        match rows[id].status
        case Deleted => AlreadyDeleted
        case Pending | Unknown => (match rows[id].providerId case None => ReconcileFirst case Some(p) => Ask(p))
        case Active | Expired | Failed => (match rows[id].providerId case None => JustMark case Some(p) => Ask(p))
  {
  }

  class Subscriptions {
    var rows: Rows
    const limits: Limits

    constructor (limits: Limits)
      ensures rows == map[] && this.limits == limits
    {
      rows := map[];
      this.limits := limits;
    }

    // Count and insert under one lock. Within the caps the new row counts too.
    method Reserve(id: string, owner: string, device: string, now: real, ttl: real) returns (granted: bool)
      requires id !in rows && ttl > 0.0
      modifies this
      ensures granted <==>
        && |set k | k in old(rows) && old(rows)[k].owner == owner && CountsBy(old(rows)[k], now)| < limits.perOwner
        && |set k | k in old(rows) && old(rows)[k].owner == owner && old(rows)[k].device == device &&
                    CountsBy(old(rows)[k], now)| < limits.perDevice
      ensures rows == if granted then Reserved(old(rows), id, owner, device, now + ttl) else old(rows)
      ensures granted ==>
        |LiveOf(rows, owner, now)| <= limits.perOwner && |LiveOn(rows, owner, device, now)| <= limits.perDevice
    {
      hide LiveOf, LiveOn, IsLive, CountsBy;
      RoomByCount(rows, limits, owner, device, now);
      if |LiveOf(rows, owner, now)| >= limits.perOwner { return false; }
      if |LiveOn(rows, owner, device, now)| >= limits.perDevice { return false; }
      OneMoreLive(rows, id, owner, device, now, now + ttl);
      rows := rows[id := Row(owner, device, Pending, None, now + ttl)];
      granted := true;
    }

    method Mark(id: string, status: Status, providerId: Option<string>)
      modifies this
      ensures rows == Marked(old(rows), id, status, providerId)
    {
      if id !in rows { return; }
      var row := rows[id].(status := status);
      if providerId.Some? { row := row.(providerId := providerId); }
      rows := rows[id := row];
    }

    method Forget(id: string)
      modifies this
      ensures rows == Forgotten(old(rows), id)
    {
      if id in rows { rows := rows - {id}; }
    }

    // The second transaction of a reconciliation: the row may have moved on
    // while the operator was asked.
    method Adopt(id: string, owner: string, providerId: string) returns (row: Option<Row>)
      modifies this
      ensures rows ==
        if id in old(rows) && old(rows)[id].owner == owner then Adopted(old(rows), id, providerId) else old(rows)
      ensures row == if id in rows && rows[id].owner == owner then Some(rows[id]) else None
    {
      if id !in rows || rows[id].owner != owner { return None; }
      if rows[id].status.Unknown? && rows[id].providerId.None? {
        rows := rows[id := rows[id].(status := Active, providerId := Some(providerId))];
      }
      row := Some(rows[id]);
    }

    // Write down up to a batch of the expiries the clock has made true.
    method ExpireDue(now: real, batch: nat) returns (due: set<string>)
      modifies this
      ensures forall id :: id in due ==>
        id in old(rows) && old(rows)[id].status in {Pending, Active} && old(rows)[id].expiresAt <= now
      ensures |due| <= batch
      ensures |due| < batch ==>
        forall id :: id in rows && rows[id].status in {Pending, Active} ==> now < rows[id].expiresAt
      ensures rows == Settled(old(rows), due)
    {
      due := {};
      var left := set id | id in rows && IsDue(rows[id], now);
      while left != {} && |due| < batch
        invariant |due| <= batch && due !! left
        invariant forall id :: id in due || id in left <==> id in rows && IsDue(rows[id], now)
        decreases left
      {
        var id :| id in left;
        due, left := due + {id}, left - {id};
      }
      rows := map id | id in rows :: if id in due then rows[id].(status := Expired) else rows[id];
    }

    // Reclaim up to a batch of rows long settled. Unknown is never among them.
    method PurgeTerminal(now: real, retention: real, batch: nat) returns (gone: set<string>)
      modifies this
      ensures forall id :: id in gone ==>
        id in old(rows) && old(rows)[id].status in {Deleted, Expired, Failed} &&
        old(rows)[id].expiresAt + retention < now
      ensures |gone| <= batch
      ensures |gone| < batch ==>
        forall id :: id in rows && rows[id].status in {Deleted, Expired, Failed} ==>
          now <= rows[id].expiresAt + retention
      ensures rows == old(rows) - gone
      ensures forall id :: id in old(rows) && old(rows)[id].status.Unknown? ==> id in rows && rows[id] == old(rows)[id]
    {
      gone := {};
      var left := set id | id in rows && IsSpent(rows[id], now - retention);
      while left != {} && |gone| < batch
        invariant |gone| <= batch && gone !! left
        invariant forall id :: id in gone || id in left <==> id in rows && IsSpent(rows[id], now - retention)
        decreases left
      {
        var id :| id in left;
        gone, left := gone + {id}, left - {id};
      }
      rows := rows - gone;
    }
  }

  // ---- delivered notifications ----

  datatype Delivery = Accepted | Duplicate | Unauthorized | Inactive | Stale | FromTheFuture | OutOfOrder

  // No stored event is newer than this one.
  predicate IsNewest(stored: map<string, real>, at: real) { forall e :: e in stored ==> stored[e] <= at }

  // The notifications kept for one subscription, by event id.
  class Inbox {
    var stored: map<string, real>
    const capacity: nat
    const maxAge: real

    constructor (capacity: nat, maxAge: real)
      ensures stored == map[] && this.capacity == capacity && this.maxAge == maxAge
    {
      stored := map[];
      this.capacity, this.maxAge := capacity, maxAge;
    }

    // Take one delivered notification, or say why not. What is accepted is the
    // current condition; only acceptance changes anything, and it displaces at
    // most one event, an oldest one, and only when full.
    method Accept(authentic: bool, status: Status, eventId: string, occurredAt: real, now: real)
      returns (outcome: Delivery)
      modifies this
      ensures outcome.Unauthorized? <==> !authentic
      ensures outcome.Inactive? <==> authentic && status in {Deleted, Expired, Failed}
      ensures outcome.Stale? <==> authentic && status in {Pending, Active, Unknown} && occurredAt + maxAge < now
      ensures outcome.FromTheFuture? ==> authentic && status in {Pending, Active, Unknown} && now + maxAge < occurredAt
      ensures outcome.Accepted? || outcome.Duplicate? || outcome.OutOfOrder? <==>
        authentic && status in {Pending, Active, Unknown} && -maxAge <= now - occurredAt <= maxAge
      ensures outcome.Duplicate? ==> eventId in old(stored)
      ensures outcome.OutOfOrder? ==> eventId !in old(stored) && !IsNewest(old(stored), occurredAt)
      ensures outcome.Accepted? ==> eventId !in old(stored) && IsNewest(stored, occurredAt)
      ensures !outcome.Accepted? ==> stored == old(stored)
      ensures outcome.Accepted? && |old(stored)| < capacity ==> stored == old(stored)[eventId := occurredAt]
      ensures outcome.Accepted? && |old(stored)| >= capacity && old(stored) != map[] ==>
        exists e :: e in old(stored) && stored == (old(stored) - {e})[eventId := occurredAt] &&
          forall f :: f in old(stored) ==> old(stored)[e] <= old(stored)[f]
      ensures outcome.Accepted? && |old(stored)| <= capacity && capacity > 0 ==> |stored| <= capacity
    {
      if !authentic { return Unauthorized; }
      if IsTerminal(status) { return Inactive; }
      if now - occurredAt > maxAge { return Stale; }
      if now - occurredAt < -maxAge { return FromTheFuture; }
      if eventId in stored { return Duplicate; }
      if exists e :: e in stored && occurredAt < stored[e] { return OutOfOrder; }
      if |stored| >= capacity && stored != map[] {
        var oldest := Oldest();
        Resized(stored, oldest);
        stored := stored - {oldest};
      }
      Grown(stored, eventId, occurredAt);
      stored := stored[eventId := occurredAt];
      outcome := Accepted;
    }

    method Oldest() returns (oldest: string)
      requires stored != map[]
      ensures oldest in stored && forall e :: e in stored ==> stored[oldest] <= stored[e]
    {
      var left := stored.Keys;
      oldest :| oldest in stored;
      while left != {}
        invariant oldest in stored && left <= stored.Keys
        invariant forall e :: e in stored && e !in left ==> stored[oldest] <= stored[e]
        decreases left
      {
        var e :| e in left;
        left := left - {e};
        if stored[e] < stored[oldest] { oldest := e; }
      }
    }
  }

  lemma Resized(stored: map<string, real>, e: string)
    requires e in stored
    ensures |stored - {e}| == |stored| - 1
  {
    assert (stored - {e}).Keys == stored.Keys - {e};
    assert |(stored - {e}).Keys| == |stored - {e}| && |stored.Keys| == |stored|;
  }

  lemma Grown(stored: map<string, real>, e: string, at: real)
    requires e !in stored
    ensures |stored[e := at]| == |stored| + 1
  {
    assert stored[e := at].Keys == stored.Keys + {e};
    assert |stored[e := at].Keys| == |stored[e := at]| && |stored.Keys| == |stored|;
  }

  // ---- the protocol ----

  datatype Remote = Remote(local: string, expiresAt: real)

  // What a create call came back with. An error without a status is a call
  // nobody heard back from.
  datatype Verdict = Created(providerId: string) | Blank | Error(httpStatus: Option<int>) | Unsupported

  // The operator's side of it: an error from 400 to 499, other than a timeout,
  // says that nothing was created and nothing will be; and a provider without
  // subscriptions was never asked. No other answer says anything of the kind.
  ghost predicate MeansNothingMade(verdict: Verdict) {
    verdict.Unsupported? ||
    (verdict.Error? && verdict.httpStatus.Some? &&
     400 <= verdict.httpStatus.value <= 499 && verdict.httpStatus.value != 408)
  }

  datatype Deletion = Confirmed | Failure(httpStatus: Option<int>)

  // A 404 or a 410 confirms that there is nothing left to delete.
  predicate IsCleared(answer: Deletion) {
    answer.Confirmed? || answer.httpStatus == Some(404) || answer.httpStatus == Some(410)
  }

  // The operator's side: these answers, and no others, say that nothing is left.
  ghost predicate MeansNothingLeft(answer: Deletion) {
    answer.Confirmed? || (answer.httpStatus.Some? && answer.httpStatus.value in {404, 410})
  }

  datatype Waiting<T> = Open | Heard(answer: T) | Over

  // made: the remote subscription this call brought about, if it has.
  // barred: the operator has said no, so it never will.
  datatype CreateCall = CreateCall(expiresAt: real, made: Option<string>, barred: bool, wait: Waiting<Verdict>)

  datatype DeleteCall = DeleteCall(id: string, providerId: Option<string>, wait: Waiting<Deletion>)

  datatype Lookup = Lookup(id: string, found: string)

  datatype World = World(
    rows: Rows,
    remotes: map<string, Remote>,
    creates: map<string, CreateCall>,  // one for every local id ever issued
    deletes: seq<DeleteCall>,
    lookups: seq<Lookup>,
    issued: set<string>,               // every remote id the operator ever issued
    clock: real,
    limits: Limits)

  datatype Step =
    | Tick(later: real)
    | StartCreate(id: string, owner: string, device: string, now: real, ttl: real)
    | OperatorCreates(id: string, remoteId: string)
    | HearCreate(id: string, verdict: Verdict)
    | MarkCreate(id: string)
    | AbandonCreate(id: string)
    | StartDelete(id: string)
    | OperatorDrops(remoteId: string)
    | HearDelete(k: nat, answer: Deletion)
    | MarkDelete(k: nat)
    | FindRemote(id: string, remoteId: string)
    | AdoptFound(k: nat)
    | SettleDue(due: set<string>, now: real)
    | PurgeSpent(gone: set<string>, cutoff: real)

  ghost predicate CanStep(w: World, step: Step) {
    match step
    case Tick(later) => w.clock <= later
    case StartCreate(id, owner, device, now, ttl) =>
      id !in w.creates && now <= w.clock && ttl > 0.0 && HasRoom(w.rows, w.limits, owner, device, now)
    case OperatorCreates(id, remoteId) =>
      id in w.creates && w.creates[id].made.None? && !w.creates[id].barred && remoteId !in w.issued
    case HearCreate(id, verdict) => id in w.creates && w.creates[id].wait.Open? && CanHear(w.creates[id], verdict)
    case MarkCreate(id) => id in w.creates && w.creates[id].wait.Heard?
    case AbandonCreate(id) => id in w.creates
    case StartDelete(id) => id in w.rows
    case OperatorDrops(remoteId) => remoteId in w.remotes
    case HearDelete(k, answer) =>
      k < |w.deletes| && w.deletes[k].wait.Open? &&
      (MeansNothingLeft(answer) ==> w.deletes[k].providerId.None? || w.deletes[k].providerId.value !in w.remotes)
    case MarkDelete(k) => k < |w.deletes| && w.deletes[k].wait.Heard?
    case FindRemote(id, remoteId) =>
      id in w.rows && w.rows[id].status.Unknown? && w.rows[id].providerId.None? &&
      remoteId in w.remotes && w.remotes[remoteId].local == id
    case AdoptFound(k) => k < |w.lookups|
    case SettleDue(due, now) => now <= w.clock && forall id :: id in due ==> id in w.rows && IsDue(w.rows[id], now)
    case PurgeSpent(gone, cutoff) =>
      cutoff <= w.clock && forall id :: id in gone ==> id in w.rows && IsSpent(w.rows[id], cutoff)
  }

  // A created id is the operator's own, and a refusal means nothing was made.
  ghost predicate CanHear(call: CreateCall, verdict: Verdict) {
    (verdict.Created? ==> call.made == Some(verdict.providerId)) && (MeansNothingMade(verdict) ==> call.made.None?)
  }

  ghost function Apply(w: World, step: Step): World
    requires CanStep(w, step)
  {
    match step
    case Tick(later) => w.(clock := later)
    case StartCreate(id, owner, device, now, ttl) =>
      w.(rows := Reserved(w.rows, id, owner, device, now + ttl),
         creates := w.creates[id := CreateCall(now + ttl, None, false, Open)])
    case OperatorCreates(id, remoteId) =>
      w.(remotes := w.remotes[remoteId := Remote(id, w.creates[id].expiresAt)], issued := w.issued + {remoteId},
         creates := w.creates[id := w.creates[id].(made := Some(remoteId))])
    case HearCreate(id, verdict) =>
      w.(creates := w.creates[id := w.creates[id].(wait := Heard(verdict),
           barred := w.creates[id].barred || MeansNothingMade(verdict))])
    case MarkCreate(id) =>
      w.(rows := AfterVerdict(w.rows, id, w.creates[id].wait.answer),
         creates := w.creates[id := w.creates[id].(wait := Over)])
    case AbandonCreate(id) => w.(creates := w.creates[id := w.creates[id].(wait := Over)])
    case StartDelete(id) => AfterPlan(w, id)
    case OperatorDrops(remoteId) => w.(remotes := w.remotes - {remoteId})
    case HearDelete(k, answer) => w.(deletes := w.deletes[k := w.deletes[k].(wait := Heard(answer))])
    case MarkDelete(k) =>
      w.(rows := Marked(w.rows, w.deletes[k].id,
                        if IsCleared(w.deletes[k].wait.answer) then Deleted else Unknown, None),
         deletes := w.deletes[k := w.deletes[k].(wait := Over)])
    case FindRemote(id, remoteId) => w.(lookups := w.lookups + [Lookup(id, remoteId)])
    case AdoptFound(k) => w.(rows := Adopted(w.rows, w.lookups[k].id, w.lookups[k].found))
    case SettleDue(due, _) => w.(rows := Settled(w.rows, due))
    case PurgeSpent(gone, _) => w.(rows := w.rows - gone)
  }

  function AfterVerdict(rows: Rows, id: string, verdict: Verdict): Rows {
    match verdict
    case Created(providerId) => Marked(rows, id, Active, Some(providerId))
    case Blank => Marked(rows, id, Unknown, None)
    case Error(httpStatus) => Marked(rows, id, if DefinitelyRejected(httpStatus) then Failed else Unknown, None)
    case Unsupported => Forgotten(rows, id)
  }

  // Local ids are unguessable and unique, so whose delete it is does not matter
  // to the protocol.
  function AfterPlan(w: World, id: string): World
    requires id in w.rows
  {
    match PlanDelete(w.rows, id, w.rows[id].owner)
    case Ask(providerId) => w.(deletes := w.deletes + [DeleteCall(id, Some(providerId), Open)])
    case JustMark => w.(deletes := w.deletes + [DeleteCall(id, None, Heard(Confirmed))])
    case _ => w
  }

  // ---- the invariant ----

  // Nothing this id was created for exists at the operator, now or later,
  // except past its own expiry.
  predicate IsClear(w: World, id: string)
    requires id in w.creates
  {
    var call := w.creates[id];
    call.barred || call.expiresAt <= w.clock || (call.made.Some? && call.made.value !in w.remotes)
  }

  predicate IsWatched(w: World, id: string) {
    id in w.rows && (w.rows[id].status.Pending? || w.rows[id].status.Active? || w.rows[id].status.Unknown?)
  }

  ghost predicate CreateFacts(w: World, id: string) {
    id in w.creates ==>
      var call := w.creates[id];
      && (IsWatched(w, id) || IsClear(w, id))
      && (call.made.Some? ==> call.made.value in w.issued && !call.barred)
      && (call.wait.Heard? && MeansNothingMade(call.wait.answer) ==> call.barred)
      && (call.wait.Heard? && call.wait.answer.Created? ==> call.made == Some(call.wait.answer.providerId))
  }

  ghost predicate RowFacts(w: World, id: string) {
    id in w.rows ==>
      var row := w.rows[id];
      && id in w.creates && row.expiresAt == w.creates[id].expiresAt
      && (row.providerId.Some? ==> row.providerId == w.creates[id].made)
      && (row.status.Active? ==> row.providerId.Some?)
      && (!w.creates[id].wait.Over? ==> row.providerId.None? && !row.status.Unknown?)
      && (row.status.Expired? || (IsTerminal(row.status) && !w.creates[id].wait.Over?) ==> row.expiresAt <= w.clock)
  }

  ghost predicate RemoteFacts(w: World, remoteId: string) {
    remoteId in w.remotes ==>
      var r := w.remotes[remoteId];
      r.local in w.creates && w.creates[r.local].made == Some(remoteId) && r.expiresAt == w.creates[r.local].expiresAt
  }

  ghost predicate DeleteFacts(w: World, k: nat)
    requires k < |w.deletes|
  {
    var call := w.deletes[k];
    && call.id in w.creates
    && (call.providerId.Some? ==> call.providerId == w.creates[call.id].made && w.creates[call.id].wait.Over?)
    && (call.providerId.None? ==> IsClear(w, call.id) && !call.wait.Open?)
    && (call.providerId.None? && !w.creates[call.id].wait.Over? ==> w.creates[call.id].expiresAt <= w.clock)
    && (call.providerId.None? && call.wait.Heard? ==> MeansNothingLeft(call.wait.answer))
    && (call.wait.Heard? && MeansNothingLeft(call.wait.answer) ==> IsClear(w, call.id))
  }

  ghost predicate LookupFacts(w: World, k: nat)
    requires k < |w.lookups|
  {
    var l := w.lookups[k];
    l.id in w.creates && w.creates[l.id].made == Some(l.found) && w.creates[l.id].wait.Over?
  }

  ghost predicate Inv(w: World) {
    && (forall id :: CreateFacts(w, id))
    && (forall id :: RowFacts(w, id))
    && (forall remoteId :: RemoteFacts(w, remoteId))
    && (forall k :: 0 <= k < |w.deletes| ==> DeleteFacts(w, k))
    && (forall k :: 0 <= k < |w.lookups| ==> LookupFacts(w, k))
  }

  // Once nothing is left for an id, nothing comes back for it.
  lemma ClearStaysClear(w: World, step: Step, id: string)
    requires Inv(w) && CanStep(w, step) && id in w.creates && IsClear(w, id)
    ensures id in Apply(w, step).creates && IsClear(Apply(w, step), id)
  {
    assert CreateFacts(w, id);
  }

  // What the service makes of each answer, in the numbers of the protocol. Only
  // an answer that says nothing was made fails the row; whatever leaves it open
  // makes the row unknown.
  lemma CreateAnswerDecides(w: World, id: string)
    requires CanStep(w, MarkCreate(id))
    ensures var (rows, answer) := (Apply(w, MarkCreate(id)).rows, w.creates[id].wait.answer);
      if id !in w.rows || answer.Unsupported? then rows == w.rows - {id}
      else
        rows == w.rows[id :=
          match answer
          case Created(providerId) => w.rows[id].(status := Active, providerId := Some(providerId))
          case Blank | Error(None) => w.rows[id].(status := Unknown)
          case Error(Some(code)) =>
            w.rows[id].(status := if code < 400 || code == 408 || code >= 500 then Unknown else Failed)]
  {
  }

  // A deletion asks the operator for a remote id it knows, marks a row that never
  // had one, and otherwise does nothing.
  lemma DeleteProceeds(w: World, id: string)
    requires CanStep(w, StartDelete(id))
    ensures var row := w.rows[id];
      Apply(w, StartDelete(id)) ==
        if row.providerId.Some? && row.status != Deleted
        then w.(deletes := w.deletes + [DeleteCall(id, row.providerId, Open)])
        else if row.providerId.None? && row.status in {Active, Expired, Failed}
        then w.(deletes := w.deletes + [DeleteCall(id, None, Heard(Confirmed))])
        else w
  {
  }

  lemma DeleteAnswerDecides(w: World, k: nat)
    requires CanStep(w, MarkDelete(k)) && w.deletes[k].id in w.rows
    ensures var (id, rows) := (w.deletes[k].id, Apply(w, MarkDelete(k)).rows);
      match w.deletes[k].wait.answer
      case Confirmed => rows == w.rows[id := w.rows[id].(status := Deleted)]
      case Failure(None) => rows == w.rows[id := w.rows[id].(status := Unknown)]
      case Failure(Some(code)) =>
        rows == w.rows[id := w.rows[id].(status := if code == 404 || code == 410 then Deleted else Unknown)]
  {
  }

  lemma StepKeepsInv(w: World, step: Step)
    requires Inv(w) && CanStep(w, step)
    ensures Inv(Apply(w, step))
  {
    var w' := Apply(w, step);
    forall id ensures CreateFacts(w', id) { StepKeepsCreate(w, step, id); }
    forall id ensures RowFacts(w', id) { StepKeepsRow(w, step, id); }
    forall remoteId ensures RemoteFacts(w', remoteId) { StepKeepsRemote(w, step, remoteId); }
    forall k | 0 <= k < |w'.deletes| ensures DeleteFacts(w', k) { StepKeepsDelete(w, step, k); }
    forall k | 0 <= k < |w'.lookups| ensures LookupFacts(w', k) { StepKeepsLookup(w, step, k); }
  }

  lemma StepKeepsCreate(w: World, step: Step, id: string)
    requires Inv(w) && CanStep(w, step)
    ensures CreateFacts(Apply(w, step), id)
  {
    assert CreateFacts(w, id) && RowFacts(w, id);
    if id in w.creates && IsClear(w, id) { ClearStaysClear(w, step, id); }
    if step.MarkDelete? { assert DeleteFacts(w, step.k); }
  }

  lemma StepKeepsRow(w: World, step: Step, id: string)
    requires Inv(w) && CanStep(w, step)
    ensures RowFacts(Apply(w, step), id)
  {
    assert CreateFacts(w, id) && RowFacts(w, id);
    if step.MarkDelete? { assert DeleteFacts(w, step.k); }
    if step.AdoptFound? { assert LookupFacts(w, step.k); }
  }

  lemma StepKeepsRemote(w: World, step: Step, remoteId: string)
    requires Inv(w) && CanStep(w, step)
    ensures RemoteFacts(Apply(w, step), remoteId)
  {
    assert RemoteFacts(w, remoteId);
  }

  lemma StepKeepsDelete(w: World, step: Step, k: nat)
    requires Inv(w) && CanStep(w, step) && k < |Apply(w, step).deletes|
    ensures DeleteFacts(Apply(w, step), k)
  {
    hide Settled, Adopted, AfterVerdict, Marked, Reserved, IsDue, IsSpent, HasRoom;
    if k < |w.deletes| {
      assert DeleteFacts(w, k) && CreateFacts(w, w.deletes[k].id);
      if IsClear(w, w.deletes[k].id) { ClearStaysClear(w, step, w.deletes[k].id); }
    } else {
      assert CreateFacts(w, step.id) && RowFacts(w, step.id);
    }
  }

  lemma StepKeepsLookup(w: World, step: Step, k: nat)
    requires Inv(w) && CanStep(w, step) && k < |Apply(w, step).lookups|
    ensures LookupFacts(Apply(w, step), k)
  {
    if k < |w.lookups| {
      assert LookupFacts(w, k);
    } else {
      assert RemoteFacts(w, step.remoteId) && RowFacts(w, step.id);
    }
  }

  // ---- runs ----

  function Initial(limits: Limits): World { World(map[], map[], map[], [], [], {}, 0.0, limits) }

  ghost predicate IsRun(w: World, steps: seq<Step>)
    decreases |steps|
  {
    steps == [] || (CanStep(w, steps[0]) && IsRun(Apply(w, steps[0]), steps[1..]))
  }

  ghost function After(w: World, steps: seq<Step>): World
    requires IsRun(w, steps)
    decreases |steps|
  {
    if steps == [] then w else After(Apply(w, steps[0]), steps[1..])
  }

  lemma {:induction false} RunKeepsInv(w: World, steps: seq<Step>)
    requires Inv(w) && IsRun(w, steps)
    ensures Inv(After(w, steps))
    decreases |steps|
  {
    hide Inv, CanStep, Apply;
    if steps != [] {
      StepKeepsInv(w, steps[0]);
      RunKeepsInv(Apply(w, steps[0]), steps[1..]);
    }
  }

  // Whatever the operator does or fails to answer, a subscription it still
  // holds unexpired has a local row that is pending, active or unknown.
  lemma NoLeakedSubscription(limits: Limits, steps: seq<Step>, remoteId: string)
    requires IsRun(Initial(limits), steps)
    requires var w := After(Initial(limits), steps); remoteId in w.remotes && w.clock < w.remotes[remoteId].expiresAt
    ensures var w := After(Initial(limits), steps); IsWatched(w, w.remotes[remoteId].local)
  {
    RunKeepsInv(Initial(limits), steps);
    var w := After(Initial(limits), steps);
    assert RemoteFacts(w, remoteId) && CreateFacts(w, w.remotes[remoteId].local);
  }

  // One remote subscription per local row, and a row that names a remote id
  // names its own.
  lemma OneRemotePerRow(limits: Limits, steps: seq<Step>, a: string, b: string)
    requires IsRun(Initial(limits), steps)
    requires var w := After(Initial(limits), steps);
             a in w.remotes && b in w.remotes && w.remotes[a].local == w.remotes[b].local
    ensures a == b
    ensures var w := After(Initial(limits), steps); var id := w.remotes[a].local;
            id in w.rows && w.rows[id].providerId.Some? ==> w.rows[id].providerId == Some(a)
  {
    RunKeepsInv(Initial(limits), steps);
    var w := After(Initial(limits), steps);
    assert RemoteFacts(w, a) && RemoteFacts(w, b) && RowFacts(w, w.remotes[a].local);
  }

  // An unknown row is never lost. It is resolved only by finding the remote id,
  // or by a deletion the operator confirmed.
  lemma UnknownIsOnlyResolved(w: World, step: Step, id: string)
    requires Inv(w) && CanStep(w, step) && id in w.rows && w.rows[id].status.Unknown?
    ensures var w' := Apply(w, step);
            && id in w'.rows
            && (w'.rows[id].status.Unknown? || w'.rows[id].status.Active? || w'.rows[id].status.Deleted?)
            && id in w.creates
            && (w'.rows[id].status.Active? ==> w'.rows[id].providerId == w.creates[id].made && w.creates[id].made.Some?)
            && (w'.rows[id].status.Deleted? ==> IsClear(w, id))
  {
    assert RowFacts(w, id);
    StepKeepsRow(w, step, id);
    if step.MarkDelete? { assert DeleteFacts(w, step.k); }
  }

  // A row is dropped only when nothing is left for it.
  lemma DroppedOnlyWhenClear(w: World, step: Step, id: string)
    requires Inv(w) && CanStep(w, step) && id in w.rows && id !in Apply(w, step).rows
    ensures id in w.creates && IsClear(w, id)
  {
    assert CreateFacts(w, id) && RowFacts(w, id);
  }

  // ---- the caps ----

  // Neither the account nor any of its devices has more live subscriptions
  // than it may.
  predicate OwnerWithin(w: World, owner: string) { |LiveOf(w.rows, owner, w.clock)| <= w.limits.perOwner }

  predicate DeviceWithin(w: World, owner: string, device: string) {
    |LiveOn(w.rows, owner, device, w.clock)| <= w.limits.perDevice
  }

  ghost predicate CapsHold(w: World) {
    (forall owner :: OwnerWithin(w, owner)) && (forall owner, device :: DeviceWithin(w, owner, device))
  }

  predicate IsUncertain(verdict: Verdict) {
    verdict.Blank? || (verdict.Error? && !DefinitelyRejected(verdict.httpStatus))
  }

  // The row this step marks unknown, if it marks one: an ambiguous create, or a
  // deletion the operator did not confirm.
  ghost function MarkedUnknown(w: World, step: Step): (id: Option<string>)
    requires CanStep(w, step)
    ensures id.Some? ==> id.value in w.rows
  {
    match step
    case MarkCreate(id) => if id in w.rows && IsUncertain(w.creates[id].wait.answer) then Some(id) else None
    case MarkDelete(k) =>
      if w.deletes[k].id in w.rows && !IsCleared(w.deletes[k].wait.answer) then Some(w.deletes[k].id) else None
    case _ => None
  }

  // The step brings back a row that no longer counted.
  ghost predicate Revives(w: World, step: Step)
    requires CanStep(w, step)
  {
    MarkedUnknown(w, step).Some? && !IsLive(w.rows[MarkedUnknown(w, step).value], w.clock)
  }

  // Except by a granted reservation or a revival, no row becomes live.
  lemma OthersOnlyFade(w: World, step: Step, id: string)
    requires Inv(w) && CanStep(w, step) && !step.StartCreate? && MarkedUnknown(w, step) != Some(id)
    requires var w' := Apply(w, step); id in w'.rows && IsLive(w'.rows[id], w'.clock)
    ensures var w' := Apply(w, step);
            && id in w.rows && IsLive(w.rows[id], w.clock)
            && w'.rows[id].owner == w.rows[id].owner && w'.rows[id].device == w.rows[id].device
  {
    hide Inv, CreateFacts, LookupFacts, DeleteFacts, RemoteFacts;
    assert RowFacts(w, id) by { InvHasRow(w, id); }
  }

  lemma InvHasRow(w: World, id: string)
    requires Inv(w)
    ensures RowFacts(w, id)
  {
  }

  lemma FewerLive(w: World, step: Step, owner: string, device: string)
    requires Inv(w) && CanStep(w, step) && !step.StartCreate? && !Revives(w, step)
    ensures var w' := Apply(w, step);
            && |LiveOf(w'.rows, owner, w'.clock)| <= |LiveOf(w.rows, owner, w.clock)|
            && |LiveOn(w'.rows, owner, device, w'.clock)| <= |LiveOn(w.rows, owner, device, w.clock)|
  {
    hide Inv, CanStep, IsLive, Apply;
    var w' := Apply(w, step);
    forall id | id in w'.rows && IsLive(w'.rows[id], w'.clock)
      ensures id in w.rows && IsLive(w.rows[id], w.clock)
      ensures w'.rows[id].owner == w.rows[id].owner && w'.rows[id].device == w.rows[id].device
    {
      if MarkedUnknown(w, step) == Some(id) { MarkedKeepsItsOwner(w, step, id); } else { OthersOnlyFade(w, step, id); }
    }
    Contained(LiveOf(w'.rows, owner, w'.clock), LiveOf(w.rows, owner, w.clock));
    Contained(LiveOn(w'.rows, owner, device, w'.clock), LiveOn(w.rows, owner, device, w.clock));
  }

  lemma {:induction false} Contained(a: set<string>, b: set<string>)
    requires a <= b
    ensures |a| <= |b|
  {
    assert b == a + (b - a);
  }

  lemma MarkedKeepsItsOwner(w: World, step: Step, id: string)
    requires CanStep(w, step) && MarkedUnknown(w, step) == Some(id)
    ensures Apply(w, step).rows == Marked(w.rows, id, Unknown, None) && Apply(w, step).clock == w.clock
    ensures Apply(w, step).limits == w.limits && id in w.rows
    ensures Apply(w, step).rows[id] == w.rows[id].(status := Unknown)
  {
  }

  // An unknown mark raises the counts of its own account and device, and only
  // for a row that was no longer live.
  lemma UnknownMarkCounts(rows: Rows, id: string, now: real)
    requires id in rows
    ensures var rows' := Marked(rows, id, Unknown, None); var n := if IsLive(rows[id], now) then 0 else 1;
            && |LiveOf(rows', rows[id].owner, now)| == |LiveOf(rows, rows[id].owner, now)| + n
            && |LiveOn(rows', rows[id].owner, rows[id].device, now)| ==
                 |LiveOn(rows, rows[id].owner, rows[id].device, now)| + n
  {
    var (owner, device) := (rows[id].owner, rows[id].device);
    var rows' := Marked(rows, id, Unknown, None);
    assert LiveOf(rows', owner, now) == LiveOf(rows, owner, now) + {id};
    assert LiveOn(rows', owner, device, now) == LiveOn(rows, owner, device, now) + {id};
  }

  lemma UnknownMarkElsewhere(rows: Rows, id: string, now: real, owner: string, device: string)
    requires id in rows
    ensures var rows' := Marked(rows, id, Unknown, None);
            && (rows[id].owner != owner ==> LiveOf(rows', owner, now) == LiveOf(rows, owner, now))
            && (rows[id].owner != owner || rows[id].device != device ==>
                  LiveOn(rows', owner, device, now) == LiveOn(rows, owner, device, now))
  {
  }

  // Counting by an older clock counts no less, so a grant is still one by now.
  lemma OlderClockCountsMore(rows: Rows, owner: string, device: string, earlier: real, now: real)
    requires earlier <= now
    ensures |LiveOf(rows, owner, now)| <= |LiveOf(rows, owner, earlier)|
    ensures |LiveOn(rows, owner, device, now)| <= |LiveOn(rows, owner, device, earlier)|
  {
    Contained(LiveOf(rows, owner, now), LiveOf(rows, owner, earlier));
    Contained(LiveOn(rows, owner, device, now), LiveOn(rows, owner, device, earlier));
  }

  lemma GrantKeepsCaps(w: World, id: string, owner: string, device: string, now: real, ttl: real)
    requires Inv(w) && CapsHold(w) && CanStep(w, StartCreate(id, owner, device, now, ttl))
    ensures CapsHold(Apply(w, StartCreate(id, owner, device, now, ttl)))
  {
    hide IsLive, LiveOf, LiveOn, Inv, Reserved;
    assert id !in w.rows by { InvHasRow(w, id); }
    var w' := Apply(w, StartCreate(id, owner, device, now, ttl));
    forall o ensures OwnerWithin(w', o) {
      assert OwnerWithin(w, o);
      GrantCounts(w.rows, id, owner, device, now + ttl, w.clock, o, device);
      OlderClockCountsMore(w.rows, owner, device, now, w.clock);
    }
    forall o, d ensures DeviceWithin(w', o, d) {
      assert DeviceWithin(w, o, d);
      GrantCounts(w.rows, id, owner, device, now + ttl, w.clock, o, d);
      OlderClockCountsMore(w.rows, owner, device, now, w.clock);
    }
  }

  lemma GrantCounts(rows: Rows, id: string, owner: string, device: string, expiresAt: real, now: real, o: string,
                    d: string)
    requires id !in rows
    ensures var rows' := Reserved(rows, id, owner, device, expiresAt);
            && |LiveOf(rows', o, now)| <= |LiveOf(rows, o, now)| + (if o == owner then 1 else 0)
            && |LiveOn(rows', o, d, now)| <= |LiveOn(rows, o, d, now)| + (if o == owner && d == device then 1 else 0)
  {
    hide IsLive;
    var rows' := Reserved(rows, id, owner, device, expiresAt);
    Contained(LiveOf(rows', o, now), LiveOf(rows, o, now) + if o == owner then {id} else {});
    Contained(LiveOn(rows', o, d, now), LiveOn(rows, o, d, now) + if o == owner && d == device then {id} else {});
  }

  // A full account or device has no room for a revival.
  predicate IsFull(w: World, row: Row) {
    || |LiveOf(w.rows, row.owner, w.clock)| >= w.limits.perOwner
    || |LiveOn(w.rows, row.owner, row.device, w.clock)| >= w.limits.perDevice
  }

  // While the caps hold, the next step breaks one exactly when it marks unknown
  // a row that no longer counted, of an account or a device already full.
  lemma StepBreaksACapExactly(w: World, step: Step)
    requires Inv(w) && CapsHold(w) && CanStep(w, step)
    ensures !CapsHold(Apply(w, step)) <==> Revives(w, step) && IsFull(w, w.rows[MarkedUnknown(w, step).value])
  {
    hide IsLive, LiveOf, LiveOn, Inv, CanStep, Apply, Marked;
    var w' := Apply(w, step);
    SameLimits(w, step);
    if step.StartCreate? {
      GrantKeepsCaps(w, step.id, step.owner, step.device, step.now, step.ttl);
    } else if Revives(w, step) {
      RevivalBreaksACapExactly(w, step);
    } else {
      forall owner, device ensures OwnerWithin(w', owner) && DeviceWithin(w', owner, device) {
        assert OwnerWithin(w, owner) && DeviceWithin(w, owner, device);
        FewerLive(w, step, owner, device);
      }
      assert forall owner :: OwnerWithin(w', owner) by {
        forall owner ensures OwnerWithin(w', owner) { assert DeviceWithin(w', owner, ""); }
      }
    }
  }

  lemma SameLimits(w: World, step: Step)
    requires CanStep(w, step)
    ensures Apply(w, step).limits == w.limits
  {
  }

  lemma RevivalBreaksACapExactly(w: World, step: Step)
    requires CapsHold(w) && CanStep(w, step) && Revives(w, step)
    ensures !CapsHold(Apply(w, step)) <==> IsFull(w, w.rows[MarkedUnknown(w, step).value])
  {
    hide IsLive, LiveOf, LiveOn, CanStep, Apply, Marked, MarkedUnknown;
    var id := MarkedUnknown(w, step).value;
    var w' := Apply(w, step);
    MarkedKeepsItsOwner(w, step, id);
    UnknownMarkCounts(w.rows, id, w.clock);
    var row := w.rows[id];
    assert OwnerWithin(w, row.owner) && DeviceWithin(w, row.owner, row.device);
    if IsFull(w, row) {
      assert !OwnerWithin(w', row.owner) || !DeviceWithin(w', row.owner, row.device);
    } else {
      forall owner ensures OwnerWithin(w', owner) {
        assert OwnerWithin(w, owner);
        UnknownMarkElsewhere(w.rows, id, w.clock, owner, row.device);
      }
      forall owner, device ensures DeviceWithin(w', owner, device) {
        assert DeviceWithin(w, owner, device);
        UnknownMarkElsewhere(w.rows, id, w.clock, owner, device);
      }
    }
  }

  // Every unknown mark of the run hits a row that still counts.
  ghost predicate RevivesNothing(w: World, steps: seq<Step>)
    requires IsRun(w, steps)
    decreases |steps|
  {
    steps == [] || (!Revives(w, steps[0]) && RevivesNothing(Apply(w, steps[0]), steps[1..]))
  }

  // Then both caps hold after every step.
  lemma {:induction false} CapsHoldUnlessRevived(w: World, steps: seq<Step>)
    requires Inv(w) && CapsHold(w) && IsRun(w, steps) && RevivesNothing(w, steps)
    ensures CapsHold(After(w, steps))
    decreases |steps|
  {
    hide Inv, CanStep, Apply, CapsHold, Revives;
    if steps != [] {
      StepKeepsInv(w, steps[0]);
      StepBreaksACapExactly(w, steps[0]);
      CapsHoldUnlessRevived(Apply(w, steps[0]), steps[1..]);
    }
  }

  lemma CapsHoldWithoutRevival(limits: Limits, steps: seq<Step>)
    requires IsRun(Initial(limits), steps) && RevivesNothing(Initial(limits), steps)
    ensures CapsHold(After(Initial(limits), steps))
  {
    CapsHoldUnlessRevived(Initial(limits), steps);
  }

  // Whenever a cap is broken, some step before revived a row of an account or a
  // device that was full, and until then the caps held.
  lemma {:induction false} BrokenCapsWereRevived(w: World, steps: seq<Step>) returns (k: nat)
    requires Inv(w) && CapsHold(w) && IsRun(w, steps) && !CapsHold(After(w, steps))
    ensures k < |steps| && IsRun(w, steps[..k]) && CapsHold(After(w, steps[..k]))
    ensures var at := After(w, steps[..k]);
            CanStep(at, steps[k]) && Revives(at, steps[k]) && IsFull(at, at.rows[MarkedUnknown(at, steps[k]).value])
    decreases |steps|
  {
    hide Inv, CanStep, Apply, CapsHold, Revives, IsFull;
    var next := Apply(w, steps[0]);
    StepBreaksACapExactly(w, steps[0]);
    if CapsHold(next) {
      StepKeepsInv(w, steps[0]);
      var rest := BrokenCapsWereRevived(next, steps[1..]);
      k := rest + 1;
      assert steps[..k][1..] == steps[1..][..rest];
    } else {
      k := 0;
    }
  }

  // Two live subscriptions of one device, where one is allowed.
  lemma TwoExceedOne(w: World)
    requires w.limits == Limits(1, 1) && LiveOn(w.rows, "merchant", "device", w.clock) == {"first", "second"}
    ensures !CapsHold(w)
  {
    assert !DeviceWithin(w, "merchant", "device");
  }

  // Replaced after its expiry: the caps count the second row alone.
  function Replacing(): seq<Step> { [Tick(20.0), StartCreate("second", "merchant", "device", 20.0, 10.0)] }

  lemma Replaces(w: World, row: Row)
    requires w.limits == Limits(1, 1) && w.clock == 0.0 && "second" !in w.creates
    requires w.rows == map["first" := row] && row.expiresAt == 10.0 && !row.status.Unknown?
    ensures IsRun(w, Replacing())
    ensures After(w, Replacing()) ==
      w.(clock := 20.0, rows := w.rows["second" := Row("merchant", "device", Pending, None, 30.0)],
         creates := w.creates["second" := CreateCall(30.0, None, false, Open)])
  {
    var later := w.(clock := 20.0);
    assert LiveOf(w.rows, "merchant", 20.0) == {} && LiveOn(w.rows, "merchant", "device", 20.0) == {};
    assert Replacing()[1..] == [StartCreate("second", "merchant", "device", 20.0, 10.0)] && Replacing()[1..][1..] == [];
    assert CanStep(later, Replacing()[1]);
  }

  lemma {:induction false} Join(w: World, a: seq<Step>, b: seq<Step>)
    requires IsRun(w, a) && IsRun(After(w, a), b)
    ensures IsRun(w, a + b) && After(w, a + b) == After(After(w, a), b)
    decreases |a|
  {
    hide CanStep, Apply;
    if a == [] {
      assert a + b == b;
    } else {
      assert (a + b)[1..] == a[1..] + b;
      Join(Apply(w, a[0]), a[1..], b);
    }
  }

  function First(): seq<Step> { [StartCreate("first", "merchant", "device", 0.0, 10.0)] }

  lemma StartsFirst()
    ensures IsRun(Initial(Limits(1, 1)), First())
    ensures After(Initial(Limits(1, 1)), First()) ==
      Initial(Limits(1, 1)).(rows := map["first" := Row("merchant", "device", Pending, None, 10.0)],
                             creates := map["first" := CreateCall(10.0, None, false, Open)])
  {
    var w := Initial(Limits(1, 1));
    assert LiveOf(w.rows, "merchant", 0.0) == {} && LiveOn(w.rows, "merchant", "device", 0.0) == {};
    assert CanStep(w, First()[0]) && First()[1..] == [];
  }

  // A create that answers, ambiguously, after its row expired and was replaced:
  // two live rows under a cap of one, without a single deletion.
  lemma LateAnswerExceedsTheCaps()
    ensures var (w, steps) := (Initial(Limits(1, 1)),
                               First() + Replacing() + [HearCreate("first", Error(None)), MarkCreate("first")]);
            && IsRun(w, steps) && !CapsHold(After(w, steps))
            && LiveOn(After(w, steps).rows, "merchant", "device", 20.0) == {"first", "second"}
  {
    hide IsRun, After, CapsHold, First, Replacing;
    var w := Initial(Limits(1, 1));
    var end := [HearCreate("first", Error(None)), MarkCreate("first")];
    StartsFirst();
    Replaces(After(w, First()), Row("merchant", "device", Pending, None, 10.0));
    Join(w, First(), Replacing());
    var replaced := After(w, First() + Replacing());
    TwoSteps(replaced, end[0], end[1]);
    Join(w, First() + Replacing(), end);
    TwoExceedOne(After(replaced, end));
  }

  lemma TwoSteps(w: World, a: Step, b: Step)
    requires CanStep(w, a) && CanStep(Apply(w, a), b)
    ensures IsRun(w, [a, b]) && After(w, [a, b]) == Apply(Apply(w, a), b)
  {
    OneStep(Apply(w, a), b);
    assert [a, b][1..] == [b];
  }

  lemma OneStep(w: World, a: Step)
    requires CanStep(w, a)
    ensures IsRun(w, [a]) && After(w, [a]) == Apply(w, a)
  {
    assert [a][1..] == [];
  }

  // An expired subscription that the operator will not confirm deleted, beside
  // the one that replaced it.
  function Deleting(): seq<Step> {
    [OperatorCreates("first", "remote"), HearCreate("first", Created("remote"))] +
    [MarkCreate("first"), StartDelete("first")]
  }

  lemma DeletesFirst(w: World)
    requires w == Initial(Limits(1, 1)).(rows := map["first" := Row("merchant", "device", Pending, None, 10.0)],
                                         creates := map["first" := CreateCall(10.0, None, false, Open)])
    ensures IsRun(w, Deleting())
    ensures After(w, Deleting()) ==
      w.(rows := map["first" := Row("merchant", "device", Active, Some("remote"), 10.0)],
         remotes := map["remote" := Remote("first", 10.0)], issued := {"remote"},
         creates := map["first" := CreateCall(10.0, Some("remote"), false, Over)],
         deletes := [DeleteCall("first", Some("remote"), Open)])
  {
    hide IsRun, After;
    var (made, marked) := ([OperatorCreates("first", "remote"), HearCreate("first", Created("remote"))],
                           [MarkCreate("first"), StartDelete("first")]);
    TwoSteps(w, made[0], made[1]);
    TwoSteps(After(w, made), marked[0], marked[1]);
    Join(w, made, marked);
  }

  lemma FailedDeleteExceedsTheCaps()
    ensures var (w, steps) := (Initial(Limits(1, 1)),
                               First() + Deleting() + Replacing() + [HearDelete(0, Failure(None)), MarkDelete(0)]);
            && IsRun(w, steps) && !CapsHold(After(w, steps))
            && LiveOn(After(w, steps).rows, "merchant", "device", 20.0) == {"first", "second"}
  {
    hide IsRun, After, CapsHold, First, Deleting, Replacing;
    var w := Initial(Limits(1, 1));
    var end := [HearDelete(0, Failure(None)), MarkDelete(0)];
    StartsFirst();
    DeletesFirst(After(w, First()));
    Join(w, First(), Deleting());
    var w2 := After(w, First() + Deleting());
    Replaces(w2, Row("merchant", "device", Active, Some("remote"), 10.0));
    Join(w, First() + Deleting(), Replacing());
    var w3 := After(w2, Replacing());
    TwoSteps(w3, end[0], end[1]);
    Join(w, First() + Deleting() + Replacing(), end);
    TwoExceedOne(After(w3, end));
  }
}
