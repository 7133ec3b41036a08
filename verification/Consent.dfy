// app/consent.py: Number Verification consents, from the redirect to the
// verification they pay for.
//
// What a method does to one record is a function on the record's progress, and
// what can ever happen to a record is proved about those functions. Handlers
// keep references to records the store may since have dropped.

module Consents {
  import opened Domain

  datatype Status = PENDING | EXCHANGING | AUTHORIZED | VERIFYING | COMPLETED | DENIED | FAILED | EXPIRED

  predicate IsTerminal(s: Status) { s.COMPLETED? || s.DENIED? || s.FAILED? || s.EXPIRED? }

  function Rank(s: Status): nat {
    match s
    case PENDING => 0
    case EXCHANGING => 1
    case AUTHORIZED => 2
    case VERIFYING => 3
    case _ => 4
  }

  // The steps towards an outcome, one after the other; no outcome above another.
  lemma RankOrdersTheSteps(end: Status, other: Status)
    requires end in {COMPLETED, DENIED, FAILED, EXPIRED} && other in {COMPLETED, DENIED, FAILED, EXPIRED}
    ensures Rank(PENDING) < Rank(EXCHANGING) < Rank(AUTHORIZED) < Rank(VERIFYING) < Rank(end) == Rank(other)
  {
  }

  // opening: the handler that created the consent is still asking the provider
  // for its authorization URL. exchanging and verifying: a handler has claimed
  // the step and not yet reported. exchanges and verifications: how often the
  // step was ever claimed.
  datatype Progress = Progress(
    status: Status, url: Option<string>, token: Option<string>, terminalAt: Option<real>, response: Option<string>,
    opening: bool, exchanging: bool, verifying: bool, exchanges: nat, verifications: nat)

  const Fresh := Progress(PENDING, None, None, None, None, true, false, false, 0, 0)

  // ---- the transitions ----

  function Settle(p: Progress, status: Status, now: real): Progress {
    p.(status := status, token := None, terminalAt := Some(now))
  }

  function Expire(p: Progress, expiresAt: real, now: real): Progress {
    if expiresAt <= now && !IsTerminal(p.status) then Settle(p, EXPIRED, now) else p
  }

  function Begin(p: Progress, expiresAt: real, now: real): Progress {
    var q := Expire(p, expiresAt, now);
    if q.status.PENDING? then q.(status := EXCHANGING, exchanging := true, exchanges := q.exchanges + 1) else q
  }

  function Denial(p: Progress, expiresAt: real, now: real): Progress {
    var q := Expire(p, expiresAt, now);
    if q.status.PENDING? || q.status.EXCHANGING? then Settle(q, DENIED, now) else q
  }

  // The one `fail` of the source serves the handler that opened the consent and
  // the one that exchanges its code.
  datatype Handler = Opener | Exchanger

  predicate IsOut(p: Progress, who: Handler) { if who.Opener? then p.opening else p.exchanging }

  function FailBy(p: Progress, who: Handler, now: real): Progress {
    var q := Settle(p, FAILED, now);
    if who.Opener? then q.(opening := false) else q.(exchanging := false)
  }

  function Opened(p: Progress, url: string): Progress {
    p.(opening := false, url := if p.status.PENDING? then Some(url) else p.url)
  }

  function Authorization(p: Progress, token: string, expiresAt: real, now: real): Progress {
    var q := Expire(p, expiresAt, now).(exchanging := false);
    if q.status.EXCHANGING? then q.(status := AUTHORIZED, token := Some(token)) else q
  }

  function Claim(p: Progress, expiresAt: real, now: real): Progress {
    var q := Expire(p, expiresAt, now);
    if q.status.AUTHORIZED? && HasToken(q) then
      q.(status := VERIFYING, verifying := true, verifications := q.verifications + 1)
    else q
  }

  // An empty access token is no token.
  predicate HasToken(p: Progress) { p.token.Some? && p.token.value != "" }

  function Completion(p: Progress, response: string, now: real): Progress {
    Settle(p, COMPLETED, now).(response := Some(response), verifying := false)
  }

  function Failure(p: Progress, now: real): Progress { Settle(p, FAILED, now).(verifying := false) }

  datatype Operation =
    | Looked(now: real)
    | Began(now: real)
    | Denied(now: real)
    | Ready(url: string)
    | FailReported(who: Handler, now: real)
    | Authorized(token: string, now: real)
    | Claimed(now: real)
    | Completed(response: string, now: real)
    | VerificationFailed(now: real)

  // Only the handler that created the consent or claimed a step reports on it,
  // and once.
  predicate MayHappen(p: Progress, op: Operation) {
    match op
    case Ready(_) => p.opening
    case FailReported(who, _) => IsOut(p, who)
    case Authorized(_, _) => p.exchanging
    case Completed(_, _) | VerificationFailed(_) => p.verifying
    case _ => true
  }

  // Anyone may look, call back, deny or claim at any time; a report needs the
  // handler that owes it.
  lemma OnlyReportsAreOwed(p: Progress, op: Operation)
    ensures !MayHappen(p, op) <==>
      || (!p.opening && (op.Ready? || (op.FailReported? && op.who == Opener)))
      || (!p.exchanging && (op.Authorized? || (op.FailReported? && op.who == Exchanger)))
      || (!p.verifying && (op.Completed? || op.VerificationFailed?))
  {
  }

  function Apply(p: Progress, expiresAt: real, op: Operation): Progress {
    match op
    case Looked(now) => Expire(p, expiresAt, now)
    case Began(now) => Begin(p, expiresAt, now)
    case Denied(now) => Denial(p, expiresAt, now)
    case Ready(url) => Opened(p, url)
    case FailReported(who, now) => FailBy(p, who, now)
    case Authorized(token, now) => Authorization(p, token, expiresAt, now)
    case Claimed(now) => Claim(p, expiresAt, now)
    case Completed(response, now) => Completion(p, response, now)
    case VerificationFailed(now) => Failure(p, now)
  }

  // What each operation changes of a record, field by field. Where the record
  // has run out first, all that happens is that it expires.
  lemma EffectOf(p: Progress, expiresAt: real, op: Operation)
    ensures var q := Apply(p, expiresAt, op);
      match op
      case Looked(now) =>
        q == if p.status in {PENDING, EXCHANGING, AUTHORIZED, VERIFYING} && expiresAt <= now
             then p.(status := EXPIRED, token := None, terminalAt := Some(now)) else p
      case Began(now) =>
        q == if p.status == PENDING && now < expiresAt
             then p.(status := EXCHANGING, exchanging := true, exchanges := p.exchanges + 1)
             else Apply(p, expiresAt, Looked(now))
      case Denied(now) =>
        q == if p.status in {PENDING, EXCHANGING} && now < expiresAt
             then p.(status := DENIED, token := None, terminalAt := Some(now))
             else Apply(p, expiresAt, Looked(now))
      case Ready(url) =>
        q == p.(opening := false, url := if p.status == PENDING then Some(url) else p.url)
      case FailReported(Opener, now) =>
        q == p.(status := FAILED, token := None, terminalAt := Some(now), opening := false)
      case FailReported(Exchanger, now) =>
        q == p.(status := FAILED, token := None, terminalAt := Some(now), exchanging := false)
      case Authorized(token, now) =>
        q == if p.status == EXCHANGING && now < expiresAt
             then p.(status := AUTHORIZED, token := Some(token), exchanging := false)
             else Apply(p, expiresAt, Looked(now)).(exchanging := false)
      case Claimed(now) =>
        q == if p.status == AUTHORIZED && now < expiresAt && p.token.Some? && p.token.value != ""
             then p.(status := VERIFYING, verifying := true, verifications := p.verifications + 1)
             else Apply(p, expiresAt, Looked(now))
      case Completed(response, now) =>
        q == p.(status := COMPLETED, response := Some(response), token := None, terminalAt := Some(now),
                verifying := false)
      case VerificationFailed(now) =>
        q == p.(status := FAILED, token := None, terminalAt := Some(now), verifying := false)
  {
  }

  // ---- what holds of every record ----

  ghost predicate Sound(p: Progress) {
    && (p.token.Some? ==> p.status.AUTHORIZED? || p.status.VERIFYING?)
    && (p.status.VERIFYING? ==> HasToken(p))
    && (IsTerminal(p.status) <==> p.terminalAt.Some?)
    && (p.status.COMPLETED? ==> p.response.Some?)
    && (p.response.Some? ==> p.status.COMPLETED? || p.status.FAILED?)
    && p.exchanges <= 1 && p.verifications <= 1
    && (p.status.PENDING? ==> p.exchanges == 0)
    && (0 < Rank(p.status) < 4 || p.status.COMPLETED? ==> p.exchanges == 1)
    && (p.status.COMPLETED? ==> p.verifications == 1)
    && (Rank(p.status) < 3 ==> p.verifications == 0)
    && (p.exchanging ==> p.exchanges == 1 && !p.verifying && p.verifications == 0)
    && (p.verifying ==> p.exchanges == 1 && p.verifications == 1)
    && (p.verifying ==> p.status.VERIFYING? || p.status.EXPIRED? || p.status.FAILED?)
    && (p.exchanging ==> p.status.EXCHANGING? || p.status.EXPIRED? || p.status.DENIED? || p.status.FAILED?)
    && (p.status.EXCHANGING? ==> p.exchanging)
    && (p.status.VERIFYING? ==> p.verifying)
  }

  // A record only moves forward. What is terminal changes only by the report of
  // a handler still out: COMPLETED only by an opener's failure; FAILED only by
  // the completion of a verification it overtook; DENIED only to FAILED; EXPIRED
  // to FAILED, or to COMPLETED by a verification already claimed.
  lemma EveryTransition(p: Progress, expiresAt: real, op: Operation)
    requires Sound(p) && MayHappen(p, op)
    ensures var q := Apply(p, expiresAt, op);
            && Sound(q) && Rank(p.status) <= Rank(q.status)
            && (p.status.COMPLETED? && q.status != p.status ==>
                  p.opening && q.status.FAILED? && op.FailReported? && op.who.Opener?)
            && (p.status.FAILED? && q.status != p.status ==> p.verifying && q.status.COMPLETED?)
            && (p.status.DENIED? && q.status != p.status ==> (p.opening || p.exchanging) && q.status.FAILED?)
            && (p.status.EXPIRED? && q.status != p.status ==>
                  q.status.FAILED? || (q.status.COMPLETED? && p.verifying))
  {
    hide Sound, Apply, MayHappen;
    SoundnessIsKept(p, expiresAt, op);
    TerminalsGiveWay(p, expiresAt, op);
  }

  lemma SoundnessIsKept(p: Progress, expiresAt: real, op: Operation)
    requires Sound(p) && MayHappen(p, op)
    ensures Sound(Apply(p, expiresAt, op))
  {
  }

  lemma TerminalsGiveWay(p: Progress, expiresAt: real, op: Operation)
    requires Sound(p) && MayHappen(p, op)
    ensures var q := Apply(p, expiresAt, op);
            && Rank(p.status) <= Rank(q.status)
            && (p.status.COMPLETED? && q.status != p.status ==>
                  p.opening && q.status.FAILED? && op.FailReported? && op.who.Opener?)
            && (p.status.FAILED? && q.status != p.status ==> p.verifying && q.status.COMPLETED?)
            && (p.status.DENIED? && q.status != p.status ==> (p.opening || p.exchanging) && q.status.FAILED?)
            && (p.status.EXPIRED? && q.status != p.status ==>
                  q.status.FAILED? || (q.status.COMPLETED? && p.verifying))
  {
  }

  // With nobody out to report on it, an outcome is final.
  lemma OutcomesAreFinal(p: Progress, expiresAt: real, op: Operation)
    requires Sound(p) && MayHappen(p, op) && !p.opening
    ensures var q := Apply(p, expiresAt, op);
            && (p.status.COMPLETED? ==> q == p)
            && (p.status.FAILED? && !p.verifying ==> q.status.FAILED? && !q.opening && !q.verifying)
  {
  }

  // What the opener's failure may overwrite: anything. Every status can be
  // reached while the authorization request is still open, and the report makes
  // it FAILED.
  lemma OpenerMayOverwriteAnyStatus(expiresAt: real, status: Status) returns (ops: seq<Operation>)
    ensures MayRun(Fresh, expiresAt, ops)
    ensures var q := Run(Fresh, expiresAt, ops);
            && q.status == status && q.opening && MayHappen(q, FailReported(Opener, expiresAt))
            && Apply(q, expiresAt, FailReported(Opener, expiresAt)).status == FAILED
  {
    var early := expiresAt - 1.0;
    var p1 := Apply(Fresh, expiresAt, Began(early));
    var p2 := Apply(p1, expiresAt, Authorized("token", early));
    var p3 := Apply(p2, expiresAt, Claimed(early));
    match status
    case PENDING =>
      ops := [];
    case EXCHANGING =>
      ops := [Began(early)];
      RunOn(Fresh, expiresAt, ops);
    case AUTHORIZED =>
      ops := [Began(early), Authorized("token", early)];
      RunOn(Fresh, expiresAt, ops);
      RunOn(p1, expiresAt, ops[1..]);
    case VERIFYING =>
      ops := [Began(early), Authorized("token", early), Claimed(early)];
      RunOn(Fresh, expiresAt, ops);
      RunOn(p1, expiresAt, ops[1..]);
      RunOn(p2, expiresAt, ops[1..][1..]);
    case COMPLETED =>
      ops := [Began(early), Authorized("token", early), Claimed(early), Completed("response", early)];
      RunOn(Fresh, expiresAt, ops);
      RunOn(p1, expiresAt, ops[1..]);
      RunOn(p2, expiresAt, ops[1..][1..]);
      RunOn(p3, expiresAt, ops[1..][1..][1..]);
    case DENIED =>
      ops := [Denied(early)];
      RunOn(Fresh, expiresAt, ops);
    case FAILED =>
      ops := [Began(early), FailReported(Exchanger, early)];
      RunOn(Fresh, expiresAt, ops);
      RunOn(p1, expiresAt, ops[1..]);
    case EXPIRED =>
      ops := [Looked(expiresAt)];
      RunOn(Fresh, expiresAt, ops);
  }

  lemma RunOn(p: Progress, expiresAt: real, ops: seq<Operation>)
    requires ops != []
    ensures Run(p, expiresAt, ops) == Run(Apply(p, expiresAt, ops[0]), expiresAt, ops[1..])
    ensures MayRun(p, expiresAt, ops) <==>
      MayHappen(p, ops[0]) && MayRun(Apply(p, expiresAt, ops[0]), expiresAt, ops[1..])
  {
  }

  predicate MayRun(p: Progress, expiresAt: real, ops: seq<Operation>)
    decreases |ops|
  {
    ops == [] || (MayHappen(p, ops[0]) && MayRun(Apply(p, expiresAt, ops[0]), expiresAt, ops[1..]))
  }

  function Run(p: Progress, expiresAt: real, ops: seq<Operation>): Progress
    decreases |ops|
  {
    if ops == [] then p else Run(Apply(p, expiresAt, ops[0]), expiresAt, ops[1..])
  }

  // Over everything that can happen to a consent: its rank never falls, its
  // callback is claimed at most once, its verification at most once, and it
  // holds a token only while authorized or verifying.
  lemma {:induction false} OneCallbackOneVerification(p: Progress, expiresAt: real, ops: seq<Operation>)
    requires Sound(p) && MayRun(p, expiresAt, ops)
    ensures var q := Run(p, expiresAt, ops);
            && Sound(q) && Rank(p.status) <= Rank(q.status)
            && q.exchanges <= 1 && q.verifications <= 1
            && (q.token.Some? ==> q.status.AUTHORIZED? || q.status.VERIFYING?)
            && (p.status.COMPLETED? && !p.opening ==> q == p)
            && (p.status.FAILED? && !p.opening && !p.verifying ==> q.status == FAILED)
    decreases |ops|
  {
    hide Sound, Apply, MayHappen;
    if ops == [] {
      SoundCounts(p);
    } else {
      EveryTransition(p, expiresAt, ops[0]);
      if !p.opening { OutcomesAreFinal(p, expiresAt, ops[0]); }
      OneCallbackOneVerification(Apply(p, expiresAt, ops[0]), expiresAt, ops[1..]);
    }
  }

  lemma FreshIsSound()
    ensures Sound(Fresh)
  {
  }

  lemma SoundCounts(p: Progress)
    requires Sound(p)
    ensures p.exchanges <= 1 && p.verifications <= 1 && (p.token.Some? ==> p.status.AUTHORIZED? || p.status.VERIFYING?)
  {
  }

  predicate PastRetention(p: Progress, now: real, retention: real) {
    IsTerminal(p.status) && now >= (if p.terminalAt.Some? then p.terminalAt.value else now) + retention
  }

  // A record is dropped once it has been terminal for its whole retention.
  lemma DroppedExactly(p: Progress, now: real, retention: real)
    requires Sound(p)
    ensures PastRetention(p, now, retention) <==>
      p.status in {COMPLETED, DENIED, FAILED, EXPIRED} && p.terminalAt.Some? && p.terminalAt.value + retention <= now
  {
  }

  // A record that only now is seen to have expired still gets its retention.
  lemma ExpiryStartsRetention(p: Progress, expiresAt: real, now: real, retention: real)
    requires Sound(p) && PastRetention(Expire(p, expiresAt, now), now, retention) && retention > 0.0
    ensures IsTerminal(p.status) && p.terminalAt.Some? && p.terminalAt.value + retention <= now
  {
  }

  // ---- the records ----

  class ConsentRecord {
    const consentId: string
    const state: string
    const owner: string
    const expiresAt: real

    var status: Status
    var authorizationUrl: Option<string>
    var accessToken: Option<string>
    var terminalAt: Option<real>
    var responseJson: Option<string>

    ghost var opening: bool
    ghost var exchanging: bool
    ghost var verifying: bool
    ghost var exchanges: nat
    ghost var verifications: nat

    ghost function Standing(): Progress
      reads this
    {
      Progress(status, authorizationUrl, accessToken, terminalAt, responseJson,
               opening, exchanging, verifying, exchanges, verifications)
    }

    constructor (consentId: string, state: string, owner: string, expiresAt: real)
      ensures this.consentId == consentId && this.state == state && this.owner == owner && this.expiresAt == expiresAt
      ensures Standing() == Fresh
    {
      this.consentId, this.state, this.owner, this.expiresAt := consentId, state, owner, expiresAt;
      status, authorizationUrl, accessToken, terminalAt, responseJson := PENDING, None, None, None, None;
      opening, exchanging, verifying, exchanges, verifications := true, false, false, 0, 0;
    }

    method ExpireNow(now: real)
      modifies this
      ensures Standing() == Expire(old(Standing()), expiresAt, now)
    {
      if expiresAt <= now && !IsTerminal(status) { SettleAs(EXPIRED, now); }
    }

    method SettleAs(outcome: Status, now: real)
      modifies this
      ensures Standing() == Settle(old(Standing()), outcome, now)
    {
      status, accessToken, terminalAt := outcome, None, Some(now);
    }

    predicate IsPastRetention(now: real, retention: real)
      reads this
      ensures IsPastRetention(now, retention) == PastRetention(Standing(), now, retention)
    {
      IsTerminal(status) && now >= (if terminalAt.Some? then terminalAt.value else now) + retention
    }

    method DenyNow(now: real)
      modifies this
      ensures Standing() == Denial(old(Standing()), expiresAt, now) && exchanges == old(exchanges)
    {
      ExpireNow(now);
      if status.PENDING? || status.EXCHANGING? { SettleAs(DENIED, now); }
    }

    method AuthorizeNow(token: string, now: real)
      modifies this
      ensures Standing() == Authorization(old(Standing()), token, expiresAt, now) && exchanges == old(exchanges)
    {
      ExpireNow(now);
      exchanging := false;
      if status.EXCHANGING? { status, accessToken := AUTHORIZED, Some(token); }
    }

    method CompleteNow(response: string, now: real)
      modifies this
      ensures Standing() == Completion(old(Standing()), response, now) && exchanges == old(exchanges)
    {
      SettleAs(COMPLETED, now);
      responseJson, verifying := Some(response), false;
    }

    method ClaimNow(now: real) returns (claimed: bool)
      modifies this
      ensures Standing() == Claim(old(Standing()), expiresAt, now)
      ensures exchanges == old(exchanges)
      ensures claimed <==> verifications == old(verifications) + 1
      ensures !claimed ==> verifications == old(verifications)
      ensures claimed ==> status.VERIFYING? && HasToken(Standing())
    {
      ExpireNow(now);
      if !status.AUTHORIZED? || accessToken.None? || accessToken.value == "" { return false; }
      status := VERIFYING;
      verifying, verifications := true, verifications + 1;
      claimed := true;
    }
  }

  datatype CallbackAnswer = Exchanging | Replayed | Already(status: Status)

  datatype ClaimAnswer = Verify(token: string) | Answer(response: string) | NotReady(status: Status)

  function OwnedBy(records: map<string, ConsentRecord>, owner: string): set<string> {
    set id | id in records && records[id].owner == owner
  }

  // No merchant holds more of the store than its share.
  ghost predicate WithinShare(records: map<string, ConsentRecord>, most: nat) {
    forall owner :: |OwnedBy(records, owner)| <= most
  }

  class ConsentStore {
    var records: map<string, ConsentRecord>
    var states: map<string, string>
    const maxRecords: nat
    const maxPerOwner: nat
    const retention: real

    ghost var known: set<ConsentRecord>   // every consent ever created

    ghost predicate Valid()
      reads this, known
    {
      && (forall r :: r in known ==> Sound(r.Standing()))
      && Tabled(records, states, known)
      && |records| <= maxRecords && WithinShare(records, maxPerOwner)
      && (forall s :: s in states ==> records[states[s]].exchanges == 0)
    }

    // The two dictionaries agree, and a state is one record's.
    ghost static predicate Tabled(records: map<string, ConsentRecord>, states: map<string, string>,
                                  known: set<ConsentRecord>)
    {
      && (forall id :: id in records ==> records[id] in known && records[id].consentId == id)
      && (forall s :: s in states ==> states[s] in records && records[states[s]].state == s)
      && (forall r, q :: r in known && q in known && r.state == q.state ==> r == q)
    }

    constructor (maxRecords: nat, maxPerOwner: nat, retention: real)
      ensures Valid() && records == map[] && known == {}
      ensures this.maxRecords == maxRecords && this.maxPerOwner == maxPerOwner && this.retention == retention
    {
      this.maxRecords, this.maxPerOwner, this.retention := maxRecords, maxPerOwner, retention;
      records, states, known := map[], map[], {};
      new;
      assert forall owner :: OwnedBy(records, owner) == {};
      assert WithinShare(records, maxPerOwner);
    }

    method Drop(id: string)
      requires Valid() && id in records
      modifies this`records, this`states
      ensures Valid() && records == old(records) - {id} && states == old(states) - {old(records)[id].state}
    {
      hide Sound, WithinShare, Tabled;
      FewerOwned(records, id, maxPerOwner);
      StillTabled(id);
      states := states - {records[id].state};
      records := records - {id};
    }

    lemma StillTabled(id: string)
      requires Tabled(records, states, known) && id in records
      ensures Tabled(records - {id}, states - {records[id].state}, known)
      ensures forall s :: s in states && s != records[id].state ==> states[s] in records && states[s] != id
    {
    }

    // Expire what is due, then drop what has been terminal for its full
    // retention. Nothing else is dropped and nothing else is touched.
    method Sweep(now: real)
      requires Valid()
      modifies this`records, this`states, known
      ensures Valid()
      ensures forall id :: id in old(records) ==> IsRefreshed(old(records)[id], old(records[id].Standing()), now)
      ensures forall id :: id in old(records) ==>
        (id in records <==> !PastRetention(old(records)[id].Standing(), now, retention))
      ensures forall id :: id in records ==> id in old(records) && records[id] == old(records)[id]
      ensures forall r :: r in known && r !in old(records).Values ==> r.Standing() == old(r.Standing())
      ensures Follows(old(states), states, records)
    {
      hide Sound, WithinShare, Tabled, Expire, PastRetention, Valid, IsRefreshed, Snapshot, ConsentRecord.Standing;
      hide Follows;
      StatesLeadToRecords();
      ghost var was := Snapshot();
      ghost var table := records;
      var left := records.Keys;
      OwnRecords();
      while left != {}
        invariant Valid() && left <= table.Keys
        invariant forall id :: id in table ==> table[id] in was && table[id].consentId == id && table[id] in known
        invariant forall id :: id in left ==> id in records && table[id].Standing() == was[table[id]]
        invariant forall id :: id in table && id !in left ==> IsRefreshed(table[id], was[table[id]], now)
        invariant forall id :: id in table && id !in left ==>
          (id in records <==> !PastRetention(table[id].Standing(), now, retention))
        invariant forall id :: id in records ==> id in table && records[id] == table[id]
        invariant forall r :: r in known && r !in table.Values ==> r.Standing() == was[r]
        invariant Follows(old(states), states, records)
        decreases left
      {
        var id :| id in left;
        left := left - {id};
        SweepOne(id, now);
      }
    }

    // The index loses exactly the states of the records that went.
    ghost static predicate Follows(was: map<string, string>, index: map<string, string>,
                                   held: map<string, ConsentRecord>)
    {
      forall s :: (s in index <==> s in was && was[s] in held) && (s in index ==> index[s] == was[s])
    }

    lemma StatesLeadToRecords()
      requires Valid()
      ensures Follows(states, states, records)
    {
    }

    // A record's state, if listed, leads to it; and no other does.
    lemma OneStateEach(id: string)
      requires Valid() && id in records
      ensures forall s :: s in states && states[s] == id <==> s in states && s == records[id].state
    {
      if records[id].state in states {
        var other := records[states[records[id].state]];
        assert other.state == records[id].state;
      }
    }

    lemma FollowsWith(was: map<string, string>, index: map<string, string>, held: map<string, ConsentRecord>,
                      record: ConsentRecord)
      requires Follows(was, index, held) && forall s :: s in was ==> was[s] != record.consentId
      ensures Follows(was[record.state := record.consentId], index[record.state := record.consentId],
                      held[record.consentId := record])
    {
    }

    lemma StillFollow(was: map<string, string>, index: map<string, string>, held: map<string, ConsentRecord>,
                      id: string)
      requires id in held && records in {held, held - {id}}
      requires states == if id in records then index else index - {held[id].state}
      requires forall s :: s in index && index[s] == id <==> s in index && s == held[id].state
      requires Follows(was, index, held)
      ensures Follows(was, states, records)
    {
    }

    method SweepOne(id: string, now: real)
      requires Valid() && id in records && records[id] in known
      modifies this`records, this`states, records[id]
      ensures Valid() && IsRefreshed(old(records)[id], old(records[id].Standing()), now)
      ensures old(records)[id].exchanges == old(records[id].exchanges)
      ensures records ==
        if PastRetention(old(records)[id].Standing(), now, retention) then old(records) - {id} else old(records)
      ensures states == if id in records then old(states) else old(states) - {old(records)[id].state}
      ensures forall was :: Follows(was, old(states), old(records)) ==> Follows(was, states, records)
    {
      hide Sound, WithinShare, Tabled, Expire, PastRetention, Valid, Follows;
      ghost var index, held := states, records;
      OneStateEach(id);
      var record := records[id];
      Refresh(record, now);
      if record.IsPastRetention(now, retention) { Drop(id); }
      forall was | Follows(was, index, held) ensures Follows(was, states, records) {
        StillFollow(was, index, held, id);
      }
    }

    ghost predicate IsRefreshed(record: ConsentRecord, was: Progress, now: real)
      reads record
    {
      record.Standing() == Expire(was, record.expiresAt, now)
    }

    ghost function Snapshot(): (was: map<ConsentRecord, Progress>)
      reads this, known
      ensures was.Keys == known && forall r :: r in known ==> was[r] == r.Standing()
    {
      map r | r in known :: r.Standing()
    }

    lemma OwnRecords()
      requires Valid()
      ensures forall id :: id in records ==> records[id] in known && records[id].consentId == id
    {
    }

    // A new consent, if the merchant and the store have room once what is past
    // retention is gone. No live consent is displaced.
    method Create(consentId: string, state: string, owner: string, expiresAt: real, now: real)
      returns (created: Option<ConsentRecord>)
      requires Valid() && consentId !in records && forall r :: r in known ==> r.state != state
      modifies this`records, this`states, this`known, known
      ensures Valid()
      ensures forall id :: id in old(records) ==> IsRefreshed(old(records)[id], old(records[id].Standing()), now)
      ensures forall id :: id in old(records) ==>
        (id in records <==> !PastRetention(old(records)[id].Standing(), now, retention))
      ensures forall id :: id in records && (created.None? || id != consentId) ==>
        id in old(records) && records[id] == old(records)[id]
      ensures created.None? ==> known == old(known) && Follows(old(states), states, records)
      ensures created.Some? ==> Follows(old(states)[state := consentId], states, records)
      ensures created.None? ==> |OwnedBy(records, owner)| >= maxPerOwner || |records| >= maxRecords
      ensures created.Some? ==>
        && fresh(created.value) && known == old(known) + {created.value}
        && consentId in records && records[consentId] == created.value
        && state in states && states[state] == consentId
        && created.value.owner == owner && created.value.state == state && created.value.expiresAt == expiresAt
        && created.value.Standing() == Fresh
    {
      hide Sound, WithinShare, Tabled, Expire, PastRetention, Valid;
      StatesLeadToRecords();
      ghost var was := states;
      assert forall s :: s in was ==> was[s] != consentId;
      Sweep(now);
      if |OwnedBy(records, owner)| >= maxPerOwner { return None; }
      if |records| >= maxRecords { return None; }
      var record := new ConsentRecord(consentId, state, owner, expiresAt);
      ghost var index, held := states, records;
      Enter(record);
      FollowsWith(was, index, held, record);
      created := Some(record);
    }

    method Enter(record: ConsentRecord)
      requires Valid() && record !in known && record.Standing() == Fresh
      requires record.consentId !in records && forall r :: r in known ==> r.state != record.state
      requires |OwnedBy(records, record.owner)| < maxPerOwner && |records| < maxRecords
      modifies this`records, this`states, this`known
      ensures Valid() && known == old(known) + {record}
      ensures records == old(records)[record.consentId := record]
      ensures states == old(states)[record.state := record.consentId]
    {
      hide WithinShare, Tabled, Sound;
      RoomForOne(records, record.consentId, record, maxPerOwner);
      TabledWith(record);
      FreshIsSound();
      records := records[record.consentId := record];
      states := states[record.state := record.consentId];
      known := known + {record};
    }

    lemma TabledWith(record: ConsentRecord)
      requires Tabled(records, states, known) && record !in known
      requires record.consentId !in records && forall r :: r in known ==> r.state != record.state
      ensures Tabled(records[record.consentId := record], states[record.state := record.consentId], known + {record})
      ensures forall s :: s in states ==>
        states[s] in records && states[s] != record.consentId && records[states[s]] in known
    {
    }

    // The consent a provider redirect names: one whose callback nobody has
    // claimed yet, and not past its retention.
    method ByState(state: string, now: real) returns (found: Option<ConsentRecord>)
      requires Valid()
      modifies this`records, this`states, known
      ensures Valid()
      ensures found.Some? ==>
        && state in old(states) && found.value == old(records)[old(states)[state]] && found.value in known
        && found.value.state == state && found.value.exchanges == 0
        && !PastRetention(found.value.Standing(), now, retention)
      ensures state !in old(states) ==> found.None? && records == old(records) && states == old(states)
      ensures state in old(states) ==> old(states)[state] in old(records)
      ensures state in old(states) ==>
        var record := old(records)[old(states)[state]];
        && IsRefreshed(record, old(records[states[state]].Standing()), now)
        && (found.None? <==> PastRetention(record.Standing(), now, retention))
        && records == (if found.None? then old(records) - {old(states)[state]} else old(records))
        && states == (if found.None? then old(states) - {state} else old(states))
    {
      hide Sound, WithinShare, Expire, PastRetention;
      if state !in states { return None; }
      var id := states[state];
      var record := records[id];
      SweepOne(id, now);
      if id !in records { return None; }
      found := Some(record);
    }

    // The state index never leads to a consent whose callback is in progress or
    // was answered. It may lead to one whose opening failed: that failure does
    // not take the state out.
    lemma StateNeverResolvesAClaim(state: string)
      requires Valid() && state in states
      ensures states[state] in records && records[states[state]].state == state
      ensures var status := records[states[state]].status;
              !status.EXCHANGING? && !status.AUTHORIZED? && !status.VERIFYING? && !status.COMPLETED?
    {
      assert Sound(records[states[state]].Standing());
    }

    // A merchant's own consent, and nobody else's.
    method Owned(id: string, owner: string, now: real) returns (found: Option<ConsentRecord>)
      requires Valid()
      modifies this`records, this`states, known
      ensures Valid()
      ensures found.Some? ==>
        && id in old(records) && found.value == old(records)[id] && found.value in known && found.value.owner == owner
        && found.value.Standing() == Expire(old(records[id].Standing()), found.value.expiresAt, now)
        && !PastRetention(found.value.Standing(), now, retention)
      ensures found.None? && id in old(records) ==>
        old(records)[id].owner != owner || PastRetention(old(records)[id].Standing(), now, retention)
    {
      hide Sound, WithinShare, Expire, PastRetention;
      if id !in records { return None; }
      var record := records[id];
      SweepOne(id, now);
      if id !in records || record.owner != owner { return None; }
      found := Some(record);
    }

    // Claim this consent for exactly one callback; the state stops resolving.
    method BeginCallback(record: ConsentRecord, now: real) returns (answer: CallbackAnswer)
      requires Valid() && record in known
      modifies this`states, record
      ensures Valid()
      ensures record.Standing() == Begin(old(record.Standing()), record.expiresAt, now)
      ensures answer.Exchanging? <==> record.exchanges == old(record.exchanges) + 1
      ensures answer.Exchanging? ==> old(record.exchanges) == 0 && record.status.EXCHANGING? && record.state !in states
      ensures answer.Replayed? <==> !answer.Exchanging? && record.status.EXCHANGING?
      ensures answer.Already? ==> answer.status == record.status
      ensures states == if answer.Exchanging? then old(states) - {record.state} else old(states)
    {
      hide Sound, WithinShare, Tabled, Expire, Settle;
      Refresh(record, now);
      SoundCounts(record.Standing());
      if !record.status.PENDING? { return if record.status.EXCHANGING? then Replayed else Already(record.status); }
      Unlist(record);
      Promote(record);
      answer := Exchanging;
    }

    method Refresh(record: ConsentRecord, now: real)
      requires Valid() && record in known
      modifies record
      ensures Valid() && record.Standing() == Expire(old(record.Standing()), record.expiresAt, now)
      ensures record.exchanges == old(record.exchanges)
    {
      hide Sound, WithinShare, Tabled;
      Indexed();
      EveryTransition(record.Standing(), record.expiresAt, Looked(now));
      record.ExpireNow(now);
    }

    method Promote(record: ConsentRecord)
      requires Valid() && record in known && record.status.PENDING? && record.state !in states
      modifies record
      ensures Valid() && old(record.exchanges) == 0
      ensures record.Standing() ==
        old(record.Standing()).(status := EXCHANGING, exchanging := true, exchanges := old(record.exchanges) + 1)
    {
      hide WithinShare, Tabled;
      Indexed();
      UnlistedIsNotIndexed(record);
      record.status := EXCHANGING;
      record.exchanging, record.exchanges := true, record.exchanges + 1;
    }

    lemma UnlistedIsNotIndexed(record: ConsentRecord)
      requires Tabled(records, states, known) && record.state !in states
      ensures forall s :: s in states ==> records[states[s]] != record
    {
    }

    lemma Indexed()
      requires Tabled(records, states, known)
      ensures forall s :: s in states ==> states[s] in records && records[states[s]] in known
    {
    }

    method Unlist(record: ConsentRecord)
      requires Valid() && record in known
      modifies this`states
      ensures Valid() && states == old(states) - {record.state}
    {
      hide Sound, WithinShare;
      states := states - {record.state};
    }

    method Deny(record: ConsentRecord, now: real)
      requires Valid() && record in known
      modifies this`states, record
      ensures Valid() && states == old(states) - {record.state}
      ensures record.Standing() == Denial(old(record.Standing()), record.expiresAt, now)
    {
      hide Valid, Denial;
      Unlist(record);
      Reject(record, now);
    }

    method Reject(record: ConsentRecord, now: real)
      requires Valid() && record in known
      modifies record
      ensures Valid() && record.Standing() == Denial(old(record.Standing()), record.expiresAt, now)
    {
      hide Sound, WithinShare, Tabled, Denial;
      Indexed();
      EveryTransition(record.Standing(), record.expiresAt, Denied(now));
      record.DenyNow(now);
    }

    // The opening handler's other report: the provider gave a URL.
    method SetAuthorizationUrl(record: ConsentRecord, url: string)
      requires Valid() && record in known && record.opening
      modifies record
      ensures Valid() && record.Standing() == Opened(old(record.Standing()), url)
    {
      hide Sound, WithinShare, Tabled;
      Indexed();
      EveryTransition(record.Standing(), record.expiresAt, Ready(url));
      if record.status.PENDING? { record.authorizationUrl := Some(url); }
      record.opening := false;
    }

    // Reported by the handler that opened the consent, or by the one that
    // exchanges its code. The state index is left as it is.
    method Fail(record: ConsentRecord, now: real, ghost who: Handler)
      requires Valid() && record in known && IsOut(record.Standing(), who)
      modifies record
      ensures Valid() && record.Standing() == FailBy(old(record.Standing()), who, now)
    {
      hide Sound, WithinShare, Tabled;
      Indexed();
      EveryTransition(record.Standing(), record.expiresAt, FailReported(who, now));
      record.SettleAs(FAILED, now);
      if who.Opener? { record.opening := false; } else { record.exchanging := false; }
    }

    method Authorize(record: ConsentRecord, token: string, now: real)
      requires Valid() && record in known && record.exchanging
      modifies record
      ensures Valid() && record.Standing() == Authorization(old(record.Standing()), token, record.expiresAt, now)
    {
      hide Sound, WithinShare, Tabled, Authorization;
      Indexed();
      EveryTransition(record.Standing(), record.expiresAt, Authorized(token, now));
      record.AuthorizeNow(token, now);
    }

    // Claim this consent for exactly one verification.
    method ClaimVerification(record: ConsentRecord, now: real) returns (answer: ClaimAnswer)
      requires Valid() && record in known
      modifies record
      ensures Valid() && record.Standing() == Claim(old(record.Standing()), record.expiresAt, now)
      ensures answer.Verify? <==> record.verifications == old(record.verifications) + 1
      ensures answer.Verify? ==> old(record.verifications) == 0 && record.accessToken == Some(answer.token)
      ensures answer.Answer? <==> record.status.COMPLETED?
      ensures answer.Answer? ==> record.responseJson == Some(answer.response)
    {
      hide Sound, WithinShare, Tabled, Claim;
      Indexed();
      EveryTransition(record.Standing(), record.expiresAt, Claimed(now));
      SoundCounts(record.Standing());
      var claimed := record.ClaimNow(now);
      SoundCounts(record.Standing());
      if claimed { return Verify(record.accessToken.value); }
      CompletedHasResponse(record.Standing());
      answer := if record.status.COMPLETED? then Answer(record.responseJson.value) else NotReady(record.status);
    }

    method Complete(record: ConsentRecord, response: string, now: real)
      requires Valid() && record in known && record.verifying
      modifies record
      ensures Valid() && record.Standing() == Completion(old(record.Standing()), response, now)
    {
      hide Sound, WithinShare, Tabled, Completion;
      Indexed();
      EveryTransition(record.Standing(), record.expiresAt, Completed(response, now));
      record.CompleteNow(response, now);
    }

    method FailVerification(record: ConsentRecord, now: real)
      requires Valid() && record in known && record.verifying
      modifies record
      ensures Valid() && record.Standing() == Failure(old(record.Standing()), now)
    {
      hide Sound, WithinShare, Tabled;
      Indexed();
      EveryTransition(record.Standing(), record.expiresAt, VerificationFailed(now));
      record.SettleAs(FAILED, now);
      record.verifying := false;
    }
  }

  lemma FewerOwned(records: map<string, ConsentRecord>, id: string, most: nat)
    requires id in records && WithinShare(records, most)
    ensures |records - {id}| <= |records| && WithinShare(records - {id}, most)
  {
    assert (records - {id}).Keys == records.Keys - {id};
    assert |(records - {id}).Keys| == |records - {id}| && |records.Keys| == |records|;
    forall owner ensures |OwnedBy(records - {id}, owner)| <= most {
      assert OwnedBy(records - {id}, owner) == OwnedBy(records, owner) - {id};
    }
  }

  lemma RoomForOne(records: map<string, ConsentRecord>, id: string, record: ConsentRecord, most: nat)
    requires id !in records
    requires WithinShare(records, most)
    requires |OwnedBy(records, record.owner)| < most
    ensures |records[id := record]| == |records| + 1
    ensures WithinShare(records[id := record], most)
  {
    hide OwnedBy;
    var after := records[id := record];
    assert after.Keys == records.Keys + {id};
    assert |after.Keys| == |after| && |records.Keys| == |records|;
    forall owner ensures |OwnedBy(after, owner)| <= most {
      OneMoreOwned(records, id, record, owner);
    }
  }

  lemma OneMoreOwned(records: map<string, ConsentRecord>, id: string, record: ConsentRecord, owner: string)
    requires id !in records
    ensures |OwnedBy(records[id := record], owner)| ==
      |OwnedBy(records, owner)| + (if record.owner == owner then 1 else 0)
  {
    var after := records[id := record];
    if record.owner == owner {
      assert OwnedBy(after, owner) == OwnedBy(records, owner) + {id};
    } else {
      assert OwnedBy(after, owner) == OwnedBy(records, owner);
    }
  }

  lemma CompletedHasResponse(p: Progress)
    requires Sound(p)
    ensures p.status.COMPLETED? ==> p.response.Some?
  {
  }
}
