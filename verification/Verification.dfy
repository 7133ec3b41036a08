// app/api/verification_service.py: reserve, investigate, sign and persist, or
// answer a key already spent.
//
// The service is a step system. Requests interleave at every await; work handed
// to a thread runs to its commit even after its caller was cancelled; a crash
// takes a request and its threads together; the cache may forget anything.

module Verification {
  import opened Domain
  import opened Operations

  // ---- the cached state string ----

  // Python's str.partition(":"): what precedes the first colon, whether there
  // was one, and what follows it.
  function Partition(s: string): (r: (string, bool, string))
    ensures ':' !in r.0
    ensures s == if r.1 then r.0 + ":" + r.2 else r.0
    ensures !r.1 ==> r.2 == ""
  {
    if s == "" then ("", false, "")
    else if s[0] == ':' then ("", true, s[1..])
    else
      var (head, found, tail) := Partition(s[1..]);
      ([s[0]] + head, found, tail)
  }

  lemma {:induction false} PartitionAtFirstColon(head: string, tail: string)
    requires ':' !in head
    ensures Partition(head + ":" + tail) == (head, true, tail)
  {
    var s := head + ":" + tail;
    if head == "" {
      assert s[1..] == tail;
    } else {
      assert s[0] == head[0] && s[1..] == head[1..] + ":" + tail;
      PartitionAtFirstColon(head[1..], tail);
      assert head == [head[0]] + head[1..];
    }
  }

  function DoneState(requestHash: string, payload: string): string { "done:" + requestHash + ":" + payload }

  datatype Refusal = KeyReused | ReconciliationRequired | StillInProgress | StateInvalid

  datatype CacheAnswer = Replay(payload: string) | Reject(why: Refusal)

  function StateResponse(value: string, requestHash: string, readable: string -> bool): CacheAnswer {
    var (kind, separator, remainder) := Partition(value);
    var (fingerprint, separator2, payload) := Partition(remainder);
    if !separator || !separator2 || fingerprint != requestHash then Reject(KeyReused)
    else if kind == "done" then (if readable(payload) then Replay(payload) else Reject(StateInvalid))
    else if kind == "pending" then Reject(StillInProgress)
    else Reject(StateInvalid)
  }

  // Every state string is answered by its three parts; one that has no three
  // parts was not written for this request.
  lemma AnsweredByItsParts(kind: string, fingerprint: string, payload: string, requestHash: string,
                           readable: string -> bool)
    requires ':' !in kind && ':' !in fingerprint
    ensures StateResponse(kind + ":" + fingerprint + ":" + payload, requestHash, readable) ==
      if fingerprint != requestHash then Reject(KeyReused)
      else if kind == "done" && readable(payload) then Replay(payload)
      else if kind == "pending" then Reject(StillInProgress)
      else Reject(StateInvalid)
    ensures StateResponse(kind + ":" + fingerprint, requestHash, readable) == Reject(KeyReused)
    ensures StateResponse(kind, requestHash, readable) == Reject(KeyReused)
  {
    hide Partition;
    assert kind + ":" + fingerprint + ":" + payload == kind + ":" + (fingerprint + ":" + payload);
    PartitionAtFirstColon(kind, fingerprint + ":" + payload);
    PartitionAtFirstColon(fingerprint, payload);
    PartitionAtFirstColon(kind, fingerprint);
    NoColonNoParts(kind);
    NoColonNoParts(fingerprint);
  }

  lemma {:induction false} NoColonNoParts(s: string)
    requires ':' !in s
    ensures Partition(s) == (s, false, "")
  {
    if s != "" {
      NoColonNoParts(s[1..]);
      assert s == [s[0]] + s[1..];
    }
  }

  // A cached state is replayed exactly when it is the completed state of this
  // very request; whatever else the cache holds is refused.
  lemma ReplaysExactlyItsOwn(value: string, requestHash: string, readable: string -> bool, payload: string)
    ensures StateResponse(value, requestHash, readable) == Replay(payload) <==>
      value == DoneState(requestHash, payload) && ':' !in requestHash && readable(payload)
  {
    hide Partition;
    if value == DoneState(requestHash, payload) && ':' !in requestHash { DoneStateParses(requestHash, payload); }
    if StateResponse(value, requestHash, readable) == Replay(payload) {
      OnlyDoneReplays(value, requestHash, readable, payload);
    }
  }

  lemma DoneStateParses(requestHash: string, payload: string)
    requires ':' !in requestHash
    ensures Partition(DoneState(requestHash, payload)) == ("done", true, requestHash + ":" + payload)
    ensures Partition(requestHash + ":" + payload) == (requestHash, true, payload)
  {
    hide Partition;
    PartitionAtFirstColon("done", requestHash + ":" + payload);
    PartitionAtFirstColon(requestHash, payload);
    assert DoneState(requestHash, payload) == "done" + ":" + (requestHash + ":" + payload);
  }

  lemma OnlyDoneReplays(value: string, requestHash: string, readable: string -> bool, payload: string)
    requires StateResponse(value, requestHash, readable) == Replay(payload)
    ensures value == DoneState(requestHash, payload) && ':' !in requestHash && readable(payload)
  {
    hide Partition;
    var remainder := Partition(value).2;
    assert value == "done" + ":" + remainder;
    assert remainder == requestHash + ":" + payload;
    assert "done" + ":" + (requestHash + ":" + payload) == DoneState(requestHash, payload);
  }

  // The state string parses back to what was written if and only if the hash
  // holds no colon, which a hexadecimal digest never does.
  lemma RoundTripsExactlyWithoutColon(requestHash: string, payload: string)
    ensures Partition(Partition(DoneState(requestHash, payload)).2) == (requestHash, true, payload) <==>
      ':' !in requestHash
  {
    hide Partition;
    PartitionAtFirstColon("done", requestHash + ":" + payload);
    assert DoneState(requestHash, payload) == "done" + ":" + (requestHash + ":" + payload);
    if ':' !in requestHash { PartitionAtFirstColon(requestHash, payload); }
  }

  // ---- answering a key that is already reserved ----

  datatype Outcome = Answer(chain: Chain) | Refuse(why: Refusal)

  function ReplayOrRefuse(existing: Operation, t: Tables, requestHash: string, owner: string, now: real, lease: real)
    : (r: Outcome)
    ensures r.Answer? <==>
      && existing.requestHash == requestHash && existing.state.Finished? && existing.chainId.Some?
      && existing.chainId.value in t.chains && t.chains[existing.chainId.value].owner == owner
    ensures r.Answer? ==> r.chain == t.chains[existing.chainId.value]
    ensures r == Refuse(KeyReused) <==> existing.requestHash != requestHash
    ensures r == Refuse(ReconciliationRequired) <==>
      existing.requestHash == requestHash &&
      (existing.state.Uncertain? || (existing.state.Pending? && now > existing.updatedAt + lease))
    ensures existing.requestHash == requestHash && existing.state.Pending? ==>
      (r == Refuse(StillInProgress) <==> now <= existing.updatedAt + lease)
    ensures r != Refuse(StateInvalid)
  {
    if existing.requestHash != requestHash then Refuse(KeyReused)
    else if existing.state.Finished? && existing.chainId.Some? && Readable(t, existing.chainId.value, owner).Some?
    then Answer(Readable(t, existing.chainId.value, owner).value)
    else if IsOrphaned(existing, now, lease) || existing.state.Uncertain? then Refuse(ReconciliationRequired)
    else Refuse(StillInProgress)
  }

  // ---- requests ----

  datatype Claim = NoClaim | Inserting | Reading

  datatype Cleanup = NoCleanup | Releasing | Marking

  datatype Draft = Draft(chainId: string, verdict: string)

  // Where the request itself stands. Threads it started are beside it.
  datatype Stage =
    | AtCache                      // awaiting the cache
    | AtReserve                    // awaiting the reservation
    | Building                     // holds the reservation; nothing spent
    | Working                      // provider calls may have been made
    | AtSave                       // awaiting the commit
    | Signed(verdict: string)      // building the response
    | AtRelease                    // giving the key back before re-raising
    | AtMark                       // marking the key before re-raising
    // chain and from are history: the chain answered with, and whose it was
    // taken to be; own unless replayed.
    | Answered(response: string, chain: Chain, from: nat, own: bool)
    | Refused(why: Refusal)
    | Raised                       // failed, cancelled or crashed

  datatype Request = Request(
    key: Key, hash: string, stage: Stage, claim: Claim, saving: Option<Draft>, cleanup: Cleanup,
    spent: Option<nat>,       // history: the retention period in which work began
    made: Option<string>)     // history: the chain it stored

  // What a cache entry holds, and (history) the chain and the request behind it.
  datatype Cached = Cached(state: string, chain: Chain, from: nat)

  datatype Setup = Setup(windows: Windows, wire: Chain -> string, readable: string -> bool)

  datatype System = System(
    setup: Setup,
    tables: Tables,
    cache: map<Key, Cached>,
    requests: seq<Request>,
    now: real,
    holder: map<Key, nat>,    // history: whose insert each row is
    purges: map<Key, nat>)    // history: how often each key was purged

  function HolderOf(s: System, key: Key): nat { if key in s.holder then s.holder[key] else |s.requests| }

  function Period(s: System, key: Key): nat { if key in s.purges then s.purges[key] else 0 }

  datatype Step =
    | Tick(later: real)
    | Arrive(key: Key, hash: string)
    | MissCache(i: nat)
    | HitCache(i: nat)
    | RunInsert(i: nat)
    | RunRead(i: nat)
    | LoseClaim(i: nat)
    | FailToBuild(i: nat)
    | Begin(i: nat)
    | FailToWork(i: nat)
    | Conclude(i: nat, draft: Draft)
    | RunSave(i: nat)
    | LoseSave(i: nat)
    | Respond(i: nat)
    | FailToRespond(i: nat)
    | Remember(i: nat)
    | RunCleanup(i: nat)
    | LoseCleanup(i: nat)
    | Cancel(i: nat)
    | Crash(i: nat)
    | Purge(key: Key)
    | Forget(key: Key)
    | SaveKeyless(chainId: string, chain: Chain)

  predicate AtRest(stage: Stage) { stage.Answered? || stage.Refused? || stage.Raised? }

  function Subject(step: Step): Option<nat> {
    match step
    case Tick(_) | Arrive(_, _) | Purge(_) | Forget(_) | SaveKeyless(_, _) => None
    case MissCache(i) => Some(i)
    case HitCache(i) => Some(i)
    case RunInsert(i) => Some(i)
    case RunRead(i) => Some(i)
    case LoseClaim(i) => Some(i)
    case FailToBuild(i) => Some(i)
    case Begin(i) => Some(i)
    case FailToWork(i) => Some(i)
    case Conclude(i, _) => Some(i)
    case RunSave(i) => Some(i)
    case LoseSave(i) => Some(i)
    case Respond(i) => Some(i)
    case FailToRespond(i) => Some(i)
    case Remember(i) => Some(i)
    case RunCleanup(i) => Some(i)
    case LoseCleanup(i) => Some(i)
    case Cancel(i) => Some(i)
    case Crash(i) => Some(i)
  }

  predicate CanStep(s: System, step: Step) {
    match step
    case Tick(later) => s.now <= later
    case Arrive(_, hash) => ':' !in hash
    case Purge(key) => key in s.tables.rows && IsExpired(s.tables.rows[key], s.now, s.setup.windows)
    case Forget(key) => key in s.cache
    case SaveKeyless(_, _) => true
    case _ => Subject(step).value < |s.requests| && Ready(s, s.requests[Subject(step).value], step)
  }

  predicate Ready(s: System, r: Request, step: Step)
    requires Subject(step).Some?
  {
    match step
    case MissCache(_) => r.stage.AtCache?
    case HitCache(_) => r.stage.AtCache? && r.key in s.cache
    case RunInsert(_) => r.claim.Inserting?
    case RunRead(_) => r.claim.Reading?
    case LoseClaim(_) => !r.claim.NoClaim?
    case FailToBuild(_) => r.stage.Building?
    case Begin(_) => r.stage.Building?
    case FailToWork(_) => r.stage.Working?
    case Conclude(_, _) => r.stage.Working?
    case RunSave(_) => r.saving.Some?
    case LoseSave(_) => r.saving.Some?
    case Respond(_) => r.stage.Signed?
    case FailToRespond(_) => r.stage.Signed?
    case Remember(_) => r.stage.Answered?
    case RunCleanup(_) => !r.cleanup.NoCleanup?
    case LoseCleanup(_) => !r.cleanup.NoCleanup?
    case Cancel(_) => true
    case Crash(_) => true
  }

  function Newcomer(key: Key, hash: string): Request {
    Request(key, hash, AtCache, NoClaim, None, NoCleanup, None, None)
  }

  function With(s: System, i: nat, r: Request): System
    requires i < |s.requests|
  {
    s.(requests := s.requests[i := r])
  }

  // The source's `except BaseException` once work may have started.
  function AwaitMark(r: Request): Request { r.(stage := AtMark, cleanup := Marking) }

  function Apply(s: System, step: Step): System
    requires CanStep(s, step)
  {
    match step
    case Tick(later) => s.(now := later)
    case Arrive(key, hash) => s.(requests := s.requests + [Newcomer(key, hash)])
    case Purge(key) =>
      s.(tables := Purged(s.tables, {key}), holder := s.holder - {key}, purges := s.purges[key := Period(s, key) + 1])
    case Forget(key) => s.(cache := s.cache - {key})
    case SaveKeyless(chainId, chain) => s.(tables := Saved(s.tables, chainId, chain, None, s.now))
    case _ => Move(s, Subject(step).value, step)
  }

  function Move(s: System, i: nat, step: Step): System
    requires Subject(step) == Some(i) && CanStep(s, step)
  {
    var r := s.requests[i];
    match step
    case MissCache(_) => With(s, i, r.(stage := AtReserve, claim := Inserting))
    case HitCache(_) => With(s, i, AfterHit(s, r))
    case RunInsert(_) => AfterInsert(s, i, r)
    case RunRead(_) => With(s, i, AfterRead(s, r))
    case LoseClaim(_) => With(s, i, r.(claim := NoClaim, stage := Raised))
    case FailToBuild(_) => With(s, i, r.(stage := AtRelease, cleanup := Releasing))
    case Begin(_) => With(s, i, r.(stage := Working, spent := Some(Period(s, r.key))))
    case FailToWork(_) => With(s, i, AwaitMark(r))
    case Conclude(_, draft) => With(s, i, r.(stage := AtSave, saving := Some(draft)))
    case RunSave(_) => AfterSave(s, i, r)
    case LoseSave(_) => With(s, i, SaveFailed(r))
    case Respond(_) =>
      var chain := Chain(r.key.owner, r.hash, r.stage.verdict);
      With(s, i, r.(stage := Answered(s.setup.wire(chain), chain, i, true)))
    case FailToRespond(_) => With(s, i, AwaitMark(r))
    case Remember(_) =>
      // Only a fresh answer is written back.
      if !r.stage.own then s
      else s.(cache := s.cache[r.key := Cached(DoneState(r.hash, r.stage.response), r.stage.chain, i)])
    case RunCleanup(_) => AfterCleanup(s, i, r)
    case LoseCleanup(_) => With(s, i, CleanedUp(r))
    case Cancel(_) => With(s, i, Cancelled(r))
    case Crash(_) =>
      With(s, i, r.(stage := if AtRest(r.stage) then r.stage else Raised,
                    claim := NoClaim, saving := None, cleanup := NoCleanup))
  }

  function AfterHit(s: System, r: Request): Request
    requires r.key in s.cache
  {
    match StateResponse(s.cache[r.key].state, r.hash, s.setup.readable)
    case Replay(payload) => r.(stage := Answered(payload, s.cache[r.key].chain, s.cache[r.key].from, false))
    case Reject(why) => r.(stage := Refused(why))
  }

  function AfterInsert(s: System, i: nat, r: Request): System
    requires i < |s.requests|
  {
    if r.key in s.tables.rows then With(s, i, r.(claim := Reading))
    else
      With(s, i, r.(claim := NoClaim, stage := if r.stage.AtReserve? then Building else r.stage))
        .(tables := Inserted(s.tables, r.key, r.hash, s.now), holder := s.holder[r.key := i])
  }

  function AfterRead(s: System, r: Request): Request {
    var done := r.(claim := NoClaim);
    if !r.stage.AtReserve? then done
    else
      var existing := Blocking(s.tables, r.key, r.hash, s.now);
      match ReplayOrRefuse(existing, s.tables, r.hash, r.key.owner, s.now, s.setup.windows.lease)
      case Answer(chain) => done.(stage := Answered(s.setup.wire(chain), chain, HolderOf(s, r.key), false))
      case Refuse(why) => done.(stage := Refused(why))
  }

  function SaveFailed(r: Request): Request {
    var done := r.(saving := None);
    if r.stage.AtSave? then AwaitMark(done) else done
  }

  function AfterSave(s: System, i: nat, r: Request): System
    requires i < |s.requests| && r.saving.Some?
  {
    var draft := r.saving.value;
    if draft.chainId in s.tables.chains then With(s, i, SaveFailed(r))
    else
      With(s, i, r.(saving := None, made := Some(draft.chainId),
                    stage := if r.stage.AtSave? then Signed(draft.verdict) else r.stage))
        .(tables := Saved(s.tables, draft.chainId, Chain(r.key.owner, r.hash, draft.verdict), Some(r.key), s.now))
  }

  function CleanedUp(r: Request): Request {
    r.(cleanup := NoCleanup, stage := if r.stage.AtRelease? || r.stage.AtMark? then Raised else r.stage)
  }

  function AfterCleanup(s: System, i: nat, r: Request): System
    requires i < |s.requests|
  {
    var s' := With(s, i, CleanedUp(r));
    if r.cleanup.Releasing? then
      s'.(tables := Released(s.tables, r.key),
          holder := if r.key in Released(s.tables, r.key).rows then s.holder else s.holder - {r.key})
    else s'.(tables := MarkedUncertain(s.tables, r.key, s.now))
  }

  // Cancellation lands at whatever the request awaits; threads already started
  // are not stopped by it.
  function Cancelled(r: Request): Request {
    match r.stage
    case Working | AtSave => AwaitMark(r)
    case AtCache | AtReserve | Building | AtRelease | AtMark => r.(stage := Raised)
    case Signed(_) => AwaitMark(r)
    case _ => r
  }

  // ---- what one request's own step does to it ----

  // How a request fails, and what it leaves under way. Before work it gives the
  // key back; once work may have begun it has the key marked; a crash takes its
  // threads along, a cancellation does not.
  lemma HowAFailureEnds(s: System, i: nat, step: Step)
    requires CanStep(s, step) && Subject(step) == Some(i)
    ensures var r := s.requests[i]; var s' := Apply(s, step);
      match step
      case LoseClaim(_) => s' == With(s, i, r.(stage := Raised, claim := NoClaim))
      case FailToBuild(_) => s' == With(s, i, r.(stage := AtRelease, cleanup := Releasing))
      case FailToWork(_) | FailToRespond(_) => s' == With(s, i, r.(stage := AtMark, cleanup := Marking))
      case LoseSave(_) =>
        s' == With(s, i, if r.stage == AtSave then r.(saving := None, stage := AtMark, cleanup := Marking)
                         else r.(saving := None))
      case LoseCleanup(_) =>
        s' == With(s, i, r.(cleanup := NoCleanup, stage := if r.stage in {AtRelease, AtMark} then Raised else r.stage))
      case Cancel(_) =>
        s' == With(s, i,
          if r.stage in {Working, AtSave} || r.stage.Signed? then r.(stage := AtMark, cleanup := Marking)
          else if r.stage.Answered? || r.stage.Refused? then r
          else r.(stage := Raised))
      case Crash(_) =>
        s' == With(s, i, r.(stage := if r.stage.Answered? || r.stage.Refused? then r.stage else Raised,
                            claim := NoClaim, saving := None, cleanup := NoCleanup))
      case _ => true
  {
  }

  // And how it goes on.
  lemma HowAStepGoes(s: System, i: nat, step: Step)
    requires CanStep(s, step) && Subject(step) == Some(i)
    ensures var r := s.requests[i]; var s' := Apply(s, step);
      match step
      case MissCache(_) => s' == With(s, i, r.(stage := AtReserve, claim := Inserting))
      case RunInsert(_) =>
        if r.key in s.tables.rows then s' == With(s, i, r.(claim := Reading))
        else
          && s'.requests ==
               s.requests[i := r.(claim := NoClaim, stage := if r.stage == AtReserve then Building else r.stage)]
          && s'.tables == s.tables.(rows := s.tables.rows[r.key := Operation(r.hash, Pending, None, s.now)])
          && s'.holder == s.holder[r.key := i]
      case Begin(_) =>
        s' == With(s, i, r.(stage := Working, spent := Some(if r.key in s.purges then s.purges[r.key] else 0)))
      case Conclude(_, draft) => s' == With(s, i, r.(stage := AtSave, saving := Some(draft)))
      case Remember(_) =>
        if r.stage.own then
          && s'.requests == s.requests && s'.tables == s.tables && s'.cache.Keys == s.cache.Keys + {r.key}
          && s'.cache[r.key] == Cached("done:" + r.hash + ":" + r.stage.response, r.stage.chain, i)
          && forall k :: k in s.cache && k != r.key ==> s'.cache[k] == s.cache[k]
        else s' == s
      case RunCleanup(_) =>
        && s'.requests ==
             s.requests[i := r.(cleanup := NoCleanup,
                                stage := if r.stage in {AtRelease, AtMark} then Raised else r.stage)]
        && (r.cleanup == Releasing ==> s'.tables == Released(s.tables, r.key))
        && (r.cleanup == Marking ==> s'.tables == MarkedUncertain(s.tables, r.key, s.now))
      case _ => true
  {
  }

  // Nothing is out of reach of the interleaving: a request may be cut short at
  // any point, and a thread may run, or fail, whenever it is under way.
  lemma AnyThreadMayRunNext(s: System, i: nat)
    requires i < |s.requests|
    ensures CanStep(s, Cancel(i)) && CanStep(s, Crash(i))
    ensures var r := s.requests[i];
      && (r.claim == Inserting <==> CanStep(s, RunInsert(i))) && (r.claim == Reading <==> CanStep(s, RunRead(i)))
      && (r.claim != NoClaim <==> CanStep(s, LoseClaim(i)))
      && (r.saving != None <==> CanStep(s, RunSave(i))) && (r.saving != None <==> CanStep(s, LoseSave(i)))
      && (r.cleanup != NoCleanup <==> CanStep(s, RunCleanup(i)))
      && (r.cleanup != NoCleanup <==> CanStep(s, LoseCleanup(i)))
  {
    hide IsExpired;
  }

  // And a request may go on, or fail, from wherever it stands.
  lemma AnyRequestMayGoOn(s: System, i: nat)
    requires i < |s.requests|
    ensures var r := s.requests[i];
      && (r.stage == AtCache <==> CanStep(s, MissCache(i)))
      && (r.stage == AtCache && r.key in s.cache <==> CanStep(s, HitCache(i)))
      && (r.stage == Building <==> CanStep(s, Begin(i))) && (r.stage == Building <==> CanStep(s, FailToBuild(i)))
  {
    hide IsExpired;
  }

  lemma AnyWorkMayEnd(s: System, i: nat, draft: Draft)
    requires i < |s.requests|
    ensures var r := s.requests[i];
      && (r.stage == Working <==> CanStep(s, FailToWork(i))) && (r.stage == Working <==> CanStep(s, Conclude(i, draft)))
      && (r.stage.Signed? <==> CanStep(s, Respond(i))) && (r.stage.Signed? <==> CanStep(s, FailToRespond(i)))
      && (r.stage.Answered? <==> CanStep(s, Remember(i)))
  {
    hide IsExpired;
  }

  // ---- what holds in every run, whatever is purged ----

  // What a request at each stage has behind it and under way.
  predicate Shaped(r: Request) {
    && ':' !in r.hash
    && (!r.claim.NoClaim? ==>
          (r.stage.AtReserve? || r.stage.Raised?) && r.saving.None? && r.cleanup.NoCleanup? && r.spent.None?)
    && (r.stage.AtCache? || r.stage.AtReserve? || r.stage.Building? || r.stage.AtRelease? || r.stage.Refused? ==>
          r.spent.None?)
    && (r.stage.Working? || r.stage.AtSave? || r.stage.Signed? || r.stage.AtMark? ==> r.spent.Some?)
    && (!r.stage.AtRelease? && !r.stage.AtMark? && !r.stage.Raised? ==> r.cleanup.NoCleanup?)
    && (!r.stage.AtSave? && !r.stage.AtMark? && !r.stage.Raised? ==> r.saving.None?)
    && (r.stage.Working? || r.saving.Some? ==> r.spent.Some? && r.made.None?)
    && (r.stage.AtSave? ==> r.saving.Some?)
    && (r.stage.Signed? ==> r.made.Some?)
    && (r.made.Some? ==> r.spent.Some?)
    && (r.cleanup.Releasing? ==> r.spent.None?)
    && (r.cleanup.Marking? ==> r.spent.Some?)
  }

  // The chain a request stored answers that request and no other.
  ghost predicate Made(s: System, i: nat)
    requires i < |s.requests|
  {
    var r := s.requests[i];
    r.made.Some? && r.made.value in s.tables.chains &&
    s.tables.chains[r.made.value].owner == r.key.owner && s.tables.chains[r.made.value].requestHash == r.hash
  }

  // The chain is the one request `from` stored, for this key and this body.
  ghost predicate AnswerOf(s: System, key: Key, hash: string, chain: Chain, from: nat) {
    && from < |s.requests| && s.requests[from].key == key && s.requests[from].hash == hash && Made(s, from)
    && chain == s.tables.chains[s.requests[from].made.value]
  }

  ghost predicate RequestFacts(s: System, i: nat)
    requires i < |s.requests|
  {
    var r := s.requests[i];
    && Shaped(r)
    && (r.spent.Some? ==> r.spent.value <= Period(s, r.key))
    && (r.made.Some? ==> Made(s, i))
    && (r.stage.Signed? ==> s.tables.chains[r.made.value] == Chain(r.key.owner, r.hash, r.stage.verdict))
    && (r.stage.Answered? ==> r.stage.response == s.setup.wire(r.stage.chain) && r.stage.chain.owner == r.key.owner)
    && (r.stage.Answered? && r.stage.own ==> AnswerOf(s, r.key, r.hash, r.stage.chain, i))
  }

  // A row is one request's insert and carries its hash; a finished one names a
  // stored chain of its own owner.
  ghost predicate RowFacts(s: System, key: Key) {
    && (key in s.holder <==> key in s.tables.rows)
    && (key in s.tables.rows ==>
          var h := s.holder[key];
          && h < |s.requests| && s.requests[h].key == key
          && s.tables.rows[key].requestHash == s.requests[h].hash
          && (s.tables.rows[key].state.Finished? ==> NamesAChain(s.tables, key)))
  }

  ghost predicate NamesAChain(t: Tables, key: Key)
    requires key in t.rows
  {
    var row := t.rows[key];
    row.chainId.Some? && row.chainId.value in t.chains && t.chains[row.chainId.value].owner == key.owner
  }

  ghost predicate CacheFacts(s: System, key: Key) {
    key in s.cache ==>
      var entry := s.cache[key];
      && entry.from < |s.requests| && ':' !in s.requests[entry.from].hash
      && AnswerOf(s, key, s.requests[entry.from].hash, entry.chain, entry.from)
      && entry.state == DoneState(s.requests[entry.from].hash, s.setup.wire(entry.chain))
  }

  ghost predicate Base(s: System) {
    && (forall i :: 0 <= i < |s.requests| ==> RequestFacts(s, i))
    && (forall key :: RowFacts(s, key))
    && (forall key :: CacheFacts(s, key))
  }

  lemma FactsOf(s: System, i: nat)
    requires Base(s) && i < |s.requests|
    ensures RequestFacts(s, i) && RowFacts(s, s.requests[i].key) && CacheFacts(s, s.requests[i].key)
  {
  }

  lemma RowFactsOf(s: System, key: Key)
    requires Base(s)
    ensures RowFacts(s, key)
  {
  }

  // A change that touches one request, the chains by addition, and no row but
  // that of its key.
  ghost predicate Local(s: System, s': System, i: nat)
    requires i < |s.requests|
  {
    var r := s.requests[i];
    && |s'.requests| == |s.requests| && s'.requests == s.requests[i := s'.requests[i]]
    && s'.setup == s.setup && s'.cache == s.cache && s'.purges == s.purges
    && s'.requests[i].key == r.key && s'.requests[i].hash == r.hash
    && (r.made.Some? ==> s'.requests[i].made == r.made)
    && ChainsKept(s.tables, s'.tables)
    && (forall k :: k != r.key ==> SameRow(s, s', k))
  }

  ghost predicate SameRow(s: System, s': System, key: Key) {
    && (key in s'.tables.rows <==> key in s.tables.rows) && (key in s'.holder <==> key in s.holder)
    && (key in s.tables.rows ==> s'.tables.rows[key] == s.tables.rows[key])
    && (key in s.holder ==> s'.holder[key] == s.holder[key])
  }

  lemma AnswerStays(s: System, s': System, key: Key, hash: string, chain: Chain, from: nat)
    requires AnswerOf(s, key, hash, chain, from)
    requires |s.requests| <= |s'.requests| && ChainsKept(s.tables, s'.tables)
    requires s'.requests[from].key == key && s'.requests[from].hash == hash
    requires s'.requests[from].made == s.requests[from].made
    ensures AnswerOf(s', key, hash, chain, from)
  {
  }

  lemma RequestStays(s: System, s': System, j: nat)
    requires Base(s) && j < |s.requests| <= |s'.requests| && s'.requests[j] == s.requests[j]
    requires s'.setup == s.setup && ChainsKept(s.tables, s'.tables)
    requires Period(s, s.requests[j].key) <= Period(s', s.requests[j].key)
    ensures RequestFacts(s', j)
  {
    hide Period;
    assert RequestFacts(s, j);
    var r := s.requests[j];
    if r.stage.Answered? && r.stage.own { AnswerStays(s, s', r.key, r.hash, r.stage.chain, j); }
  }

  lemma LocalKeepsBase(s: System, s': System, i: nat)
    requires Base(s) && i < |s.requests| && Local(s, s', i)
    requires RequestFacts(s', i) && RowFacts(s', s.requests[i].key)
    ensures Base(s')
  {
    hide Shaped;
    forall j | 0 <= j < |s'.requests| ensures RequestFacts(s', j) {
      if j != i { RequestStays(s, s', j); }
    }
    forall key ensures RowFacts(s', key) {
      assert RowFacts(s, key);
      if key != s.requests[i].key { assert SameRow(s, s', key); }
    }
    forall key ensures CacheFacts(s', key) {
      assert CacheFacts(s, key);
    }
  }

  lemma RequestOnly(s: System, i: nat, r': Request)
    requires Base(s) && i < |s.requests|
    requires r'.key == s.requests[i].key && r'.hash == s.requests[i].hash && r'.made == s.requests[i].made
    requires RequestFacts(With(s, i, r'), i)
    ensures Base(With(s, i, r'))
  {
    hide RequestFacts, CacheFacts;
    assert RowFacts(s, r'.key);
    LocalKeepsBase(s, With(s, i, r'), i);
  }

  predicate WritesRow(step: Step) { step.RunInsert? || step.RunSave? || step.RunCleanup? || step.Purge? }

  predicate IsPlain(step: Step) {
    Subject(step).Some? && !WritesRow(step) && !step.Remember? && !step.HitCache? && !step.RunRead?
  }

  lemma PlainMoveKeepsBase(s: System, i: nat, step: Step)
    requires Base(s) && CanStep(s, step) && Subject(step) == Some(i) && IsPlain(step)
    ensures Base(Move(s, i, step))
  {
    hide Base, RowFacts, CacheFacts, AnswerOf;
    FactsOf(s, i);
    OwnFacts(s, i, step);
    var r' := Move(s, i, step).requests[i];
    assert Move(s, i, step) == With(s, i, r');
    RequestOnly(s, i, r');
  }

  lemma OwnFacts(s: System, i: nat, step: Step)
    requires i < |s.requests| && RequestFacts(s, i) && CanStep(s, step) && Subject(step) == Some(i) && IsPlain(step)
    ensures RequestFacts(Move(s, i, step), i)
  {
    hide RequestFacts;
    if step.Cancel? {
      CancelledFacts(s, i);
    } else if Fails(step) {
      FailureFacts(s, i, step);
    } else {
      ProgressFacts(s, i, step);
    }
  }

  lemma CancelledFacts(s: System, i: nat)
    requires i < |s.requests| && RequestFacts(s, i)
    ensures RequestFacts(With(s, i, Cancelled(s.requests[i])), i)
  {
  }

  predicate Fails(step: Step) {
    || step.LoseClaim? || step.FailToBuild? || step.FailToWork?
    || step.LoseSave? || step.FailToRespond? || step.LoseCleanup?
  }

  lemma FailureFacts(s: System, i: nat, step: Step)
    requires i < |s.requests| && RequestFacts(s, i) && CanStep(s, step) && Subject(step) == Some(i) && Fails(step)
    ensures RequestFacts(Move(s, i, step), i)
  {
  }

  lemma ProgressFacts(s: System, i: nat, step: Step)
    requires i < |s.requests| && RequestFacts(s, i) && CanStep(s, step) && Subject(step) == Some(i) && IsPlain(step)
    requires !step.Cancel? && !Fails(step)
    ensures RequestFacts(Move(s, i, step), i)
  {
  }

  // An answer from the cache is the answer of a request with this key and body,
  // in every run.
  lemma HitAnswersItsOwn(s: System, i: nat)
    requires Base(s) && CanStep(s, HitCache(i))
    ensures var r, r' := s.requests[i], AfterHit(s, s.requests[i]);
            r'.stage.Answered? ==>
              && AnswerOf(s, r.key, r.hash, r'.stage.chain, r'.stage.from)
              && r'.stage.response == s.setup.wire(r'.stage.chain)
  {
    hide Base, Partition, RequestFacts, RowFacts;
    var r := s.requests[i];
    var r' := AfterHit(s, r);
    FactsOf(s, i);
    if r'.stage.Answered? {
      var entry := s.cache[r.key];
      ReplaysExactlyItsOwn(entry.state, r.hash, s.setup.readable, r'.stage.response);
      StatesAreDistinct(r.hash, r'.stage.response, s.requests[entry.from].hash, s.setup.wire(entry.chain));
    }
  }

  lemma StatesAreDistinct(hash: string, payload: string, hash': string, payload': string)
    requires ':' !in hash && ':' !in hash' && DoneState(hash, payload) == DoneState(hash', payload')
    ensures hash == hash' && payload == payload'
  {
    RoundTripsExactlyWithoutColon(hash, payload);
    RoundTripsExactlyWithoutColon(hash', payload');
  }

  lemma HitKeepsBase(s: System, i: nat)
    requires Base(s) && CanStep(s, HitCache(i))
    ensures Base(Move(s, i, HitCache(i)))
  {
    hide Base, Partition, RowFacts, CacheFacts, StateResponse;
    FactsOf(s, i);
    HitAnswersItsOwn(s, i);
    RequestOnly(s, i, AfterHit(s, s.requests[i]));
  }

  lemma ReadKeepsBase(s: System, i: nat)
    requires Base(s) && CanStep(s, RunRead(i))
    ensures Base(Move(s, i, RunRead(i)))
  {
    hide Base, CacheFacts, AnswerOf;
    FactsOf(s, i);
    RequestOnly(s, i, AfterRead(s, s.requests[i]));
  }

  lemma InsertKeepsBase(s: System, i: nat)
    requires Base(s) && CanStep(s, RunInsert(i))
    ensures Base(Move(s, i, RunInsert(i)))
  {
    hide Base, CacheFacts, AnswerOf;
    FactsOf(s, i);
    var r, s' := s.requests[i], Move(s, i, RunInsert(i));
    if r.key in s.tables.rows {
      RequestOnly(s, i, r.(claim := Reading));
    } else {
      assert RequestFacts(s', i) && RowFacts(s', r.key);
      LocalKeepsBase(s, s', i);
    }
  }

  lemma SaveKeepsBase(s: System, i: nat)
    requires Base(s) && CanStep(s, RunSave(i))
    ensures Base(Move(s, i, RunSave(i)))
  {
    hide Base, CacheFacts, AnswerOf;
    FactsOf(s, i);
    var r, s' := s.requests[i], Move(s, i, RunSave(i));
    if !Lands(s, r) {
      RequestOnly(s, i, SaveFailed(r));
    } else {
      assert Made(s', i);
      assert RequestFacts(s', i) && RowFacts(s', r.key);
      LocalKeepsBase(s, s', i);
    }
  }

  // A save under way that the chain table will accept.
  predicate Lands(s: System, r: Request) { r.saving.Some? && r.saving.value.chainId !in s.tables.chains }

  lemma CleanupKeepsBase(s: System, i: nat)
    requires Base(s) && CanStep(s, RunCleanup(i))
    ensures Base(Move(s, i, RunCleanup(i)))
  {
    hide Base, CacheFacts, AnswerOf;
    FactsOf(s, i);
    var r, s' := s.requests[i], Move(s, i, RunCleanup(i));
    assert RequestFacts(s', i) && RowFacts(s', r.key);
    LocalKeepsBase(s, s', i);
  }

  // The cache is only ever written with the answer of the request's own chain.
  lemma RememberKeepsBase(s: System, i: nat)
    requires Base(s) && CanStep(s, Remember(i))
    ensures Base(Move(s, i, Remember(i)))
  {
    hide Shaped;
    var s' := Move(s, i, Remember(i));
    assert RequestFacts(s, i);
    forall j | 0 <= j < |s'.requests| ensures RequestFacts(s', j) { assert RequestFacts(s, j); }
    forall key ensures RowFacts(s', key) { assert RowFacts(s, key); }
    HashHasNoColon(s, i);
    forall key ensures CacheFacts(s', key) { assert CacheFacts(s, key); }
  }

  lemma HashHasNoColon(s: System, i: nat)
    requires Base(s) && i < |s.requests|
    ensures ':' !in s.requests[i].hash
  {
    assert RequestFacts(s, i);
  }

  // Steps of no request: time, arrivals, retention, the cache's own evictions,
  // and requests without a key.
  lemma BackgroundKeepsBase(s: System, step: Step)
    requires Base(s) && CanStep(s, step) && Subject(step).None?
    ensures Base(Apply(s, step))
  {
    hide Shaped, IsExpired;
    var s' := Apply(s, step);
    forall j | 0 <= j < |s'.requests| ensures RequestFacts(s', j) {
      if j < |s.requests| { RequestStays(s, s', j); } else { NewcomerFacts(s', j); }
    }
    forall k ensures RowFacts(s', k) { assert RowFacts(s, k); }
    forall k ensures CacheFacts(s', k) { assert CacheFacts(s, k); }
  }

  lemma NewcomerFacts(s: System, j: nat)
    requires j < |s.requests| && s.requests[j] == Newcomer(s.requests[j].key, s.requests[j].hash)
    requires ':' !in s.requests[j].hash
    ensures RequestFacts(s, j)
  {
  }

  lemma StepKeepsBase(s: System, step: Step)
    requires Base(s) && CanStep(s, step)
    ensures Base(Apply(s, step))
  {
    hide Base, Move, Ready, Period, Purged, IsExpired;
    match step
    case HitCache(i) => HitKeepsBase(s, i);
    case RunRead(i) => ReadKeepsBase(s, i);
    case RunInsert(i) => InsertKeepsBase(s, i);
    case RunSave(i) => SaveKeepsBase(s, i);
    case RunCleanup(i) => CleanupKeepsBase(s, i);
    case Remember(i) => RememberKeepsBase(s, i);
    case Tick(_) | Arrive(_, _) | Purge(_) | Forget(_) | SaveKeyless(_, _) => BackgroundKeepsBase(s, step);
    case _ => PlainMoveKeepsBase(s, Subject(step).value, step);
  }

  // ---- the two promises, and what a purge must wait for ----

  // OneSpend: within one retention of its row, a key's work begins at most
  // once. Honesty: a key reused with another body is never answered.
  datatype Promise = OneSpend | Honesty

  // A request whose row may not be purged yet without breaking the promise: it
  // may still begin on the strength of its reservation or give it back, and for
  // honesty also one that may still save.
  predicate IsInTheWay(s: System, r: Request, promise: Promise) {
    r.stage.Building? || r.cleanup.Releasing? || (promise.Honesty? && (r.stage.Working? || Lands(s, r)))
  }

  predicate IsClear(s: System, key: Key, promise: Promise) {
    forall i :: 0 <= i < |s.requests| && s.requests[i].key == key ==> !IsInTheWay(s, s.requests[i], promise)
  }

  // Not a purge of this key under a request in the way. What is purged of other
  // keys does not matter.
  predicate IsPatient(s: System, step: Step, key: Key, promise: Promise) {
    step == Purge(key) ==> IsClear(s, key, promise)
  }

  ghost predicate Owns(s: System, i: nat)
    requires i < |s.requests|
  {
    var key := s.requests[i].key;
    key in s.tables.rows && key in s.holder && s.holder[key] == i
  }

  // No two requests began work under the key in the same retention.
  ghost predicate SpendsApart(s: System, key: Key) {
    forall i, j :: 0 <= i < j < |s.requests| && s.requests[i].key == key && s.requests[j].key == key ==>
      s.requests[i].spent.None? || s.requests[j].spent != s.requests[i].spent
  }

  // Every answer under the key is to the body asked about.
  ghost predicate AnswersFit(s: System, key: Key) {
    forall i :: 0 <= i < |s.requests| && s.requests[i].key == key && s.requests[i].stage.Answered? ==>
      s.requests[i].stage.chain.requestHash == s.requests[i].hash
  }

  ghost predicate IsKept(s: System, key: Key, promise: Promise) {
    match promise
    case OneSpend => SpendsApart(s, key)
    case Honesty => AnswersFit(s, key)
  }

  // ---- one spend ----

  // A request that holds a place in the current retention of its key.
  predicate Counts(s: System, r: Request) {
    r.stage.Building? || r.cleanup.Releasing? || r.spent == Some(Period(s, r.key))
  }

  ghost predicate SpendInv(s: System, key: Key) {
    && (forall i :: 0 <= i < |s.requests| && s.requests[i].key == key && Counts(s, s.requests[i]) ==> Owns(s, i))
    && SpendsApart(s, key)
  }

  // A request's own step leaves every other request, and the periods, alone.
  lemma MovesOne(s: System, step: Step, i: nat)
    requires CanStep(s, step) && Subject(step) == Some(i)
    ensures var s' := Move(s, i, step);
            && s'.requests == s.requests[i := s'.requests[i]] && |s'.requests| == |s.requests|
            && s'.purges == s.purges
  {
    hide IsExpired, Released, Saved, MarkedUncertain, Inserted, AfterHit, AfterRead, Cancelled, CleanedUp, SaveFailed;
    hide Blocking, HolderOf, DoneState, Purged;
  }

  // A step leaves alone every request but its own.
  lemma Bystander(s: System, step: Step, i: nat)
    requires CanStep(s, step) && i < |Apply(s, step).requests| && Subject(step) != Some(i)
    ensures var r' := Apply(s, step).requests[i];
            if i < |s.requests| then r' == s.requests[i] else r' == Newcomer(r'.key, r'.hash)
  {
    hide IsExpired, Move, Ready, Saved, Purged;
    if Subject(step).Some? { MovesOne(s, step, Subject(step).value); }
  }

  // The request that moves keeps its key and its body, and work begins once.
  lemma Mover(s: System, step: Step, i: nat)
    requires CanStep(s, step) && Subject(step) == Some(i)
    ensures |Apply(s, step).requests| == |s.requests|
    ensures var r, r' := s.requests[i], Apply(s, step).requests[i];
            r'.key == r.key && r'.hash == r.hash && (!step.Begin? ==> r'.spent == r.spent)
  {
    hide Move, IsExpired, Ready;
    assert Apply(s, step) == Move(s, i, step);
    MovesOne(s, step, i);
    if IsPlain(step) { PlainMover(s, step, i); } else { OtherMover(s, step, i); }
  }

  lemma PlainMover(s: System, step: Step, i: nat)
    requires CanStep(s, step) && Subject(step) == Some(i) && IsPlain(step) && i < |Move(s, i, step).requests|
    ensures var r, r' := s.requests[i], Move(s, i, step).requests[i];
            r'.key == r.key && r'.hash == r.hash && (!step.Begin? ==> r'.spent == r.spent)
  {
    hide IsExpired;
  }

  lemma OtherMover(s: System, step: Step, i: nat)
    requires CanStep(s, step) && Subject(step) == Some(i) && !IsPlain(step) && i < |Move(s, i, step).requests|
    ensures var r, r' := s.requests[i], Move(s, i, step).requests[i];
            r'.key == r.key && r'.hash == r.hash && r'.spent == r.spent
  {
    hide IsExpired, Released, Saved, MarkedUncertain, Inserted, StateResponse, ReplayOrRefuse;
    hide Purged, Blocking, HolderOf, DoneState;
  }

  // Nobody starts to count but by winning the insert.
  lemma MoverCounts(s: System, step: Step, i: nat)
    requires CanStep(s, step) && Subject(step) == Some(i) && !step.RunInsert?
    requires i < |Apply(s, step).requests| && Counts(Apply(s, step), Apply(s, step).requests[i])
    ensures Counts(s, s.requests[i])
  {
    hide Move, IsExpired, Counts, Ready;
    assert Apply(s, step) == Move(s, i, step);
    if IsPlain(step) { PlainMoverCounts(s, step, i); } else { OtherMoverCounts(s, step, i); }
  }

  lemma PlainMoverCounts(s: System, step: Step, i: nat)
    requires CanStep(s, step) && Subject(step) == Some(i) && IsPlain(step)
    requires i < |Move(s, i, step).requests| && Counts(Move(s, i, step), Move(s, i, step).requests[i])
    ensures Counts(s, s.requests[i])
  {
    hide IsExpired;
  }

  lemma OtherMoverCounts(s: System, step: Step, i: nat)
    requires CanStep(s, step) && Subject(step) == Some(i) && !step.RunInsert? && !IsPlain(step)
    requires i < |Move(s, i, step).requests| && Counts(Move(s, i, step), Move(s, i, step).requests[i])
    ensures Counts(s, s.requests[i])
  {
    hide IsExpired, Released, Saved, MarkedUncertain, Inserted, StateResponse, ReplayOrRefuse;
    hide Purged, Blocking, HolderOf, DoneState;
  }

  lemma CountsBefore(s: System, step: Step, i: nat)
    requires CanStep(s, step) && i < |Apply(s, step).requests| && Counts(Apply(s, step), Apply(s, step).requests[i])
    requires step != RunInsert(i) && step != Purge(Apply(s, step).requests[i].key)
    ensures i < |s.requests| && s.requests[i].key == Apply(s, step).requests[i].key && Counts(s, s.requests[i])
  {
    hide Move, Ready, IsExpired;
    if Subject(step) == Some(i) {
      Mover(s, step, i);
      MoverCounts(s, step, i);
    } else {
      Bystander(s, step, i);
      SamePeriod(s, step, Apply(s, step).requests[i].key);
    }
  }

  lemma SamePeriod(s: System, step: Step, key: Key)
    requires CanStep(s, step) && step != Purge(key)
    ensures Period(Apply(s, step), key) == Period(s, key)
  {
    hide IsExpired, Move, Ready, Saved, Purged;
    if Subject(step).Some? { MovesOne(s, step, Subject(step).value); }
  }

  lemma RowsUntouched(s: System, step: Step)
    requires CanStep(s, step) && !WritesRow(step)
    ensures Apply(s, step).tables.rows == s.tables.rows && Apply(s, step).holder == s.holder
  {
    hide IsExpired, AfterHit, AfterRead, Cancelled;
  }

  lemma OtherRowsUntouched(s: System, step: Step, key: Key)
    requires CanStep(s, step) && WritesRow(step) && step != Purge(key)
    requires Subject(step).Some? ==> s.requests[Subject(step).value].key != key
    ensures SameRow(s, Apply(s, step), key)
  {
    hide IsExpired;
  }

  lemma CountingOwns(s: System, step: Step, key: Key, i: nat)
    requires Base(s) && SpendInv(s, key) && CanStep(s, step) && step != Purge(key)
    requires var s' := Apply(s, step); i < |s'.requests| && s'.requests[i].key == key && Counts(s', s'.requests[i])
    ensures Owns(Apply(s, step), i)
  {
    hide Base, Move, Ready, Counts, SpendsApart, IsExpired;
    if step == RunInsert(i) {
      Mover(s, step, i);
      WinnerOwns(s, i);
    } else {
      CountsBefore(s, step, i);
      assert Owns(s, i);
      if !WritesRow(step) {
        RowsUntouched(s, step);
      } else if step.Purge? || s.requests[Subject(step).value].key != key {
        OtherRowsUntouched(s, step, key);
      } else {
        StillOwns(s, step, Subject(step).value, i);
      }
    }
  }

  lemma WinnerOwns(s: System, i: nat)
    requires Base(s) && CanStep(s, RunInsert(i)) && SpendInv(s, s.requests[i].key)
    requires Counts(Move(s, i, RunInsert(i)), Move(s, i, RunInsert(i)).requests[i])
    ensures Owns(Move(s, i, RunInsert(i)), i)
  {
    hide Base, SpendsApart, CacheFacts;
    FactsOf(s, i);
  }

  // The holder keeps its row through every write but its own release.
  lemma StillOwns(s: System, step: Step, j: nat, i: nat)
    requires Base(s) && CanStep(s, step) && Subject(step) == Some(j) && WritesRow(step) && step != RunInsert(i)
    requires i < |s.requests| && s.requests[i].key == s.requests[j].key && SpendInv(s, s.requests[i].key)
    requires Owns(s, i) && Counts(Apply(s, step), Apply(s, step).requests[i])
    ensures Owns(Apply(s, step), i)
  {
    hide Base, SpendInv, Counts, Owns, IsExpired, AfterHit, AfterInsert, AfterRead, AfterSave, AfterCleanup, Cancelled;
    FactsOf(s, j);
    if step.RunCleanup? { StillOwnsAfterCleanup(s, j, i); } else { StillOwnsAfterWrite(s, step, j, i); }
  }

  lemma StillOwnsAfterCleanup(s: System, j: nat, i: nat)
    requires i < |s.requests| && j < |s.requests| && s.requests[i].key == s.requests[j].key
    requires RequestFacts(s, j) && SpendInv(s, s.requests[i].key) && Owns(s, i)
    requires Counts(AfterCleanup(s, j, s.requests[j]), AfterCleanup(s, j, s.requests[j]).requests[i])
    ensures Owns(AfterCleanup(s, j, s.requests[j]), i)
  {
    hide SpendsApart, AnswerOf, Made;
  }

  lemma StillOwnsAfterWrite(s: System, step: Step, j: nat, i: nat)
    requires CanStep(s, step) && Subject(step) == Some(j) && (step.RunSave? || (step.RunInsert? && i != j))
    requires i < |s.requests| && s.requests[i].key == s.requests[j].key && Owns(s, i)
    ensures Owns(Move(s, j, step), i)
  {
    hide IsExpired;
  }

  lemma SpendsStayApart(s: System, step: Step, key: Key)
    requires Base(s) && SpendInv(s, key) && CanStep(s, step)
    ensures SpendsApart(Apply(s, step), key)
  {
    hide Base, Move, Ready, IsExpired, Counts;
    var s' := Apply(s, step);
    forall i, j | 0 <= i < j < |s'.requests| && s'.requests[i].key == key && s'.requests[j].key == key
      ensures s'.requests[i].spent.None? || s'.requests[j].spent != s'.requests[i].spent
    {
      SpentBefore(s, step, i);
      SpentBefore(s, step, j);
      if step == Begin(i) { BeginsAlone(s, i, j); }
      if step == Begin(j) { BeginsAlone(s, j, i); }
    }
  }

  lemma SpentBefore(s: System, step: Step, i: nat)
    requires CanStep(s, step) && i < |Apply(s, step).requests|
    ensures var r' := Apply(s, step).requests[i];
            && (Subject(step).Some? ==> |Apply(s, step).requests| == |s.requests|)
            && (i >= |s.requests| ==> r'.spent.None?)
            && (i < |s.requests| ==>
                  r'.key == s.requests[i].key && (step == Begin(i) || r'.spent == s.requests[i].spent))
  {
    hide Move, Ready, IsExpired, Counts;
    if Subject(step).Some? { Mover(s, step, Subject(step).value); }
    if Subject(step) != Some(i) { Bystander(s, step, i); }
  }

  lemma BeginsAlone(s: System, i: nat, j: nat)
    requires Base(s) && CanStep(s, Begin(i)) && SpendInv(s, s.requests[i].key)
    requires j < |s.requests| && j != i && s.requests[j].key == s.requests[i].key
    ensures s.requests[j].spent != Some(Period(s, s.requests[i].key))
    ensures Apply(s, Begin(i)).requests[i].spent == Some(Period(s, s.requests[i].key))
    ensures Apply(s, Begin(i)).requests[j] == s.requests[j]
  {
    assert Owns(s, i);
    assert Counts(s, s.requests[j]) ==> Owns(s, j);
  }

  lemma StepKeepsSpend(s: System, step: Step, key: Key)
    requires Base(s) && SpendInv(s, key) && CanStep(s, step) && IsPatient(s, step, key, OneSpend)
    ensures SpendInv(Apply(s, step), key)
  {
    hide Base, Move, Ready, IsExpired, Counts, SpendsApart, Owns, IsClear;
    SpendsStayApart(s, step, key);
    var s' := Apply(s, step);
    forall i | 0 <= i < |s'.requests| && s'.requests[i].key == key && Counts(s', s'.requests[i]) ensures Owns(s', i) {
      if step == Purge(key) { NobodyCounts(s, key, i); } else { CountingOwns(s, step, key, i); }
    }
  }

  lemma NobodyCounts(s: System, key: Key, i: nat)
    requires Base(s) && CanStep(s, Purge(key)) && IsClear(s, key, OneSpend)
    requires i < |s.requests| && s.requests[i].key == key
    ensures !Counts(Apply(s, Purge(key)), s.requests[i])
  {
    hide Base, Shaped;
    FactsOf(s, i);
    assert !IsInTheWay(s, s.requests[i], OneSpend);
  }

  // ---- honest answers ----

  predicate MaySave(s: System, r: Request) { r.stage.Working? || Lands(s, r) }

  ghost predicate HonestInv(s: System, key: Key) {
    && (forall i :: 0 <= i < |s.requests| && s.requests[i].key == key && MaySave(s, s.requests[i]) ==> Owns(s, i))
    && (forall i :: 0 <= i < |s.requests| && s.requests[i].key == key ==> AnsweredHonestly(s, i))
    && HonestRow(s, key)
  }

  ghost predicate AnsweredHonestly(s: System, i: nat)
    requires i < |s.requests|
  {
    var r := s.requests[i];
    r.stage.Answered? ==> AnswerOf(s, r.key, r.hash, r.stage.chain, r.stage.from)
  }

  // A row is finished exactly when the request that reserved it has stored its
  // chain, which the row then names.
  ghost predicate HonestRow(s: System, key: Key) {
    key in s.tables.rows && HolderOf(s, key) < |s.requests| ==>
      var made := s.requests[HolderOf(s, key)].made;
      && (s.tables.rows[key].state.Finished? <==> made.Some?)
      && (s.tables.rows[key].state.Finished? ==> s.tables.rows[key].chainId == made)
  }

  lemma SaverBefore(s: System, step: Step, i: nat)
    requires CanStep(s, step) && i < |Apply(s, step).requests| && MaySave(Apply(s, step), Apply(s, step).requests[i])
    ensures i < |s.requests| && s.requests[i].key == Apply(s, step).requests[i].key
    ensures MaySave(s, s.requests[i]) || (step == Begin(i) && s.requests[i].stage.Building?)
  {
    hide Move, Ready, IsExpired;
    if Subject(step) == Some(i) {
      MoverSaves(s, step, i);
    } else {
      Bystander(s, step, i);
      if Lands(Apply(s, step), Apply(s, step).requests[i]) { LandsBefore(s, step, Apply(s, step).requests[i]); }
    }
  }

  lemma LandsBefore(s: System, step: Step, r: Request)
    requires CanStep(s, step) && Lands(Apply(s, step), r)
    ensures Lands(s, r)
  {
    hide IsExpired, AfterHit, AfterRead, Cancelled, Ready;
  }

  lemma MoverSaves(s: System, step: Step, i: nat)
    requires CanStep(s, step) && Subject(step) == Some(i)
    requires MaySave(Apply(s, step), Apply(s, step).requests[i])
    ensures s.requests[i].key == Apply(s, step).requests[i].key
    ensures MaySave(s, s.requests[i]) || (step == Begin(i) && s.requests[i].stage.Building?)
  {
    hide Move, IsExpired, MaySave, Ready;
    assert Apply(s, step) == Move(s, i, step);
    MovesOne(s, step, i);
    if IsPlain(step) { PlainMoverSaves(s, step, i); } else { OtherMoverSaves(s, step, i); }
  }

  lemma PlainMoverSaves(s: System, step: Step, i: nat)
    requires CanStep(s, step) && Subject(step) == Some(i) && IsPlain(step)
    requires i < |Move(s, i, step).requests| && MaySave(Move(s, i, step), Move(s, i, step).requests[i])
    ensures s.requests[i].key == Move(s, i, step).requests[i].key
    ensures MaySave(s, s.requests[i]) || (step == Begin(i) && s.requests[i].stage.Building?)
  {
    hide IsExpired;
  }

  lemma OtherMoverSaves(s: System, step: Step, i: nat)
    requires CanStep(s, step) && Subject(step) == Some(i) && !IsPlain(step)
    requires i < |Move(s, i, step).requests| && MaySave(Move(s, i, step), Move(s, i, step).requests[i])
    ensures s.requests[i].key == Move(s, i, step).requests[i].key && MaySave(s, s.requests[i])
  {
    hide IsExpired, StateResponse, ReplayOrRefuse, Purged, Blocking, HolderOf, DoneState;
  }

  lemma SaverOwns(s: System, step: Step, key: Key, i: nat)
    requires Base(s) && SpendInv(s, key) && HonestInv(s, key) && CanStep(s, step) && step != Purge(key)
    requires var s' := Apply(s, step); i < |s'.requests| && s'.requests[i].key == key && MaySave(s', s'.requests[i])
    ensures Owns(Apply(s, step), i)
  {
    hide Base, Move, Ready, Counts, SpendsApart, IsExpired, MaySave, AnsweredHonestly, HonestRow;
    SaverBefore(s, step, i);
    if step == Begin(i) { BuildingCounts(s, i); }
    assert Owns(s, i);
    if !WritesRow(step) {
      RowsUntouched(s, step);
    } else if step.Purge? || s.requests[Subject(step).value].key != key {
      OtherRowsUntouched(s, step, key);
    } else {
      SaverKeepsRow(s, step, Subject(step).value, i);
    }
  }

  lemma BuildingCounts(s: System, i: nat)
    requires i < |s.requests|
    ensures s.requests[i].stage.Building? ==> Counts(s, s.requests[i])
  {
  }

  lemma SaverKeepsRow(s: System, step: Step, j: nat, i: nat)
    requires Base(s) && CanStep(s, step) && Subject(step) == Some(j) && WritesRow(step)
    requires i < |s.requests| && s.requests[i].key == s.requests[j].key && SpendInv(s, s.requests[i].key)
    requires Owns(s, i) && MaySave(s, s.requests[i])
    ensures Owns(Apply(s, step), i)
  {
    hide Base, SpendsApart, CacheFacts, RowFacts, AnswerOf;
    FactsOf(s, j);
    FactsOf(s, i);
  }

  lemma AnswersStayHonest(s: System, step: Step, key: Key, i: nat)
    requires Base(s) && HonestInv(s, key) && CanStep(s, step)
    requires i < |Apply(s, step).requests| && Apply(s, step).requests[i].key == key
    ensures AnsweredHonestly(Apply(s, step), i)
  {
    hide Base, Move, Ready, IsExpired, MaySave, HonestRow, AnsweredHonestly;
    if Subject(step) == Some(i) {
      Mover(s, step, i);
      MoverIsHonest(s, step, i);
    } else {
      Bystander(s, step, i);
      if i < |s.requests| { SameAnswer(s, step, i); } else { NewcomerIsUnanswered(Apply(s, step), i); }
    }
  }

  lemma NewcomerIsUnanswered(s: System, i: nat)
    requires i < |s.requests| && s.requests[i] == Newcomer(s.requests[i].key, s.requests[i].hash)
    ensures AnsweredHonestly(s, i)
  {
  }

  lemma ChainsStay(s: System, step: Step)
    requires CanStep(s, step)
    ensures ChainsKept(s.tables, Apply(s, step).tables)
  {
    hide IsExpired, Ready, Move;
    if Subject(step).Some? { ChainsStayThroughMove(s, step, Subject(step).value); }
  }

  lemma ChainsStayThroughMove(s: System, step: Step, i: nat)
    requires CanStep(s, step) && Subject(step) == Some(i)
    ensures ChainsKept(s.tables, Move(s, i, step).tables)
  {
    hide IsExpired, AfterHit, AfterRead, Cancelled, CleanedUp, SaveFailed, Blocking, HolderOf, DoneState, Purged;
  }

  // What a request stored it has stored for good.
  lemma MadeStays(s: System, step: Step, i: nat)
    requires Base(s) && CanStep(s, step) && i < |s.requests| && s.requests[i].made.Some?
    ensures i < |Apply(s, step).requests| && Apply(s, step).requests[i].made == s.requests[i].made
    ensures Apply(s, step).requests[i].key == s.requests[i].key && Apply(s, step).requests[i].hash == s.requests[i].hash
  {
    hide Base, RowFacts, CacheFacts, AnswerOf, IsExpired, Move, Ready;
    FactsOf(s, i);
    NoFewerRequests(s, step);
    if Subject(step) == Some(i) { Mover(s, step, i); } else { Bystander(s, step, i); }
    if step == RunSave(i) { IsSaving(s, i); } else { SavesOnlyBySaving(s, step, i); }
  }

  lemma IsSaving(s: System, i: nat)
    requires CanStep(s, RunSave(i))
    ensures s.requests[i].saving.Some?
  {
  }

  lemma SameAnswer(s: System, step: Step, i: nat)
    requires Base(s) && CanStep(s, step) && i < |s.requests| && AnsweredHonestly(s, i)
    requires i < |Apply(s, step).requests| && Apply(s, step).requests[i] == s.requests[i]
    ensures AnsweredHonestly(Apply(s, step), i)
  {
    hide Base, Apply, CanStep;
    var r := s.requests[i];
    if r.stage.Answered? {
      MadeStays(s, step, r.stage.from);
      ChainsStay(s, step);
      NoFewerRequests(s, step);
      AnswerStays(s, Apply(s, step), r.key, r.hash, r.stage.chain, r.stage.from);
    }
  }

  lemma NoFewerRequests(s: System, step: Step)
    requires CanStep(s, step)
    ensures |s.requests| <= |Apply(s, step).requests|
  {
    hide IsExpired, Move, Ready, Saved, Purged;
    if Subject(step).Some? { MovesOne(s, step, Subject(step).value); }
  }

  lemma MoverIsHonest(s: System, step: Step, i: nat)
    requires Base(s) && CanStep(s, step) && Subject(step) == Some(i) && HonestInv(s, s.requests[i].key)
    ensures AnsweredHonestly(Apply(s, step), i)
  {
    hide Base, IsExpired, MaySave, Move, Ready;
    FactsOf(s, i);
    if step.HitCache? {
      HitIsHonest(s, i);
    } else if step.RunRead? {
      ReadIsHonest(s, i);
    } else if step.Respond? {
      StepKeepsBase(s, step);
      ResponseIsOwn(s, i);
      FactsOf(Apply(s, step), i);
    } else {
      AnswersComeFromThree(s, step, i);
      if Apply(s, step).requests[i] == s.requests[i] { SameAnswer(s, step, i); }
    }
  }

  // Requests become answered by the cache, the database, or their own work.
  lemma AnswersComeFromThree(s: System, step: Step, i: nat)
    requires CanStep(s, step) && Subject(step) == Some(i) && Shaped(s.requests[i])
    requires !step.HitCache? && !step.RunRead? && !step.Respond?
    ensures |Apply(s, step).requests| == |s.requests|
    ensures Apply(s, step).requests[i] == s.requests[i] || !Apply(s, step).requests[i].stage.Answered?
  {
    hide IsExpired, Released, Saved, MarkedUncertain, Inserted;
  }

  lemma HitIsHonest(s: System, i: nat)
    requires Base(s) && CanStep(s, HitCache(i))
    ensures AnsweredHonestly(Apply(s, HitCache(i)), i)
  {
    hide Base, StateResponse;
    HitAnswersItsOwn(s, i);
    var r, r' := s.requests[i], AfterHit(s, s.requests[i]);
    assert Apply(s, HitCache(i)) == With(s, i, r');
    if r'.stage.Answered? { AnswerStays(s, With(s, i, r'), r.key, r.hash, r'.stage.chain, r'.stage.from); }
  }

  lemma ReadIsHonest(s: System, i: nat)
    requires Base(s) && CanStep(s, RunRead(i)) && HonestRow(s, s.requests[i].key)
    requires AnsweredHonestly(s, i)
    ensures AnsweredHonestly(Apply(s, RunRead(i)), i)
  {
    hide Base, CacheFacts;
    FactsOf(s, i);
    var r, r' := s.requests[i], AfterRead(s, s.requests[i]);
    assert Apply(s, RunRead(i)) == With(s, i, r');
    if r'.stage.Answered? {
      var h := HolderOf(s, r.key);
      FactsOf(s, h);
      assert Made(s, h);
      assert AnswerOf(s, r.key, r.hash, r'.stage.chain, h);
      AnswerStays(s, With(s, i, r'), r.key, r.hash, r'.stage.chain, h);
    }
  }

  lemma ResponseIsOwn(s: System, i: nat)
    requires CanStep(s, Respond(i))
    ensures var s' := Apply(s, Respond(i));
            |s'.requests| == |s.requests| && s'.requests[i].stage.Answered? && s'.requests[i].stage.own &&
            s'.requests[i].stage.from == i
  {
  }

  lemma RowStaysHonest(s: System, step: Step, key: Key)
    requires Base(s) && HonestInv(s, key) && CanStep(s, step)
    ensures HonestRow(Apply(s, step), key)
  {
    hide Base, Move, Ready, IsExpired, MaySave, AnsweredHonestly;
    if !WritesRow(step) {
      RowsUntouched(s, step);
      SameHolder(s, step, key);
    } else if step.Purge? {
      assert Apply(s, step).requests == s.requests;
    } else if s.requests[Subject(step).value].key != key {
      OtherRowsUntouched(s, step, key);
      SameHolder(s, step, key);
    } else {
      WrittenRowIsHonest(s, step, Subject(step).value);
    }
  }

  lemma SameHolder(s: System, step: Step, key: Key)
    requires Base(s) && CanStep(s, step) && (!step.RunSave? || s.requests[step.i].key != key)
    requires SameRow(s, Apply(s, step), key) && HonestRow(s, key)
    ensures HonestRow(Apply(s, step), key)
  {
    hide Base, Move, Ready, IsExpired, CacheFacts;
    RowFactsOf(s, key);
    if key in s.tables.rows { SavesOnlyBySaving(s, step, s.holder[key]); }
  }

  lemma SavesOnlyBySaving(s: System, step: Step, h: nat)
    requires CanStep(s, step) && h < |s.requests| && step != RunSave(h)
    ensures h < |Apply(s, step).requests| && Apply(s, step).requests[h].made == s.requests[h].made
  {
    hide Move, Ready;
    NoFewerRequests(s, step);
    if Subject(step) == Some(h) { MoverMade(s, step, h); } else { Bystander(s, step, h); }
  }

  lemma MoverMade(s: System, step: Step, i: nat)
    requires CanStep(s, step) && Subject(step) == Some(i) && !step.RunSave?
    ensures i < |Apply(s, step).requests| && Apply(s, step).requests[i].made == s.requests[i].made
  {
    hide IsExpired, Released, Saved, MarkedUncertain, Inserted, StateResponse, ReplayOrRefuse;
    hide Purged, Blocking, HolderOf, DoneState;
  }

  lemma WrittenRowIsHonest(s: System, step: Step, j: nat)
    requires Base(s) && CanStep(s, step) && Subject(step) == Some(j) && WritesRow(step)
    requires HonestInv(s, s.requests[j].key)
    ensures HonestRow(Apply(s, step), s.requests[j].key)
  {
    hide Base, CacheFacts, AnswerOf, AnsweredHonestly;
    FactsOf(s, j);
  }

  lemma StepKeepsHonesty(s: System, step: Step, key: Key)
    requires Base(s) && SpendInv(s, key) && HonestInv(s, key) && CanStep(s, step) && IsPatient(s, step, key, Honesty)
    ensures HonestInv(Apply(s, step), key)
  {
    hide Base, SpendInv, Move, Ready, IsExpired, MaySave, HonestRow, AnsweredHonestly, Owns, IsClear;
    var s' := Apply(s, step);
    RowStaysHonest(s, step, key);
    forall i | 0 <= i < |s'.requests| && s'.requests[i].key == key ensures AnsweredHonestly(s', i) {
      AnswersStayHonest(s, step, key, i);
    }
    forall i | 0 <= i < |s'.requests| && s'.requests[i].key == key && MaySave(s', s'.requests[i]) ensures Owns(s', i) {
      if step == Purge(key) { NobodySaves(s, key, i); } else { SaverOwns(s, step, key, i); }
    }
  }

  lemma NobodySaves(s: System, key: Key, i: nat)
    requires CanStep(s, Purge(key)) && IsClear(s, key, Honesty) && i < |s.requests| && s.requests[i].key == key
    ensures !MaySave(Apply(s, Purge(key)), s.requests[i])
  {
    assert !IsInTheWay(s, s.requests[i], Honesty);
  }

  // ---- runs ----

  function Initial(setup: Setup): System { System(setup, Tables(map[], map[]), map[], [], 0.0, map[], map[]) }

  // The states of a run, each step taken where it can be.
  predicate IsRun(s: System, steps: seq<Step>)
    decreases |steps|
  {
    steps == [] || (CanStep(s, steps[0]) && IsRun(Apply(s, steps[0]), steps[1..]))
  }

  predicate IsPatientRun(s: System, steps: seq<Step>, key: Key, promise: Promise)
    requires IsRun(s, steps)
    decreases |steps|
  {
    steps == [] ||
    (IsPatient(s, steps[0], key, promise) && IsPatientRun(Apply(s, steps[0]), steps[1..], key, promise))
  }

  function After(s: System, steps: seq<Step>): System
    requires IsRun(s, steps)
    decreases |steps|
  {
    if steps == [] then s else After(Apply(s, steps[0]), steps[1..])
  }

  ghost predicate Inv(s: System, key: Key, promise: Promise) {
    Base(s) && SpendInv(s, key) && (promise.Honesty? ==> HonestInv(s, key))
  }

  lemma StepKeepsInv(s: System, step: Step, key: Key, promise: Promise)
    requires Inv(s, key, promise) && CanStep(s, step) && IsPatient(s, step, key, promise)
    ensures Inv(Apply(s, step), key, promise)
  {
    hide Base, SpendInv, HonestInv, Move, Ready, IsExpired;
    StepKeepsBase(s, step);
    StepKeepsSpend(s, step, key);
    if promise.Honesty? { StepKeepsHonesty(s, step, key); }
  }

  lemma {:induction false} RunKeepsInv(s: System, steps: seq<Step>, key: Key, promise: Promise)
    requires Inv(s, key, promise) && IsRun(s, steps) && IsPatientRun(s, steps, key, promise)
    ensures Inv(After(s, steps), key, promise)
    decreases |steps|
  {
    hide Inv, CanStep, Apply, IsPatient;
    if steps != [] {
      StepKeepsInv(s, steps[0], key, promise);
      RunKeepsInv(Apply(s, steps[0]), steps[1..], key, promise);
    }
  }

  lemma InvKeepsPromise(s: System, key: Key, promise: Promise)
    requires Inv(s, key, promise)
    ensures IsKept(s, key, promise)
  {
    if promise.Honesty? {
      forall i | 0 <= i < |s.requests| && s.requests[i].key == key && s.requests[i].stage.Answered?
        ensures s.requests[i].stage.chain.requestHash == s.requests[i].hash
      {
        assert AnsweredHonestly(s, i);
      }
    }
  }

  lemma InitialInv(setup: Setup, key: Key, promise: Promise)
    ensures Inv(Initial(setup), key, promise)
  {
  }

  // ---- the promises, over every run ----

  // Over every interleaving, failure, crash and cancellation, two requests under
  // one key never both begin work within one retention of its row, provided no
  // purge of it meets a request still building on its reservation or giving it
  // back. Work that outlives its row is no exception.
  lemma OneSpendPerRetention(setup: Setup, steps: seq<Step>, key: Key, i: nat, j: nat)
    requires IsRun(Initial(setup), steps) && IsPatientRun(Initial(setup), steps, key, OneSpend)
    requires var s := After(Initial(setup), steps);
             i < j < |s.requests| && s.requests[i].key == key && s.requests[j].key == key
    ensures var s := After(Initial(setup), steps);
            s.requests[i].spent.Some? ==> s.requests[i].spent != s.requests[j].spent
  {
    InitialInv(setup, key, OneSpend);
    RunKeepsInv(Initial(setup), steps, key, OneSpend);
  }

  // A key that is never purged is spent at most once, ever, whatever happens to
  // every other key.
  lemma OneSpendWithoutPurge(setup: Setup, steps: seq<Step>, key: Key, i: nat, j: nat)
    requires IsRun(Initial(setup), steps) && Purge(key) !in steps
    requires var s := After(Initial(setup), steps);
             i < j < |s.requests| && s.requests[i].key == key && s.requests[j].key == key
    ensures var s := After(Initial(setup), steps); s.requests[i].spent.None? || s.requests[j].spent.None?
  {
    NoPurgeIsPatient(Initial(setup), steps, key, OneSpend);
    InitialInv(setup, key, OneSpend);
    RunKeepsInv(Initial(setup), steps, key, OneSpend);
    PeriodStays(Initial(setup), steps, key);
    var s := After(Initial(setup), steps);
    FactsOf(s, i);
    FactsOf(s, j);
  }

  lemma {:induction false} NoPurgeIsPatient(s: System, steps: seq<Step>, key: Key, promise: Promise)
    requires IsRun(s, steps) && Purge(key) !in steps
    ensures IsPatientRun(s, steps, key, promise)
    decreases |steps|
  {
    hide CanStep, Apply, IsClear;
    if steps != [] {
      assert steps[0] in steps && forall x :: x in steps[1..] ==> x in steps;
      NoPurgeIsPatient(Apply(s, steps[0]), steps[1..], key, promise);
    }
  }

  lemma {:induction false} PeriodStays(s: System, steps: seq<Step>, key: Key)
    requires IsRun(s, steps) && Purge(key) !in steps
    ensures Period(After(s, steps), key) == Period(s, key)
    decreases |steps|
  {
    hide CanStep, Apply, Period;
    if steps != [] {
      assert steps[0] in steps && forall x :: x in steps[1..] ==> x in steps;
      SamePeriod(s, steps[0], key);
      PeriodStays(Apply(s, steps[0]), steps[1..], key);
    }
  }

  // Every answer, from the cache, the database or the request's own work, is
  // the stored chain of a request with the same key and the same body, provided
  // no purge of the key meets a request that may still save or give back.
  lemma AnswersAreHonest(setup: Setup, steps: seq<Step>, i: nat)
    requires IsRun(Initial(setup), steps)
    requires var s := After(Initial(setup), steps);
             && i < |s.requests| && s.requests[i].stage.Answered?
             && IsPatientRun(Initial(setup), steps, s.requests[i].key, Honesty)
    ensures var s := After(Initial(setup), steps); var r := s.requests[i];
            && r.stage.from < |s.requests|
            && var maker := s.requests[r.stage.from];
               && maker.key == r.key && maker.hash == r.hash && maker.made.Some? && maker.made.value in s.tables.chains
               && var chain := s.tables.chains[maker.made.value];
                  chain.owner == r.key.owner && chain.requestHash == r.hash && r.stage.response == setup.wire(chain)
  {
    var s := After(Initial(setup), steps);
    var key := s.requests[i].key;
    InitialInv(setup, key, Honesty);
    RunKeepsInv(Initial(setup), steps, key, Honesty);
    FactsOf(s, i);
    assert AnsweredHonestly(s, i);
    SetupStays(Initial(setup), steps);
  }

  lemma {:induction false} SetupStays(s: System, steps: seq<Step>)
    requires IsRun(s, steps)
    ensures After(s, steps).setup == s.setup
    decreases |steps|
  {
    if steps != [] { SetupStays(Apply(s, steps[0]), steps[1..]); }
  }

  lemma {:induction false} RunKeepsBase(s: System, steps: seq<Step>)
    requires Base(s) && IsRun(s, steps)
    ensures Base(After(s, steps))
    decreases |steps|
  {
    hide Base, CanStep, Apply;
    if steps != [] {
      StepKeepsBase(s, steps[0]);
      RunKeepsBase(Apply(s, steps[0]), steps[1..]);
    }
  }

  // A request answered by its own work gets its own chain, with no proviso at
  // all; and so, by HitAnswersItsOwn, does one answered from the cache.
  lemma OwnAnswersAreHonest(setup: Setup, steps: seq<Step>, i: nat)
    requires IsRun(Initial(setup), steps)
    requires var s := After(Initial(setup), steps);
             i < |s.requests| && s.requests[i].stage.Answered? && s.requests[i].stage.own
    ensures var s := After(Initial(setup), steps); var r := s.requests[i];
            r.made.Some? && r.made.value in s.tables.chains && r.stage.chain == s.tables.chains[r.made.value] &&
            r.stage.chain.requestHash == r.hash && r.stage.response == setup.wire(r.stage.chain)
  {
    RunKeepsBase(Initial(setup), steps);
    FactsOf(After(Initial(setup), steps), i);
    SetupStays(Initial(setup), steps);
  }

  // Two answers under one key whose work began in the same retention are the
  // same answer, whichever way each was found.
  lemma ReplaysAgree(setup: Setup, steps: seq<Step>, key: Key, i: nat, j: nat)
    requires IsRun(Initial(setup), steps) && IsPatientRun(Initial(setup), steps, key, Honesty)
    requires var s := After(Initial(setup), steps);
             && i < |s.requests| && j < |s.requests| && s.requests[i].key == key && s.requests[j].key == key
             && s.requests[i].stage.Answered? && s.requests[j].stage.Answered?
             && s.requests[i].stage.from < |s.requests| && s.requests[j].stage.from < |s.requests|
             && s.requests[s.requests[i].stage.from].spent == s.requests[s.requests[j].stage.from].spent
    ensures var s := After(Initial(setup), steps); s.requests[i].stage.response == s.requests[j].stage.response
  {
    InitialInv(setup, key, Honesty);
    RunKeepsInv(Initial(setup), steps, key, Honesty);
    var s := After(Initial(setup), steps);
    assert AnsweredHonestly(s, i) && AnsweredHonestly(s, j);
    FactsOf(s, i);
    FactsOf(s, j);
    FactsOf(s, s.requests[i].stage.from);
  }

  // ---- what a row survives ----

  // A spent key stays taken: in its retention the next insert finds it.
  lemma SpentKeyIsTaken(s: System, key: Key, i: nat, hash: string, now: real)
    requires Inv(s, key, OneSpend) && i < |s.requests| && s.requests[i].key == key
    requires s.requests[i].spent == Some(Period(s, key))
    ensures Inserted(s.tables, key, hash, now) == s.tables
  {
    assert Counts(s, s.requests[i]);
  }

  // In every run a row goes away only by a purge, or by the release of a request
  // under its key that never began work; while the purge is patient, of the very
  // request that reserved it.
  lemma FreedOnlyUnspent(s: System, step: Step, key: Key)
    requires Base(s) && CanStep(s, step) && key in s.tables.rows && key !in Apply(s, step).tables.rows
    ensures step == Purge(key) || (step.RunCleanup? && s.requests[step.i].key == key)
    ensures step.RunCleanup? ==> s.requests[step.i].cleanup.Releasing? && s.requests[step.i].spent.None?
    ensures step.RunCleanup? && SpendInv(s, key) ==> HolderOf(s, key) == step.i
  {
    hide Base, RowFacts, CacheFacts, AnswerOf, SpendsApart, Move, Ready;
    if !WritesRow(step) { RowsUntouched(s, step); }
    if step.RunInsert? || step.RunSave? || step.RunCleanup? { FreedByMove(s, step.i, step, key); }
  }

  lemma FreedByMove(s: System, i: nat, step: Step, key: Key)
    requires step == RunInsert(i) || step == RunSave(i) || step == RunCleanup(i)
    requires Base(s) && CanStep(s, step) && key in s.tables.rows && key !in Move(s, i, step).tables.rows
    ensures step.RunCleanup? && s.requests[i].key == key
    ensures s.requests[i].cleanup.Releasing? && s.requests[i].spent.None?
    ensures SpendInv(s, key) ==> HolderOf(s, key) == i
  {
    hide Base, CacheFacts, AnswerOf, SpendsApart;
    FactsOf(s, i);
  }

  // A finished row is changed by no step but its own purge and a save that lands
  // under its key; and while the purge is patient there is no such save. No late
  // uncertainty mark and no release undoes it.
  lemma FinishedStays(s: System, step: Step, key: Key)
    requires Base(s) && CanStep(s, step) && step != Purge(key)
    requires key in s.tables.rows && s.tables.rows[key].state.Finished?
    ensures key in Apply(s, step).tables.rows
    ensures Apply(s, step).tables.rows[key] != s.tables.rows[key] ==>
      step.RunSave? && s.requests[step.i].key == key && Lands(s, s.requests[step.i])
    ensures HonestInv(s, key) ==> Apply(s, step).tables.rows[key] == s.tables.rows[key]
  {
    hide Base, CacheFacts, AnswerOf, AnsweredHonestly, Move, Ready;
    if !WritesRow(step) { RowsUntouched(s, step); }
    if step.RunInsert? || step.RunSave? || step.RunCleanup? { FinishedThroughMove(s, step.i, step, key); }
  }

  lemma FinishedThroughMove(s: System, i: nat, step: Step, key: Key)
    requires Base(s) && CanStep(s, step) && key in s.tables.rows && s.tables.rows[key].state.Finished?
    requires step == RunInsert(i) || step == RunSave(i) || step == RunCleanup(i)
    ensures key in Move(s, i, step).tables.rows
    ensures Move(s, i, step).tables.rows[key] != s.tables.rows[key] ==>
      step.RunSave? && s.requests[i].key == key && Lands(s, s.requests[i])
    ensures HonestInv(s, key) ==> Move(s, i, step).tables.rows[key] == s.tables.rows[key]
  {
    hide Base, CacheFacts, AnswerOf, AnsweredHonestly;
    FactsOf(s, i);
  }

  // A finished row names a stored chain of its own owner, in every run; and of
  // its own request hash, while the purge is patient.
  lemma FinishedNamesItsChain(s: System, key: Key)
    requires Base(s) && key in s.tables.rows && s.tables.rows[key].state.Finished?
    ensures var row := s.tables.rows[key];
            && row.chainId.Some? && row.chainId.value in s.tables.chains
            && s.tables.chains[row.chainId.value].owner == key.owner
            && (HonestInv(s, key) ==> s.tables.chains[row.chainId.value].requestHash == row.requestHash)
  {
    RowFactsOf(s, key);
    FactsOf(s, s.holder[key]);
  }

  // Whoever asks again while the row is retained never finds the key free. The
  // same body gets the chain a finished row names, waits for a pending one until
  // its lease is over, and must reconcile from then on; another body is refused.
  lemma RetryIsDecided(s: System, i: nat)
    requires Base(s) && CanStep(s, RunRead(i)) && s.requests[i].key in s.tables.rows
    requires s.requests[i].stage.AtReserve?
    ensures var r := s.requests[i]; var row := s.tables.rows[r.key]; var r' := AfterRead(s, r);
            var mine := row.requestHash == r.hash; var lapsed := s.now > row.updatedAt + s.setup.windows.lease;
            && (r'.stage.Answered? <==> mine && row.state.Finished?)
            && (r'.stage.Answered? ==> row.chainId.Some? && row.chainId.value in s.tables.chains &&
                                       r'.stage.chain == s.tables.chains[row.chainId.value])
            && (r'.stage == Refused(KeyReused) <==> !mine)
            && (r'.stage == Refused(StillInProgress) <==> mine && row.state.Pending? && !lapsed)
            && (r'.stage == Refused(ReconciliationRequired) <==>
                  mine && (row.state.Uncertain? || (row.state.Pending? && lapsed)))
  {
    hide ReplayOrRefuse;
    var key := s.requests[i].key;
    assert Blocking(s.tables, key, s.requests[i].hash, s.now) == s.tables.rows[key];
    if s.tables.rows[key].state.Finished? { FinishedNamesItsChain(s, key); }
  }

  // A cached answer is replayed to the body it was written for, and refuses any
  // other.
  lemma HitIsDecided(s: System, i: nat)
    requires Base(s) && CanStep(s, HitCache(i))
    ensures var r := s.requests[i]; var entry := s.cache[r.key]; var r' := AfterHit(s, r);
            && entry.from < |s.requests|
            && var mine := s.requests[entry.from].hash == r.hash;
               && (!mine ==> r'.stage == Refused(KeyReused))
               && (mine && s.setup.readable(s.setup.wire(entry.chain)) ==>
                     r'.stage == Answered(s.setup.wire(entry.chain), entry.chain, entry.from, false))
               && (mine && !s.setup.readable(s.setup.wire(entry.chain)) ==> r'.stage == Refused(StateInvalid))
  {
    hide Base, Partition, StateResponse, AnswerOf;
    FactsOf(s, i);
    var entry := s.cache[s.requests[i].key];
    var (hash, payload) := (s.requests[entry.from].hash, s.setup.wire(entry.chain));
    assert entry.state == "done" + ":" + hash + ":" + payload;
    AnsweredByItsParts("done", hash, payload, s.requests[i].hash, s.setup.readable);
  }

  // ---- how a request ends ----

  // A failure before any work gives the key back for a retry: the row goes if
  // nothing has marked it meanwhile.
  lemma FailureBeforeWorkFreesTheKey(s: System, i: nat)
    requires Base(s) && CanStep(s, FailToBuild(i)) && SpendInv(s, s.requests[i].key)
    ensures var failed := Apply(s, FailToBuild(i)); var key := s.requests[i].key;
            && CanStep(failed, RunCleanup(i))
            && var freed := Apply(failed, RunCleanup(i));
               && key in s.tables.rows && freed.requests[i].stage.Raised?
               && (key !in freed.tables.rows <==> s.tables.rows[key].state.Pending?)
  {
    hide Base, AnswerOf, CacheFacts, RowFacts, SpendsApart;
    FactsOf(s, i);
  }

  // A failure or a cancellation once work may have begun leaves the key taken,
  // and a retry is told to reconcile.
  lemma FailureAfterWorkAsksToReconcile(s: System, i: nat, step: Step)
    requires Base(s) && i < |s.requests| && s.requests[i].stage.Working? && HonestInv(s, s.requests[i].key)
    requires step == FailToWork(i) || step == Cancel(i)
    ensures var failed := Apply(s, step);
            && CanStep(failed, RunCleanup(i))
            && var marked := Apply(failed, RunCleanup(i)).tables; var r := s.requests[i];
               && r.key in marked.rows && marked.rows[r.key].state.Uncertain?
               && ReplayOrRefuse(marked.rows[r.key], marked, r.hash, r.key.owner, s.now, s.setup.windows.lease) ==
                    Refuse(ReconciliationRequired)
  {
    hide Base, AnswerOf, CacheFacts, AnsweredHonestly;
    FactsOf(s, i);
  }

  // What a crash leaves: a request that will never act again, and its row.
  ghost predicate IsAbandoned(s: System, i: nat) {
    && i < |s.requests| && Owns(s, i) && s.tables.rows[s.requests[i].key].requestHash == s.requests[i].hash
    && s.requests[i].stage.Raised? && s.requests[i].claim.NoClaim?
    && s.requests[i].saving.None? && s.requests[i].cleanup.NoCleanup?
    && !s.tables.rows[s.requests[i].key].state.Finished?
  }

  lemma CrashAbandons(s: System, i: nat)
    requires i < |s.requests| && Inv(s, s.requests[i].key, Honesty)
    requires s.requests[i].stage.Building? || s.requests[i].stage.Working?
    ensures IsAbandoned(Apply(s, Crash(i)), i) && Apply(s, Crash(i)).tables == s.tables
    ensures Apply(s, Crash(i)).requests[i].key == s.requests[i].key
    ensures Apply(s, Crash(i)).requests[i].hash == s.requests[i].hash
    ensures CanStep(s, Crash(i)) && IsPatient(s, Crash(i), s.requests[i].key, Honesty)
    ensures Apply(s, Crash(i)).setup == s.setup
  {
    hide Base, AnswerOf, CacheFacts, AnsweredHonestly, SpendsApart;
    FactsOf(s, i);
  }

  // Nothing but a purge takes an abandoned row away or finishes it. At most a
  // late mark from an earlier retention makes it uncertain.
  lemma AbandonedStays(s: System, step: Step, i: nat)
    requires IsAbandoned(s, i) && Inv(s, s.requests[i].key, Honesty) && CanStep(s, step)
    requires step != Purge(s.requests[i].key)
    ensures var s' := Apply(s, step); var key := s.requests[i].key;
            && IsAbandoned(s', i) && s'.requests[i].key == key && s'.requests[i].hash == s.requests[i].hash
            && (s'.tables.rows[key].state.Pending? ==> s'.tables.rows[key] == s.tables.rows[key])
  {
    hide Base, Move, Ready, IsExpired, AnsweredHonestly, SpendsApart, HonestRow;
    var key := s.requests[i].key;
    NoFewerRequests(s, step);
    if Subject(step) == Some(i) { AbandonedActsNoMore(s, step, i); } else { Bystander(s, step, i); }
    if !WritesRow(step) {
      RowsUntouched(s, step);
    } else if step.Purge? || s.requests[Subject(step).value].key != key {
      OtherRowsUntouched(s, step, key);
    } else if Subject(step) != Some(i) {
      OthersSpareTheAbandoned(s, step, Subject(step).value, i);
    }
  }

  lemma AbandonedActsNoMore(s: System, step: Step, i: nat)
    requires IsAbandoned(s, i) && CanStep(s, step) && Subject(step) == Some(i)
    ensures step == Cancel(i) || step == Crash(i)
    ensures i < |Apply(s, step).requests| && Apply(s, step).requests[i] == s.requests[i]
    ensures Apply(s, step).tables == s.tables && Apply(s, step).holder == s.holder
  {
  }

  lemma OthersSpareTheAbandoned(s: System, step: Step, j: nat, i: nat)
    requires IsAbandoned(s, i) && CanStep(s, step) && Subject(step) == Some(j) && WritesRow(step) && j != i
    requires SpendInv(s, s.requests[i].key) && HonestInv(s, s.requests[i].key)
    requires s.requests[j].key == s.requests[i].key
    ensures var s' := Apply(s, step); var key := s.requests[i].key;
            && key in s'.tables.rows && key in s'.holder && s'.holder[key] == i
            && s'.tables.rows[key].requestHash == s.tables.rows[key].requestHash
            && !s'.tables.rows[key].state.Finished?
            && (s'.tables.rows[key].state.Pending? ==> s'.tables.rows[key] == s.tables.rows[key])
  {
    hide SpendsApart, HonestRow, AnsweredHonestly, IsExpired;
    assert !Owns(s, j);
  }

  lemma {:induction false} AbandonedForGood(s: System, steps: seq<Step>, i: nat)
    requires IsAbandoned(s, i) && Inv(s, s.requests[i].key, Honesty)
    requires IsRun(s, steps) && Purge(s.requests[i].key) !in steps
    ensures var s' := After(s, steps); var key := s.requests[i].key;
            && IsAbandoned(s', i) && s'.requests[i].key == key && s'.requests[i].hash == s.requests[i].hash
            && (s'.tables.rows[key].state.Pending? ==> s'.tables.rows[key] == s.tables.rows[key])
            && s'.setup == s.setup
    decreases |steps|
  {
    hide Inv, CanStep, Apply, Owns;
    if steps != [] {
      AbandonedStays(s, steps[0], i);
      StepKeepsInv(s, steps[0], s.requests[i].key, Honesty);
      SetupStays(s, [steps[0]]);
      AbandonedForGood(Apply(s, steps[0]), steps[1..], i);
      SetupStays(s, steps);
    }
  }

  // A request that crashes before or during its work leaves its key taken. In
  // every run that follows, until the row is purged, whoever asks again is told
  // to wait while the row is pending and its lease lasts, and to reconcile at
  // every later instant.
  lemma CrashedKeyIsRefused(s: System, i: nat, steps: seq<Step>)
    requires i < |s.requests| && Inv(s, s.requests[i].key, Honesty)
    requires s.requests[i].stage.Building? || s.requests[i].stage.Working?
    requires IsRun(Apply(s, Crash(i)), steps) && Purge(s.requests[i].key) !in steps
    ensures var r := s.requests[i]; var s' := After(Apply(s, Crash(i)), steps); var n := |s'.requests|;
            && r.key in s.tables.rows && r.key in s'.tables.rows
            && (s'.tables.rows[r.key].state.Pending? ==> s'.tables.rows[r.key] == s.tables.rows[r.key])
            && IsRun(s', Inquiry(r.key, r.hash, n))
            && var asked := After(s', Inquiry(r.key, r.hash, n)).requests;
               && |asked| == n + 1
               && asked[n].stage == Refused(
                    if s'.tables.rows[r.key].state.Pending? &&
                       s'.now <= s.tables.rows[r.key].updatedAt + s.setup.windows.lease
                    then StillInProgress else ReconciliationRequired)
  {
    hide Inv, IsRun, After, Apply, ReplayOrRefuse;
    var key := s.requests[i].key;
    CrashAbandons(s, i);
    StepKeepsInv(s, Crash(i), key, Honesty);
    AbandonedForGood(Apply(s, Crash(i)), steps, i);
    var s' := After(Apply(s, Crash(i)), steps);
    HashHoldsNoColon(s, i);
    Asks(s', key, s.requests[i].hash);
  }

  lemma HashHoldsNoColon(s: System, i: nat)
    requires i < |s.requests| && Inv(s, s.requests[i].key, Honesty)
    ensures ':' !in s.requests[i].hash
  {
    hide SpendInv, HonestInv;
    FactsOf(s, i);
  }

  // A request cancelled while its chain is being saved is finished all the
  // same, whether the save or the uncertainty mark commits first.
  lemma LateSaveFinishesTheKey(s: System, i: nat)
    requires Base(s) && i < |s.requests| && s.requests[i].stage.AtSave? && HonestInv(s, s.requests[i].key)
    requires Lands(s, s.requests[i])
    ensures var cancelled := Apply(s, Cancel(i));
            && CanStep(cancelled, RunSave(i)) && CanStep(cancelled, RunCleanup(i))
            && var saved := Apply(cancelled, RunSave(i)); var marked := Apply(cancelled, RunCleanup(i));
               && CanStep(saved, RunCleanup(i)) && IsFinishedBy(s, i, Apply(saved, RunCleanup(i)).tables)
               && CanStep(marked, RunSave(i)) && IsFinishedBy(s, i, Apply(marked, RunSave(i)).tables)
  {
    hide Base, AnswerOf, CacheFacts, RowFacts, AnsweredHonestly, HonestRow;
    FactsOf(s, i);
  }

  // The draft request i was saving is stored, and its key's row names it.
  ghost predicate IsFinishedBy(s: System, i: nat, t: Tables)
    requires i < |s.requests| && s.requests[i].saving.Some?
  {
    var r, draft := s.requests[i], s.requests[i].saving.value;
    && r.key in t.rows && t.rows[r.key].state.Finished? && t.rows[r.key].chainId == Some(draft.chainId)
    && t.chains == s.tables.chains[draft.chainId := Chain(r.key.owner, r.hash, draft.verdict)]
  }

  // A request that runs undisturbed answers with its own chain, and its row
  // names that chain.
  lemma UndisturbedWorkIsAnswered(s: System, i: nat, draft: Draft)
    requires Base(s) && i < |s.requests| && s.requests[i].stage.Working? && HonestInv(s, s.requests[i].key)
    requires draft.chainId !in s.tables.chains
    ensures var saving := Apply(s, Conclude(i, draft));
            && CanStep(saving, RunSave(i))
            && var signed := Apply(saving, RunSave(i));
               && CanStep(signed, Respond(i)) && IsFinishedBy(saving, i, signed.tables)
               && var after := Apply(signed, Respond(i)); var chain := signed.tables.chains[draft.chainId];
                  && after.requests[i].stage == Answered(s.setup.wire(chain), chain, i, true)
                  && after.tables == signed.tables
  {
    hide Base, AnswerOf, CacheFacts, RowFacts, AnsweredHonestly, HonestRow;
    FactsOf(s, i);
  }

  // ---- composing runs ----

  lemma Extend(s: System, steps: seq<Step>, step: Step)
    requires IsRun(s, steps) && CanStep(After(s, steps), step)
    ensures IsRun(s, steps + [step]) && After(s, steps + [step]) == Apply(After(s, steps), step)
    decreases |steps|
  {
    if steps == [] {
      assert [step][1..] == [];
    } else {
      assert (steps + [step])[1..] == steps[1..] + [step];
      Extend(Apply(s, steps[0]), steps[1..], step);
    }
  }

  lemma {:induction false} Concat(s: System, a: seq<Step>, b: seq<Step>)
    requires IsRun(s, a) && IsRun(After(s, a), b)
    ensures IsRun(s, a + b) && After(s, a + b) == After(After(s, a), b)
    decreases |b|
  {
    hide CanStep, Apply;
    if b == [] {
      assert a + b == a;
    } else {
      Extend(s, a, b[0]);
      Concat(s, a + [b[0]], b[1..]);
      assert a + b == a + [b[0]] + b[1..];
    }
  }

  ghost predicate Leads(s: System, steps: seq<Step>, s': System) { IsRun(s, steps) && After(s, steps) == s' }

  lemma Start(s: System)
    ensures Leads(s, [], s)
  {
  }

  lemma LeadsOn(s: System, steps: seq<Step>, mid: System, step: Step)
    requires Leads(s, steps, mid) && CanStep(mid, step)
    ensures Leads(s, steps + [step], Apply(mid, step))
  {
    Extend(s, steps, step);
  }

  lemma LeadsThrough(s: System, a: seq<Step>, mid: System, b: seq<Step>, s': System)
    requires Leads(s, a, mid) && Leads(mid, b, s')
    ensures Leads(s, a + b, s')
  {
    Concat(s, a, b);
  }

  lemma LeadsOne(s: System, step: Step)
    requires CanStep(s, step)
    ensures Leads(s, [step], Apply(s, step))
  {
    assert [step][1..] == [];
  }

  function Reservation(key: Key, hash: string, i: nat): seq<Step> { [Arrive(key, hash), MissCache(i), RunInsert(i)] }

  function ReservedBy(s: System, key: Key, hash: string, stage: Stage, cleanup: Cleanup, spent: Option<nat>): System {
    s.(requests := s.requests + [Newcomer(key, hash).(stage := stage, cleanup := cleanup, spent := spent)],
       tables := Inserted(s.tables, key, hash, s.now), holder := s.holder[key := |s.requests|])
  }

  // A request that finds no row reserves the key.
  lemma Reserves(s: System, key: Key, hash: string)
    requires ':' !in hash && key !in s.tables.rows
    ensures Leads(s, Reservation(key, hash, |s.requests|), ReservedBy(s, key, hash, Building, NoCleanup, None))
  {
    hide Leads;
    var i := |s.requests|;
    Start(s);
    LeadsOn(s, [], s, Arrive(key, hash));
    var s1 := Apply(s, Arrive(key, hash));
    LeadsOn(s, [] + [Arrive(key, hash)], s1, MissCache(i));
    var s2 := Apply(s1, MissCache(i));
    LeadsOn(s, [] + [Arrive(key, hash)] + [MissCache(i)], s2, RunInsert(i));
    assert Apply(s2, RunInsert(i)).requests == s.requests + [Newcomer(key, hash).(stage := Building)];
    assert [] + [Arrive(key, hash)] + [MissCache(i)] + [RunInsert(i)] == Reservation(key, hash, i);
  }

  function Attempt(key: Key, hash: string, i: nat): seq<Step> { Reservation(key, hash, i) + [Begin(i)] }

  // And goes to work.
  lemma Proceeds(s: System, key: Key, hash: string)
    requires ':' !in hash && key !in s.tables.rows
    ensures Leads(s, Attempt(key, hash, |s.requests|),
              ReservedBy(s, key, hash, Working, NoCleanup, Some(Period(s, key))))
  {
    hide Leads;
    var i := |s.requests|;
    var held := ReservedBy(s, key, hash, Building, NoCleanup, None);
    Reserves(s, key, hash);
    LeadsOn(s, Reservation(key, hash, i), held, Begin(i));
    assert Apply(held, Begin(i)).requests ==
      s.requests + [Newcomer(key, hash).(stage := Working, spent := Some(Period(s, key)))];
  }

  // ---- a purge that does not wait: two spends ----

  lemma BuildingSpendsTwice(s: System, i: nat, hash: string)
    requires i < |s.requests| && s.requests[i].stage.Building? && s.requests[i].key !in s.tables.rows && ':' !in hash
    ensures var key := s.requests[i].key; var steps := [Begin(i)] + Attempt(key, hash, |s.requests|);
            IsRun(s, steps) && Purge(key) !in steps && !SpendsApart(After(s, steps), key)
  {
    var key := s.requests[i].key;
    var s1 := Apply(s, Begin(i));
    LeadsOne(s, Begin(i));
    Proceeds(s1, key, hash);
    var s2 := ReservedBy(s1, key, hash, Working, NoCleanup, Some(Period(s1, key)));
    LeadsThrough(s, [Begin(i)], s1, Attempt(key, hash, |s.requests|), s2);
    assert s2.requests[i].spent == s2.requests[|s.requests|].spent == Some(Period(s, key));
  }

  // A release acts on the key alone, whoever's row is under it.
  lemma StaleRelease(s: System, i: nat)
    requires i < |s.requests| && s.requests[i].cleanup.Releasing?
    requires s.requests[i].key in s.tables.rows && s.tables.rows[s.requests[i].key].state.Pending?
    ensures CanStep(s, RunCleanup(i))
    ensures var s' := Apply(s, RunCleanup(i));
            && s.requests[i].key !in s'.tables.rows && |s'.requests| == |s.requests| && s'.purges == s.purges
            && forall j :: 0 <= j < |s.requests| && j != i ==> s'.requests[j] == s.requests[j]
  {
  }

  // The next holder of the key is at work when a stale release frees its row.
  function Robbed(s: System, i: nat, hash: string): System
    requires i < |s.requests| && s.requests[i].cleanup.Releasing?
  {
    AfterCleanup(ReservedBy(s, s.requests[i].key, hash, Working, NoCleanup, Some(Period(s, s.requests[i].key))), i,
                 s.requests[i])
  }

  lemma Robs(s: System, i: nat, hash: string)
    requires i < |s.requests| && s.requests[i].cleanup.Releasing? && s.requests[i].key !in s.tables.rows && ':' !in hash
    ensures var key := s.requests[i].key; var n := |s.requests|; var s' := Robbed(s, i, hash);
            && Leads(s, Attempt(key, hash, n) + [RunCleanup(i)], s')
            && key !in s'.tables.rows && |s'.requests| == n + 1 && Period(s', key) == Period(s, key)
            && s'.requests[n] == Newcomer(key, hash).(stage := Working, spent := Some(Period(s, key)))
  {
    hide Leads;
    var key, n := s.requests[i].key, |s.requests|;
    Proceeds(s, key, hash);
    var s1 := ReservedBy(s, key, hash, Working, NoCleanup, Some(Period(s, key)));
    StaleRelease(s1, i);
    LeadsOn(s, Attempt(key, hash, n), s1, RunCleanup(i));
  }

  lemma ReleasingSpendsTwice(s: System, i: nat, hash: string)
    requires i < |s.requests| && s.requests[i].cleanup.Releasing? && s.requests[i].key !in s.tables.rows && ':' !in hash
    ensures var key := s.requests[i].key; var n := |s.requests|;
            var steps := Attempt(key, hash, n) + [RunCleanup(i)] + Attempt(key, hash, n + 1);
            IsRun(s, steps) && Purge(key) !in steps && !SpendsApart(After(s, steps), key)
  {
    hide Leads, Robbed, IsRun, After, Attempt, ReservedBy, SpendsApart;
    var key, n := s.requests[i].key, |s.requests|;
    AttemptsPurgeNothing(key, hash, n);
    AttemptsPurgeNothing(key, hash, n + 1);
    Robs(s, i, hash);
    var s2 := Robbed(s, i, hash);
    Proceeds(s2, key, hash);
    var s3 := ReservedBy(s2, key, hash, Working, NoCleanup, Some(Period(s2, key)));
    LeadsThrough(s, Attempt(key, hash, n) + [RunCleanup(i)], s2, Attempt(key, hash, n + 1), s3);
    LeadsMeans(s, Attempt(key, hash, n) + [RunCleanup(i)] + Attempt(key, hash, n + 1), s3);
    TwoSpends(s2, key, hash, n);
  }

  lemma AttemptsPurgeNothing(key: Key, hash: string, i: nat)
    ensures Purge(key) !in Attempt(key, hash, i)
  {
  }

  lemma TwoSpends(s: System, key: Key, hash: string, i: nat)
    requires i < |s.requests| && s.requests[i].key == key && s.requests[i].spent == Some(Period(s, key))
    ensures !SpendsApart(ReservedBy(s, key, hash, Working, NoCleanup, Some(Period(s, key))), key)
  {
    var s' := ReservedBy(s, key, hash, Working, NoCleanup, Some(Period(s, key)));
    assert s'.requests[i].spent == s'.requests[|s.requests|].spent == Some(Period(s, key));
  }

  lemma LeadsMeans(s: System, steps: seq<Step>, s': System)
    requires Leads(s, steps, s')
    ensures IsRun(s, steps) && After(s, steps) == s'
  {
  }

  // ---- a purge that does not wait: an answer to another body ----

  function Inquiry(key: Key, hash: string, i: nat): seq<Step> { Reservation(key, hash, i) + [RunRead(i)] }

  // A request that finds a row under its key ends as the row decides, and
  // changes no table.
  lemma Asks(s: System, key: Key, hash: string)
    requires ':' !in hash && key in s.tables.rows
    ensures var n := |s.requests|;
            IsRun(s, Inquiry(key, hash, n)) &&
            var s' := After(s, Inquiry(key, hash, n)); var row := s.tables.rows[key];
            && |s'.requests| == n + 1 && s'.requests[n].key == key && s'.requests[n].hash == hash
            && s'.tables == s.tables
            && s'.requests[n].stage ==
                 match ReplayOrRefuse(row, s.tables, hash, key.owner, s.now, s.setup.windows.lease)
                 case Answer(chain) => Answered(s.setup.wire(chain), chain, HolderOf(s', key), false)
                 case Refuse(why) => Refused(why)
  {
    hide Leads, ReplayOrRefuse;
    var n := |s.requests|;
    Start(s);
    LeadsOn(s, [], s, Arrive(key, hash));
    var s1 := Apply(s, Arrive(key, hash));
    LeadsOn(s, [] + [Arrive(key, hash)], s1, MissCache(n));
    var s2 := Apply(s1, MissCache(n));
    LeadsOn(s, [] + [Arrive(key, hash)] + [MissCache(n)], s2, RunInsert(n));
    var s3 := Apply(s2, RunInsert(n));
    assert s3.requests == s.requests + [Newcomer(key, hash).(stage := AtReserve, claim := Reading)];
    LeadsOn(s, [] + [Arrive(key, hash)] + [MissCache(n)] + [RunInsert(n)], s3, RunRead(n));
    assert [] + [Arrive(key, hash)] + [MissCache(n)] + [RunInsert(n)] + [RunRead(n)] == Inquiry(key, hash, n);
    LeadsMeans(s, Inquiry(key, hash, n), Apply(s3, RunRead(n)));
  }

  // A request that finds a finished row under its own hash is answered with the
  // chain the row names, whatever that chain answers.
  lemma Inquires(s: System, key: Key, hash: string)
    requires ':' !in hash && key in s.tables.rows && s.tables.rows[key].state.Finished?
    requires s.tables.rows[key].requestHash == hash && NamesAChain(s.tables, key)
    ensures var n := |s.requests|; var chain := s.tables.chains[s.tables.rows[key].chainId.value];
            IsRun(s, Inquiry(key, hash, n)) &&
            var s' := After(s, Inquiry(key, hash, n));
            && |s'.requests| == n + 1 && s'.requests[n].key == key && s'.requests[n].hash == hash
            && s'.requests[n].stage.Answered? && s'.requests[n].stage.chain == chain && s'.tables == s.tables
  {
    hide IsRun, After;
    Asks(s, key, hash);
  }

  // A save lands in whatever row stands under its key.
  lemma StaleSave(s: System, i: nat)
    requires i < |s.requests| && Lands(s, s.requests[i]) && s.requests[i].key in s.tables.rows
    ensures CanStep(s, RunSave(i))
    ensures var s' := Apply(s, RunSave(i)); var r := s.requests[i]; var chainId := r.saving.value.chainId;
            && |s'.requests| == |s.requests| && r.key in s'.tables.rows && s'.tables.rows[r.key].state.Finished?
            && s'.tables.rows[r.key].requestHash == s.tables.rows[r.key].requestHash
            && s'.tables.rows[r.key].chainId == Some(chainId) && chainId in s'.tables.chains
            && s'.tables.chains[chainId] == Chain(r.key.owner, r.hash, r.saving.value.verdict)
  {
  }

  function Misleading(key: Key, hash: string, i: nat, n: nat): seq<Step> {
    Reservation(key, hash, n) + [RunSave(i)] + Inquiry(key, hash, n + 1)
  }

  lemma LandingMisleads(s: System, i: nat, hash: string)
    requires i < |s.requests| && Lands(s, s.requests[i]) && s.requests[i].key !in s.tables.rows
    requires ':' !in hash && hash != s.requests[i].hash
    ensures var key := s.requests[i].key; var steps := Misleading(key, hash, i, |s.requests|);
            IsRun(s, steps) && Purge(key) !in steps && !AnswersFit(After(s, steps), key) &&
            var s' := After(s, steps); var n := |s.requests| + 1;
            && |s'.requests| == n + 1 && s'.requests[n].key == key && s'.requests[n].hash == hash
            && s'.requests[n].stage.Answered? && s'.requests[n].stage.chain.requestHash == s.requests[i].hash
            && key in s'.tables.rows && s'.tables.rows[key].requestHash == hash
  {
    hide Leads, IsRun, After;
    var key, n := s.requests[i].key, |s.requests|;
    Reserves(s, key, hash);
    var s1 := ReservedBy(s, key, hash, Building, NoCleanup, None);
    StaleSave(s1, i);
    LeadsOn(s, Reservation(key, hash, n), s1, RunSave(i));
    var s2 := Apply(s1, RunSave(i));
    Inquires(s2, key, hash);
    LeadsMeans(s, Reservation(key, hash, n) + [RunSave(i)], s2);
    Concat(s, Reservation(key, hash, n) + [RunSave(i)], Inquiry(key, hash, n + 1));
  }

  // Some chain id is not taken yet.
  lemma NewId(taken: set<string>) returns (id: string)
    ensures id != "" && id !in taken && forall t :: t in taken ==> |t| < |id|
  {
    if taken == {} {
      id := "chain";
    } else {
      var t :| t in taken;
      var longer := NewId(taken - {t});
      id := longer + t;
      assert |id| >= |longer| && |id| > |t|;
      forall u | u in taken ensures |u| < |id| {
        if u != t { assert u in taken - {t}; }
      }
    }
  }

  lemma WorkingMisleads(s: System, i: nat, hash: string) returns (steps: seq<Step>)
    requires i < |s.requests| && s.requests[i].stage.Working? && s.requests[i].key !in s.tables.rows
    requires ':' !in hash && hash != s.requests[i].hash
    ensures IsRun(s, steps) && Purge(s.requests[i].key) !in steps && !AnswersFit(After(s, steps), s.requests[i].key)
  {
    var id := NewId(s.tables.chains.Keys);
    var draft := Draft(id, "verdict");
    var s1 := Apply(s, Conclude(i, draft));
    LeadsOne(s, Conclude(i, draft));
    LandingMisleads(s1, i, hash);
    var rest := Misleading(s.requests[i].key, hash, i, |s.requests|);
    Concat(s, [Conclude(i, draft)], rest);
    steps := [Conclude(i, draft)] + rest;
  }

  lemma BuildingMisleads(s: System, i: nat, hash: string) returns (steps: seq<Step>)
    requires i < |s.requests| && s.requests[i].stage.Building? && s.requests[i].key !in s.tables.rows
    requires ':' !in hash && hash != s.requests[i].hash
    ensures IsRun(s, steps) && Purge(s.requests[i].key) !in steps && !AnswersFit(After(s, steps), s.requests[i].key)
  {
    var s1 := Apply(s, Begin(i));
    LeadsOne(s, Begin(i));
    var rest := WorkingMisleads(s1, i, hash);
    Concat(s, [Begin(i)], rest);
    steps := [Begin(i)] + rest;
  }

  lemma ReleasingMisleads(s: System, i: nat) returns (steps: seq<Step>)
    requires i < |s.requests| && s.requests[i].cleanup.Releasing? && s.requests[i].key !in s.tables.rows
    ensures IsRun(s, steps) && Purge(s.requests[i].key) !in steps && !AnswersFit(After(s, steps), s.requests[i].key)
  {
    hide Leads, Robbed;
    var key, n := s.requests[i].key, |s.requests|;
    Robs(s, i, "a");
    var s2 := Robbed(s, i, "a");
    var rest := WorkingMisleads(s2, n, "b");
    LeadsMeans(s, Attempt(key, "a", n) + [RunCleanup(i)], s2);
    Concat(s, Attempt(key, "a", n) + [RunCleanup(i)], rest);
    steps := Attempt(key, "a", n) + [RunCleanup(i)] + rest;
  }

  // ---- exactly when a purge is safe ----

  // From any state at all, a purge that meets a request in the way leads on to
  // a broken promise, without a further purge.
  lemma PurgeTooSoonBreaksThePromise(s: System, key: Key, promise: Promise) returns (steps: seq<Step>)
    requires CanStep(s, Purge(key)) && !IsClear(s, key, promise)
    ensures var s' := Apply(s, Purge(key));
            IsRun(s', steps) && Purge(key) !in steps && !IsKept(After(s', steps), key, promise)
  {
    var s' := Apply(s, Purge(key));
    var i :| 0 <= i < |s.requests| && s.requests[i].key == key && IsInTheWay(s, s.requests[i], promise);
    assert s'.requests == s.requests && key !in s'.tables.rows;
    var r := s.requests[i];
    if promise.OneSpend? {
      if r.stage.Building? {
        BuildingSpendsTwice(s', i, "a");
        steps := [Begin(i)] + Attempt(key, "a", |s.requests|);
      } else {
        ReleasingSpendsTwice(s', i, "a");
        steps := Attempt(key, "a", |s.requests|) + [RunCleanup(i)] + Attempt(key, "a", |s.requests| + 1);
      }
    } else {
      var other := if r.hash == "a" then "b" else "a";
      if r.stage.Building? {
        steps := BuildingMisleads(s', i, other);
      } else if r.cleanup.Releasing? {
        steps := ReleasingMisleads(s', i);
      } else if r.stage.Working? {
        steps := WorkingMisleads(s', i, other);
      } else {
        LandingMisleads(s', i, other);
        steps := Misleading(key, other, i, |s.requests|);
      }
    }
  }

  ghost predicate KeepsOn(s: System, key: Key, promise: Promise) {
    forall steps :: IsRun(s, steps) && IsPatientRun(s, steps, key, promise) ==> IsKept(After(s, steps), key, promise)
  }

  // Purging a key is safe exactly when no request under it is in the way:
  // exactly then every run that follows, itself patient with this key, keeps the
  // promise.
  lemma PurgeIsSafeExactlyWhenClear(s: System, key: Key, promise: Promise)
    requires Inv(s, key, promise) && CanStep(s, Purge(key))
    ensures KeepsOn(Apply(s, Purge(key)), key, promise) <==> IsClear(s, key, promise)
  {
    hide Inv, IsKept, IsClear, CanStep, Apply, IsRun, After;
    var s' := Apply(s, Purge(key));
    if IsClear(s, key, promise) {
      StepKeepsInv(s, Purge(key), key, promise);
      forall steps | IsRun(s', steps) && IsPatientRun(s', steps, key, promise)
        ensures IsKept(After(s', steps), key, promise)
      {
        RunKeepsInv(s', steps, key, promise);
        InvKeepsPromise(After(s', steps), key, promise);
      }
    } else {
      var steps := PurgeTooSoonBreaksThePromise(s, key, promise);
      NoPurgeIsPatient(s', steps, key, promise);
    }
  }

  // ---- two such runs ----

  // A reservation whose release never gets to run, until the row is purged.
  function StalledRelease(key: Key, hash: string, wait: real): seq<Step> {
    Reservation(key, hash, 0) + [FailToBuild(0)] + [Tick(wait)] + [Purge(key)]
  }

  lemma FirstStalls(setup: Setup, key: Key, hash: string, wait: real)
    requires ':' !in hash && 0.0 <= wait && setup.windows.settled < wait
    ensures Leads(Initial(setup), StalledRelease(key, hash, wait),
              System(setup, Tables(map[], map[]), map[],
                [Newcomer(key, hash).(stage := AtRelease, cleanup := Releasing)], wait, map[], map[key := 1]))
  {
    hide Leads;
    var s := Initial(setup);
    var held := ReservedBy(s, key, hash, Building, NoCleanup, None);
    Reserves(s, key, hash);
    LeadsOn(s, Reservation(key, hash, 0), held, FailToBuild(0));
    var s1 := Apply(held, FailToBuild(0));
    LeadsOn(s, Reservation(key, hash, 0) + [FailToBuild(0)], s1, Tick(wait));
    var s2 := Apply(s1, Tick(wait));
    assert s2.tables.rows == map[key := Operation(hash, Pending, None, 0.0)];
    LeadsOn(s, Reservation(key, hash, 0) + [FailToBuild(0)] + [Tick(wait)], s2, Purge(key));
    var s3 := Apply(s2, Purge(key));
    assert s3.requests == [Newcomer(key, hash).(stage := AtRelease, cleanup := Releasing)];
    assert s3.tables.rows == map[] && s3.holder == map[];
  }

  // With an impatient purge the key is spent twice in one retention.
  lemma StalledReleaseSpendsTwice(setup: Setup, key: Key, hash: string, wait: real)
    requires ':' !in hash && 0.0 <= wait && setup.windows.settled < wait
    ensures var steps := StalledRelease(key, hash, wait) + Attempt(key, hash, 1) + [RunCleanup(0)] +
              Attempt(key, hash, 2);
            IsRun(Initial(setup), steps) && !SpendsApart(After(Initial(setup), steps), key)
  {
    hide IsRun, After, Apply, CanStep, SpendsApart;
    FirstStalls(setup, key, hash, wait);
    var s := After(Initial(setup), StalledRelease(key, hash, wait));
    ReleasingSpendsTwice(s, 0, hash);
    var rest := Attempt(key, hash, 1) + [RunCleanup(0)] + Attempt(key, hash, 2);
    Concat(Initial(setup), StalledRelease(key, hash, wait), rest);
    assert StalledRelease(key, hash, wait) + rest ==
      StalledRelease(key, hash, wait) + Attempt(key, hash, 1) + [RunCleanup(0)] + Attempt(key, hash, 2);
  }

  // Work that outlives the retention of its row, and is then concluded.
  function LateWork(key: Key, hash: string, wait: real, draft: Draft): seq<Step> {
    Attempt(key, hash, 0) + [Tick(wait)] + [Purge(key)] + [Conclude(0, draft)]
  }

  lemma FirstIsLate(setup: Setup, key: Key, hash: string, wait: real, draft: Draft)
    requires ':' !in hash && 0.0 <= wait && setup.windows.settled < wait
    ensures Leads(Initial(setup), LateWork(key, hash, wait, draft),
              System(setup, Tables(map[], map[]), map[],
                [Newcomer(key, hash).(stage := AtSave, spent := Some(0), saving := Some(draft))],
                wait, map[], map[key := 1]))
  {
    hide Leads;
    var s := Initial(setup);
    var s0 := ReservedBy(s, key, hash, Working, NoCleanup, Some(0));
    Proceeds(s, key, hash);
    LeadsOn(s, Attempt(key, hash, 0), s0, Tick(wait));
    var s1 := Apply(s0, Tick(wait));
    assert s1.tables.rows == map[key := Operation(hash, Pending, None, 0.0)];
    LeadsOn(s, Attempt(key, hash, 0) + [Tick(wait)], s1, Purge(key));
    var s2 := Apply(s1, Purge(key));
    assert s2.tables.rows == map[] && s2.holder == map[];
    LeadsOn(s, Attempt(key, hash, 0) + [Tick(wait)] + [Purge(key)], s2, Conclude(0, draft));
    assert Apply(s2, Conclude(0, draft)).requests ==
      [Newcomer(key, hash).(stage := AtSave, spent := Some(0), saving := Some(draft))];
  }

  // The chain of the first request finishes the row of the second, which asked
  // something else; and a third, asking what the second asked, is answered with
  // the first one's chain.
  lemma LateSaveAnswersAnotherBody(setup: Setup, key: Key, first: string, second: string, wait: real, draft: Draft)
    requires ':' !in first && ':' !in second && first != second && 0.0 <= wait && setup.windows.settled < wait
    ensures var steps := LateWork(key, first, wait, draft) + Misleading(key, second, 0, 1);
            IsRun(Initial(setup), steps) &&
            var s := After(Initial(setup), steps);
            && |s.requests| == 3 && s.requests[2].key == key && s.requests[2].hash == second
            && s.requests[2].stage.Answered? && s.requests[2].stage.chain.requestHash == first
            && key in s.tables.rows && s.tables.rows[key].requestHash == second
  {
    hide IsRun, After, Apply, CanStep;
    FirstIsLate(setup, key, first, wait, draft);
    var s := After(Initial(setup), LateWork(key, first, wait, draft));
    LandingMisleads(s, 0, second);
    Concat(Initial(setup), LateWork(key, first, wait, draft), Misleading(key, second, 0, 1));
  }
}
