// app/db/operations.py and app/db/store.py: the durable rows behind an
// idempotency key, and the signed chains they name.
//
// Each session block of the source is one atomic transaction. Every
// transaction is a function on the stored tables; the Database methods are
// proved equal to those functions, and the protocol runs on the functions.

module Operations {
  import opened Domain

  // The caller's key is held as a digest, which is injective for the model.
  datatype Key = Key(owner: string, digest: string)

  datatype State = Pending | Finished | Uncertain

  datatype Operation = Operation(requestHash: string, state: State, chainId: Option<string>, updatedAt: real)

  datatype Chain = Chain(owner: string, requestHash: string, verdict: string)

  datatype Tables = Tables(rows: map<Key, Operation>, chains: map<string, Chain>)

  datatype Windows = Windows(lease: real, settled: real, unresolved: real)

  // A pending row nobody is working on any more.
  predicate IsOrphaned(op: Operation, now: real, lease: real) {
    op.state.Pending? && now - op.updatedAt > lease
  }

  // Past its retention window; an uncertain row has its own, longer one.
  predicate IsExpired(op: Operation, now: real, windows: Windows) {
    op.updatedAt < now - (if op.state.Uncertain? then windows.unresolved else windows.settled)
  }

  // ---- the transactions ----

  function Inserted(t: Tables, key: Key, requestHash: string, now: real): Tables {
    if key in t.rows then t
    else t.(rows := t.rows[key := Operation(requestHash, Pending, None, now)])
  }

  function Released(t: Tables, key: Key): Tables {
    if key in t.rows && t.rows[key].state.Pending? then t.(rows := t.rows - {key}) else t
  }

  function MarkedUncertain(t: Tables, key: Key, now: real): Tables {
    if key in t.rows && t.rows[key].state.Pending? then
      t.(rows := t.rows[key := t.rows[key].(state := Uncertain, updatedAt := now)])
    else t
  }

  // The chain and the completion of its key commit together, or neither does.
  function Saved(t: Tables, chainId: string, chain: Chain, key: Option<Key>, now: real): Tables {
    if chainId in t.chains then t
    else
      Tables(
        if key.Some? && key.value in t.rows then
          t.rows[key.value := t.rows[key.value].(state := Finished, chainId := Some(chainId), updatedAt := now)]
        else t.rows,
        t.chains[chainId := chain])
  }

  function Blocking(t: Tables, key: Key, requestHash: string, now: real): (op: Operation)
    ensures key in t.rows ==> op == t.rows[key]
    ensures key !in t.rows ==> op.requestHash == requestHash && op.state.Pending? && op.updatedAt == now
  {
    if key in t.rows then t.rows[key] else Operation(requestHash, Pending, None, now)
  }

  function Purged(t: Tables, gone: set<Key>): Tables { t.(rows := t.rows - gone) }

  // ---- what holds of every transaction ----

  // A chain, once stored, is stored for good and unaltered.
  ghost predicate ChainsKept(before: Tables, after: Tables) {
    forall c :: c in before.chains ==> c in after.chains && after.chains[c] == before.chains[c]
  }

  // A finished row survives everything but a purge or another save under its key.
  ghost predicate FinishedKept(before: Tables, after: Tables, key: Key) {
    key in before.rows && before.rows[key].state.Finished? ==> key in after.rows && after.rows[key] == before.rows[key]
  }

  // Completion and uncertainty commute to completion: whichever of a save and
  // the uncertainty mark of its own request commits last, the row names the
  // chain.
  lemma SaveWinsOverUncertainty(t: Tables, key: Key, chainId: string, chain: Chain, early: real, late: real)
    requires key in t.rows && t.rows[key].state.Pending? && chainId !in t.chains
    ensures var markedFirst := Saved(MarkedUncertain(t, key, early), chainId, chain, Some(key), late);
            var savedFirst := MarkedUncertain(Saved(t, chainId, chain, Some(key), early), key, late);
            && markedFirst.chains == savedFirst.chains == t.chains[chainId := chain]
            && markedFirst.rows[key] == Operation(t.rows[key].requestHash, Finished, Some(chainId), late)
            && savedFirst.rows[key] == Operation(t.rows[key].requestHash, Finished, Some(chainId), early)
            && markedFirst.rows - {key} == savedFirst.rows - {key} == t.rows - {key}
  {
  }

  // Of the transactions, only release frees a key for another attempt, and it
  // frees only a row still pending.
  lemma OnlyReleaseFrees(t: Tables, key: Key, other: Key, chainId: string, chain: Chain, hash: string, now: real)
    requires key in t.rows
    ensures key in Inserted(t, other, hash, now).rows && key in MarkedUncertain(t, other, now).rows
    ensures key in Saved(t, chainId, chain, Some(other), now).rows
    ensures key !in Released(t, other).rows <==> key == other && t.rows[key].state.Pending?
    ensures FinishedKept(t, Inserted(t, other, hash, now), key) && FinishedKept(t, MarkedUncertain(t, other, now), key)
    ensures FinishedKept(t, Released(t, other), key)
    ensures ChainsKept(t, Saved(t, chainId, chain, Some(other), now))
  {
  }

  // ---- the store ----

  class Database {
    var rows: map<Key, Operation>
    var chains: map<string, Chain>

    ghost function Contents(): Tables
      reads this
    {
      Tables(rows, chains)
    }

    constructor ()
      ensures Contents() == Tables(map[], map[])
    {
      rows, chains := map[], map[];
    }

    // One insert attempt; the primary key decides the race.
    method Insert(key: Key, requestHash: string, now: real) returns (claimed: bool)
      modifies this
      ensures Contents() == Inserted(old(Contents()), key, requestHash, now)
      ensures claimed <==> key !in old(rows)
    {
      if key in rows { return false; }
      rows := rows[key := Operation(requestHash, Pending, None, now)];
      claimed := true;
    }

    // What a refused insert finds on reading back. Another request may have
    // released the row in between, which is reported as still in progress.
    method Existing(key: Key, requestHash: string, now: real) returns (existing: Operation)
      ensures existing == Blocking(Contents(), key, requestHash, now)
    {
      if key in rows { return rows[key]; }
      existing := Operation(requestHash, Pending, None, now);
    }

    method Release(key: Key) returns (freed: bool)
      modifies this
      ensures Contents() == Released(old(Contents()), key)
      ensures freed <==> key in old(rows) && key !in rows
    {
      if key !in rows || !rows[key].state.Pending? { return false; }
      rows := rows - {key};
      freed := true;
    }

    method MarkUncertain(key: Key, now: real)
      modifies this
      ensures Contents() == MarkedUncertain(old(Contents()), key, now)
    {
      if key !in rows || !rows[key].state.Pending? { return; }
      rows := rows[key := rows[key].(state := Uncertain, updatedAt := now)];
    }

    // Sign and store a verdict, completing the reservation it answers.
    method Save(owner: string, requestHash: string, verdict: string, chainId: string, operation: Option<Key>, now: real)
      returns (stored: Option<Chain>)
      modifies this
      ensures Contents() == Saved(old(Contents()), chainId, Chain(owner, requestHash, verdict), operation, now)
      ensures stored.Some? <==> chainId !in old(chains)
      ensures stored.Some? ==> stored.value == chains[chainId] == Chain(owner, requestHash, verdict)
    {
      var chain := Chain(owner, requestHash, verdict);
      if chainId in chains { return None; }
      chains := chains[chainId := chain];
      if operation.Some? {
        if operation.value in rows {
          var row := rows[operation.value];
          rows := rows[operation.value := row.(state := Finished, chainId := Some(chainId), updatedAt := now)];
        }
      }
      stored := Some(chain);
    }

    // A chain, to its own owner only.
    method Get(chainId: string, owner: string) returns (chain: Option<Chain>)
      ensures chain == Readable(Contents(), chainId, owner)
    {
      if chainId in chains && chains[chainId].owner == owner { return Some(chains[chainId]); }
      chain := None;
    }

    // Drop up to a batch of expired rows, whichever the store yields first.
    method PurgeExpired(now: real, windows: Windows, batch: nat) returns (gone: set<Key>)
      modifies this
      ensures Contents() == Purged(old(Contents()), gone)
      ensures forall k :: k in gone ==> k in old(rows)
      ensures forall k :: k in gone ==>
        now > old(rows)[k].updatedAt + (if old(rows)[k].state == Uncertain then windows.unresolved else windows.settled)
      ensures |gone| <= batch
      ensures |gone| < batch ==> forall k :: k in rows ==>
        now <= rows[k].updatedAt + (if rows[k].state == Uncertain then windows.unresolved else windows.settled)
    {
      gone := {};
      var due := set k | k in rows && IsExpired(rows[k], now, windows);
      while due != {} && |gone| < batch
        invariant |gone| <= batch && gone !! due
        invariant forall k :: k in gone || k in due <==> k in rows && IsExpired(rows[k], now, windows)
        decreases due
      {
        var k :| k in due;
        gone, due := gone + {k}, due - {k};
      }
      rows := rows - gone;
    }
  }

  function Readable(t: Tables, chainId: string, owner: string): (chain: Option<Chain>)
    ensures chain.Some? <==> chainId in t.chains && t.chains[chainId].owner == owner
    ensures chain.Some? ==> chain.value == t.chains[chainId]
  {
    if chainId in t.chains && t.chains[chainId].owner == owner then Some(t.chains[chainId]) else None
  }
}
