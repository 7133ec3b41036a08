// app/cache.py: the process-local cache in front of the durable rows.
//
// The Python dictionary keeps insertion order, which decides who is evicted;
// the model keeps the order beside the map. The ghost record of writes says
// what a read may return.

module Caches {
  import opened Domain

  // An expiry of zero is no expiry.
  datatype Entry = Entry(value: string, expiresAt: real)

  predicate IsReadable(e: Entry, now: real) { e.expiresAt == 0.0 || now <= e.expiresAt }

  predicate IsPurgeable(e: Entry, now: real) { e.expiresAt != 0.0 && e.expiresAt <= now }

  // Reading and purging disagree at one instant only: the expiry itself, at
  // which an entry may still be read and may already be purged.
  lemma ReadAndPurgeMeetAtExpiry(e: Entry, now: real)
    ensures IsReadable(e, now) && IsPurgeable(e, now) <==> e.expiresAt == now != 0.0
    ensures !IsReadable(e, now) <==> 0.0 != e.expiresAt < now
    ensures !IsPurgeable(e, now) <==> e.expiresAt == 0.0 || now < e.expiresAt
  {
  }

  datatype Claim = Claimed | Taken | Full

  class InMemoryCache {
    var entries: map<string, Entry>
    var order: seq<string>
    const maxEntries: nat

    ghost var written: map<string, Entry>  // the last write under each key

    ghost predicate Valid()
      reads this
    {
      && Distinct(order) && (forall k :: k in order <==> k in entries)
      && |order| <= Limit()
      && (forall k :: k in entries ==> k in written && written[k] == entries[k])
    }

    // A cache with no room still holds the last value set.
    function Limit(): nat { if maxEntries == 0 then 1 else maxEntries }

    constructor (maxEntries: nat)
      ensures Valid() && entries == map[] && this.maxEntries == maxEntries
    {
      entries, order, written := map[], [], map[];
      this.maxEntries := maxEntries;
    }

    // What a read of this key gives now.
    ghost function Peek(key: string, now: real): Option<string>
      reads this
    {
      if key in entries && IsReadable(entries[key], now) then Some(entries[key].value) else None
    }

    // A read returns the last value written under the key, unexpired, or
    // nothing; it changes what no other read returns.
    method Get(key: string, now: real) returns (value: Option<string>)
      requires Valid()
      modifies this`entries, this`order
      ensures Valid() && value == old(Peek(key, now))
      ensures value.Some? ==> key in written && value.value == written[key].value && IsReadable(written[key], now)
      ensures value.Some? ==> key in entries
      ensures value.None? ==> key !in entries
      ensures forall k :: k != key ==> (k in entries <==> k in old(entries))
      ensures forall k :: k != key && k in entries ==> entries[k] == old(entries)[k]
      ensures value.Some? ==> entries == old(entries)
    {
      if key !in entries { return None; }
      if !IsReadable(entries[key], now) {
        Remove(key);
        return None;
      }
      value := Some(entries[key].value);
    }

    method Remove(key: string)
      requires Valid() && key in entries
      modifies this`entries, this`order
      ensures Valid() && entries == old(entries) - {key} && |order| == |old(order)| - 1
    {
      ghost var i := PositionOf(key);
      DropAt(order, i);
      var j := 0;
      while order[j] != key
        invariant 0 <= j <= i < |order| && order[i] == key
        decreases i - j
      {
        j := j + 1;
      }
      assert j == i;
      entries := entries - {key};
      order := order[..j] + order[j + 1..];
    }

    lemma OneEach()
      requires Valid()
      ensures |order| == |entries.Keys|
    {
      Counted(order, entries.Keys);
    }

    lemma PositionOf(key: string) returns (i: nat)
      requires Valid() && key in entries
      ensures i < |order| && order[i] == key
    {
      assert key in order;
      i :| i < |order| && order[i] == key;
    }

    // Drop everything past its expiry; say whether anything was.
    method PurgeExpired(now: real) returns (any: bool)
      requires Valid()
      modifies this`entries, this`order
      ensures Valid()
      ensures entries == map k | k in old(entries) && !IsPurgeable(old(entries)[k], now) :: old(entries)[k]
      ensures any <==> |order| < |old(order)|
      ensures any <==> exists k :: k in old(entries) && IsPurgeable(old(entries)[k], now)
      ensures !any ==> order == old(order)
    {
      any := false;
      ghost var before := entries;
      var left := set k | k in entries && IsPurgeable(entries[k], now);
      while left != {}
        invariant Valid() && left <= entries.Keys
        invariant forall k :: k in entries <==> k in before && (k in left || !IsPurgeable(before[k], now))
        invariant forall k :: k in entries ==> entries[k] == before[k]
        invariant any <==> |order| < |old(order)|
        invariant any || left != {} <==> exists k :: k in before && IsPurgeable(before[k], now)
        invariant !any ==> order == old(order) && entries == before
        invariant |order| <= |old(order)|
        decreases left
      {
        var k :| k in left;
        left := left - {k};
        Remove(k);
        any := true;
      }
    }

    // Make room: what has expired, else the oldest inserted.
    method Evict(now: real)
      requires Valid()
      modifies this`entries, this`order
      ensures Valid() && |order| <= (if |old(order)| == 0 then 0 else |old(order)| - 1)
      ensures forall k :: k in entries ==> k in old(entries) && entries[k] == old(entries)[k]
      ensures forall k :: k in old(entries) && k !in entries ==>
        IsPurgeable(old(entries)[k], now) ||
        (k == old(order)[0] && forall j :: j in old(entries) ==> !IsPurgeable(old(entries)[j], now))
    {
      var any := PurgeExpired(now);
      if !any && order != [] { Remove(order[0]); }
    }

    // Write a value, displacing at most what eviction gives up.
    method Set(key: string, value: string, ttl: real, now: real)
      requires Valid() && now > 0.0 && ttl >= 0.0
      modifies this`entries, this`order, this`written
      ensures Valid() && key in entries && IsReadableFor(key, value, ttl, now)
      ensures written == old(written)[key := entries[key]]
      ensures |order| <= (if maxEntries == 0 then 1 else maxEntries)
      ensures forall k :: k in entries && k != key ==> k in old(entries) && entries[k] == old(entries)[k]
      ensures key in old(entries) || |old(order)| < maxEntries ==>
        forall k :: k in old(entries) && k != key ==> k in entries
    {
      if key !in entries {
        if |order| >= maxEntries { Evict(now); }
        Append(key, Entry(value, ExpiryOf(ttl, now)));
      } else {
        entries := entries[key := Entry(value, ExpiryOf(ttl, now))];
        written := written[key := Entry(value, ExpiryOf(ttl, now))];
      }
    }

    // The value is what the key reads as until its time to live is over, and for
    // good if that is zero.
    ghost predicate IsReadableFor(key: string, value: string, ttl: real, now: real)
      reads this
    {
      forall t :: now <= t ==> Peek(key, t) == if ttl == 0.0 || t <= now + ttl then Some(value) else None
    }

    function ExpiryOf(ttl: real, now: real): real { if ttl == 0.0 then 0.0 else now + ttl }

    method Append(key: string, e: Entry)
      requires Valid() && key !in entries && |order| < Limit()
      modifies this`entries, this`order, this`written
      ensures Valid() && entries == old(entries)[key := e] && order == old(order) + [key]
      ensures written == old(written)[key := e]
    {
      entries, order, written := entries[key := e], order + [key], written[key := e];
    }

    // Reserve a key. Never at the price of an entry that can still be read,
    // unless it is expiring this very instant.
    method SetIfAbsent(key: string, value: string, ttl: real, now: real) returns (claim: Claim)
      requires Valid() && now > 0.0 && ttl >= 0.0
      modifies this`entries, this`order, this`written
      ensures Valid()
      ensures claim.Taken? <==> old(Peek(key, now)).Some?
      ensures claim.Claimed? ==> key in entries && IsReadableFor(key, value, ttl, now)
      ensures claim.Claimed? ==> written == old(written)[key := entries[key]]
      ensures claim.Full? <==>
        old(Peek(key, now)).None? &&
        |set k | k in old(entries) && !IsPurgeable(old(entries)[k], now)| >= maxEntries
      ensures claim.Taken? ==> entries == old(entries)
      ensures forall k :: k in old(entries) && k != key && !IsPurgeable(old(entries)[k], now) ==>
        k in entries && entries[k] == old(entries)[k]
      ensures forall k :: k in entries && k != key ==> k in old(entries) && entries[k] == old(entries)[k]
      ensures claim.Full? ==> key !in entries
      ensures !claim.Claimed? ==> written == old(written)
    {
      var present := Get(key, now);
      if present.Some? { return Taken; }
      var any := PurgeExpired(now);
      assert entries.Keys == set k | k in old(entries) && !IsPurgeable(old(entries)[k], now);
      OneEach();
      if |order| >= maxEntries { return Full; }
      Append(key, Entry(value, ExpiryOf(ttl, now)));
      claim := Claimed;
    }

    // Release a reservation, but not a newer one under the same key.
    method DeleteIfValue(key: string, value: string, now: real) returns (deleted: bool)
      requires Valid()
      modifies this`entries, this`order
      ensures Valid()
      ensures deleted <==> old(Peek(key, now)) == Some(value)
      ensures deleted ==> entries == old(entries) - {key}
      ensures !deleted ==> Peek(key, now) == old(Peek(key, now))
      ensures forall k :: k != key && k in old(entries) ==> k in entries && entries[k] == old(entries)[k]
    {
      var present := Get(key, now);
      if present != Some(value) { return false; }
      Remove(key);
      deleted := true;
    }
  }

  lemma {:induction false} Counted(order: seq<string>, keys: set<string>)
    requires Distinct(order) && forall k :: k in order <==> k in keys
    ensures |order| == |keys|
  {
    if order == [] {
      assert keys == {};
    } else {
      var n := |order| - 1;
      Counted(order[..n], keys - {order[n]});
    }
  }

  lemma DropAt(order: seq<string>, i: nat)
    requires Distinct(order) && i < |order|
    ensures Distinct(order[..i] + order[i + 1..])
    ensures forall k :: k in order[..i] + order[i + 1..] <==> k in order && k != order[i]
  {
    var rest := order[..i] + order[i + 1..];
    assert forall j :: 0 <= j < |rest| ==> rest[j] == order[if j < i then j else j + 1];
    forall k ensures k in rest <==> k in order && k != order[i] {
      if k in order && k != order[i] {
        var j :| 0 <= j < |order| && order[j] == k;
        assert rest[if j < i then j else j - 1] == k;
      }
    }
  }
}
