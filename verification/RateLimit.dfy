// app/api/rate_limit.py: a sliding-window limiter that keeps only the hits it
// still needs, and a bounded map of buckets. The ghost log keeps every accepted
// hit, so what the limiter decides can be compared with what a limiter that
// never forgot anything would decide.

module RateLimits {

  ghost predicate Sorted(log: seq<real>) {
    forall i, j :: 0 <= i <= j < |log| ==> log[i] <= log[j]
  }

  // Hits after `from` and no later than `to`.
  function HitsIn(log: seq<real>, from: real, to: real): nat {
    if |log| == 0 then 0
    else HitsIn(log[..|log| - 1], from, to) +
         (if from < log[|log| - 1] <= to then 1 else 0)
  }

  // Any limit + 1 consecutive hits span at least a window.
  ghost predicate Spaced(log: seq<real>, limit: nat, window: real) {
    forall i :: 0 <= i && i + limit < |log| ==> log[i] + window <= log[i + limit]
  }

  lemma {:induction false} HitsOfConcat(a: seq<real>, b: seq<real>, from: real, to: real)
    ensures HitsIn(a + b, from, to) == HitsIn(a, from, to) + HitsIn(b, from, to)
  {
    if |b| == 0 {
      assert a + b == a;
    } else {
      assert (a + b)[..|a + b| - 1] == a + b[..|b| - 1];
      HitsOfConcat(a, b[..|b| - 1], from, to);
    }
  }

  lemma {:induction false} NoHits(log: seq<real>, from: real, to: real)
    requires forall i :: 0 <= i < |log| ==> log[i] <= from || log[i] > to
    ensures HitsIn(log, from, to) == 0
  {
    if |log| > 0 { NoHits(log[..|log| - 1], from, to); }
  }

  lemma {:induction false} AllHits(log: seq<real>, from: real, to: real)
    requires forall i :: 0 <= i < |log| ==> from < log[i] <= to
    ensures HitsIn(log, from, to) == |log|
  {
    if |log| > 0 { AllHits(log[..|log| - 1], from, to); }
  }

  // The kept suffix counts exactly the hits of the window.
  lemma SuffixCounts(log: seq<real>, kept: seq<real>, from: real, to: real)
    requires |kept| <= |log| && log[|log| - |kept|..] == kept
    requires forall i :: 0 <= i < |log| - |kept| ==> log[i] <= from
    requires forall i :: 0 <= i < |kept| ==> from < kept[i] <= to
    ensures HitsIn(log, from, to) == |kept|
  {
    var n := |log| - |kept|;
    assert log == log[..n] + log[n..];
    HitsOfConcat(log[..n], log[n..], from, to);
    NoHits(log[..n], from, to);
    AllHits(kept, from, to);
  }

  // A spaced log never holds more than `limit` hits in any window.
  lemma {:induction false} AnyWindowHolds(log: seq<real>, limit: nat, window: real, t: real)
    requires Sorted(log) && Spaced(log, limit, window) && limit >= 1 && window > 0.0
    ensures HitsIn(log, t - window, t) <= limit
    decreases |log|
  {
    var from := t - window;
    if |log| > limit && from < log[|log| - 1] <= t {
      // the hit `limit` places earlier is a whole window older
      var n := |log| - limit;
      assert log[n - 1] + window <= log[n - 1 + limit];
      assert log == log[..n] + log[n..];
      HitsOfConcat(log[..n], log[n..], from, t);
      NoHits(log[..n], from, t);
      HitsAtMost(log[n..], from, t);
    } else if |log| > limit {
      AnyWindowHolds(log[..|log| - 1], limit, window, t);
    } else {
      HitsAtMost(log, from, t);
    }
  }

  lemma {:induction false} HitsAtMost(log: seq<real>, from: real, to: real)
    ensures HitsIn(log, from, to) <= |log|
  {
    if |log| > 0 { HitsAtMost(log[..|log| - 1], from, to); }
  }

  // Would a limiter that remembered every hit let one more in at t?
  predicate Admits(log: seq<real>, limit: nat, window: real, t: real) {
    HitsIn(log, t - window, t) < limit
  }

  // Which hits of the log fall after one instant and no later than another.
  ghost function HitsAfter(log: seq<real>, from: real, to: real): set<nat> {
    set i | 0 <= i < |log| && from < log[i] <= to
  }

  lemma {:induction false} HitsCounted(log: seq<real>, from: real, to: real)
    ensures HitsIn(log, from, to) == |HitsAfter(log, from, to)|
  {
    if log != [] {
      var n := |log| - 1;
      HitsCounted(log[..n], from, to);
      assert HitsAfter(log, from, to) == HitsAfter(log[..n], from, to) + if from < log[n] <= to then {n} else {};
    }
  }

  lemma AdmitsExactly(log: seq<real>, limit: nat, window: real, t: real)
    ensures Admits(log, limit, window, t) <==> |HitsAfter(log, t - window, t)| < limit
  {
    HitsCounted(log, t - window, t);
  }

  lemma WaitIsAlwaysExact(full: seq<real>, kept: seq<real>, limit: nat, window: real, now: real)
    requires Faithful(full, kept, limit, window, now) && |kept| == limit >= 1 && window > 0.0
    requires kept[0] > now - window
    ensures forall t :: t >= now ==> (Admits(full, limit, window, t) <==> t >= kept[0] + window)
  {
    hide Faithful, Admits;
    forall t: real | t >= now ensures Admits(full, limit, window, t) <==> t >= kept[0] + window {
      WaitIsExact(full, kept, limit, window, now, t);
    }
  }

  // What a bucket keeps against its full log: a suffix, everything older past.
  ghost predicate Faithful(full: seq<real>, kept: seq<real>, limit: nat, window: real, clock: real) {
    && Sorted(full) && Spaced(full, limit, window)
    && (forall i :: 0 <= i < |full| ==> full[i] <= clock)
    && |kept| <= |full| && full[|full| - |kept|..] == kept
    && (forall i :: 0 <= i < |full| - |kept| ==> full[i] <= clock - window)
  }

  lemma FaithfulLater(full: seq<real>, kept: seq<real>, limit: nat, window: real, clock: real, now: real)
    requires Faithful(full, kept, limit, window, clock) && clock <= now
    ensures Faithful(full, kept, limit, window, now)
  {
  }

  // Dropping the leading hits that have left the window.
  lemma FaithfulWithout(full: seq<real>, before: seq<real>, kept: seq<real>, limit: nat, window: real, now: real)
    requires Faithful(full, before, limit, window, now)
    requires |kept| <= |before| && before[|before| - |kept|..] == kept
    requires forall i :: 0 <= i < |before| - |kept| ==> before[i] <= now - window
    ensures Faithful(full, kept, limit, window, now)
  {
    var n, m := |full| - |before|, |full| - |kept|;
    assert forall i :: 0 <= i < |before| ==> before[i] == full[n + i];
    assert forall i :: 0 <= i < |kept| ==> kept[i] == before[|before| - |kept| + i] == full[m + i];
    forall i | 0 <= i < m ensures full[i] <= now - window {
      if i >= n { assert full[i] == before[i - n]; }
    }
    assert full[m..] == kept;
  }

  // A bucket whose last kept hit is past has nothing left in the window.
  lemma FaithfulToNothing(full: seq<real>, stale: seq<real>, limit: nat, window: real, now: real)
    requires Faithful(full, stale, limit, window, now) && window > 0.0
    requires |stale| == 0 || stale[|stale| - 1] <= now - window
    ensures Faithful(full, [], limit, window, now)
  {
    if |stale| > 0 { assert full[|full| - 1] == stale[|stale| - 1]; }
    assert full[|full|..] == [];
  }

  // One more hit, taken only while fewer than `limit` are kept.
  lemma FaithfulWithHit(full: seq<real>, kept: seq<real>, limit: nat, window: real, now: real)
    requires Faithful(full, kept, limit, window, now) && |kept| < limit
    ensures Faithful(full + [now], kept + [now], limit, window, now)
  {
    var after := full + [now];
    forall i | 0 <= i && i + limit < |after| ensures after[i] + window <= after[i + limit] {
      if i + limit == |full| { assert i < |full| - |kept|; }
    }
    assert after[|after| - |kept + [now]|..] == kept + [now];
  }

  lemma KeptIsTheWindow(full: seq<real>, kept: seq<real>, limit: nat, window: real, now: real)
    requires Faithful(full, kept, limit, window, now)
    requires |kept| > 0 ==> kept[0] > now - window
    ensures HitsIn(full, now - window, now) == |kept|
  {
    var m := |full| - |kept|;
    assert forall i :: 0 <= i < |kept| ==> kept[i] == full[m + i];
    SuffixCounts(full, kept, now - window, now);
  }

  lemma AdmitsByCount(full: seq<real>, kept: seq<real>, limit: nat, window: real, now: real)
    requires HitsIn(full, now - window, now) == |kept|
    ensures Admits(full, limit, window, now) <==> |kept| < limit
  {
  }

  // When the kept hits fill the limit, the wait is exact: refused at every
  // instant before the oldest of them leaves the window, allowed from then on.
  lemma WaitIsExact(full: seq<real>, kept: seq<real>, limit: nat, window: real, now: real, t: real)
    requires Faithful(full, kept, limit, window, now) && |kept| == limit >= 1 && window > 0.0
    requires kept[0] > now - window && t >= now
    ensures Admits(full, limit, window, t) <==> t >= kept[0] + window
  {
    hide HitsIn, Spaced;
    var n := |full| - |kept|;
    assert forall i :: 0 <= i < |kept| ==> kept[i] == full[n + i];
    assert full == full[..n] + kept;
    HitsOfConcat(full[..n], kept, t - window, t);
    NoHits(full[..n], t - window, t);
    if t >= kept[0] + window {
      assert kept == [kept[0]] + kept[1..];
      HitsOfConcat([kept[0]], kept[1..], t - window, t);
      NoHits([kept[0]], t - window, t);
      HitsAtMost(kept[1..], t - window, t);
    } else {
      AllHits(kept, t - window, t);
    }
  }

  // The insertion order of a dictionary lists each of its keys once.
  ghost predicate Indexed(order: seq<string>, keys: set<string>) {
    && (forall i, j :: 0 <= i < j < |order| ==> order[i] != order[j])
    && (forall k :: k in keys <==> k in order)
  }

  lemma IndexedAppend(order: seq<string>, keys: set<string>, key: string)
    requires Indexed(order, keys) && key !in keys
    ensures Indexed(order + [key], keys + {key})
  {
  }

  predicate LiveIn(hits: map<string, seq<real>>, key: string, cutoff: real) {
    key in hits && |hits[key]| > 0 && hits[key][|hits[key]| - 1] > cutoff
  }

  // The last hit of the bucket, if it has any, is still inside the window.
  ghost predicate IsLastAfter(hits: seq<real>, cutoff: real) { hits != [] && cutoff < hits[|hits| - 1] }

  lemma LiveMeansLastAfter(hits: map<string, seq<real>>, cutoff: real)
    ensures forall k :: k in hits ==> (LiveIn(hits, k, cutoff) <==> IsLastAfter(hits[k], cutoff))
  {
  }

  ghost predicate AllLive(order: seq<string>, hits: map<string, seq<real>>, cutoff: real) {
    forall k :: k in order ==> LiveIn(hits, k, cutoff)
  }

  lemma NoneIsLive(hits: map<string, seq<real>>, cutoff: real)
    ensures AllLive([], hits, cutoff)
  {
  }

  lemma OneMoreLive(order: seq<string>, hits: map<string, seq<real>>, key: string, cutoff: real)
    requires AllLive(order, hits, cutoff) && LiveIn(hits, key, cutoff)
    ensures AllLive(order + [key], hits, cutoff)
  {
  }

  lemma KeysAreLive(order: seq<string>, keys: set<string>, hits: map<string, seq<real>>, cutoff: real)
    requires Indexed(order, keys) && AllLive(order, hits, cutoff)
    ensures forall k :: k in keys ==> LiveIn(hits, k, cutoff)
  {
  }

  lemma AllAreLive(order: seq<string>, hits: map<string, seq<real>>, cutoff: real)
    requires Indexed(order, hits.Keys) && AllLive(order, hits, cutoff)
    ensures forall k :: k in hits ==> IsLastAfter(hits[k], cutoff)
  {
    hide IsLastAfter, LiveIn;
    KeysAreLive(order, hits.Keys, hits, cutoff);
    LiveMeansLastAfter(hits, cutoff);
  }

  lemma SameLife(before: map<string, seq<real>>, after: map<string, seq<real>>, key: string, cutoff: real)
    requires key in before && key in after && before[key] == after[key]
    ensures LiveIn(before, key, cutoff) <==> LiveIn(after, key, cutoff)
  {
  }

  lemma TakeNext(kept: seq<string>, all: seq<string>, n: nat)
    requires n < |all|
    ensures var rest := kept + all[n..];
            && rest[|kept|] == all[n]
            && rest[..|kept|] + rest[|kept| + 1..] == kept + all[n + 1..]
            && kept + [all[n]] + all[n + 1..] == rest
  {
  }

  lemma IndexedWithout(order: seq<string>, keys: set<string>, i: nat)
    requires Indexed(order, keys) && i < |order|
    ensures order[i] in keys && Indexed(order[..i] + order[i + 1..], keys - {order[i]})
  {
    var rest := order[..i] + order[i + 1..];
    assert forall j :: 0 <= j < |rest| ==> rest[j] == order[if j < i then j else j + 1];
    forall k ensures k in keys - {order[i]} <==> k in rest {
      if k in order && k != order[i] {
        var j :| 0 <= j < |order| && order[j] == k;
        assert rest[if j < i then j else j - 1] == k;
      }
    }
  }

  lemma SameKeys(m: map<string, seq<real>>, k: string, v: seq<real>)
    requires k in m
    ensures m[k := v].Keys == m.Keys
  {
  }

  lemma NewKey(m: map<string, seq<real>>, k: string, v: seq<real>)
    ensures m[k := v].Keys == m.Keys + {k}
  {
  }

  class SlidingWindowLimiter {
    const limit: nat
    const window: real
    const maxBuckets: nat

    var order: seq<string>              // buckets, oldest inserted first
    var hits: map<string, seq<real>>

    ghost var log: map<string, seq<real>>  // every accepted hit of every bucket
    ghost var forced: set<string>          // buckets dropped while still live
    ghost var clock: real                  // the latest instant read so far

    ghost function LogOf(bucket: string): seq<real>
      reads this`log
    {
      if bucket in log then log[bucket] else []
    }

    ghost function KeptOf(bucket: string): seq<real>
      reads this`hits
    {
      if bucket in hits then hits[bucket] else []
    }

    ghost predicate Remembers(bucket: string)
      reads this`log, this`hits, this`clock
    {
      Faithful(LogOf(bucket), KeptOf(bucket), limit, window, clock)
    }

    ghost predicate Valid()
      reads this
    {
      && limit >= 1 && window > 0.0 && maxBuckets >= 1
      && |order| <= maxBuckets
      && Indexed(order, hits.Keys)
      && (forall k :: k in hits ==> |hits[k]| <= limit)
      && (forall k :: k !in forced ==> Remembers(k))
    }

    constructor (limit: nat, window: real, maxBuckets: nat)
      requires limit >= 1 && window > 0.0 && maxBuckets >= 1
      ensures Valid() && order == [] && log == map[] && forced == {}
      ensures this.limit == limit && this.window == window && this.maxBuckets == maxBuckets
    {
      this.limit, this.window, this.maxBuckets := limit, window, maxBuckets;
      order, hits, log, forced, clock := [], map[], map[], {}, 0.0;
    }

    // Allowed exactly when fewer than `limit` accepted hits lie in the last
    // window; a refusal names the first instant at which that is true again.
    method Check(bucket: string, now: real) returns (allowed: bool, retryAfter: real)
      requires Valid() && clock <= now
      modifies this
      ensures Valid() && clock == now
      ensures log == if allowed then old(log)[bucket := old(LogOf(bucket)) + [now]] else old(log)
      ensures bucket !in forced ==>
        (allowed <==> |HitsAfter(old(LogOf(bucket)), now - window, now)| < limit)
      ensures allowed ==> retryAfter == 0.0
      ensures !allowed ==> retryAfter > 0.0
      ensures !allowed && bucket !in forced ==> forall t :: t >= now ==>
        (Admits(LogOf(bucket), limit, window, t) <==> t >= now + retryAfter)
      ensures old(forced) <= forced
      ensures bucket in old(hits) || |old(order)| < maxBuckets ==> forced == old(forced)
    {
      hide Faithful, Admits, Indexed, HitsAfter;
      AdmitsExactly(LogOf(bucket), limit, window, now);
      Advance(now);
      Locate(bucket, now);
      var cutoff := now - window;
      ghost var full, before := LogOf(bucket), hits[bucket];
      var kept := hits[bucket];
      while |kept| > 0 && kept[0] <= cutoff
        invariant |kept| <= |before| && before[|before| - |kept|..] == kept
        invariant forall i :: 0 <= i < |before| - |kept| ==> before[i] <= cutoff
      {
        kept := kept[1..];
      }
      if bucket !in forced {
        FaithfulWithout(full, before, kept, limit, window, now);
        KeptIsTheWindow(full, kept, limit, window, now);
        AdmitsByCount(full, kept, limit, window, now);
      }
      if |kept| >= limit {
        Store(bucket, kept, full);
        allowed, retryAfter := false, kept[0] + window - now;
        if bucket !in forced { WaitIsAlwaysExact(full, kept, limit, window, now); }
        return;
      }
      if bucket !in forced { FaithfulWithHit(full, kept, limit, window, now); }
      Store(bucket, kept + [now], full + [now]);
      allowed, retryAfter := true, 0.0;
    }

    // The bucket's window, made if it is new.
    method Locate(bucket: string, now: real)
      requires Valid() && clock == now
      modifies this`order, this`hits, this`forced
      ensures Valid() && bucket in hits
      ensures bucket !in old(hits) ==> hits[bucket] == []
      ensures bucket in old(hits) ==> hits == old(hits) && order == old(order) && forced == old(forced)
      ensures old(forced) <= forced
      ensures |old(order)| < maxBuckets ==> forced == old(forced)
    {
      hide Faithful, Indexed;
      if bucket !in hits {
        Evict(now);
        IndexedAppend(order, hits.Keys, bucket);
        NewKey(hits, bucket, []);
        order := order + [bucket];
        hits := hits[bucket := []];
      }
    }

    // Write one bucket back, and its log.
    method Store(bucket: string, kept: seq<real>, ghost full: seq<real>)
      requires Valid() && bucket in hits && |kept| <= limit
      requires bucket !in forced ==> Faithful(full, kept, limit, window, clock)
      modifies this`hits, this`log
      ensures Valid() && hits == old(hits)[bucket := kept]
      ensures log == if full == old(LogOf(bucket)) then old(log) else old(log)[bucket := full]
    {
      hide Faithful, Indexed;
      SameKeys(hits, bucket, kept);
      hits := hits[bucket := kept];
      if full != LogOf(bucket) { log := log[bucket := full]; }
    }

    ghost method Advance(now: real)
      requires Valid() && clock <= now
      modifies this`clock
      ensures Valid() && clock == now
    {
      hide Faithful;
      forall k | k !in forced ensures Faithful(LogOf(k), KeptOf(k), limit, window, now) {
        FaithfulLater(LogOf(k), KeptOf(k), limit, window, clock, now);
      }
      clock := now;
    }

    // Make room: drop what is entirely in the past, then the oldest inserted.
    method Evict(now: real)
      requires Valid() && clock == now
      modifies this`order, this`hits, this`forced
      ensures Valid() && |order| < maxBuckets
      ensures hits.Keys <= old(hits).Keys
      ensures old(forced) <= forced && forced <= old(forced) + old(hits).Keys
      ensures |old(order)| < maxBuckets ==> forced == old(forced)
      ensures forall k :: k in hits ==> k in old(hits) && hits[k] == old(hits)[k]
      // at most one bucket goes while it is live: the oldest, when all are live
      ensures forced == old(forced) || IsOldestDropped(old(order), old(forced))
      ensures forced == old(forced) || forall k :: k in old(hits) ==> IsLastAfter(old(hits)[k], now - window)
    {
      hide Faithful, Indexed, AllLive, Remembers, LiveIn, IsLastAfter;
      if |order| < maxBuckets { return; }
      DropPast(now);
      while |order| >= maxBuckets
        invariant Valid() && hits.Keys <= old(hits).Keys
        invariant old(forced) <= forced && forced <= old(forced) + old(hits).Keys
        invariant forall k :: k in hits ==> k in old(hits) && hits[k] == old(hits)[k]
        invariant |order| >= maxBuckets ==>
          forced == old(forced) && order == old(order) && AllLive(old(order), old(hits), now - window)
        invariant forced == old(forced) || IsOldestDropped(old(order), old(forced))
        invariant forced == old(forced) || AllLive(old(order), old(hits), now - window)
        decreases |order|
      {
        DropOldest();
      }
      if forced != old(forced) { AllAreLive(old(order), old(hits), now - window); }
    }

    // Drop the oldest inserted, live or not.
    method DropOldest()
      requires Valid() && order != []
      modifies this`order, this`hits, this`forced
      ensures Valid() && order == old(order)[1..] && hits == old(hits) - {old(order)[0]}
      ensures forced == old(forced) + {old(order)[0]} && old(order)[0] in old(hits)
    {
      hide Faithful, Indexed;
      var first := order[0];
      IndexedWithout(order, hits.Keys, 0);
      assert order[..0] + order[0 + 1..] == order[1..];
      forced := forced + {first};
      hits := hits - {first};
      order := order[1..];
    }

    ghost predicate IsOldestDropped(was: seq<string>, wasForced: set<string>)
      reads this
    {
      was != [] && order == was[1..] && forced == wasForced + {was[0]}
    }

    method DropPast(now: real)
      requires Valid() && clock == now
      modifies this`order, this`hits
      ensures Valid() && |order| <= |old(order)|
      ensures forall k :: k in hits <==> k in old(hits) && IsLastAfter(old(hits)[k], now - window)
      ensures forall k :: k in hits ==> hits[k] == old(hits)[k]
      ensures |order| == |old(order)| ==> order == old(order) && AllLive(order, old(hits), now - window)
    {
      hide Faithful, Indexed, LiveIn, Remembers, AllLive, IsLastAfter;
      var cutoff := now - window;
      var kept: seq<string>, all := [], order;
      assert kept + all[0..] == all;
      NoneIsLive(old(hits), cutoff);
      for n := 0 to |all|
        invariant order == all && |kept| <= n && (|kept| == n ==> kept == all[..n])
        invariant Indexed(kept + all[n..], hits.Keys)
        invariant forall k :: k in hits ==> k in old(hits) && hits[k] == old(hits)[k]
        invariant forall k :: k in old(hits) && LiveIn(old(hits), k, cutoff) ==> k in hits
        invariant AllLive(kept, old(hits), cutoff)
        invariant Memory()
      {
        var key := all[n];
        ghost var now' := kept + all[n..];
        TakeNext(kept, all, n);
        IndexedWithout(now', hits.Keys, |kept|);
        SameLife(old(hits), hits, key, cutoff);
        if !LiveIn(hits, key, cutoff) {
          ForgetPast(key, now);
        } else {
          OneMoreLive(kept, old(hits), key, cutoff);
          kept := kept + [key];
        }
      }
      assert kept + all[|all|..] == kept;
      KeysAreLive(kept, hits.Keys, old(hits), cutoff);
      LiveMeansLastAfter(old(hits), cutoff);
      order := kept;
    }

    // Every bucket never force-dropped is remembered, and none outgrows the limit.
    ghost predicate Memory()
      reads this`log, this`hits, this`clock, this`forced
    {
      (forall k :: k in hits ==> |hits[k]| <= limit) && forall k :: k !in forced ==> Remembers(k)
    }

    method ForgetPast(key: string, now: real)
      requires window > 0.0 && clock == now && Memory() && key in hits && !LiveIn(hits, key, now - window)
      modifies this`hits
      ensures Memory() && hits == old(hits) - {key}
    {
      hide Faithful;
      if key !in forced { FaithfulToNothing(LogOf(key), hits[key], limit, window, now); }
      hits := hits - {key};
    }

    // Over any window at any time, a bucket that was never force-dropped has at
    // most `limit` accepted hits.
    lemma NeverMoreThanTheLimit(bucket: string, t: real)
      requires Valid() && bucket !in forced
      ensures |HitsAfter(LogOf(bucket), t - window, t)| <= limit
    {
      HitsCounted(LogOf(bucket), t - window, t);
      assert Remembers(bucket);
      AnyWindowHolds(LogOf(bucket), limit, window, t);
    }
  }
}
