/**
 Runs of the login throttle.  Both callers (auth.service.ts and passkeys.service.ts) end every
 admitted attempt exactly once: released when verification threw, recorded as a failure or as a
 success otherwise.  Attempts overlap freely.
 */
module ThrottleRuns {
  import opened Results
  import opened Throttle

  // ---- What every reachable state satisfies --------------------------------------------

  predicate BucketOk(cfg: Config, rec: Attempts) {
    rec.failures < cfg.maxAttempts && rec.failures + rec.inFlight <= cfg.maxAttempts
  }

  predicate Apart(order: seq<Key>, i: nat, j: nat)
    requires i < |order| && j < |order|
  {
    order[i] != order[j]
  }

  ghost predicate Distinct(order: seq<Key>) {
    forall i, j | 0 <= i < j < |order| :: Apart(order, i, j)
  }

  /** The order lists each key of the map once. */
  ghost predicate Listed(b: Buckets) {
    Distinct(b.order) && (forall k :: k in b.order <==> k in b.store)
  }

  ghost predicate BucketsOk(cfg: Config, b: Buckets) {
    Listed(b) && |b.store| <= MAX_BUCKETS && forall k | k in b.store :: BucketOk(cfg, b.store[k])
  }

  function InFlight(b: Buckets, key: Key): nat {
    if key in b.store then b.store[key].inFlight else 0
  }

  function Mentions(keys: seq<Key>, n: nat, key: Key): nat
    requires n <= |keys|
  {
    if n == 0 then 0 else Mentions(keys, n - 1, key) + if keys[n - 1] == key then 1 else 0
  }

  /** How many of the first n attempts under way were charged to the key. */
  function Outstanding(attempts: seq<seq<Key>>, n: nat, key: Key): nat
    requires n <= |attempts|
  {
    if n == 0 then 0 else Outstanding(attempts, n - 1, key) + Mentions(attempts[n - 1], |attempts[n - 1]|, key)
  }

  // ---- The order of insertion ----------------------------------------------------------

  lemma AppendApart(order: seq<Key>, key: Key)
    requires Distinct(order) && key !in order
    ensures Distinct(order + [key])
  {
    var r := order + [key];
    forall i, j | 0 <= i < j < |r|
      ensures Apart(r, i, j)
    {
      assert j < |order| ==> Apart(order, i, j);
      assert order[i] in order;
    }
  }

  lemma NotBefore(order: seq<Key>, n: nat)
    requires Distinct(order) && n < |order|
    ensures order[n] !in order[..n]
  {
    forall m | 0 <= m < n
      ensures order[m] != order[n]
    {
      assert Apart(order, m, n);
    }
  }

  lemma {:induction false} KeptApart(order: seq<Key>, n: nat, key: Key)
    requires Distinct(order) && n <= |order|
    ensures Distinct(Kept(order, n, key))
  {
    if 0 < n {
      KeptApart(order, n - 1, key);
      NotBefore(order, n - 1);
      AppendApart(Kept(order, n - 1, key), order[n - 1]);
    }
  }

  lemma {:induction false} SurvivorsApart(cfg: Config, b: Buckets, n: nat, now: int)
    requires n <= |b.order| && Distinct(b.order)
    ensures Distinct(Survivors(cfg, b, n, now))
  {
    if 0 < n {
      SurvivorsApart(cfg, b, n - 1, now);
      NotBefore(b.order, n - 1);
      AppendApart(Survivors(cfg, b, n - 1, now), b.order[n - 1]);
    }
  }

  // ---- Each step keeps the buckets in order --------------------------------------------

  lemma DeleteKeeps(cfg: Config, b: Buckets, key: Key)
    requires BucketsOk(cfg, b)
    ensures BucketsOk(cfg, Delete(b, key))
  {
    KeptApart(b.order, |b.order|, key);
    Fewer(Delete(b, key).store, b.store);
  }

  lemma Fewer(small: map<Key, Attempts>, large: map<Key, Attempts>)
    requires small.Keys <= large.Keys
    ensures |small| <= |large|
  {
    SubsetNotLarger(small.Keys, large.Keys);
    assert |small| == |small.Keys| && |large| == |large.Keys|;
  }

  lemma {:induction false} SubsetNotLarger(s: set<Key>, t: set<Key>)
    requires s <= t
    ensures |s| <= |t|
    decreases s
  {
    if s != {} {
      var x :| x in s;
      SubsetNotLarger(s - {x}, t - {x});
    }
  }

  lemma PutKeeps(cfg: Config, b: Buckets, key: Key, rec: Attempts)
    requires BucketsOk(cfg, b) && BucketOk(cfg, rec) && (key in b.store || |b.store| < MAX_BUCKETS)
    ensures BucketsOk(cfg, Put(b, key, rec))
  {
    var r := Put(b, key, rec);
    forall i, j | 0 <= i < j < |r.order|
      ensures Apart(r.order, i, j)
    {
      assert j < |b.order| ==> Apart(b.order, i, j);
      assert i < |b.order| ==> b.order[i] in b.order;
    }
    assert r.store.Keys == b.store.Keys + {key};
    assert key in b.store ==> r.store.Keys == b.store.Keys;
    assert |r.store| == |r.store.Keys| && |b.store| == |b.store.Keys|;
  }

  lemma RefreshKeeps(cfg: Config, b: Buckets, key: Key, now: int)
    requires cfg.Valid() && BucketsOk(cfg, b)
    ensures BucketsOk(cfg, Refresh(cfg, b, key, now))
  {
    if key in b.store {
      var rec := b.store[key];
      DeleteKeeps(cfg, b, key);
      PutKeeps(cfg, b, key, rec.(windowStart := now, failures := 0));
    }
  }

  lemma PruneKeeps(cfg: Config, b: Buckets, now: int)
    requires BucketsOk(cfg, b)
    ensures BucketsOk(cfg, MaybePrune(cfg, b, now))
  {
    var r := MaybePrune(cfg, b, now);
    if b.nextPruneAt <= now {
      SurvivorsApart(cfg, b, |b.order|, now);
      assert b.order[..|b.order|] == b.order;
      Fewer(r.store, b.store);
    }
  }

  /** A full map has something to evict, so there is room afterwards. */
  lemma MakeRoomKeeps(cfg: Config, b: Buckets)
    requires BucketsOk(cfg, b)
    ensures BucketsOk(cfg, MakeRoom(b)) && |MakeRoom(b).store| < MAX_BUCKETS
  {
    if MAX_BUCKETS <= |b.store| {
      OldestExists(b);
      var victim := FirstUnlocked(b, 0);
      var key := if victim.Some? then victim.value else b.order[0];
      DeleteKeeps(cfg, b, key);
      assert Delete(b, key).store.Keys == b.store.Keys - {key};
      assert |b.store| == |b.store.Keys| && |Delete(b, key).store| == |Delete(b, key).store.Keys|;
    }
  }

  lemma OldestExists(b: Buckets)
    requires Listed(b) && 0 < |b.store|
    ensures 0 < |b.order| && b.order[0] in b.store
  {
    assert |b.store| == |b.store.Keys|;
    var k :| k in b.store.Keys;
    assert k in b.order;
    assert b.order[0] in b.order;
  }

  lemma GetOrCreateKeeps(cfg: Config, b: Buckets, key: Key, now: int)
    requires cfg.Valid() && BucketsOk(cfg, b)
    ensures BucketsOk(cfg, GetOrCreate(cfg, b, key, now))
  {
    RefreshKeeps(cfg, b, key, now);
    var current := Refresh(cfg, b, key, now);
    if key !in current.store {
      MakeRoomKeeps(cfg, current);
      PutKeeps(cfg, MakeRoom(current), key, Attempts(now, 0, None, 0));
    }
  }

  lemma FailKeeps(cfg: Config, b: Buckets, key: Key, now: int)
    requires cfg.Valid() && BucketsOk(cfg, b)
    ensures BucketsOk(cfg, Fail(cfg, b, key, now))
  {
    GetOrCreateKeeps(cfg, b, key, now);
    var g := GetOrCreate(cfg, b, key, now);
    PutKeeps(cfg, g, key, Failed(cfg, g.store[key], now));
  }

  lemma FreeKeeps(cfg: Config, b: Buckets, key: Key)
    requires BucketsOk(cfg, b)
    ensures BucketsOk(cfg, Free(b, key))
  {
    if key in b.store {
      DeleteKeeps(cfg, b, key);
      PutKeeps(cfg, b, key, Ended(b.store[key]));
    }
  }

  lemma {:induction false} RefreshesKeep(cfg: Config, b: Buckets, keys: seq<Key>, n: nat, now: int)
    requires cfg.Valid() && BucketsOk(cfg, b) && n <= |keys|
    ensures BucketsOk(cfg, RefreshUpTo(cfg, b, keys, n, now))
  {
    if 0 < n {
      RefreshesKeep(cfg, b, keys, n - 1, now);
      RefreshKeeps(cfg, RefreshUpTo(cfg, b, keys, n - 1, now), keys[n - 1], now);
    }
  }

  lemma {:induction false} FailuresKeep(cfg: Config, b: Buckets, keys: seq<Key>, n: nat, now: int)
    requires cfg.Valid() && BucketsOk(cfg, b) && n <= |keys|
    ensures BucketsOk(cfg, FailUpTo(cfg, b, keys, n, now))
  {
    if 0 < n {
      FailuresKeep(cfg, b, keys, n - 1, now);
      FailKeeps(cfg, FailUpTo(cfg, b, keys, n - 1, now), keys[n - 1], now);
    }
  }

  lemma {:induction false} FreesKeep(cfg: Config, b: Buckets, keys: seq<Key>, n: nat)
    requires BucketsOk(cfg, b) && n <= |keys|
    ensures BucketsOk(cfg, FreeUpTo(b, keys, n))
  {
    if 0 < n {
      FreesKeep(cfg, b, keys, n - 1);
      FreeKeeps(cfg, FreeUpTo(b, keys, n - 1), keys[n - 1]);
    }
  }

  lemma {:induction false} DeletesKeep(cfg: Config, b: Buckets, keys: seq<Key>, n: nat)
    requires BucketsOk(cfg, b) && n <= |keys|
    ensures BucketsOk(cfg, DeleteUpTo(b, keys, n))
  {
    if 0 < n {
      DeletesKeep(cfg, b, keys, n - 1);
      var before := DeleteUpTo(b, keys, n - 1);
      DeleteKeeps(cfg, before, keys[n - 1]);
      assert DeleteUpTo(b, keys, n) == Delete(before, keys[n - 1]);
    }
  }

  // ---- Admission -----------------------------------------------------------------------

  /** A bucket that could take one more attempt, or is yet to be made. */
  predicate HasRoom(cfg: Config, b: Buckets, key: Key, now: int) {
    Wait(cfg, b, key, now) == 0
  }

  predicate Current(cfg: Config, b: Buckets, key: Key, now: int) {
    key in b.store ==>
      && (b.store[key].lockedUntil.Some? ==> now < b.store[key].lockedUntil.value)
      && (b.store[key].lockedUntil.None? ==> now - b.store[key].windowStart < cfg.Window())
  }

  lemma RefreshMakesCurrent(cfg: Config, b: Buckets, key: Key, now: int)
    requires cfg.Valid()
    ensures Current(cfg, Refresh(cfg, b, key, now), key, now)
    ensures forall k | k != key ::
      && (k in Refresh(cfg, b, key, now).store <==> k in b.store)
      && (k in b.store ==> Refresh(cfg, b, key, now).store[k] == b.store[k])
  {
  }

  /** Refreshing other buckets changes nothing about this one. */
  lemma {:induction false} WaitIsFinal(cfg: Config, b: Buckets, keys: seq<Key>, m: nat, n: nat, now: int)
    requires cfg.Valid() && m < n <= |keys| && Distinct(keys)
    ensures var r := RefreshUpTo(cfg, b, keys, n, now);
      && Current(cfg, r, keys[m], now)
      && Wait(cfg, r, keys[m], now) == Wait(cfg, RefreshUpTo(cfg, b, keys, m + 1, now), keys[m], now)
  {
    RefreshMakesCurrent(cfg, RefreshUpTo(cfg, b, keys, n - 1, now), keys[n - 1], now);
    if m < n - 1 {
      WaitIsFinal(cfg, b, keys, m, n - 1, now);
      assert Apart(keys, m, n - 1);
    }
  }

  lemma {:induction false} WaitIsMax(cfg: Config, b: Buckets, keys: seq<Key>, n: nat, now: int)
    requires cfg.Valid() && n <= |keys| && Distinct(keys)
    ensures var r := RefreshUpTo(cfg, b, keys, |keys|, now);
      && (forall m | 0 <= m < n :: Wait(cfg, r, keys[m], now) <= WaitUpTo(cfg, b, keys, n, now))
      && (WaitUpTo(cfg, b, keys, n, now) == 0
          || exists m | 0 <= m < n :: Wait(cfg, r, keys[m], now) == WaitUpTo(cfg, b, keys, n, now))
  {
    if 0 < n {
      WaitIsMax(cfg, b, keys, n - 1, now);
      WaitIsFinal(cfg, b, keys, n - 1, |keys|, now);
    }
  }

  lemma ChargeKeeps(cfg: Config, b: Buckets, key: Key, now: int)
    requires cfg.Valid() && BucketsOk(cfg, b) && Current(cfg, b, key, now) && HasRoom(cfg, b, key, now)
    ensures BucketsOk(cfg, Charge(cfg, b, key, now))
  {
    GetOrCreateKeeps(cfg, b, key, now);
    var g := GetOrCreate(cfg, b, key, now);
    PutKeeps(cfg, g, key, g.store[key].(inFlight := g.store[key].inFlight + 1));
  }

  /** Charging one bucket may evict another, but fills no other. */
  lemma ChargeLeavesRoom(cfg: Config, b: Buckets, key: Key, other: Key, now: int)
    requires other != key && Current(cfg, b, other, now) && HasRoom(cfg, b, other, now)
    ensures Current(cfg, Charge(cfg, b, key, now), other, now) && HasRoom(cfg, Charge(cfg, b, key, now), other, now)
  {
  }

  lemma {:induction false} ChargesKeep(cfg: Config, b: Buckets, keys: seq<Key>, n: nat, now: int)
    requires cfg.Valid() && BucketsOk(cfg, b) && n <= |keys| && Distinct(keys)
    requires forall m | 0 <= m < |keys| :: Current(cfg, b, keys[m], now) && HasRoom(cfg, b, keys[m], now)
    ensures var r := ChargeUpTo(cfg, b, keys, n, now);
      && BucketsOk(cfg, r)
      && forall m | n <= m < |keys| :: Current(cfg, r, keys[m], now) && HasRoom(cfg, r, keys[m], now)
  {
    if 0 < n {
      ChargesKeep(cfg, b, keys, n - 1, now);
      var before := ChargeUpTo(cfg, b, keys, n - 1, now);
      ChargeKeeps(cfg, before, keys[n - 1], now);
      forall m | n <= m < |keys|
        ensures var r := ChargeUpTo(cfg, b, keys, n, now); Current(cfg, r, keys[m], now) && HasRoom(cfg, r, keys[m], now)
      {
        assert Apart(keys, n - 1, m);
        ChargeLeavesRoom(cfg, before, keys[n - 1], keys[m], now);
      }
    }
  }

  lemma ConsumeKeeps(cfg: Config, b: Buckets, keys: seq<Key>, now: int)
    requires cfg.Valid() && BucketsOk(cfg, b) && Distinct(keys)
    ensures BucketsOk(cfg, Consume(cfg, b, keys, now).0)
  {
    var pruned := MaybePrune(cfg, b, now);
    PruneKeeps(cfg, b, now);
    RefreshesKeep(cfg, pruned, keys, |keys|, now);
    var refreshed := RefreshUpTo(cfg, pruned, keys, |keys|, now);
    WaitIsMax(cfg, pruned, keys, |keys|, now);
    if WaitUpTo(cfg, pruned, keys, |keys|, now) == 0 {
      forall m | 0 <= m < |keys|
        ensures Current(cfg, refreshed, keys[m], now) && HasRoom(cfg, refreshed, keys[m], now)
      {
        WaitIsFinal(cfg, pruned, keys, m, |keys|, now);
      }
      ChargesKeep(cfg, refreshed, keys, |keys|, now);
    }
  }

  /** An attempt is refused exactly when, after pruning and refreshing, one of its buckets is locked
      or full; it is told the longest wait among them, and no bucket is charged. */
  lemma RefusalIsTheLongestWait(cfg: Config, b: Buckets, keys: seq<Key>, now: int)
    requires cfg.Valid() && Distinct(keys)
    ensures var (after, wait) := Consume(cfg, b, keys, now);
      var refreshed := RefreshUpTo(cfg, MaybePrune(cfg, b, now), keys, |keys|, now);
      && (0 < wait <==> exists m | 0 <= m < |keys| :: !HasRoom(cfg, refreshed, keys[m], now))
      && (forall m | 0 <= m < |keys| :: Wait(cfg, refreshed, keys[m], now) <= wait)
      && (0 < wait ==> exists m | 0 <= m < |keys| :: Wait(cfg, refreshed, keys[m], now) == wait)
      && (0 < wait ==> after == refreshed)
  {
    WaitIsMax(cfg, MaybePrune(cfg, b, now), keys, |keys|, now);
  }
}
