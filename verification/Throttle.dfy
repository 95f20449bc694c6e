/**
 The login throttle (apps/api/src/auth/login-throttle.service.ts).  Buckets live in a map that
 remembers the order of insertion.  Functions say what each operation makes of the buckets; the
 class performs them in place.  Times are milliseconds.
 */
module Throttle {
  import opened Results

  /** One bucket for the normalized account, one for the normalized address. */
  datatype Key = Account(name: string) | Address(ip: string)

  datatype Attempts = Attempts(windowStart: int, failures: nat, lockedUntil: Option<int>, inFlight: nat)

  datatype Config = Config(maxAttempts: nat, windowSec: nat) {
    predicate Valid() {
      1 <= maxAttempts && 1 <= windowSec
    }

    function Window(): nat {
      windowSec * 1000
    }
  }

  const MAX_BUCKETS := 10_000

  /** order lists the keys of store, oldest first. */
  datatype Buckets = Buckets(order: seq<Key>, store: map<Key, Attempts>, nextPruneAt: int)

  const NO_BUCKETS := Buckets([], map[], 0)

  function BucketKeys(account: string, ip: Option<string>): (keys: seq<Key>)
    ensures 1 <= |keys| <= 2 && (forall i, j | 0 <= i < j < |keys| :: keys[i] != keys[j])
    ensures forall k :: k in keys <==> k == Account(account) || (ip.Some? && ip.value != "" && k == Address(ip.value))
  {
    if ip.Some? && ip.value != "" then [Account(account), Address(ip.value)] else [Account(account)]
  }

  // ---- The map -------------------------------------------------------------------------

  function Kept(order: seq<Key>, n: nat, key: Key): (r: seq<Key>)
    requires n <= |order|
    ensures forall k :: k in r <==> k in order[..n] && k != key
  {
    if n == 0 then []
    else
      assert order[..n] == order[..n - 1] + [order[n - 1]];
      var before := Kept(order, n - 1, key);
      if order[n - 1] == key then before else before + [order[n - 1]]
  }

  function Without(order: seq<Key>, key: Key): (r: seq<Key>)
    ensures forall k :: k in r <==> k in order && k != key
  {
    assert order[..|order|] == order;
    Kept(order, |order|, key)
  }

  function Delete(b: Buckets, key: Key): Buckets {
    b.(order := Without(b.order, key), store := map k | k in b.store && k != key :: b.store[k])
  }

  /** Writing a key that is there keeps its place; a new key comes last. */
  function Put(b: Buckets, key: Key, rec: Attempts): Buckets {
    b.(order := if key in b.store then b.order else b.order + [key], store := b.store[key := rec])
  }

  // ---- The private steps ---------------------------------------------------------------

  predicate Locked(rec: Attempts, now: int) {
    rec.lockedUntil.Some? && now < rec.lockedUntil.value
  }

  /** Drops a lock that is over; starts a new window where the old one is over. */
  function Refresh(cfg: Config, b: Buckets, key: Key, now: int): Buckets {
    if key !in b.store then b
    else
      var rec := b.store[key];
      if rec.lockedUntil.Some? && rec.lockedUntil.value <= now then Delete(b, key)
      else if rec.lockedUntil.None? && cfg.Window() <= now - rec.windowStart then
        Put(b, key, rec.(windowStart := now, failures := 0))
      else b
  }

  predicate Expired(cfg: Config, rec: Attempts, now: int) {
    if rec.lockedUntil.Some? then rec.lockedUntil.value <= now else rec.windowStart + cfg.Window() <= now
  }

  function Survivors(cfg: Config, b: Buckets, n: nat, now: int): (r: seq<Key>)
    requires n <= |b.order|
    ensures forall k :: k in r <==> k in b.order[..n] && k in b.store && !Expired(cfg, b.store[k], now)
  {
    if n == 0 then []
    else
      assert b.order[..n] == b.order[..n - 1] + [b.order[n - 1]];
      var before := Survivors(cfg, b, n - 1, now);
      var k := b.order[n - 1];
      if k in b.store && !Expired(cfg, b.store[k], now) then before + [k] else before
  }

  function Min(a: int, b: int): int { if a < b then a else b }

  function Max(a: int, b: int): int { if a < b then b else a }

  function MaybePrune(cfg: Config, b: Buckets, now: int): Buckets {
    if now < b.nextPruneAt then b
    else
      Buckets(
        Survivors(cfg, b, |b.order|, now),
        map k | k in b.store && !Expired(cfg, b.store[k], now) :: b.store[k],
        now + Max(1000, Min(cfg.Window(), 60_000)))
  }

  function FirstUnlocked(b: Buckets, n: nat): (r: Option<Key>)
    requires n <= |b.order|
    ensures r.Some? ==> r.value in b.order && r.value in b.store && b.store[r.value].lockedUntil.None?
    ensures r.None? ==> forall j | n <= j < |b.order| && b.order[j] in b.store :: b.store[b.order[j]].lockedUntil.Some?
    decreases |b.order| - n
  {
    if n == |b.order| then None
    else if b.order[n] in b.store && b.store[b.order[n]].lockedUntil.None? then Some(b.order[n])
    else FirstUnlocked(b, n + 1)
  }

  /** A full map loses its oldest unlocked bucket, or its oldest one when all are locked. */
  function MakeRoom(b: Buckets): Buckets {
    if |b.store| < MAX_BUCKETS then b
    else
      var victim := FirstUnlocked(b, 0);
      if victim.Some? then Delete(b, victim.value)
      else if 0 < |b.order| then Delete(b, b.order[0])
      else b
  }

  function GetOrCreate(cfg: Config, b: Buckets, key: Key, now: int): (r: Buckets)
    ensures key in r.store
  {
    var current := Refresh(cfg, b, key, now);
    if key in current.store then current else Put(MakeRoom(current), key, Attempts(now, 0, None, 0))
  }

  // ---- The operations ------------------------------------------------------------------

  function Charge(cfg: Config, b: Buckets, key: Key, now: int): Buckets {
    var g := GetOrCreate(cfg, b, key, now);
    Put(g, key, g.store[key].(inFlight := g.store[key].inFlight + 1))
  }

  function Ended(rec: Attempts): Attempts {
    rec.(inFlight := if 0 < rec.inFlight then rec.inFlight - 1 else 0)
  }

  function Failed(cfg: Config, rec: Attempts, now: int): Attempts {
    var ended := Ended(rec);
    if cfg.maxAttempts <= ended.failures + 1 then
      ended.(failures := 0, windowStart := now, lockedUntil := Some(now + cfg.Window()))
    else ended.(failures := ended.failures + 1)
  }

  function Fail(cfg: Config, b: Buckets, key: Key, now: int): Buckets {
    var g := GetOrCreate(cfg, b, key, now);
    Put(g, key, Failed(cfg, g.store[key], now))
  }

  predicate Idle(rec: Attempts) {
    rec.inFlight == 0 && rec.failures == 0 && rec.lockedUntil.None?
  }

  function Free(b: Buckets, key: Key): Buckets {
    if key !in b.store then b
    else
      var rec := Ended(b.store[key]);
      if Idle(rec) then Delete(b, key) else Put(b, key, rec)
  }

  // The buckets after the first n of the keys.

  function RefreshUpTo(cfg: Config, b: Buckets, keys: seq<Key>, n: nat, now: int): Buckets
    requires n <= |keys|
  {
    if n == 0 then b else Refresh(cfg, RefreshUpTo(cfg, b, keys, n - 1, now), keys[n - 1], now)
  }

  function ChargeUpTo(cfg: Config, b: Buckets, keys: seq<Key>, n: nat, now: int): Buckets
    requires n <= |keys|
  {
    if n == 0 then b else Charge(cfg, ChargeUpTo(cfg, b, keys, n - 1, now), keys[n - 1], now)
  }

  function FailUpTo(cfg: Config, b: Buckets, keys: seq<Key>, n: nat, now: int): Buckets
    requires n <= |keys|
  {
    if n == 0 then b else Fail(cfg, FailUpTo(cfg, b, keys, n - 1, now), keys[n - 1], now)
  }

  function FreeUpTo(b: Buckets, keys: seq<Key>, n: nat): Buckets
    requires n <= |keys|
  {
    if n == 0 then b else Free(FreeUpTo(b, keys, n - 1), keys[n - 1])
  }

  function DeleteUpTo(b: Buckets, keys: seq<Key>, n: nat): Buckets
    requires n <= |keys|
  {
    if n == 0 then b else Delete(DeleteUpTo(b, keys, n - 1), keys[n - 1])
  }

  /** Whole seconds until a refused attempt may be retried: rounded up. */
  function SecondsUntil(until: int, now: int): nat
    requires now < until
  {
    (until - now + 999) / 1000
  }

  /** What a refreshed bucket asks a new attempt to wait; zero admits it. */
  function Wait(cfg: Config, b: Buckets, key: Key, now: int): nat {
    if key !in b.store then 0
    else
      var rec := b.store[key];
      if Locked(rec, now) then SecondsUntil(rec.lockedUntil.value, now)
      else if cfg.maxAttempts <= rec.failures + rec.inFlight then 1
      else 0
  }

  function WaitUpTo(cfg: Config, b: Buckets, keys: seq<Key>, n: nat, now: int): nat
    requires n <= |keys|
  {
    if n == 0 then 0
    else
      var before := WaitUpTo(cfg, b, keys, n - 1, now);
      var own := Wait(cfg, RefreshUpTo(cfg, b, keys, n, now), keys[n - 1], now);
      if before < own then own else before
  }

  /** Admits an attempt, or says how long to wait. */
  function Consume(cfg: Config, b: Buckets, keys: seq<Key>, now: int): (r: (Buckets, nat)) {
    var pruned := MaybePrune(cfg, b, now);
    var refreshed := RefreshUpTo(cfg, pruned, keys, |keys|, now);
    var wait := WaitUpTo(cfg, pruned, keys, |keys|, now);
    if 0 < wait then (refreshed, wait) else (ChargeUpTo(cfg, refreshed, keys, |keys|, now), 0)
  }

  function RecordFailure(cfg: Config, b: Buckets, keys: seq<Key>, now: int): Buckets {
    FailUpTo(cfg, MaybePrune(cfg, b, now), keys, |keys|, now)
  }

  function Release(b: Buckets, keys: seq<Key>): Buckets {
    FreeUpTo(b, keys, |keys|)
  }

  function RecordSuccess(b: Buckets, keys: seq<Key>): Buckets {
    DeleteUpTo(b, keys, |keys|)
  }

  // ---- What a success forgets ----------------------------------------------------------

  /** r is what is left of s when some entries are struck out. */
  predicate LeftOf<T(==)>(r: seq<T>, s: seq<T>) {
    r == [] || (s != [] &&
      ((r[|r| - 1] == s[|s| - 1] && LeftOf(r[..|r| - 1], s[..|s| - 1])) || LeftOf(r, s[..|s| - 1])))
  }

  lemma {:induction false} LeftOfSelf<T>(s: seq<T>)
    ensures LeftOf(s, s)
  {
    if s != [] {
      LeftOfSelf(s[..|s| - 1]);
    }
  }

  lemma {:induction false} LeftOfChain<T>(r: seq<T>, s: seq<T>, t: seq<T>)
    requires LeftOf(r, s) && LeftOf(s, t)
    ensures LeftOf(r, t)
    decreases |s| + |t|
  {
    if r != [] {
      var (rf, sf, tf) := (r[..|r| - 1], s[..|s| - 1], t[..|t| - 1]);
      if s[|s| - 1] == t[|t| - 1] && LeftOf(sf, tf) {
        if r[|r| - 1] == s[|s| - 1] && LeftOf(rf, sf) {
          LeftOfChain(rf, sf, tf);
        } else {
          LeftOfChain(r, sf, tf);
        }
      } else {
        LeftOfChain(r, s, tf);
      }
    }
  }

  lemma {:induction false} KeptLeftOf(order: seq<Key>, n: nat, key: Key)
    requires n <= |order|
    ensures LeftOf(Kept(order, n, key), order[..n])
  {
    if 0 < n {
      KeptLeftOf(order, n - 1, key);
      assert order[..n][..n - 1] == order[..n - 1];
      var before := Kept(order, n - 1, key);
      assert (before + [order[n - 1]])[..|before|] == before;
    }
  }

  /** No key of the attempt is known any more; every other key keeps its record and its place. */
  ghost predicate Forgotten(b: Buckets, r: Buckets, keys: seq<Key>) {
    && (forall k | k in keys :: k !in r.store && k !in r.order)
    && (forall k | k !in keys :: (k in r.store <==> k in b.store) && (k in r.order <==> k in b.order))
    && (forall k | k in r.store :: k in b.store && r.store[k] == b.store[k])
    && LeftOf(r.order, b.order) && r.nextPruneAt == b.nextPruneAt
  }

  lemma {:induction false} DeletesForget(b: Buckets, keys: seq<Key>, n: nat)
    requires n <= |keys|
    ensures Forgotten(b, DeleteUpTo(b, keys, n), keys[..n])
  {
    if n == 0 {
      LeftOfSelf(b.order);
    } else {
      DeletesForget(b, keys, n - 1);
      var before, key := DeleteUpTo(b, keys, n - 1), keys[n - 1];
      KeptLeftOf(before.order, |before.order|, key);
      assert before.order[..|before.order|] == before.order;
      LeftOfChain(Delete(before, key).order, before.order, b.order);
      assert keys[..n] == keys[..n - 1] + [key];
    }
  }

  lemma SuccessForgets(b: Buckets, keys: seq<Key>)
    ensures Forgotten(b, RecordSuccess(b, keys), keys)
  {
    DeletesForget(b, keys, |keys|);
    assert keys[..|keys|] == keys;
  }

  // ---- The service ---------------------------------------------------------------------

  class LoginThrottle {
    var order: seq<Key>
    var store: map<Key, Attempts>
    var nextPruneAt: int
    const config: Config

    constructor (config: Config)
      requires config.Valid()
      ensures View() == NO_BUCKETS && this.config == config
    {
      this.config := config;
      order, store, nextPruneAt := [], map[], 0;
    }

    ghost function View(): Buckets
      reads this
    {
      Buckets(order, store, nextPruneAt)
    }

    method DeleteKey(key: Key)
      modifies this`order, this`store
      ensures View() == Delete(old(View()), key)
    {
      order := Without(order, key);
      store := map k | k in store && k != key :: store[k];
    }

    method Set(key: Key, rec: Attempts)
      modifies this`order, this`store
      ensures View() == Put(old(View()), key, rec)
    {
      if key !in store {
        order := order + [key];
      }
      store := store[key := rec];
    }

    method RefreshExisting(key: Key, now: int) returns (existing: Option<Attempts>)
      modifies this`order, this`store
      ensures View() == Refresh(config, old(View()), key, now)
      ensures existing == if key in store then Some(store[key]) else None
    {
      if key !in store {
        return None;
      }
      var rec := store[key];
      if rec.lockedUntil.Some? && rec.lockedUntil.value <= now {
        DeleteKey(key);
        return None;
      }
      if rec.lockedUntil.None? && now - rec.windowStart >= config.Window() {
        rec := rec.(windowStart := now, failures := 0);
        Set(key, rec);
      }
      existing := Some(rec);
    }

    method PruneExpired(now: int)
      modifies this
      ensures View() == MaybePrune(config, old(View()), now)
    {
      if now < nextPruneAt {
        return;
      }
      var kept: seq<Key> := [];
      for i := 0 to |order|
        invariant order == old(order) && store == old(store)
        invariant kept == Survivors(config, old(View()), i, now)
      {
        if order[i] in store && !Expired(config, store[order[i]], now) {
          kept := kept + [order[i]];
        }
      }
      order := kept;
      store := map k | k in store && !Expired(config, store[k], now) :: store[k];
      nextPruneAt := now + Max(1000, Min(config.Window(), 60_000));
    }

    method EvictOne()
      modifies this`order, this`store
      ensures View() == MakeRoom(old(View()))
    {
      if |store| < MAX_BUCKETS {
        return;
      }
      var i := 0;
      while i < |order|
        invariant i <= |order| && View() == old(View())
        invariant FirstUnlocked(View(), 0) == FirstUnlocked(View(), i)
      {
        if order[i] in store && store[order[i]].lockedUntil.None? {
          DeleteKey(order[i]);
          return;
        }
        i := i + 1;
      }
      if 0 < |order| {
        DeleteKey(order[0]);
      }
    }

    method GetOrCreateRecord(key: Key, now: int) returns (rec: Attempts)
      modifies this`order, this`store
      ensures View() == GetOrCreate(config, old(View()), key, now)
      ensures key in store && rec == store[key]
    {
      var existing := RefreshExisting(key, now);
      if existing.Some? {
        return existing.value;
      }
      EvictOne();
      rec := Attempts(now, 0, None, 0);
      Set(key, rec);
    }

    /** How long the fullest or longest locked of the buckets asks to wait. */
    method WaitForAll(keys: seq<Key>, now: int) returns (retryAfterSeconds: nat)
      modifies this`order, this`store
      ensures View() == RefreshUpTo(config, old(View()), keys, |keys|, now)
      ensures retryAfterSeconds == WaitUpTo(config, old(View()), keys, |keys|, now)
    {
      retryAfterSeconds := 0;
      for i := 0 to |keys|
        invariant View() == RefreshUpTo(config, old(View()), keys, i, now)
        invariant retryAfterSeconds == WaitUpTo(config, old(View()), keys, i, now)
      {
        var rec := RefreshExisting(keys[i], now);
        if rec.Some? && Locked(rec.value, now) {
          retryAfterSeconds := Max(retryAfterSeconds, SecondsUntil(rec.value.lockedUntil.value, now));
        } else if rec.Some? && rec.value.failures + rec.value.inFlight >= config.maxAttempts {
          retryAfterSeconds := Max(retryAfterSeconds, 1);
        }
      }
    }

    method ChargeAll(keys: seq<Key>, now: int)
      modifies this`order, this`store
      ensures View() == ChargeUpTo(config, old(View()), keys, |keys|, now)
    {
      for i := 0 to |keys|
        invariant View() == ChargeUpTo(config, old(View()), keys, i, now)
      {
        var rec := GetOrCreateRecord(keys[i], now);
        Set(keys[i], rec.(inFlight := rec.inFlight + 1));
      }
    }

    method ConsumeAttempt(keys: seq<Key>, now: int) returns (retryAfterSeconds: nat)
      modifies this
      ensures (View(), retryAfterSeconds) == Consume(config, old(View()), keys, now)
    {
      PruneExpired(now);
      retryAfterSeconds := WaitForAll(keys, now);
      if retryAfterSeconds == 0 {
        ChargeAll(keys, now);
      }
    }

    method ReleaseAttempt(keys: seq<Key>)
      modifies this`order, this`store
      ensures View() == Release(old(View()), keys)
    {
      for i := 0 to |keys|
        invariant View() == FreeUpTo(old(View()), keys, i)
      {
        if keys[i] in store {
          var rec := store[keys[i]];
          rec := rec.(inFlight := if rec.inFlight > 0 then rec.inFlight - 1 else 0);
          if rec.inFlight == 0 && rec.failures == 0 && rec.lockedUntil.None? {
            DeleteKey(keys[i]);
          } else {
            Set(keys[i], rec);
          }
        }
      }
    }

    method FailKey(key: Key, now: int)
      modifies this`order, this`store
      ensures View() == Fail(config, old(View()), key, now)
    {
      var rec := GetOrCreateRecord(key, now);
      rec := rec.(inFlight := if rec.inFlight > 0 then rec.inFlight - 1 else 0);
      rec := rec.(failures := rec.failures + 1);
      if rec.failures >= config.maxAttempts {
        // The window starts again, so that the lock lasts its full time.
        rec := rec.(lockedUntil := Some(now + config.Window()), windowStart := now, failures := 0);
      }
      Set(key, rec);
    }

    method RecordFailedAttempt(keys: seq<Key>, now: int)
      modifies this
      ensures View() == RecordFailure(config, old(View()), keys, now)
    {
      PruneExpired(now);
      ghost var pruned := View();
      for i := 0 to |keys|
        invariant View() == FailUpTo(config, pruned, keys, i, now)
      {
        FailKey(keys[i], now);
      }
    }

    method RecordSuccessfulAttempt(keys: seq<Key>)
      modifies this`order, this`store
      ensures View() == RecordSuccess(old(View()), keys)
      ensures Forgotten(old(View()), View(), keys)
    {
      SuccessForgets(View(), keys);
      for i := 0 to |keys|
        invariant View() == DeleteUpTo(old(View()), keys, i)
      {
        DeleteKey(keys[i]);
      }
    }
  }
}
