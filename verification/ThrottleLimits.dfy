/**
 What the operations of the login throttle do to each bucket, said of the records themselves: who is let
 in, what is counted, what is forgotten and what has to make room.
 */
module ThrottleLimits {
  import opened Results
  import opened Throttle
  import opened ThrottleRuns
  import opened ThrottleTheorems

  // ---- Housekeeping --------------------------------------------------------------------

  /** Over for good: a lock that has run out, or a window without a lock that has. */
  predicate Over(cfg: Config, rec: Attempts, now: int) {
    match rec.lockedUntil
    case Some(until) => until <= now
    case None => rec.windowStart + 1000 * cfg.windowSec <= now
  }

  /** When it is due, pruning drops exactly the buckets that are over and keeps the others in their places. */
  lemma PruneDropsWhatIsOver(cfg: Config, b: Buckets, now: int)
    requires Listed(b)
    ensures var r := MaybePrune(cfg, b, now);
      if now < b.nextPruneAt then r == b
      else
        && (forall k :: k in r.store <==> k in b.store && !Over(cfg, b.store[k], now))
        && (forall k | k in r.store :: r.store[k] == b.store[k])
        && LeftOf(r.order, b.order) && (forall k :: k in r.order <==> k in r.store)
        && r.nextPruneAt == now + (if cfg.windowSec <= 1 then 1000 else if 60 <= cfg.windowSec then 60_000 else 1000 * cfg.windowSec)
  {
    SurvivorsLeftOf(cfg, b, |b.order|, now);
    assert b.order[..|b.order|] == b.order;
  }

  lemma {:induction false} SurvivorsLeftOf(cfg: Config, b: Buckets, n: nat, now: int)
    requires n <= |b.order|
    ensures LeftOf(Survivors(cfg, b, n, now), b.order[..n])
  {
    if 0 < n {
      SurvivorsLeftOf(cfg, b, n - 1, now);
      assert b.order[..n][..n - 1] == b.order[..n - 1];
      var before := Survivors(cfg, b, n - 1, now);
      assert (before + [b.order[n - 1]])[..|before|] == before;
    }
  }

  predicate IsLocked(b: Buckets, k: Key) {
    k in b.store && b.store[k].lockedUntil.Some?
  }

  lemma {:induction false} FirstUnlockedAt(b: Buckets, n: nat) returns (j: nat)
    requires n <= |b.order| && FirstUnlocked(b, n).Some?
    ensures n <= j < |b.order| && FirstUnlocked(b, n) == Some(b.order[j])
    ensures forall i | n <= i < j :: b.order[i] in b.store ==> IsLocked(b, b.order[i])
    decreases |b.order| - n
  {
    if b.order[n] in b.store && b.store[b.order[n]].lockedUntil.None? {
      j := n;
    } else {
      j := FirstUnlockedAt(b, n + 1);
    }
  }

  /** A full map loses one bucket, the oldest that is not locked, or the oldest of all when every one is. */
  lemma OldestMakesRoom(b: Buckets) returns (j: nat)
    requires Listed(b) && MAX_BUCKETS <= |b.store|
    ensures j < |b.order| && MakeRoom(b) == Delete(b, b.order[j])
    ensures MakeRoom(b).store == map k | k in b.store && k != b.order[j] :: b.store[k]
    ensures !IsLocked(b, b.order[j]) ==> forall i | 0 <= i < j :: IsLocked(b, b.order[i])
    ensures IsLocked(b, b.order[j]) ==> j == 0 && forall k | k in b.store :: IsLocked(b, k)
  {
    OldestExists(b);
    if FirstUnlocked(b, 0).Some? {
      j := FirstUnlockedAt(b, 0);
      forall i | 0 <= i < j
        ensures IsLocked(b, b.order[i])
      {
        assert b.order[i] in b.order;
      }
    } else {
      j := 0;
      forall k | k in b.store
        ensures IsLocked(b, k)
      {
        assert k in b.order;
      }
    }
  }

  // ---- Who is let in -------------------------------------------------------------------

  /** A bucket that stands in the way: locked, or with as many failures and attempts under way as the limit;
      failures of a window that is past do not count. */
  predicate Blocks(cfg: Config, b: Buckets, key: Key, now: int) {
    && key in b.store
    && var rec := b.store[key];
    match rec.lockedUntil
    case Some(until) => now < until
    case None =>
      if now < rec.windowStart + 1000 * cfg.windowSec then cfg.maxAttempts <= rec.failures + rec.inFlight
      else now < b.nextPruneAt && cfg.maxAttempts <= rec.inFlight
  }

  lemma {:induction false} RefreshesElsewhere(cfg: Config, b: Buckets, keys: seq<Key>, n: nat, now: int, k: Key)
    requires cfg.Valid() && n <= |keys| && k !in keys[..n]
    ensures var r := RefreshUpTo(cfg, b, keys, n, now);
      (k in r.store <==> k in b.store) && (k in b.store ==> r.store[k] == b.store[k])
  {
    if 0 < n {
      assert keys[..n] == keys[..n - 1] + [keys[n - 1]];
      RefreshesElsewhere(cfg, b, keys, n - 1, now, k);
      RefreshMakesCurrent(cfg, RefreshUpTo(cfg, b, keys, n - 1, now), keys[n - 1], now);
    }
  }

  lemma NotAmongEarlier(keys: seq<Key>, m: nat)
    requires Distinct(keys) && m < |keys|
    ensures keys[m] !in keys[..m] && keys[m] !in keys[m + 1..]
  {
    forall i | 0 <= i < |keys| && i != m
      ensures keys[i] != keys[m]
    {
      assert if i < m then ThrottleRuns.Apart(keys, i, m) else ThrottleRuns.Apart(keys, m, i);
    }
  }

  lemma WaitIffBlocks(cfg: Config, b: Buckets, keys: seq<Key>, m: nat, now: int)
    requires cfg.Valid() && Distinct(keys) && m < |keys|
    ensures var refreshed := RefreshUpTo(cfg, MaybePrune(cfg, b, now), keys, |keys|, now);
      0 < Wait(cfg, refreshed, keys[m], now) <==> Blocks(cfg, b, keys[m], now)
  {
    var pruned := MaybePrune(cfg, b, now);
    WaitIsFinal(cfg, pruned, keys, m, |keys|, now);
    NotAmongEarlier(keys, m);
    RefreshesElsewhere(cfg, pruned, keys, m, now, keys[m]);
    hide MaybePrune, RefreshUpTo;
    assert RefreshUpTo(cfg, pruned, keys, m + 1, now) == Refresh(cfg, RefreshUpTo(cfg, pruned, keys, m, now), keys[m], now) by {
      OneMoreRefreshed(cfg, pruned, keys, m, now);
    }
    PrunedRecord(cfg, b, now, keys[m]);
  }

  lemma OneMoreRefreshed(cfg: Config, b: Buckets, keys: seq<Key>, m: nat, now: int)
    requires m < |keys|
    ensures RefreshUpTo(cfg, b, keys, m + 1, now) == Refresh(cfg, RefreshUpTo(cfg, b, keys, m, now), keys[m], now)
  {
  }

  lemma PrunedRecord(cfg: Config, b: Buckets, now: int, k: Key)
    ensures var r := MaybePrune(cfg, b, now);
      && (k in r.store <==> k in b.store && (now < b.nextPruneAt || !Over(cfg, b.store[k], now)))
      && (k in r.store ==> r.store[k] == b.store[k])
  {
  }

  /** An attempt is let in exactly when none of its buckets stands in the way. */
  lemma AdmittedIff(cfg: Config, b: Buckets, keys: seq<Key>, now: int)
    requires cfg.Valid() && Distinct(keys)
    ensures Consume(cfg, b, keys, now).1 == 0 <==> forall m | 0 <= m < |keys| :: !Blocks(cfg, b, keys[m], now)
  {
    hide Blocks, Consume, Wait;
    RefusalIsTheLongestWait(cfg, b, keys, now);
    forall m | 0 <= m < |keys|
      ensures HasRoom(cfg, RefreshUpTo(cfg, MaybePrune(cfg, b, now), keys, |keys|, now), keys[m], now) <==> !Blocks(cfg, b, keys[m], now)
    {
      WaitIffBlocks(cfg, b, keys, m, now);
    }
  }

  // ---- How long to wait ----------------------------------------------------------------

  /** A refused attempt is told at least the rest of every lock in its way, in whole seconds, and more than a
      second only when some lock lasts longer than a second less. */
  lemma WaitCoversLocks(cfg: Config, b: Buckets, keys: seq<Key>, now: int)
    requires cfg.Valid() && Distinct(keys)
    ensures var wait := Consume(cfg, b, keys, now).1;
      && (forall m | 0 <= m < |keys| && LiveLock(b, keys[m], now) :: b.store[keys[m]].lockedUntil.value <= now + 1000 * wait)
      && (1 < wait ==> exists m | 0 <= m < |keys| ::
            LiveLock(b, keys[m], now) && now + 1000 * (wait - 1) < b.store[keys[m]].lockedUntil.value)
  {
    var wait := Consume(cfg, b, keys, now).1;
    var refreshed := RefreshUpTo(cfg, MaybePrune(cfg, b, now), keys, |keys|, now);
    RefusalIsTheLongestWait(cfg, b, keys, now);
    forall m | 0 <= m < |keys|
      ensures LiveLock(b, keys[m], now) ==> b.store[keys[m]].lockedUntil.value <= now + 1000 * Wait(cfg, refreshed, keys[m], now)
      ensures 1 < Wait(cfg, refreshed, keys[m], now) ==>
        LiveLock(b, keys[m], now) && now + 1000 * (Wait(cfg, refreshed, keys[m], now) - 1) < b.store[keys[m]].lockedUntil.value
    {
      LockedWait(cfg, b, keys, m, now);
    }
  }

  lemma LockedWait(cfg: Config, b: Buckets, keys: seq<Key>, m: nat, now: int)
    requires cfg.Valid() && Distinct(keys) && m < |keys|
    ensures var wait := Wait(cfg, RefreshUpTo(cfg, MaybePrune(cfg, b, now), keys, |keys|, now), keys[m], now);
      && (LiveLock(b, keys[m], now) ==> b.store[keys[m]].lockedUntil.value <= now + 1000 * wait)
      && (1 < wait ==> LiveLock(b, keys[m], now) && now + 1000 * (wait - 1) < b.store[keys[m]].lockedUntil.value)
  {
    var pruned := MaybePrune(cfg, b, now);
    WaitIsFinal(cfg, pruned, keys, m, |keys|, now);
    NotAmongEarlier(keys, m);
    RefreshesElsewhere(cfg, pruned, keys, m, now, keys[m]);
    hide MaybePrune, RefreshUpTo;
    OneMoreRefreshed(cfg, pruned, keys, m, now);
    PrunedRecord(cfg, b, now, keys[m]);
  }

  // ---- What is counted -----------------------------------------------------------------

  ghost function KeySet(keys: seq<Key>): set<Key> {
    set k | k in keys
  }

  /** The map holds the buckets of the attempt without evicting any. */
  ghost predicate HasSpace(b: Buckets, keys: seq<Key>) {
    |b.store.Keys + KeySet(keys)| <= MAX_BUCKETS
  }

  /** The record an operation finds now: the one that is there unless its lock has run out, without its
      failures once its window is past; otherwise a fresh one. */
  function Standing(cfg: Config, b: Buckets, key: Key, now: int): Attempts {
    if key !in b.store then Attempts(now, 0, None, 0)
    else
      var rec := b.store[key];
      match rec.lockedUntil
      case Some(until) => if until <= now then Attempts(now, 0, None, 0) else rec
      case None => if rec.windowStart + 1000 * cfg.windowSec <= now then Attempts(now, 0, None, rec.inFlight) else rec
  }

  lemma CreatedIsStanding(cfg: Config, b: Buckets, key: Key, now: int)
    requires cfg.Valid()
    ensures GetOrCreate(cfg, b, key, now).store[key] == Standing(cfg, b, key, now)
  {
    hide MakeRoom;
  }

  /** With space, making a bucket leaves all others alone. */
  lemma CreatedAlone(cfg: Config, b: Buckets, keys: seq<Key>, key: Key, now: int, k: Key)
    requires HasSpace(b, keys) && key in keys
    ensures k != key ==> Untouched(b, GetOrCreate(cfg, b, key, now), k)
    ensures HasSpace(GetOrCreate(cfg, b, key, now), keys)
  {
    var current := Refresh(cfg, b, key, now);
    if key !in current.store {
      MissingIsSmaller(current.store, b.store.Keys + KeySet(keys), key);
    }
    SameKeysSpace(b, GetOrCreate(cfg, b, key, now), keys);
  }

  lemma MissingIsSmaller(m: map<Key, Attempts>, all: set<Key>, key: Key)
    requires m.Keys <= all && key in all && key !in m
    ensures |m| < |all|
  {
    SetNotLarger(m.Keys, all - {key});
    assert |m| == |m.Keys|;
  }

  lemma {:induction false} SetNotLarger(s: set<Key>, t: set<Key>)
    requires s <= t
    ensures |s| <= |t|
    decreases s
  {
    if s != {} {
      var x :| x in s;
      SetNotLarger(s - {x}, t - {x});
    }
  }

  /** The bucket has this record. */
  predicate Has(b: Buckets, k: Key, rec: Attempts) {
    k in b.store && b.store[k] == rec
  }

  /** The bucket is as it was, there or not. */
  predicate Untouched(b: Buckets, r: Buckets, k: Key) {
    (k in r.store <==> k in b.store) && (k in b.store ==> r.store[k] == b.store[k])
  }

  lemma PrefixKeys(keys: seq<Key>, n: nat)
    requires Distinct(keys) && 0 < n <= |keys|
    ensures keys[..n] == keys[..n - 1] + [keys[n - 1]] && keys[n - 1] !in keys[..n - 1] && keys[n - 1] in keys
  {
    NotAmongEarlier(keys, n - 1);
  }

  lemma {:induction false} FailuresCounted(cfg: Config, b: Buckets, keys: seq<Key>, n: nat, now: int, k: Key)
    requires cfg.Valid() && Distinct(keys) && HasSpace(b, keys) && n <= |keys|
    ensures var r := FailUpTo(cfg, b, keys, n, now);
      if k in keys[..n] then Has(r, k, Failed(cfg, Standing(cfg, b, k, now), now)) else Untouched(b, r, k)
    ensures HasSpace(FailUpTo(cfg, b, keys, n, now), keys)
  {
    hide Standing, Failed, HasSpace, GetOrCreate;
    if 0 < n {
      FailuresCounted(cfg, b, keys, n - 1, now, k);
      FailuresCounted(cfg, b, keys, n - 1, now, keys[n - 1]);
      var before, key := FailUpTo(cfg, b, keys, n - 1, now), keys[n - 1];
      PrefixKeys(keys, n);
      CreatedIsStanding(cfg, before, key, now);
      CreatedAlone(cfg, before, keys, key, now, k);
      SameStanding(cfg, b, before, key, now);
      SameKeysSpace(GetOrCreate(cfg, before, key, now), Fail(cfg, before, key, now), keys);
    }
  }

  lemma SameStanding(cfg: Config, b: Buckets, c: Buckets, key: Key, now: int)
    requires Untouched(b, c, key)
    ensures Standing(cfg, c, key, now) == Standing(cfg, b, key, now)
  {
  }

  lemma SameKeysSpace(b: Buckets, c: Buckets, keys: seq<Key>)
    requires HasSpace(b, keys) && c.store.Keys <= b.store.Keys + KeySet(keys)
    ensures HasSpace(c, keys)
  {
    SetNotLarger(c.store.Keys + KeySet(keys), b.store.Keys + KeySet(keys));
  }

  lemma {:induction false} ChargesCounted(cfg: Config, b: Buckets, keys: seq<Key>, n: nat, now: int, k: Key)
    requires cfg.Valid() && Distinct(keys) && HasSpace(b, keys) && n <= |keys|
    ensures var r := ChargeUpTo(cfg, b, keys, n, now);
      if k in keys[..n] then Has(r, k, OneMore(Standing(cfg, b, k, now))) else Untouched(b, r, k)
    ensures HasSpace(ChargeUpTo(cfg, b, keys, n, now), keys)
  {
    hide Standing, HasSpace, GetOrCreate;
    if 0 < n {
      ChargesCounted(cfg, b, keys, n - 1, now, k);
      ChargesCounted(cfg, b, keys, n - 1, now, keys[n - 1]);
      var before, key := ChargeUpTo(cfg, b, keys, n - 1, now), keys[n - 1];
      PrefixKeys(keys, n);
      CreatedIsStanding(cfg, before, key, now);
      CreatedAlone(cfg, before, keys, key, now, k);
      SameStanding(cfg, b, before, key, now);
      SameKeysSpace(GetOrCreate(cfg, before, key, now), Charge(cfg, before, key, now), keys);
    }
  }

  /** One more attempt under way. */
  function OneMore(rec: Attempts): Attempts {
    rec.(inFlight := rec.inFlight + 1)
  }

  /** A failure counts one more against every bucket of the attempt and ends its reservation; the failure that
      reaches the limit locks the bucket for a window and starts the count again.  No other bucket changes. */
  function AfterFailure(cfg: Config, rec: Attempts, now: int): Attempts {
    var inFlight := if rec.inFlight == 0 then 0 else rec.inFlight - 1;
    if rec.failures + 1 < cfg.maxAttempts then Attempts(rec.windowStart, rec.failures + 1, rec.lockedUntil, inFlight)
    else Attempts(now, 0, Some(now + 1000 * cfg.windowSec), inFlight)
  }

  lemma FailureCountsEverywhere(cfg: Config, b: Buckets, keys: seq<Key>, now: int, k: Key)
    requires cfg.Valid() && Distinct(keys) && HasSpace(b, keys)
    ensures var r, pruned := RecordFailure(cfg, b, keys, now), MaybePrune(cfg, b, now);
      if k in keys then Has(r, k, AfterFailure(cfg, Standing(cfg, pruned, k, now), now)) else Untouched(pruned, r, k)
  {
    hide MaybePrune, HasSpace, FailUpTo, Standing, Untouched, Failed, AfterFailure;
    var pruned := MaybePrune(cfg, b, now);
    PrunedSpace(cfg, b, keys, now);
    FailuresCounted(cfg, pruned, keys, |keys|, now, k);
    assert keys[..|keys|] == keys;
    FailedIs(cfg, Standing(cfg, pruned, k, now), now);
  }

  lemma PrunedSpace(cfg: Config, b: Buckets, keys: seq<Key>, now: int)
    requires HasSpace(b, keys)
    ensures HasSpace(MaybePrune(cfg, b, now), keys)
  {
    SameKeysSpace(b, MaybePrune(cfg, b, now), keys);
  }

  lemma FailedIs(cfg: Config, rec: Attempts, now: int)
    ensures Failed(cfg, rec, now) == AfterFailure(cfg, rec, now)
  {
  }

  /** An attempt that is let in is under way in every one of its buckets, and in no other. */
  lemma AdmissionCharges(cfg: Config, b: Buckets, keys: seq<Key>, now: int, k: Key)
    requires cfg.Valid() && Distinct(keys) && HasSpace(b, keys) && Consume(cfg, b, keys, now).1 == 0
    ensures var r, pruned := Consume(cfg, b, keys, now).0, MaybePrune(cfg, b, now);
      if k in keys then Has(r, k, OneMore(Standing(cfg, pruned, k, now))) else Untouched(pruned, r, k)
  {
    var pruned := MaybePrune(cfg, b, now);
    var refreshed := RefreshUpTo(cfg, pruned, keys, |keys|, now);
    RefreshedKeys(cfg, pruned, keys, |keys|, now);
    SameKeysSpace(b, refreshed, keys);
    hide MaybePrune, HasSpace, RefreshUpTo, ChargeUpTo, Standing, WaitUpTo;
    ChargesCounted(cfg, refreshed, keys, |keys|, now, k);
    assert keys[..|keys|] == keys;
    if k in keys {
      var m :| 0 <= m < |keys| && keys[m] == k;
      RefreshedStands(cfg, pruned, keys, m, now);
    } else {
      RefreshesElsewhere(cfg, pruned, keys, |keys|, now, k);
    }
  }

  lemma {:induction false} RefreshedKeys(cfg: Config, b: Buckets, keys: seq<Key>, n: nat, now: int)
    requires n <= |keys|
    ensures RefreshUpTo(cfg, b, keys, n, now).store.Keys <= b.store.Keys
  {
    if 0 < n {
      RefreshedKeys(cfg, b, keys, n - 1, now);
    }
  }

  lemma RefreshedStands(cfg: Config, b: Buckets, keys: seq<Key>, m: nat, now: int)
    requires cfg.Valid() && Distinct(keys) && m < |keys|
    ensures Standing(cfg, RefreshUpTo(cfg, b, keys, |keys|, now), keys[m], now) == Standing(cfg, b, keys[m], now)
  {
    var key := keys[m];
    NotAmongEarlier(keys, m);
    RefreshesElsewhere(cfg, b, keys, m, now, key);
    OneMoreRefreshed(cfg, b, keys, m, now);
    RefreshesAfter(cfg, b, keys, m + 1, |keys|, now, key);
    hide RefreshUpTo;
  }

  lemma {:induction false} RefreshesAfter(cfg: Config, b: Buckets, keys: seq<Key>, m: nat, n: nat, now: int, k: Key)
    requires cfg.Valid() && m <= n <= |keys| && k !in keys[m..]
    ensures var r, before := RefreshUpTo(cfg, b, keys, n, now), RefreshUpTo(cfg, b, keys, m, now);
      (k in r.store <==> k in before.store) && (k in before.store ==> r.store[k] == before.store[k])
  {
    if m < n {
      RefreshesAfter(cfg, b, keys, m, n - 1, now, k);
      assert keys[n - 1] == keys[m..][n - 1 - m];
      RefreshMakesCurrent(cfg, RefreshUpTo(cfg, b, keys, n - 1, now), keys[n - 1], now);
    }
  }

  /** A release ends one reservation in every bucket of the attempt; what then counts nothing is dropped, and
      nothing else changes. */
  lemma {:induction false} ReleaseEnds(b: Buckets, keys: seq<Key>, n: nat, k: Key)
    requires Distinct(keys) && n <= |keys|
    ensures var r := FreeUpTo(b, keys, n);
      if k in keys[..n] && k in b.store then
        var rec := b.store[k];
        if rec.inFlight <= 1 && rec.failures == 0 && rec.lockedUntil.None? then k !in r.store
        else k in r.store && r.store[k] == rec.(inFlight := if rec.inFlight == 0 then 0 else rec.inFlight - 1)
      else (k in r.store <==> k in b.store) && (k in b.store ==> r.store[k] == b.store[k])
    ensures LeftOf(FreeUpTo(b, keys, n).order, b.order)
  {
    if n == 0 {
      LeftOfSelf(b.order);
    } else {
      ReleaseEnds(b, keys, n - 1, k);
      PrefixKeys(keys, n);
      var before, key := FreeUpTo(b, keys, n - 1), keys[n - 1];
      KeptLeftOf(before.order, |before.order|, key);
      assert before.order[..|before.order|] == before.order;
      LeftOfSelf(before.order);
      LeftOfChain(Free(before, key).order, before.order, b.order);
    }
  }

  // ---- After a success, and at the limit -----------------------------------------------

  /** No lock, and at most n failures counted. */
  predicate FewFailures(b: Buckets, key: Key, n: nat) {
    key in b.store ==> b.store[key].lockedUntil.None? && b.store[key].failures <= n
  }

  lemma {:induction false} FewNeverLock(cfg: Config, b: Buckets, key: Key, times: seq<int>, n: nat)
    requires cfg.Valid() && key !in b.store && n <= |times| && n < cfg.maxAttempts
    ensures FewFailures(FailedAt(cfg, b, key, times, n), key, n)
  {
    hide RecordFailure;
    if 0 < n {
      FewNeverLock(cfg, b, key, times, n - 1);
      OneMoreFailure(cfg, FailedAt(cfg, b, key, times, n - 1), key, times[n - 1], n);
    }
  }

  lemma OneMoreFailure(cfg: Config, b: Buckets, key: Key, now: int, n: nat)
    requires cfg.Valid() && 0 < n < cfg.maxAttempts && FewFailures(b, key, n - 1)
    ensures FewFailures(RecordFailure(cfg, b, [key], now), key, n)
  {
    hide MakeRoom;
    var pruned := MaybePrune(cfg, b, now);
    assert FailUpTo(cfg, pruned, [key], 1, now) == Fail(cfg, FailUpTo(cfg, pruned, [key], 0, now), key, now);
  }

  /** After a success fewer further failures than the limit never lock, whenever they come. */
  lemma SuccessClearsFailures(cfg: Config, b: Buckets, keys: seq<Key>, key: Key, times: seq<int>)
    requires cfg.Valid() && key in keys && |times| < cfg.maxAttempts
    ensures FewFailures(FailedAt(cfg, RecordSuccess(b, keys), key, times, |times|), key, |times|)
  {
    SuccessForgets(b, keys);
    FewNeverLock(cfg, RecordSuccess(b, keys), key, times, |times|);
  }

  /** The buckets after as many attempts that have not ended. */
  function ConsumedAt(cfg: Config, b: Buckets, key: Key, times: seq<int>, n: nat): Buckets
    requires n <= |times|
  {
    if n == 0 then b else Consume(cfg, ConsumedAt(cfg, b, key, times, n - 1), [key], times[n - 1]).0
  }

  /** Within a window as many attempts as the limit are let in side by side, and no more. */
  lemma {:induction false} LimitAdmits(cfg: Config, b: Buckets, key: Key, times: seq<int>, n: nat)
    requires cfg.Valid() && BucketsOk(cfg, b) && key !in b.store && WithinWindow(cfg, times) && n < |times| && n <= cfg.maxAttempts
    ensures var r := ConsumedAt(cfg, b, key, times, n);
      && (if n == 0 then r == b else key in r.store && r.store[key] == Attempts(times[0], 0, None, n))
      && (Consume(cfg, r, [key], times[n]).1 == 0 <==> n < cfg.maxAttempts)
  {
    hide Consume;
    var r := ConsumedAt(cfg, b, key, times, n);
    if 0 < n {
      LimitAdmits(cfg, b, key, times, n - 1);
      OneAdmission(cfg, ConsumedAt(cfg, b, key, times, n - 1), key, times[n - 1]);
    }
    assert Distinct([key]);
    AdmittedIff(cfg, r, [key], times[n]);
    assert [key][0] == key;
  }

  /** One attempt on one bucket, space or not. */
  lemma OneAdmission(cfg: Config, b: Buckets, key: Key, now: int)
    requires cfg.Valid() && Consume(cfg, b, [key], now).1 == 0
    requires key in b.store ==> b.store[key].lockedUntil.None? && now < b.store[key].windowStart + 1000 * cfg.windowSec
    ensures var r := Consume(cfg, b, [key], now).0;
      key in r.store && r.store[key] == OneMore(Found(b, key, now))
  {
    hide MakeRoom;
    var pruned := MaybePrune(cfg, b, now);
    assert RefreshUpTo(cfg, pruned, [key], 1, now) == Refresh(cfg, RefreshUpTo(cfg, pruned, [key], 0, now), key, now);
    var refreshed := RefreshUpTo(cfg, pruned, [key], 1, now);
    assert ChargeUpTo(cfg, refreshed, [key], 1, now) == Charge(cfg, ChargeUpTo(cfg, refreshed, [key], 0, now), key, now);
  }
}
