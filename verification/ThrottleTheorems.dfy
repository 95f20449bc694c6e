/** What the login throttle guarantees over every run. */
module ThrottleTheorems {
  import opened Results
  import opened Throttle
  import opened ThrottleRuns

  /** attempts holds the buckets of every admitted attempt that has not ended. */
  datatype Watch = Watch(buckets: Buckets, attempts: seq<seq<Key>>, clock: int)

  datatype Verdict = Threw | Wrong | Right

  /** What happens, and how many milliseconds after the step before. */
  datatype Step =
    | Start(account: string, ip: Option<string>, later: nat)
    | End(attempt: nat, verdict: Verdict, later: nat)

  const QUIET := Watch(NO_BUCKETS, [], 0)

  function Remove(attempts: seq<seq<Key>>, n: nat): seq<seq<Key>>
    requires n < |attempts|
  {
    attempts[..n] + attempts[n + 1..]
  }

  function After(cfg: Config, b: Buckets, keys: seq<Key>, verdict: Verdict, now: int): Buckets {
    match verdict
    case Threw => Release(b, keys)
    case Wrong => RecordFailure(cfg, b, keys, now)
    case Right => RecordSuccess(b, keys)
  }

  function Next(cfg: Config, w: Watch, step: Step): Watch {
    var now := w.clock + step.later;
    match step
    case Start(account, ip, _) =>
      var keys := BucketKeys(account, ip);
      var (b, wait) := Consume(cfg, w.buckets, keys, now);
      Watch(b, if wait == 0 then w.attempts + [keys] else w.attempts, now)
    case End(n, verdict, _) =>
      if |w.attempts| <= n then w.(clock := now)
      else Watch(After(cfg, w.buckets, w.attempts[n], verdict, now), Remove(w.attempts, n), now)
  }

  function Run(cfg: Config, w: Watch, steps: seq<Step>): Watch
    decreases |steps|
  {
    if steps == [] then w else Run(cfg, Next(cfg, w, steps[0]), steps[1..])
  }

  predicate Reserved(w: Watch, key: Key) {
    InFlight(w.buckets, key) <= Outstanding(w.attempts, |w.attempts|, key)
  }

  predicate LockBounded(cfg: Config, b: Buckets, key: Key, now: int) {
    key in b.store && b.store[key].lockedUntil.Some? ==> b.store[key].lockedUntil.value <= now + cfg.Window()
  }

  ghost predicate Inv(cfg: Config, w: Watch) {
    && BucketsOk(cfg, w.buckets)
    && (forall k :: Reserved(w, k))
    && (forall k :: LockBounded(cfg, w.buckets, k, w.clock))
    && (forall n | 0 <= n < |w.attempts| :: Distinct(w.attempts[n]))
  }

  // ---- Reservations --------------------------------------------------------------------

  function Less(n: nat, m: nat): nat {
    if m <= n then n - m else 0
  }

  lemma PrunedReservations(cfg: Config, b: Buckets, now: int, key: Key)
    ensures InFlight(MaybePrune(cfg, b, now), key) <= InFlight(b, key)
  {
  }

  lemma CreatedReservations(cfg: Config, b: Buckets, key: Key, now: int, k: Key)
    ensures InFlight(GetOrCreate(cfg, b, key, now), k) <= InFlight(b, k)
  {
  }

  lemma {:induction false} RefreshedReservations(cfg: Config, b: Buckets, keys: seq<Key>, n: nat, now: int, k: Key)
    requires n <= |keys|
    ensures InFlight(RefreshUpTo(cfg, b, keys, n, now), k) <= InFlight(b, k)
  {
    if 0 < n {
      RefreshedReservations(cfg, b, keys, n - 1, now, k);
    }
  }

  lemma {:induction false} ChargedReservations(cfg: Config, b: Buckets, keys: seq<Key>, n: nat, now: int, k: Key)
    requires n <= |keys|
    ensures InFlight(ChargeUpTo(cfg, b, keys, n, now), k) <= InFlight(b, k) + Mentions(keys, n, k)
  {
    if 0 < n {
      ChargedReservations(cfg, b, keys, n - 1, now, k);
      CreatedReservations(cfg, ChargeUpTo(cfg, b, keys, n - 1, now), keys[n - 1], now, k);
    }
  }

  lemma {:induction false} FailedReservations(cfg: Config, b: Buckets, keys: seq<Key>, n: nat, now: int, k: Key)
    requires n <= |keys|
    ensures InFlight(FailUpTo(cfg, b, keys, n, now), k) <= Less(InFlight(b, k), Mentions(keys, n, k))
  {
    if 0 < n {
      FailedReservations(cfg, b, keys, n - 1, now, k);
      CreatedReservations(cfg, FailUpTo(cfg, b, keys, n - 1, now), keys[n - 1], now, k);
    }
  }

  lemma {:induction false} FreedReservations(b: Buckets, keys: seq<Key>, n: nat, k: Key)
    requires n <= |keys|
    ensures InFlight(FreeUpTo(b, keys, n), k) <= Less(InFlight(b, k), Mentions(keys, n, k))
  {
    if 0 < n {
      FreedReservations(b, keys, n - 1, k);
    }
  }

  lemma {:induction false} DroppedReservations(b: Buckets, keys: seq<Key>, n: nat, k: Key)
    requires n <= |keys|
    ensures InFlight(DeleteUpTo(b, keys, n), k) <= if 0 < Mentions(keys, n, k) then 0 else InFlight(b, k)
  {
    if 0 < n {
      DroppedReservations(b, keys, n - 1, k);
    }
  }

  lemma EndedReservations(cfg: Config, b: Buckets, keys: seq<Key>, verdict: Verdict, now: int, k: Key)
    ensures InFlight(After(cfg, b, keys, verdict, now), k) <= Less(InFlight(b, k), Mentions(keys, |keys|, k))
         || (InFlight(After(cfg, b, keys, verdict, now), k) == 0)
  {
    match verdict
    case Threw => FreedReservations(b, keys, |keys|, k);
    case Wrong =>
      PrunedReservations(cfg, b, now, k);
      FailedReservations(cfg, MaybePrune(cfg, b, now), keys, |keys|, now, k);
    case Right => DroppedReservations(b, keys, |keys|, k);
  }

  lemma {:induction false} SameOutstanding(a: seq<seq<Key>>, b: seq<seq<Key>>, n: nat, k: Key)
    requires n <= |a| && n <= |b| && forall i | 0 <= i < n :: a[i] == b[i]
    ensures Outstanding(a, n, k) == Outstanding(b, n, k)
  {
    if 0 < n {
      SameOutstanding(a, b, n - 1, k);
    }
  }

  lemma OutstandingAppended(attempts: seq<seq<Key>>, keys: seq<Key>, k: Key)
    ensures Outstanding(attempts + [keys], |attempts| + 1, k)
         == Outstanding(attempts, |attempts|, k) + Mentions(keys, |keys|, k)
  {
    SameOutstanding(attempts, attempts + [keys], |attempts|, k);
  }

  lemma {:induction false} OutstandingRemoved(attempts: seq<seq<Key>>, n: nat, m: nat, k: Key)
    requires n < m <= |attempts|
    ensures Outstanding(Remove(attempts, n), m - 1, k) + Mentions(attempts[n], |attempts[n]|, k)
         == Outstanding(attempts, m, k)
  {
    if m == n + 1 {
      SameOutstanding(attempts, Remove(attempts, n), n, k);
    } else {
      OutstandingRemoved(attempts, n, m - 1, k);
    }
  }

  // ---- Locks ---------------------------------------------------------------------------

  predicate LiveLock(b: Buckets, key: Key, now: int) {
    key in b.store && Locked(b.store[key], now)
  }

  /** The lock of this bucket is still there, and no shorter. */
  predicate LockKept(b: Buckets, next: Buckets, key: Key) {
    && key in b.store && key in next.store
    && b.store[key].lockedUntil.Some? && next.store[key].lockedUntil.Some?
    && b.store[key].lockedUntil.value <= next.store[key].lockedUntil.value
  }

  /** The map is full of locks. */
  ghost predicate AllLocked(b: Buckets) {
    MAX_BUCKETS <= |b.store| && forall k | k in b.store :: b.store[k].lockedUntil.Some?
  }

  lemma PruneKeepsLock(cfg: Config, b: Buckets, key: Key, now: int)
    requires LiveLock(b, key, now)
    ensures LockKept(b, MaybePrune(cfg, b, now), key)
  {
  }

  lemma MakeRoomKeepsLock(b: Buckets, key: Key)
    requires Listed(b) && !AllLocked(b) && key in b.store && b.store[key].lockedUntil.Some?
    ensures LockKept(b, MakeRoom(b), key)
  {
    if MAX_BUCKETS <= |b.store| {
      var k :| k in b.store && b.store[k].lockedUntil.None?;
      assert k in b.order;
      var j :| 0 <= j < |b.order| && b.order[j] == k;
    }
  }

  /** Making a bucket drops a live lock only when the map is full of locks. */
  lemma CreateKeepsLock(cfg: Config, b: Buckets, key: Key, now: int, k: Key)
    requires cfg.Valid() && BucketsOk(cfg, b) && LiveLock(b, k, now) && !AllLocked(b)
    ensures LockKept(b, GetOrCreate(cfg, b, key, now), k)
  {
    var current := Refresh(cfg, b, key, now);
    RefreshKeeps(cfg, b, key, now);
    RefreshKeepsLock(cfg, b, key, now, k);
    if key !in current.store {
      if AllLocked(current) {
        RefreshedNotFuller(cfg, b, key, now);
      }
      MakeRoomKeepsLock(current, k);
    }
  }

  lemma RefreshKeepsLock(cfg: Config, b: Buckets, key: Key, now: int, k: Key)
    requires LiveLock(b, k, now)
    ensures LockKept(b, Refresh(cfg, b, key, now), k)
    ensures Refresh(cfg, b, key, now).store[k] == b.store[k]
  {
  }

  lemma MissingIsFewer(small: map<Key, Attempts>, large: map<Key, Attempts>, key: Key)
    requires small.Keys <= large.Keys
    ensures key in large && key !in small ==> |small| < |large|
  {
    assert |small| == |small.Keys| && |large| == |large.Keys|;
    if key !in small {
      SubsetNotLarger(small.Keys, large.Keys - {key});
    }
  }

  /** A refresh that leaves the map full of locks found it full of locks. */
  lemma RefreshedNotFuller(cfg: Config, b: Buckets, key: Key, now: int)
    requires BucketsOk(cfg, b) && AllLocked(Refresh(cfg, b, key, now))
    ensures AllLocked(b)
  {
    var r := Refresh(cfg, b, key, now);
    MissingIsFewer(r.store, b.store, key);
    assert key in b.store ==> key in r.store && r.store[key].lockedUntil.Some?;
    assert r == b;
  }

  lemma {:induction false} RefreshesKeepLock(cfg: Config, b: Buckets, keys: seq<Key>, n: nat, now: int, k: Key)
    requires n <= |keys| && LiveLock(b, k, now)
    ensures LockKept(b, RefreshUpTo(cfg, b, keys, n, now), k)
    ensures RefreshUpTo(cfg, b, keys, n, now).store[k] == b.store[k]
  {
    if 0 < n {
      RefreshesKeepLock(cfg, b, keys, n - 1, now, k);
      RefreshKeepsLock(cfg, RefreshUpTo(cfg, b, keys, n - 1, now), keys[n - 1], now, k);
    }
  }

  lemma FailKeepsLock(cfg: Config, b: Buckets, key: Key, now: int, k: Key)
    requires cfg.Valid() && BucketsOk(cfg, b) && LiveLock(b, k, now) && !AllLocked(b)
    requires LockBounded(cfg, b, k, now)
    ensures LockKept(b, Fail(cfg, b, key, now), k)
    ensures LockBounded(cfg, Fail(cfg, b, key, now), k, now)
  {
    CreateKeepsLock(cfg, b, key, now, k);
    CreateKeepsRecord(cfg, b, key, now, k);
  }

  /** What is not replaced is not changed, except for a new window. */
  lemma CreateKeepsRecord(cfg: Config, b: Buckets, key: Key, now: int, k: Key)
    ensures var g := GetOrCreate(cfg, b, key, now);
      k in g.store && g.store[k].lockedUntil.Some? ==> k in b.store && g.store[k] == b.store[k]
  {
  }

  /** Somewhere before the n-th bucket was charged for a failure, the map was full of locks. */
  ghost predicate FullBefore(cfg: Config, b: Buckets, keys: seq<Key>, n: nat, now: int)
    requires n <= |keys|
  {
    exists m | 0 <= m < n :: AllLocked(FailUpTo(cfg, b, keys, m, now))
  }

  lemma {:induction false} FailuresKeepLock(cfg: Config, b: Buckets, keys: seq<Key>, n: nat, now: int, k: Key)
    requires cfg.Valid() && BucketsOk(cfg, b) && n <= |keys| && LiveLock(b, k, now) && LockBounded(cfg, b, k, now)
    requires !FullBefore(cfg, b, keys, n, now)
    ensures var r := FailUpTo(cfg, b, keys, n, now);
      LockKept(b, r, k) && LiveLock(r, k, now) && LockBounded(cfg, r, k, now)
  {
    hide Fail, AllLocked, BucketsOk;
    if 0 < n {
      var before := FailUpTo(cfg, b, keys, n - 1, now);
      assert !AllLocked(before);
      forall m | 0 <= m < n - 1
        ensures !AllLocked(FailUpTo(cfg, b, keys, m, now))
      {
      }
      FailuresKeepLock(cfg, b, keys, n - 1, now, k);
      FailuresKeep(cfg, b, keys, n - 1, now);
      FailKeepsLock(cfg, before, keys[n - 1], now, k);
    }
  }

  ghost predicate FullWhileCharging(cfg: Config, b: Buckets, keys: seq<Key>, n: nat, now: int)
    requires n <= |keys|
  {
    exists m | 0 <= m < n :: AllLocked(ChargeUpTo(cfg, b, keys, m, now))
  }

  lemma ChargeKeepsLock(cfg: Config, b: Buckets, key: Key, now: int, k: Key)
    requires cfg.Valid() && BucketsOk(cfg, b) && LiveLock(b, k, now) && !AllLocked(b)
    ensures LockKept(b, Charge(cfg, b, key, now), k) && LiveLock(Charge(cfg, b, key, now), k, now)
  {
    CreateKeepsLock(cfg, b, key, now, k);
  }

  lemma {:induction false} ChargesKeepLock(cfg: Config, b: Buckets, keys: seq<Key>, n: nat, now: int, k: Key)
    requires cfg.Valid() && BucketsOk(cfg, b) && n <= |keys| && Distinct(keys) && LiveLock(b, k, now)
    requires forall m | 0 <= m < |keys| :: Current(cfg, b, keys[m], now) && HasRoom(cfg, b, keys[m], now)
    requires !FullWhileCharging(cfg, b, keys, n, now)
    ensures var r := ChargeUpTo(cfg, b, keys, n, now); LockKept(b, r, k) && LiveLock(r, k, now)
  {
    hide Charge, AllLocked, BucketsOk, Current, HasRoom;
    if 0 < n {
      var before := ChargeUpTo(cfg, b, keys, n - 1, now);
      assert !AllLocked(before);
      forall m | 0 <= m < n - 1
        ensures !AllLocked(ChargeUpTo(cfg, b, keys, m, now))
      {
      }
      ChargesKeepLock(cfg, b, keys, n - 1, now, k);
      ChargesKeep(cfg, b, keys, n - 1, now);
      ChargeKeepsLock(cfg, before, keys[n - 1], now, k);
    }
  }

  lemma {:induction false} FreesKeepLock(b: Buckets, keys: seq<Key>, n: nat, k: Key)
    requires n <= |keys| && k in b.store && b.store[k].lockedUntil.Some?
    ensures LockKept(b, FreeUpTo(b, keys, n), k)
    ensures FreeUpTo(b, keys, n).store[k].lockedUntil == b.store[k].lockedUntil
  {
    if 0 < n {
      FreesKeepLock(b, keys, n - 1, k);
    }
  }

  lemma {:induction false} DeletesKeepLock(b: Buckets, keys: seq<Key>, n: nat, k: Key)
    requires n <= |keys| && k in b.store && b.store[k].lockedUntil.Some? && k !in keys
    ensures LockKept(b, DeleteUpTo(b, keys, n), k)
    ensures DeleteUpTo(b, keys, n).store[k] == b.store[k]
  {
    if 0 < n {
      DeletesKeepLock(b, keys, n - 1, k);
    }
  }

  // ---- All steps -----------------------------------------------------------------------

  lemma ConsumeReserves(cfg: Config, b: Buckets, keys: seq<Key>, now: int, k: Key)
    ensures var (after, wait) := Consume(cfg, b, keys, now);
      InFlight(after, k) <= InFlight(b, k) + if wait == 0 then Mentions(keys, |keys|, k) else 0
  {
    var pruned := MaybePrune(cfg, b, now);
    PrunedReservations(cfg, b, now, k);
    RefreshedReservations(cfg, pruned, keys, |keys|, now, k);
    ChargedReservations(cfg, RefreshUpTo(cfg, pruned, keys, |keys|, now), keys, |keys|, now, k);
  }

  lemma StartReserves(cfg: Config, w: Watch, step: Step, k: Key)
    requires step.Start? && Reserved(w, k)
    ensures Reserved(Next(cfg, w, step), k)
  {
    var keys := BucketKeys(step.account, step.ip);
    ConsumeReserves(cfg, w.buckets, keys, w.clock + step.later, k);
    OutstandingAppended(w.attempts, keys, k);
  }

  lemma EndReserves(cfg: Config, w: Watch, step: Step, k: Key)
    requires step.End? && Reserved(w, k)
    ensures Reserved(Next(cfg, w, step), k)
  {
    if step.attempt < |w.attempts| {
      var keys := w.attempts[step.attempt];
      EndedReservations(cfg, w.buckets, keys, step.verdict, w.clock + step.later, k);
      OutstandingRemoved(w.attempts, step.attempt, |w.attempts|, k);
    }
  }

  // No operation leaves a lock that ends later than a whole window from now.

  lemma {:induction false} RefreshesBounded(cfg: Config, b: Buckets, keys: seq<Key>, n: nat, now: int, k: Key)
    requires n <= |keys| && LockBounded(cfg, b, k, now)
    ensures LockBounded(cfg, RefreshUpTo(cfg, b, keys, n, now), k, now)
  {
    if 0 < n {
      RefreshesBounded(cfg, b, keys, n - 1, now, k);
    }
  }

  lemma {:induction false} ChargesBounded(cfg: Config, b: Buckets, keys: seq<Key>, n: nat, now: int, k: Key)
    requires n <= |keys| && LockBounded(cfg, b, k, now)
    ensures LockBounded(cfg, ChargeUpTo(cfg, b, keys, n, now), k, now)
  {
    if 0 < n {
      ChargesBounded(cfg, b, keys, n - 1, now, k);
      CreateKeepsRecord(cfg, ChargeUpTo(cfg, b, keys, n - 1, now), keys[n - 1], now, k);
    }
  }

  lemma {:induction false} FailuresBounded(cfg: Config, b: Buckets, keys: seq<Key>, n: nat, now: int, k: Key)
    requires n <= |keys| && LockBounded(cfg, b, k, now)
    ensures LockBounded(cfg, FailUpTo(cfg, b, keys, n, now), k, now)
  {
    if 0 < n {
      FailuresBounded(cfg, b, keys, n - 1, now, k);
      CreateKeepsRecord(cfg, FailUpTo(cfg, b, keys, n - 1, now), keys[n - 1], now, k);
    }
  }

  lemma {:induction false} FreesBounded(cfg: Config, b: Buckets, keys: seq<Key>, n: nat, now: int, k: Key)
    requires n <= |keys| && LockBounded(cfg, b, k, now)
    ensures LockBounded(cfg, FreeUpTo(b, keys, n), k, now)
  {
    if 0 < n {
      FreesBounded(cfg, b, keys, n - 1, now, k);
    }
  }

  lemma {:induction false} DeletesBounded(cfg: Config, b: Buckets, keys: seq<Key>, n: nat, now: int, k: Key)
    requires n <= |keys| && LockBounded(cfg, b, k, now)
    ensures LockBounded(cfg, DeleteUpTo(b, keys, n), k, now)
  {
    if 0 < n {
      DeletesBounded(cfg, b, keys, n - 1, now, k);
    }
  }

  lemma StepBounded(cfg: Config, w: Watch, step: Step, k: Key)
    requires LockBounded(cfg, w.buckets, k, w.clock)
    ensures LockBounded(cfg, Next(cfg, w, step).buckets, k, Next(cfg, w, step).clock)
  {
    var now := w.clock + step.later;
    var pruned := MaybePrune(cfg, w.buckets, now);
    match step
    case Start(account, ip, _) =>
      var keys := BucketKeys(account, ip);
      RefreshesBounded(cfg, pruned, keys, |keys|, now, k);
      ChargesBounded(cfg, RefreshUpTo(cfg, pruned, keys, |keys|, now), keys, |keys|, now, k);
    case End(n, verdict, _) =>
      if n < |w.attempts| {
        var keys := w.attempts[n];
        FailuresBounded(cfg, pruned, keys, |keys|, now, k);
        FreesBounded(cfg, w.buckets, keys, |keys|, now, k);
        DeletesBounded(cfg, w.buckets, keys, |keys|, now, k);
      }
  }

  lemma AfterKeeps(cfg: Config, b: Buckets, keys: seq<Key>, verdict: Verdict, now: int)
    requires cfg.Valid() && BucketsOk(cfg, b)
    ensures BucketsOk(cfg, After(cfg, b, keys, verdict, now))
  {
    match verdict
    case Threw => FreesKeep(cfg, b, keys, |keys|);
    case Wrong =>
      PruneKeeps(cfg, b, now);
      FailuresKeep(cfg, MaybePrune(cfg, b, now), keys, |keys|, now);
    case Right => DeletesKeep(cfg, b, keys, |keys|);
  }

  lemma BucketKeysDistinct(account: string, ip: Option<string>)
    ensures Distinct(BucketKeys(account, ip))
  {
    var keys := BucketKeys(account, ip);
    forall i, j | 0 <= i < j < |keys|
      ensures ThrottleRuns.Apart(keys, i, j)
    {
    }
  }

  lemma StepBuckets(cfg: Config, w: Watch, step: Step)
    requires cfg.Valid() && BucketsOk(cfg, w.buckets)
    ensures BucketsOk(cfg, Next(cfg, w, step).buckets)
  {
    match step
    case Start(account, ip, later) =>
      BucketKeysDistinct(account, ip);
      ConsumeKeeps(cfg, w.buckets, BucketKeys(account, ip), w.clock + later);
    case End(n, verdict, later) =>
      if n < |w.attempts| {
        AfterKeeps(cfg, w.buckets, w.attempts[n], verdict, w.clock + later);
      }
  }

  lemma StepKeeps(cfg: Config, w: Watch, step: Step)
    requires cfg.Valid() && Inv(cfg, w)
    ensures Inv(cfg, Next(cfg, w, step))
  {
    var v := Next(cfg, w, step);
    StepBuckets(cfg, w, step);
    forall k
      ensures Reserved(v, k)
    {
      assert Reserved(w, k);
      if step.Start? {
        StartReserves(cfg, w, step, k);
      } else {
        EndReserves(cfg, w, step, k);
      }
    }
    forall k
      ensures LockBounded(cfg, v.buckets, k, v.clock)
    {
      assert LockBounded(cfg, w.buckets, k, w.clock);
      StepBounded(cfg, w, step, k);
    }
    StepDistinct(cfg, w, step);
  }

  lemma StepDistinct(cfg: Config, w: Watch, step: Step)
    requires forall n | 0 <= n < |w.attempts| :: Distinct(w.attempts[n])
    ensures var v := Next(cfg, w, step); forall n | 0 <= n < |v.attempts| :: Distinct(v.attempts[n])
  {
    if step.Start? {
      BucketKeysDistinct(step.account, step.ip);
    }
  }

  lemma {:induction false} RunKeeps(cfg: Config, w: Watch, steps: seq<Step>)
    requires cfg.Valid() && Inv(cfg, w)
    ensures Inv(cfg, Run(cfg, w, steps))
    decreases |steps|
  {
    if steps != [] {
      StepKeeps(cfg, w, steps[0]);
      RunKeeps(cfg, Next(cfg, w, steps[0]), steps[1..]);
    }
  }

  /** In every run: no bucket ever counts as many failures as the limit, failures and attempts under
      way together stay within it, the map stays within its size, and a bucket reserves at most as
      many attempts as are truly under way, so none is reserved once they all have ended. */
  lemma ThrottleStaysSound(cfg: Config, steps: seq<Step>, key: Key)
    requires cfg.Valid()
    ensures var w := Run(cfg, QUIET, steps);
      && |w.buckets.store| <= MAX_BUCKETS
      && InFlight(w.buckets, key) <= Outstanding(w.attempts, |w.attempts|, key)
      && (w.attempts == [] ==> InFlight(w.buckets, key) == 0)
      && (key in w.buckets.store ==>
            && w.buckets.store[key].failures < cfg.maxAttempts
            && w.buckets.store[key].failures + w.buckets.store[key].inFlight <= cfg.maxAttempts)
  {
    assert BucketsOk(cfg, NO_BUCKETS) by {
      assert Distinct([]);
    }
    forall k: Key
      ensures Reserved(QUIET, k)
    {
    }
    RunKeeps(cfg, QUIET, steps);
    assert Reserved(Run(cfg, QUIET, steps), key);
  }

  // ---- A live lock stays ---------------------------------------------------------------

  /** At some moment of this step, just before a bucket was made, the map was full of locks. */
  ghost predicate FullOfLocks(cfg: Config, w: Watch, step: Step) {
    var now := w.clock + step.later;
    var pruned := MaybePrune(cfg, w.buckets, now);
    match step
    case Start(account, ip, _) =>
      var keys := BucketKeys(account, ip);
      FullWhileCharging(cfg, RefreshUpTo(cfg, pruned, keys, |keys|, now), keys, |keys|, now)
    case End(n, verdict, _) =>
      n < |w.attempts| && verdict == Wrong && FullBefore(cfg, pruned, w.attempts[n], |w.attempts[n]|, now)
  }

  predicate SucceedsFor(w: Watch, step: Step, key: Key) {
    step.End? && step.verdict == Right && step.attempt < |w.attempts| && key in w.attempts[step.attempt]
  }

  /** A lock that has not run out survives every step, and never gets shorter, unless an attempt on
      its bucket succeeds or the map is full of locks. */
  lemma LiveLockSurvives(cfg: Config, w: Watch, step: Step, key: Key)
    requires cfg.Valid() && Inv(cfg, w) && LiveLock(w.buckets, key, w.clock + step.later)
    requires !SucceedsFor(w, step, key) && !FullOfLocks(cfg, w, step)
    ensures LockKept(w.buckets, Next(cfg, w, step).buckets, key)
  {
    if step.Start? {
      StartKeepsLock(cfg, w, step, key);
    } else if step.attempt < |w.attempts| {
      EndKeepsLock(cfg, w, step, key);
    }
  }

  lemma StartKeepsLock(cfg: Config, w: Watch, step: Step, key: Key)
    requires cfg.Valid() && Inv(cfg, w) && LiveLock(w.buckets, key, w.clock + step.later) && step.Start?
    requires !FullOfLocks(cfg, w, step)
    ensures LockKept(w.buckets, Next(cfg, w, step).buckets, key)
  {
    var now := w.clock + step.later;
    var keys := BucketKeys(step.account, step.ip);
    var pruned := MaybePrune(cfg, w.buckets, now);
    PruneKeeps(cfg, w.buckets, now);
    PruneKeepsLock(cfg, w.buckets, key, now);
    BucketKeysDistinct(step.account, step.ip);
    ConsumeKeepsLock(cfg, w.buckets, keys, now, key);
  }

  lemma ConsumeKeepsLock(cfg: Config, b: Buckets, keys: seq<Key>, now: int, key: Key)
    requires cfg.Valid() && BucketsOk(cfg, b) && LiveLock(b, key, now) && Distinct(keys)
    requires !FullWhileCharging(cfg, RefreshUpTo(cfg, MaybePrune(cfg, b, now), keys, |keys|, now), keys, |keys|, now)
    ensures LockKept(b, Consume(cfg, b, keys, now).0, key)
  {
    var pruned := MaybePrune(cfg, b, now);
    var refreshed := RefreshUpTo(cfg, pruned, keys, |keys|, now);
    PruneKeeps(cfg, b, now);
    PruneKeepsLock(cfg, b, key, now);
    RefreshesKeep(cfg, pruned, keys, |keys|, now);
    RefreshesKeepLock(cfg, pruned, keys, |keys|, now, key);
    WaitIsMax(cfg, pruned, keys, |keys|, now);
    if WaitUpTo(cfg, pruned, keys, |keys|, now) == 0 {
      forall m | 0 <= m < |keys|
        ensures Current(cfg, refreshed, keys[m], now) && HasRoom(cfg, refreshed, keys[m], now)
      {
        WaitIsFinal(cfg, pruned, keys, m, |keys|, now);
      }
      ChargesKeepLock(cfg, refreshed, keys, |keys|, now, key);
    }
  }

  lemma EndKeepsLock(cfg: Config, w: Watch, step: Step, key: Key)
    requires cfg.Valid() && Inv(cfg, w) && LiveLock(w.buckets, key, w.clock + step.later)
    requires step.End? && step.attempt < |w.attempts| && !SucceedsFor(w, step, key) && !FullOfLocks(cfg, w, step)
    ensures LockKept(w.buckets, Next(cfg, w, step).buckets, key)
  {
    var now := w.clock + step.later;
    var keys := w.attempts[step.attempt];
    match step.verdict
    case Threw => FreesKeepLock(w.buckets, keys, |keys|, key);
    case Right => DeletesKeepLock(w.buckets, keys, |keys|, key);
    case Wrong =>
      var pruned := MaybePrune(cfg, w.buckets, now);
      PruneKeeps(cfg, w.buckets, now);
      PruneKeepsLock(cfg, w.buckets, key, now);
      assert LockBounded(cfg, w.buckets, key, w.clock);
      FailuresKeepLock(cfg, pruned, keys, |keys|, now, key);
  }

  /** While its lock lasts a bucket admits nothing. */
  lemma LockedRefuses(cfg: Config, b: Buckets, keys: seq<Key>, now: int, key: Key)
    requires cfg.Valid() && Distinct(keys) && key in keys && LiveLock(b, key, now)
    ensures SecondsUntil(b.store[key].lockedUntil.value, now) <= Consume(cfg, b, keys, now).1
  {
    var pruned := MaybePrune(cfg, b, now);
    PruneKeepsLock(cfg, b, key, now);
    RefreshesKeepLock(cfg, pruned, keys, |keys|, now, key);
    WaitIsMax(cfg, pruned, keys, |keys|, now);
    var m :| 0 <= m < |keys| && keys[m] == key;
  }

  // ---- What the limit is for -----------------------------------------------------------

  /** The buckets after a failure at each of the first n times. */
  function FailedAt(cfg: Config, b: Buckets, key: Key, times: seq<int>, n: nat): Buckets
    requires n <= |times|
  {
    if n == 0 then b else RecordFailure(cfg, FailedAt(cfg, b, key, times, n - 1), [key], times[n - 1])
  }

  /** All within one window from the first, in order. */
  predicate WithinWindow(cfg: Config, times: seq<int>) {
    forall i | 0 <= i < |times| :: times[0] <= times[i] < times[0] + cfg.Window()
  }

  /** The record a failure at this time finds: the one that is there, or a fresh one. */
  function Found(b: Buckets, key: Key, now: int): Attempts {
    if key in b.store then b.store[key] else Attempts(now, 0, None, 0)
  }

  lemma OneFailure(cfg: Config, b: Buckets, key: Key, now: int)
    requires cfg.Valid()
    requires key in b.store ==> b.store[key].lockedUntil.None? && now < b.store[key].windowStart + cfg.Window()
    ensures var r := RecordFailure(cfg, b, [key], now);
      key in r.store && r.store[key] == Failed(cfg, Found(b, key, now), now)
  {
    hide MakeRoom, Failed;
    var pruned := MaybePrune(cfg, b, now);
    assert FailUpTo(cfg, pruned, [key], 1, now) == Fail(cfg, FailUpTo(cfg, pruned, [key], 0, now), key, now);
  }

  /** Fewer failures than the limit are counted one by one. */
  lemma {:induction false} FailuresCount(cfg: Config, b: Buckets, key: Key, times: seq<int>, n: nat)
    requires cfg.Valid() && key !in b.store && WithinWindow(cfg, times) && 0 < n <= |times| && n < cfg.maxAttempts
    ensures var r := FailedAt(cfg, b, key, times, n);
      key in r.store && r.store[key] == Attempts(times[0], n, None, 0)
  {
    hide RecordFailure;
    if 1 < n {
      FailuresCount(cfg, b, key, times, n - 1);
    }
    OneFailure(cfg, FailedAt(cfg, b, key, times, n - 1), key, times[n - 1]);
  }

  /** As many failures as the limit within one window lock the bucket for a whole window more. */
  lemma LimitLocks(cfg: Config, b: Buckets, key: Key, times: seq<int>)
    requires cfg.Valid() && key !in b.store && WithinWindow(cfg, times) && |times| == cfg.maxAttempts
    ensures var r := FailedAt(cfg, b, key, times, |times|); var last := times[|times| - 1];
      LiveLock(r, key, last) && r.store[key].lockedUntil == Some(last + cfg.Window())
  {
    hide RecordFailure;
    var n := |times|;
    if 1 < n {
      FailuresCount(cfg, b, key, times, n - 1);
    }
    OneFailure(cfg, FailedAt(cfg, b, key, times, n - 1), key, times[n - 1]);
  }

  /** Releasing an attempt takes back what charging it did: its bucket counts what it counted before,
      or is gone if it counted nothing; no other bucket changes. */
  lemma ReleaseUndoesCharge(cfg: Config, b: Buckets, key: Key, now: int, other: Key)
    requires cfg.Valid() && |b.store| < MAX_BUCKETS && Current(cfg, b, key, now)
    ensures var r := Free(Charge(cfg, b, key, now), key);
      if other == key && (key !in b.store || Idle(b.store[key])) then key !in r.store
      else (other in r.store <==> other in b.store) && (other in b.store ==> r.store[other] == b.store[other])
  {
  }
}
