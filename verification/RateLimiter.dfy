/** The login rate limiter of `app/admin_auth.py` and what it guarantees over whole runs of login attempts. */
module RateLimiter {
  import opened Common

  datatype Config = Config(maxAttempts: int, window: real, lockout: real, maxLockout: real, maxKeys: nat)

  datatype Entry = Entry(failures: seq<real>, lockedUntil: real, streak: nat)

  type Table = Dict<string, Entry>

  /** The failures still inside the sliding window. */
  function Recent(failures: seq<real>, now: real, window: real): seq<real> {
    if failures == [] then []
    else (if now - failures[0] < window then [failures[0]] else []) + Recent(failures[1..], now, window)
  }

  function Activity(e: Entry): real {
    var last := if e.failures == [] then 0.0 else e.failures[|e.failures| - 1];
    if last >= e.lockedUntil then last else e.lockedUntil
  }

  function Refreshed(e: Entry, now: real, c: Config): Entry { e.(failures := Recent(e.failures, now, c.window)) }

  predicate Stale(e: Entry, now: real) { e.failures == [] && e.lockedUntil <= now }

  /** Refresh every entry and drop the stale ones. */
  function Swept(d: Table, now: real, c: Config): Table {
    if d == [] then []
    else
      var e := Refreshed(d[0].1, now, c);
      (if Stale(e, now) then [] else [(d[0].0, e)]) + Swept(d[1..], now, c)
  }

  lemma SweptAt(d: Table, k: nat, now: real, c: Config)
    requires k < |d|
    ensures var e := Refreshed(d[k].1, now, c);
      Swept(d[k..], now, c) == (if Stale(e, now) then [] else [(d[k].0, e)]) + Swept(d[k + 1..], now, c)
  {
    assert d[k..][0] == d[k] && d[k..][1..] == d[k + 1..];
  }

  /** The position of the first entry of least activity. */
  function Quietest(d: Table): (i: nat)
    requires d != []
    ensures i < |d|
    ensures forall j :: 0 <= j < |d| ==> Activity(d[i].1) <= Activity(d[j].1)
    ensures forall j :: 0 <= j < i ==> Activity(d[i].1) < Activity(d[j].1)
  {
    if |d| == 1 then 0
    else
      var k := Quietest(d[..|d| - 1]);
      assert d[..|d| - 1][k] == d[k];
      assert forall j :: 0 <= j < |d| - 1 ==> d[..|d| - 1][j] == d[j];
      if Activity(d[|d| - 1].1) < Activity(d[k].1) then |d| - 1 else k
  }

  /** Deleting the head of the stable activity order, one entry at a time, down to the cap. */
  function Evicted(d: Table, maxKeys: nat): (r: Table)
    ensures |r| == if |d| <= maxKeys then |d| else maxKeys
    decreases |d|
  {
    if |d| <= maxKeys then d
    else Evicted(Omit(d, Quietest(d)), maxKeys)
  }

  function Pruned(d: Table, now: real, c: Config): Table { Evicted(Swept(d, now, c), c.maxKeys) }

  /** The lockout after the `streak`-th one in a row. */
  function Lockout(streak: nat, c: Config): real
    requires streak >= 1
  {
    MinReal(c.lockout * Pow2(streak - 1) as real, c.maxLockout)
  }

  const FRESH := Entry([], 0.0, 0)

  /** One more failure on an entry. */
  function Failed(e: Entry, now: real, c: Config): Entry {
    var failures := Recent(e.failures + [now], now, c.window);
    if |failures| >= c.maxAttempts
    then Entry(failures, now + Lockout(e.streak + 1, c), e.streak + 1)
    else e.(failures := failures)
  }

  function EntryOf(d: Table, key: string): Entry {
    match Get(d, key) case Some(e) => e case None => FRESH
  }

  function Recorded(d: Table, key: string, now: real, c: Config): Table {
    Pruned(Put(d, key, Failed(EntryOf(d, key), now, c)), now, c)
  }

  class Limiter {
    const config: Config
    var entries: Table

    constructor (config: Config)
      ensures this.config == config && entries == []
    {
      this.config := config;
      entries := [];
    }

    method Prune(now: real)
      modifies this`entries
      ensures entries == Pruned(old(entries), now, config)
    {
      var kept: Table := [];
      for k := 0 to |entries|
        invariant entries == old(entries)
        invariant kept + Swept(entries[k..], now, config) == Swept(entries, now, config)
      {
        var e := Refreshed(entries[k].1, now, config);
        var part := if Stale(e, now) then [] else [(entries[k].0, e)];
        SweptAt(entries, k, now, config);
        Assoc(kept, part, Swept(entries[k + 1..], now, config));
        kept := kept + part;
      }
      assert kept == Swept(old(entries), now, config) by {
        assert entries[|entries|..] == [];
        assert kept + [] == kept;
      }
      entries := kept;
      hide Quietest, Swept;
      while |entries| > config.maxKeys
        invariant Evicted(entries, config.maxKeys) == Pruned(old(entries), now, config)
        decreases |entries|
      {
        var i := Quietest(entries);
        entries := Omit(entries, i);
      }
    }

    method Check(key: string, now: real) returns (allowed: bool, retryAfter: real)
      modifies this`entries
      ensures entries == Pruned(old(entries), now, config)
      ensures allowed <==> EntryOf(entries, key).lockedUntil <= now || !Has(entries, key)
      ensures retryAfter == if allowed then 0.0 else EntryOf(entries, key).lockedUntil - now
      ensures !allowed ==> retryAfter > 0.0
    {
      Prune(now);
      match Get(entries, key) {
        case None => return true, 0.0;
        case Some(e) =>
          if e.lockedUntil > now {
            return false, e.lockedUntil - now;
          }
          return true, 0.0;
      }
    }

    method RecordFailure(key: string, now: real)
      modifies this`entries
      ensures entries == Recorded(old(entries), key, now, config)
    {
      entries := Put(entries, key, Failed(EntryOf(entries, key), now, config));
      Prune(now);
    }

    method RecordSuccess(key: string)
      modifies this`entries
      ensures entries == Drop(old(entries), key)
    {
      entries := Drop(entries, key);
    }
  }

  // ------------------------------------------------------------------ runs

  /** One login or re-authentication: `check`, and if it allows, the password test and its record. */
  datatype Attempt = Attempt(key: string, now: real, correct: bool)

  predicate Allowed(d: Table, key: string, now: real) { !Has(d, key) || EntryOf(d, key).lockedUntil <= now }

  /** The part of an attempt after the check has pruned. */
  function Settled(d: Table, a: Attempt, c: Config): Table {
    if !Allowed(d, a.key, a.now) then d
    else if a.correct then Drop(d, a.key)
    else Recorded(d, a.key, a.now, c)
  }

  function Step(d: Table, a: Attempt, c: Config): Table { Settled(Pruned(d, a.now, c), a, c) }

  function After(run: seq<Attempt>, c: Config): Table {
    if run == [] then [] else Step(After(run[..|run| - 1], c), run[|run| - 1], c)
  }

  /** What a prune leaves of a key's failure history: nothing when the cap evicted its entry. */
  function KeptHistory(d: Table, h: seq<real>, key: string, now: real, c: Config): seq<real> {
    if Has(Swept(d, now, c), key) && !Has(Pruned(d, now, c), key) then [] else h
  }

  /** The failures recorded for `key` since its entry was last cleared by a success or evicted. */
  function History(run: seq<Attempt>, key: string, c: Config): seq<real> {
    if run == [] then []
    else
      var a := run[|run| - 1];
      var d := After(run[..|run| - 1], c);
      var h := KeptHistory(d, History(run[..|run| - 1], key, c), key, a.now, c);
      HistoryStep(Pruned(d, a.now, c), h, a, key, c)
  }

  function HistoryStep(d: Table, h: seq<real>, a: Attempt, key: string, c: Config): seq<real> {
    if !Allowed(d, a.key, a.now) then h
    else if a.correct then if a.key == key then [] else h
    else
      KeptHistory(Put(d, a.key, Failed(EntryOf(d, a.key), a.now, c)),
                  if a.key == key then h + [a.now] else h, key, a.now, c)
  }

  /** Clock readings are non-negative and never decrease. */
  ghost predicate Timely(run: seq<Attempt>) {
    && (forall i :: 0 <= i < |run| ==> run[i].now >= 0.0)
    && (forall i, j :: 0 <= i < j < |run| ==> run[i].now <= run[j].now)
  }

  ghost predicate Sorted(h: seq<real>) { forall i, j :: 0 <= i < j < |h| ==> h[i] <= h[j] }

  /** Failures closer together than the window number at most `maxAttempts`. */
  ghost predicate Spaced(h: seq<real>, c: Config) {
    forall i, j :: 0 <= i < j < |h| && h[j] - h[i] < c.window ==> j - i < c.maxAttempts
  }

  /** The `j`-th failure is one that locks: it fills its window. */
  predicate Locks(h: seq<real>, j: nat, c: Config)
    requires j < |h|
  {
    |Recent(h[..j + 1], h[j], c.window)| >= c.maxAttempts
  }

  /** After a failure that locks, the next one waits out the whole lockout. */
  ghost predicate LockoutsServed(h: seq<real>, c: Config) {
    forall j :: 0 <= j < |h| - 1 && Locks(h, j, c) ==> h[j + 1] >= h[j] + Lockout(1, c)
  }

  // ------------------------------------------------------------------ the window

  lemma {:induction false} RecentConcat(a: seq<real>, b: seq<real>, now: real, window: real)
    ensures Recent(a + b, now, window) == Recent(a, now, window) + Recent(b, now, window)
  {
    if a == [] {
      assert a + b == b;
    } else {
      assert (a + b)[1..] == a[1..] + b;
      RecentConcat(a[1..], b, now, window);
    }
  }

  /** Filtering again, later, is filtering once. */
  lemma {:induction false} RecentTwice(h: seq<real>, before: real, now: real, window: real)
    requires before <= now
    ensures Recent(Recent(h, before, window), now, window) == Recent(h, now, window)
    ensures |Recent(h, now, window)| <= |Recent(h, before, window)|
  {
    if h != [] {
      RecentTwice(h[1..], before, now, window);
      if before - h[0] < window {
        assert Recent(h, before, window)[1..] == Recent(h[1..], before, window);
      } else {
        assert Recent(h, before, window) == Recent(h[1..], before, window);
      }
    }
  }

  /** In a sorted history everything from a recent failure on is recent. */
  lemma {:induction false} RecentSuffix(h: seq<real>, i: nat, now: real, window: real)
    requires Sorted(h) && i < |h| && now - h[i] < window
    ensures |Recent(h, now, window)| >= |h| - i
  {
    if i == 0 {
      if |h| > 1 {
        RecentSuffix(h[1..], 0, now, window);
      }
    } else {
      assert h[1..][i - 1] == h[i];
      RecentSuffix(h[1..], i - 1, now, window);
    }
  }

  /** Once the last failure is out of the window, so are all. */
  lemma {:induction false} RecentNone(h: seq<real>, now: real, window: real)
    requires Sorted(h) && (h == [] || now - h[|h| - 1] >= window)
    ensures Recent(h, now, window) == []
  {
    if h != [] {
      RecentNone(h[1..], now, window);
    }
  }

  // ------------------------------------------------------------------ one key of the table

  /** What a sweep makes of one key's entry. */
  function SweptEntry(o: Option<Entry>, now: real, c: Config): Option<Entry> {
    if o.None? || Stale(Refreshed(o.value, now, c), now) then None else Some(Refreshed(o.value, now, c))
  }

  lemma {:induction false} GetSwept(d: Table, key: string, now: real, c: Config)
    requires DistinctKeys(d)
    ensures DistinctKeys(Swept(d, now, c))
    ensures Get(Swept(d, now, c), key) == SweptEntry(Get(d, key), now, c)
  {
    hide Recent;
    if d != [] {
      DistinctTail(d);
      GetSwept(d[1..], key, now, c);
      GetSwept(d[1..], d[0].0, now, c);
      var e := Refreshed(d[0].1, now, c);
      if !Stale(e, now) {
        DistinctCons(d[0].0, e, Swept(d[1..], now, c));
        assert Swept(d, now, c)[1..] == Swept(d[1..], now, c);
      } else {
        assert Swept(d, now, c) == Swept(d[1..], now, c);
      }
    }
  }

  /** Eviction only removes whole entries. */
  lemma {:induction false} GetEvicted(d: Table, maxKeys: nat, key: string)
    requires DistinctKeys(d)
    ensures DistinctKeys(Evicted(d, maxKeys))
    ensures Get(Evicted(d, maxKeys), key) in {None, Get(d, key)}
    decreases |d|
  {
    hide Quietest;
    if |d| > maxKeys {
      var i := Quietest(d);
      GetOmit(d, i, key);
      GetEvicted(Omit(d, i), maxKeys, key);
    }
  }

  // ------------------------------------------------------------------ the invariant

  /** How a key's entry and its failure history agree at the clock reading `now`. */
  ghost predicate Agrees(o: Option<Entry>, h: seq<real>, now: real, c: Config) {
    && Sorted(h) && Spaced(h, c) && LockoutsServed(h, c)
    && (h != [] ==> h[|h| - 1] <= now)
    && (h != [] && Locks(h, |h| - 1, c) ==>
          (o.Some? && o.value.streak == 1) || h[|h| - 1] + Lockout(1, c) <= now)
    && (o.None? ==> Recent(h, now, c.window) == [])
    && (o.Some? ==>
          && o.value.failures == Recent(h, now, c.window)
          && o.value.streak <= 1
          && (o.value.streak == 0 ==> o.value.lockedUntil == 0.0 && |o.value.failures| < c.maxAttempts)
          && (o.value.streak == 1 ==>
                h != [] && Locks(h, |h| - 1, c) && o.value.lockedUntil == h[|h| - 1] + Lockout(1, c)))
  }

  /** A threshold of at least one, and every lockout outlasting the window. */
  ghost predicate Covering(c: Config) {
    c.maxAttempts >= 1 && MinReal(c.lockout, c.maxLockout) >= c.window
  }

  lemma AgreesSwept(o: Option<Entry>, h: seq<real>, before: real, now: real, c: Config)
    requires Agrees(o, h, before, c) && before <= now
    ensures Agrees(SweptEntry(o, now, c), h, now, c)
  {
    hide Spaced, LockoutsServed;
    RecentTwice(h, before, now, c.window);
    if o.None? {
      assert Recent(Recent(h, before, c.window), now, c.window) == [];
    }
  }

  lemma AgreesFresh(now: real, c: Config)
    ensures Agrees(None, [], now, c)
  {
  }

  lemma FirstLockout(c: Config)
    ensures Lockout(1, c) == MinReal(c.lockout, c.maxLockout)
  {
    assert Pow2(0) == 1;
  }

  /** A key that is allowed has no lockout running: all its recent failures fit under the threshold. */
  lemma AllowedHasRoom(o: Option<Entry>, h: seq<real>, now: real, c: Config)
    requires Covering(c) && Agrees(o, h, now, c)
    requires o.Some? ==> !Stale(o.value, now) && o.value.lockedUntil <= now
    ensures o.Some? ==> o.value.streak == 0
    ensures |Recent(h, now, c.window)| < c.maxAttempts
    ensures h != [] && Locks(h, |h| - 1, c) ==> h[|h| - 1] + Lockout(1, c) <= now
  {
    FirstLockout(c);
    if h != [] && now - h[|h| - 1] >= c.window {
      RecentNone(h, now, c.window);
    }
    hide Spaced, LockoutsServed, Recent, Lockout, Locks;
  }

  lemma SpacedMore(h: seq<real>, now: real, c: Config)
    requires Sorted(h) && Spaced(h, c) && (h != [] ==> h[|h| - 1] <= now)
    requires |Recent(h, now, c.window)| < c.maxAttempts
    ensures Sorted(h + [now]) && Spaced(h + [now], c)
  {
    var g := h + [now];
    forall i, j | 0 <= i < j < |g| && g[j] - g[i] < c.window ensures j - i < c.maxAttempts {
      if j == |h| {
        RecentSuffix(h, i, now, c.window);
      } else {
        assert g[i] == h[i] && g[j] == h[j];
      }
    }
  }

  lemma ServedMore(h: seq<real>, now: real, c: Config)
    requires LockoutsServed(h, c)
    requires h != [] && Locks(h, |h| - 1, c) ==> h[|h| - 1] + Lockout(1, c) <= now
    ensures LockoutsServed(h + [now], c)
  {
    hide Recent, Lockout;
    var g := h + [now];
    forall j | 0 <= j < |g| - 1 && Locks(g, j, c) ensures g[j + 1] >= g[j] + Lockout(1, c) {
      assert g[..j + 1] == h[..j + 1];
      assert Locks(h, j, c);
    }
  }

  /** Recording one more failure of an allowed key keeps entry and history in agreement. */
  lemma AgreesFailed(o: Option<Entry>, h: seq<real>, now: real, c: Config)
    requires Agrees(o, h, now, c)
    requires o.Some? ==> o.value.streak == 0
    requires |Recent(h, now, c.window)| < c.maxAttempts
    requires h != [] && Locks(h, |h| - 1, c) ==> h[|h| - 1] + Lockout(1, c) <= now
    ensures Agrees(Some(Failed(if o.Some? then o.value else FRESH, now, c)), h + [now], now, c)
  {
    SpacedMore(h, now, c);
    ServedMore(h, now, c);
    hide Spaced, LockoutsServed, Lockout, Sorted;
    var e := if o.Some? then o.value else FRESH;
    assert e.failures == Recent(h, now, c.window);
    RecentConcat(e.failures, [now], now, c.window);
    RecentTwice(h, now, now, c.window);
    RecentConcat(h, [now], now, c.window);
    assert (h + [now])[..|h| + 1] == h + [now];
  }

  // ------------------------------------------------------------------ whole runs

  lemma AgreesPruned(d: Table, h: seq<real>, key: string, before: real, now: real, c: Config)
    requires DistinctKeys(d) && Agrees(Get(d, key), h, before, c) && before <= now
    ensures DistinctKeys(Pruned(d, now, c))
    ensures Agrees(Get(Pruned(d, now, c), key), KeptHistory(d, h, key, now, c), now, c)
    ensures Get(Pruned(d, now, c), key) in {None, SweptEntry(Get(d, key), now, c)}
  {
    GetSwept(d, key, now, c);
    GetEvicted(Swept(d, now, c), c.maxKeys, key);
    AgreesSwept(Get(d, key), h, before, now, c);
    AgreesFresh(now, c);
    hide Agrees, SweptEntry, Swept, Evicted;
  }

  /** A pruned table holds no stale entry. */
  lemma {:induction false} NoneStale(d: Table, key: string, now: real, c: Config)
    requires DistinctKeys(d)
    ensures var o := Get(Pruned(d, now, c), key); o.Some? ==> !Stale(o.value, now)
  {
    GetSwept(d, key, now, c);
    GetEvicted(Swept(d, now, c), c.maxKeys, key);
    hide Evicted, Swept, Recent;
  }

  /** The part of an attempt after its check. */
  lemma AgreesAttempt(d: Table, h: seq<real>, a: Attempt, key: string, c: Config)
    requires Covering(c) && DistinctKeys(d) && a.now >= 0.0
    requires Agrees(Get(d, key), h, a.now, c)
    requires Get(d, key).Some? ==> !Stale(Get(d, key).value, a.now)
    ensures DistinctKeys(Settled(d, a, c))
    ensures Agrees(Get(Settled(d, a, c), key), HistoryStep(d, h, a, key, c), a.now, c)
  {
    hide Agrees, Pruned, Failed, Stale, KeptHistory;
    if Allowed(d, a.key, a.now) {
      if a.correct {
        GetDrop(d, a.key, key);
        AgreesFresh(a.now, c);
      } else {
        var e := Failed(EntryOf(d, a.key), a.now, c);
        PutDistinct(d, a.key, e);
        GetPut(d, a.key, e, key);
        if a.key == key {
          AllowedHasRoom(Get(d, key), h, a.now, c);
          AgreesFailed(Get(d, key), h, a.now, c);
        }
        AgreesPruned(Put(d, a.key, e), if a.key == key then h + [a.now] else h, key, a.now, a.now, c);
      }
    }
  }

  /** Along every run, the table's entry for a key agrees with the key's history. */
  lemma {:induction false} AgreesAlways(run: seq<Attempt>, key: string, c: Config)
    requires Covering(c) && Timely(run)
    ensures DistinctKeys(After(run, c))
    ensures Agrees(Get(After(run, c), key), History(run, key, c), if run == [] then 0.0 else run[|run| - 1].now, c)
  {
    if run == [] {
      AgreesFresh(0.0, c);
    } else {
      var n := |run| - 1;
      var d, h, now := After(run[..n], c), History(run[..n], key, c), run[n].now;
      AgreesAlways(run[..n], key, c);
      hide Agrees, Pruned, KeptHistory, HistoryStep, Settled, DistinctKeys;
      AgreesPruned(d, h, key, if n == 0 then 0.0 else run[n - 1].now, now, c);
      NoneStale(d, key, now, c);
      AgreesAttempt(Pruned(d, now, c), KeptHistory(d, h, key, now, c), run[n], key, c);
    }
  }

  /**
   * When the first lockout outlasts the window, then in every run, for every key and since its
   * entry was last cleared: failures closer than the window number at most `maxAttempts`, every
   * failure that fills its window is followed by a whole lockout without another failure, and no
   * entry ever counts a second lockout in a row.
   */
  lemma FailuresAreThrottled(run: seq<Attempt>, key: string, c: Config)
    requires Covering(c) && Timely(run)
    ensures Spaced(History(run, key, c), c)
    ensures LockoutsServed(History(run, key, c), c)
    ensures EntryOf(After(run, c), key).streak <= 1
  {
    AgreesAlways(run, key, c);
    hide Spaced, LockoutsServed;
  }

  /**
   * When the first lockout outlasts the window, then in every run a check refuses a key exactly when its last
   * failure since its entry was cleared filled its window and the lockout it started is not over.
   */
  lemma RefusedIff(run: seq<Attempt>, key: string, now: real, c: Config)
    requires Covering(c) && Timely(run) && now >= 0.0 && (run != [] ==> run[|run| - 1].now <= now)
    ensures var d := After(run, c);
      var h := KeptHistory(d, History(run, key, c), key, now, c);
      Allowed(Pruned(d, now, c), key, now) <==>
        !(h != [] && Locks(h, |h| - 1, c) && now < h[|h| - 1] + MinReal(c.lockout, c.maxLockout))
  {
    var d := After(run, c);
    AgreesAlways(run, key, c);
    AgreesPruned(d, History(run, key, c), key, if run == [] then 0.0 else run[|run| - 1].now, now, c);
    FirstLockout(c);
    hide Spaced, LockoutsServed, Lockout, Pruned, KeptHistory, History, After, Locks, Sorted, Recent, Timely,
      DistinctKeys;
  }

  /** An entry's activity is the later of its last failure and the end of its lockout. */
  lemma ActivityIs(e: Entry)
    requires e.lockedUntil >= 0.0
    ensures Activity(e) >= e.lockedUntil && (e.failures != [] ==> Activity(e) >= e.failures[|e.failures| - 1])
    ensures Activity(e) == e.lockedUntil || (e.failures != [] && Activity(e) == e.failures[|e.failures| - 1])
  {
  }

  /** Each lockout in a row doubles the one before, up to the longest. */
  lemma LockoutDoubles(streak: nat, c: Config)
    requires streak >= 1 && c.lockout >= 0.0 && c.maxLockout >= 0.0
    ensures Lockout(1, c) == MinReal(c.lockout, c.maxLockout)
    ensures Lockout(streak + 1, c) == MinReal(2.0 * Lockout(streak, c), c.maxLockout)
  {
    FirstLockout(c);
    var p := Pow2(streak - 1) as real;
    assert Pow2(streak) == 2 * Pow2(streak - 1);
    assert c.lockout * Pow2(streak) as real == 2.0 * (c.lockout * p);
  }

  /** The entries that eviction keeps were all at least as active as those it drops, and are kept as they are. */
  lemma {:induction false} EvictsQuietest(d: Table, maxKeys: nat, kept: string, gone: string)
    requires DistinctKeys(d)
    requires Has(Evicted(d, maxKeys), kept) && Has(d, gone) && !Has(Evicted(d, maxKeys), gone)
    ensures Get(Evicted(d, maxKeys), kept) == Get(d, kept)
    ensures Activity(Get(d, gone).value) <= Activity(Get(d, kept).value)
    decreases |d|
  {
    GetEvicted(d, maxKeys, kept);
    var i := Quietest(d);
    hide Activity, Quietest;
    GetOmit(d, i, kept);
    GetOmit(d, i, gone);
    GetEvicted(Omit(d, i), maxKeys, kept);
    GetAt(d, i);
    GetIn(d, kept);
    if gone != d[i].0 {
      EvictsQuietest(Omit(d, i), maxKeys, kept, gone);
    }
  }

  // ------------------------------------------------------------------ when lockouts escalate

  function Zeros(n: nat): seq<real> { seq(n, _ => 0.0) }

  lemma {:induction false} RecentZeros(n: nat, now: real, window: real)
    requires now < window
    ensures Recent(Zeros(n), now, window) == Zeros(n)
  {
    if n > 0 {
      assert Zeros(n)[1..] == Zeros(n - 1);
      RecentZeros(n - 1, now, window);
    }
  }

  /** One failed attempt on a table that holds only that key. */
  lemma SoloFailure(e: Entry, key: string, now: real, c: Config)
    requires c.maxKeys >= 1 && 0.0 < c.window
    requires e.failures != [] && Recent(e.failures, now, c.window) == e.failures
    requires e.lockedUntil <= now
    ensures Step([(key, e)], Attempt(key, now, false), c) == [(key, Failed(e, now, c))]
    ensures Failed(e, now, c).failures == e.failures + [now]
  {
    var d: Table := [(key, e)];
    assert Swept(d, now, c) == d;
    assert Get(d, key) == Some(e);
    RecentConcat(e.failures, [now], now, c.window);
    assert Recent([now], now, c.window) == [now];
    var f := Failed(e, now, c);
    assert f.failures == e.failures + [now];
    RecentConcat(f.failures, [], now, c.window);
    RecentTwice(e.failures + [now], now, now, c.window);
    hide Recent, Failed;
    var d2: Table := [(key, f)];
    assert Put(d, key, f) == d2;
    assert Refreshed(f, now, c) == f;
    assert Swept(d2, now, c) == d2;
  }

  /** The first failure of a key, on the empty table. */
  lemma FirstFailure(key: string, now: real, c: Config)
    requires c.maxKeys >= 1 && 0.0 < c.window
    ensures Step([], Attempt(key, now, false), c) == [(key, Failed(FRESH, now, c))]
    ensures Failed(FRESH, now, c).failures == [now]
  {
    assert [] + [now] == [now];
    assert Recent([now], now, c.window) == [now];
    var f := Failed(FRESH, now, c);
    assert Refreshed(f, now, c) == f;
    hide Recent, Failed;
    var d2: Table := [(key, f)];
    var none: Table := [];
    assert Put(none, key, f) == d2;
    assert Swept(d2, now, c) == d2;
  }

  function Burst(n: nat, key: string): seq<Attempt> { seq(n, _ => Attempt(key, 0.0, false)) }

  /** `n` wrong passwords at the same instant, up to the threshold. */
  lemma {:induction false} AfterBurst(n: nat, key: string, c: Config)
    requires 1 <= n <= c.maxAttempts && c.maxKeys >= 1 && 0.0 < c.window
    ensures After(Burst(n, key), c) ==
            [(key, if n == c.maxAttempts then Entry(Zeros(n), Lockout(1, c), 1) else Entry(Zeros(n), 0.0, 0))]
  {
    assert Burst(n, key)[..n - 1] == Burst(n - 1, key);
    assert Burst(n, key)[n - 1] == Attempt(key, 0.0, false);
    assert After(Burst(n, key), c) == Step(After(Burst(n - 1, key), c), Attempt(key, 0.0, false), c);
    assert n == 1 ==> After(Burst(n - 1, key), c) == [];
    hide Lockout, Step, Recent, After, Burst;
    if n == 1 {
      FirstFailure(key, 0.0, c);
      assert Zeros(1) == [0.0];
    } else {
      AfterBurst(n - 1, key, c);
      RecentZeros(n - 1, 0.0, c.window);
      SoloFailure(Entry(Zeros(n - 1), 0.0, 0), key, 0.0, c);
      assert Zeros(n - 1) + [0.0] == Zeros(n);
    }
  }

  /** A lockout shorter than the window ends with the old failures still counted: the next failure locks again. */
  lemma ShortLockoutEscalates(key: string, c: Config)
    requires c.maxAttempts >= 1 && c.maxKeys >= 1 && c.lockout >= 0.0 && c.maxLockout >= 0.0
    requires MinReal(c.lockout, c.maxLockout) < c.window
    ensures var run := Burst(c.maxAttempts, key) + [Attempt(key, Lockout(1, c), false)];
            && Timely(run) && EntryOf(After(run, c), key).streak == 2
            && EntryOf(After(run, c), key).lockedUntil == Lockout(1, c) + MinReal(2.0 * Lockout(1, c), c.maxLockout)
  {
    FirstLockout(c);
    hide Step, Recent, Lockout;
    var n, last := c.maxAttempts, Attempt(key, Lockout(1, c), false);
    var run := Burst(n, key) + [last];
    assert run[..n] == Burst(n, key) && run[n] == last;
    AfterBurst(n, key, c);
    RecentZeros(n, last.now, c.window);
    var e := Entry(Zeros(n), Lockout(1, c), 1);
    SoloFailure(e, key, last.now, c);
    assert After(run, c) == [(key, Failed(e, last.now, c))];
    assert Failed(e, last.now, c).streak == 2;
    LockoutDoubles(1, c);
  }

  /**
   * The documented doubling of repeated lockouts happens in some run exactly when the first lockout is
   * shorter than the window.
   */
  lemma EscalationIff(c: Config)
    requires c.maxAttempts >= 1 && c.maxKeys >= 1 && c.lockout >= 0.0 && c.maxLockout >= 0.0
    ensures (forall run, key :: Timely(run) ==> EntryOf(After(run, c), key).streak <= 1)
            <==> MinReal(c.lockout, c.maxLockout) >= c.window
  {
    if MinReal(c.lockout, c.maxLockout) >= c.window {
      forall run, key | Timely(run) ensures EntryOf(After(run, c), key).streak <= 1 {
        FailuresAreThrottled(run, key, c);
      }
    } else {
      ShortLockoutEscalates("", c);
    }
  }

  const DEFAULT := Config(5, 300.0, 900.0, 3600.0, 1024)

  /** With the defaults no key is ever locked twice in a row. */
  lemma DefaultsNeverEscalate(run: seq<Attempt>, key: string)
    requires Timely(run)
    ensures EntryOf(After(run, DEFAULT), key).streak <= 1
    ensures Spaced(History(run, key, DEFAULT), DEFAULT)
  {
    FailuresAreThrottled(run, key, DEFAULT);
  }
}
