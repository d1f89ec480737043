/** The network watchdog of `app/network_watchdog.py`, tick by tick and over whole sequences of ticks. */
module Watchdog {
  import opened Common
  import Apply = NetworkApply
  import opened NetworkKey

  const RETRY_SECONDS := 600.0

  /** The state file: nothing, a link found down, or a hotspot held since then with its last retry. */
  datatype Saved = Nothing | Down(since: real) | Held(lastRetry: real, since: real)

  datatype Outcome =
    Disabled | Unclaimed | Busy | HotspotHeld | Healthy | Waiting | HotspotStarted | Recovered | RecoveryFailed

  /**
   * What one tick finds: its threshold, whether a profile is stored, the result file, the
   * clock, the link, whether a hotspot starts, the clock and the link of a
   * station retry, and whether the state file can be read and written.
   */
  datatype Look = Look(
    minutes: int, claimed: bool, note: Option<Note>, now: real, ready: bool, starts: bool,
    retryNow: real, comesBack: bool, readable: bool, writable: bool)

  /** The result file says that a transaction is applying, and not too long ago. */
  predicate Applying(l: Look) { l.note.Some? && StateSeen(l.note.value, l.now) == Apply.Applying }

  function Ticked(saved: Saved, l: Look): (Saved, Outcome) {
    var state := if l.readable then saved else Nothing;
    if l.minutes <= 0 then (saved, Disabled)
    else if !l.claimed then (saved, Unclaimed)
    else if Applying(l) then (saved, Busy)
    else if state.Held? then
      if l.now - state.lastRetry < RETRY_SECONDS then (saved, HotspotHeld)
      else if l.comesBack then (if l.writable then Nothing else saved, Recovered)
      else (if l.writable then state.(lastRetry := l.retryNow) else saved, RecoveryFailed)
    else if l.ready then (if state.Down? && l.writable then Nothing else saved, Healthy)
    else if state.Nothing? || state.since > l.now then (if l.writable then Down(l.now) else saved, Waiting)
    else if l.now - state.since < l.minutes as real * 60.0 || !l.starts then (saved, Waiting)
    else (if l.writable then Held(l.now, state.since) else saved, HotspotStarted)
  }

  class Watchdog {
    var saved: Saved

    constructor ()
      ensures saved == Nothing
    {
      saved := Nothing;
    }

    method Save(state: Saved, l: Look)
      modifies this
      ensures saved == if l.writable then state else old(saved)
    {
      if l.writable {
        saved := state;
      }
    }

    method Tick(l: Look) returns (outcome: Outcome)
      modifies this
      ensures (saved, outcome) == Ticked(old(saved), l)
      ensures l.note.Some? && l.note.value.state == Apply.Applying && l.now - l.note.value.at <= STALE ==>
        saved == old(saved) && outcome in {Disabled, Unclaimed, Busy}
    {
      if l.minutes <= 0 {
        return Disabled;
      }
      if !l.claimed {
        return Unclaimed;
      }
      if Applying(l) {
        return Busy;
      }
      var state := if l.readable then saved else Nothing;
      if state.Held? {
        if l.now - state.lastRetry < RETRY_SECONDS {
          return HotspotHeld;
        }
        outcome := RetryStation(state, l);
        return;
      }
      if l.ready {
        if state != Nothing {
          Save(Nothing, l);
        }
        return Healthy;
      }
      if state.Nothing? || state.since > l.now {
        Save(Down(l.now), l);
        return Waiting;
      }
      if l.now - state.since < l.minutes as real * 60.0 {
        return Waiting;
      }
      if !l.starts {
        return Waiting;
      }
      Save(Held(l.now, state.since), l);
      return HotspotStarted;
    }

    method RetryStation(state: Saved, l: Look) returns (outcome: Outcome)
      requires state.Held?
      modifies this
      ensures outcome == if l.comesBack then Recovered else RecoveryFailed
      ensures saved == if !l.writable then old(saved) else if l.comesBack then Nothing
                       else state.(lastRetry := l.retryNow)
    {
      if l.comesBack {
        Save(Nothing, l);
        return Recovered;
      }
      Save(state.(lastRetry := l.retryNow), l);
      return RecoveryFailed;
    }
  }

  // ------------------------------------------------------------------ sequences of ticks

  function After(run: seq<Look>): Saved {
    if run == [] then Nothing else Ticked(After(run[..|run| - 1]), run[|run| - 1]).0
  }

  /** How the `i`-th tick ended. */
  function OutcomeAt(run: seq<Look>, i: nat): Outcome
    requires i < |run|
  {
    Ticked(After(run[..i]), run[i]).1
  }

  lemma OutcomeStays(run: seq<Look>, n: nat, i: nat)
    requires i < n <= |run|
    ensures OutcomeAt(run[..n], i) == OutcomeAt(run, i)
  {
    assert run[..n][..i] == run[..i];
  }

  // ------------------------------------------------------------------ hotspot starts

  /** Tick `k` found the link down, or did not look at it. */
  predicate NotUp(run: seq<Look>, k: nat)
    requires k < |run|
  {
    && OutcomeAt(run, k) in {Disabled, Unclaimed, Busy, Waiting, HotspotStarted}
    && (OutcomeAt(run, k) in {Waiting, HotspotStarted} ==> !run[k].ready)
  }

  /** Tick `j` found the link down, and no tick from it to the end of the run found it up. */
  ghost predicate DownFrom(run: seq<Look>, j: nat) {
    && j < |run| && OutcomeAt(run, j) == Waiting
    && forall k :: j <= k < |run| ==> NotUp(run, k)
  }

  /** The last tick starts a hotspot that some tick, at least the threshold earlier, and all since justify. */
  ghost predicate Justified(run: seq<Look>)
    requires run != []
  {
    var n := |run| - 1;
    !run[n].ready &&
    exists j: nat :: DownFrom(run[..n], j) && run[n].now - run[j].now >= run[n].minutes as real * 60.0
  }

  /** Tick `k` finds the link up but leaves the remembered moment on the disk. */
  predicate Forgets(run: seq<Look>, k: nat)
    requires k < |run|
  {
    OutcomeAt(run, k) == Healthy && After(run[..k]).Down? && !(run[k].readable && run[k].writable)
  }

  ghost predicate NeverForgets(run: seq<Look>) { forall k :: 0 <= k < |run| ==> !Forgets(run, k) }

  lemma ForgetsStays(run: seq<Look>, n: nat, k: nat)
    requires k < n <= |run|
    ensures Forgets(run[..n], k) == Forgets(run, k) && NotUp(run[..n], k) == NotUp(run, k)
  {
    OutcomeStays(run, n, k);
    assert run[..n][..k] == run[..k];
  }

  lemma DownStays(run: seq<Look>, j: nat)
    requires run != [] && DownFrom(run[..|run| - 1], j) && NotUp(run, |run| - 1)
    ensures DownFrom(run, j)
  {
    var n := |run| - 1;
    OutcomeStays(run, n, j);
    forall k | j <= k < |run| ensures NotUp(run, k) {
      if k < n {
        ForgetsStays(run, n, k);
      }
    }
  }

  /**
   * With every fault that is no forgetting allowed, a remembered moment is that of a tick since which the
   * link was never found up.
   */
  lemma {:induction false} Remembered(run: seq<Look>)
    requires NeverForgets(run)
    ensures After(run).Down? ==> exists j: nat :: DownFrom(run, j) && run[j].now == After(run).since
  {
    if run != [] && After(run).Down? {
      var n := |run| - 1;
      forall k | 0 <= k < n ensures !Forgets(run[..n], k) {
        ForgetsStays(run, n, k);
      }
      Remembered(run[..n]);
      var was, l := After(run[..n]), run[n];
      assert !Forgets(run, n);
      assert NotUp(run, n);
      if was.Down? && was == After(run) {
        var j: nat :| DownFrom(run[..n], j) && run[..n][j].now == was.since;
        DownStays(run, j);
        assert run[j].now == was.since;
      } else {
        assert DownFrom(run, n);
      }
    }
  }

  lemma NeverForgetsPrefix(run: seq<Look>, n: nat)
    requires NeverForgets(run) && n <= |run|
    ensures NeverForgets(run[..n])
  {
    forall k | 0 <= k < n ensures !Forgets(run[..n], k) {
      ForgetsStays(run, n, k);
    }
  }

  /**
   * When no tick before the last forgets, a hotspot starts only if some tick at least the
   * threshold earlier found the link down and no tick since found it up.
   */
  lemma HotspotJustified(run: seq<Look>)
    requires run != [] && NeverForgets(run[..|run| - 1]) && OutcomeAt(run, |run| - 1) == HotspotStarted
    ensures Justified(run)
  {
    var n := |run| - 1;
    Remembered(run[..n]);
    var j: nat :| DownFrom(run[..n], j) && run[..n][j].now == After(run[..n]).since;
    assert run[j].now == After(run[..n]).since;
  }

  /**
   * And a tick that forgets is followed, on the next readable down tick past the threshold, by an unjustified
   * start.
   */
  lemma ForgettingStartsEarly(run: seq<Look>, l: Look)
    requires run != [] && Forgets(run, |run| - 1)
    requires l.minutes > 0 && l.claimed && !Applying(l) && !l.ready && l.starts && l.readable
    requires l.now - After(run).since >= l.minutes as real * 60.0
    ensures OutcomeAt(run + [l], |run|) == HotspotStarted && !Justified(run + [l])
  {
    var n := |run| - 1;
    var more := run + [l];
    assert more[..n + 1] == run && run[..n + 1] == run;
    assert After(run) == After(run[..n]);
    forall j: nat ensures !DownFrom(run, j) {
      assert !NotUp(run, n);
    }
  }

  /** Every hotspot start of the run, and every one a next tick could make after any part of it, is justified. */
  ghost predicate AlwaysJustified(run: seq<Look>) {
    forall m: nat, l :: m <= |run| && OutcomeAt(run[..m] + [l], m) == HotspotStarted ==> Justified(run[..m] + [l])
  }

  /** Hotspot starts are always justified exactly when no tick forgets. */
  lemma JustifiedIff(run: seq<Look>)
    ensures AlwaysJustified(run) <==> NeverForgets(run)
  {
    if NeverForgets(run) {
      forall m: nat, l | m <= |run| && OutcomeAt(run[..m] + [l], m) == HotspotStarted
        ensures Justified(run[..m] + [l])
      {
        NeverForgetsPrefix(run, m);
        assert (run[..m] + [l])[..m] == run[..m];
        HotspotJustified(run[..m] + [l]);
      }
    } else {
      var k :| 0 <= k < |run| && Forgets(run, k);
      var part := run[..k + 1];
      ForgetsStays(run, k + 1, k);
      assert part[..k] == run[..k];
      assert After(part).Down?;
      var l := Look(1, true, None, After(part).since + 60.0, false, true, 0.0, false, true, true);
      ForgettingStartsEarly(part, l);
      assert OutcomeAt(run[..k + 1] + [l], k + 1) == HotspotStarted;
    }
  }

  // ------------------------------------------------------------------ station retries

  predicate Retried(run: seq<Look>, i: nat)
    requires i < |run|
  {
    OutcomeAt(run, i) in {Recovered, RecoveryFailed}
  }

  /** The clock never goes back, within a tick or between ticks. */
  ghost predicate Timely(run: seq<Look>) {
    && (forall i :: 0 <= i < |run| ==> run[i].now <= run[i].retryNow)
    && (forall i, j :: 0 <= i < j < |run| ==> run[i].retryNow <= run[j].now)
  }

  /** Every retry's result reaches the disk. */
  ghost predicate RetriesKept(run: seq<Look>) {
    forall i :: 0 <= i < |run| && Retried(run, i) ==> run[i].writable
  }

  lemma RetriesKeptPrefix(run: seq<Look>, n: nat)
    requires RetriesKept(run) && n <= |run|
    ensures RetriesKept(run[..n])
  {
    forall i | 0 <= i < n && Retried(run[..n], i) ensures run[..n][i].writable {
      OutcomeStays(run, n, i);
    }
  }

  lemma LaterRetry(saved: Saved, l: Look, moment: real)
    requires saved.Held? ==> saved.lastRetry >= moment
    requires moment <= l.now <= l.retryNow
    ensures Ticked(saved, l).0.Held? ==> Ticked(saved, l).0.lastRetry >= moment
  {
  }

  lemma OwnRetry(saved: Saved, l: Look)
    requires l.writable && Ticked(saved, l).1 in {Recovered, RecoveryFailed}
    ensures Ticked(saved, l).0.Held? ==> Ticked(saved, l).0.lastRetry >= l.retryNow
  {
  }

  /** While a hotspot is held, its last retry is no earlier than any retry of the run. */
  lemma {:induction false} LastRetryIsLast(run: seq<Look>, i: nat)
    requires RetriesKept(run) && Timely(run) && i < |run| && Retried(run, i)
    ensures After(run).Held? ==> After(run).lastRetry >= run[i].retryNow
  {
    var n := |run| - 1;
    assert run[..n + 1] == run;
    hide Ticked;
    if i < n {
      OutcomeStays(run, n, i);
      RetriesKeptPrefix(run, n);
      LastRetryIsLast(run[..n], i);
      assert run[..n][i] == run[i] && run[i].retryNow <= run[n].now <= run[n].retryNow;
      assert Retried(run, n) ==> run[n].writable;
      hide Timely, RetriesKept;
      LaterRetry(After(run[..n]), run[n], run[i].retryNow);
    } else {
      assert run[n].writable;
      OwnRetry(After(run[..n]), run[n]);
    }
  }

  /** Two retries of the station are at least ten minutes apart, when those before the later one reached the disk. */
  lemma RetriesSpaced(run: seq<Look>, i: nat, j: nat)
    requires Timely(run) && i < j < |run| && RetriesKept(run[..j]) && Retried(run, i) && Retried(run, j)
    ensures run[j].now >= run[i].retryNow + RETRY_SECONDS
  {
    OutcomeStays(run, j, i);
    LastRetryIsLast(run[..j], i);
  }

  /** A retry whose result is lost is repeated by the next tick that can read the file, at once. */
  lemma LostRetryRepeats(run: seq<Look>, l: Look)
    requires run != [] && Timely(run + [l]) && Retried(run, |run| - 1) && !run[|run| - 1].writable
    requires l.minutes > 0 && l.claimed && !Applying(l) && l.readable
    ensures Retried(run + [l], |run|)
  {
    var n := |run| - 1;
    assert (run + [l])[..n + 1] == run && (run + [l])[n] == run[n];
    assert After(run) == After(run[..n]);
    assert run[n].now <= l.now by {
      assert run[n].now <= run[n].retryNow <= l.now;
    }
  }

  /** Any two retries of the run, and any one a next tick could add to any part of it, are ten minutes apart. */
  ghost predicate AlwaysSpaced(run: seq<Look>) {
    forall m: nat, l, i: nat ::
      i < m <= |run| && Timely(run[..m] + [l]) && Retried(run[..m] + [l], i) && Retried(run[..m] + [l], m) ==>
        l.now >= run[i].retryNow + RETRY_SECONDS
  }

  /** Retries are always spaced exactly when every retry's result reaches the disk. */
  lemma SpacedIff(run: seq<Look>)
    requires Timely(run)
    ensures AlwaysSpaced(run) <==> RetriesKept(run)
  {
    if RetriesKept(run) {
      forall m: nat, l, i: nat | i < m <= |run| && Timely(run[..m] + [l]) && Retried(run[..m] + [l], i)
        && Retried(run[..m] + [l], m)
        ensures l.now >= run[i].retryNow + RETRY_SECONDS
      {
        RetriesKeptPrefix(run, m);
        assert (run[..m] + [l])[..m] == run[..m];
        RetriesSpaced(run[..m] + [l], i, m);
      }
    } else {
      var k :| 0 <= k < |run| && Retried(run, k) && !run[k].writable;
      var l := LostRetryUnspaced(run, k);
      assert Retried(run[..k + 1] + [l], k) && Retried(run[..k + 1] + [l], k + 1);
    }
  }

  lemma LostRetryUnspaced(run: seq<Look>, k: nat) returns (l: Look)
    requires Timely(run) && k < |run| && Retried(run, k) && !run[k].writable
    ensures Timely(run[..k + 1] + [l]) && l.now == run[k].retryNow
    ensures Retried(run[..k + 1] + [l], k) && Retried(run[..k + 1] + [l], k + 1)
  {
    var part, at := run[..k + 1], run[k].retryNow;
    l := Look(1, true, None, at, false, true, at, false, true, true);
    OutcomeStays(run, k + 1, k);
    TimelyMore(run, k + 1, l);
    hide Timely;
    LostRetryRepeats(part, l);
    OutcomeStays(part + [l], k + 1, k);
    assert (part + [l])[..k + 1] == part;
  }

  lemma TimelyMore(run: seq<Look>, n: nat, l: Look)
    requires Timely(run) && 0 < n <= |run| && l.now == l.retryNow == run[n - 1].retryNow
    ensures Timely(run[..n] + [l])
  {
    var more := run[..n] + [l];
    assert forall i :: 0 <= i < n ==> more[i] == run[i] && run[i].retryNow <= run[n - 1].retryNow;
  }
}
