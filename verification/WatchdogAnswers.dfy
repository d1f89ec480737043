/** How every tick of the watchdog ends, and when exactly the hotspot starts. */
module WatchdogAnswers {
  import opened Common
  import Apply = NetworkApply
  import opened NetworkKey
  import opened Watchdog

  /** The tick gets past the threshold setting, the stored profile and a transaction under way. */
  predicate Looks(l: Look) {
    && l.minutes > 0 && l.claimed
    && !(l.note.Some? && l.note.value.state == Apply.Applying && l.now - l.note.value.at <= 180.0)
  }

  /**
   * The outcome of every tick, each exactly in its case, from what it reads; a transaction under way for more than 180
   * seconds does not hold it back.
   */
  lemma TickAnswers(saved: Saved, l: Look)
    ensures var o, state := Ticked(saved, l).1, if l.readable then saved else Nothing;
      && (o == Disabled <==> l.minutes <= 0)
      && (o == Unclaimed <==> l.minutes > 0 && !l.claimed)
      && (o == Busy <==> l.minutes > 0 && l.claimed && !Looks(l))
      && (o == HotspotHeld <==> Looks(l) && state.Held? && l.now - state.lastRetry < 600.0)
      && (o == Recovered <==> Looks(l) && state.Held? && l.now - state.lastRetry >= 600.0 && l.comesBack)
      && (o == RecoveryFailed <==> Looks(l) && state.Held? && l.now - state.lastRetry >= 600.0 && !l.comesBack)
      && (o == Healthy <==> Looks(l) && !state.Held? && l.ready)
      && (o == HotspotStarted <==>
            && Looks(l) && !state.Held? && !l.ready && l.starts
            && state.Down? && state.since <= l.now && l.now - state.since >= 60.0 * l.minutes as real)
  {
  }

  /** What a tick leaves on the disk. */
  lemma TickLeaves(saved: Saved, l: Look)
    ensures var (next, o) := Ticked(saved, l);
      var state := if l.readable then saved else Nothing;
      && (!l.writable || o in {Disabled, Unclaimed, Busy, HotspotHeld} ==> next == saved)
      && (l.writable && o == Recovered ==> next == Nothing)
      && (l.writable && o == RecoveryFailed ==> state.Held? && next == Held(l.retryNow, state.since))
      && (l.writable && o == Healthy ==> next == if state.Down? then Nothing else saved)
      && (l.writable && o == HotspotStarted ==> state.Down? && next == Held(l.now, state.since))
      && (l.writable && o == Waiting ==>
            next == if state.Down? && state.since <= l.now then saved else Down(l.now))
  {
  }

  // ------------------------------------------------------------------ hotspot starts, over runs

  /** Every tick can read and write the state file, and the clock does not go back. */
  ghost predicate Sound(run: seq<Look>) {
    && (forall i :: 0 <= i < |run| ==> run[i].readable && run[i].writable)
    && (forall i, j :: 0 <= i < j < |run| ==> run[i].now <= run[j].now)
  }

  /** The last tick that started a hotspot or brought the station back started one. */
  predicate Holding(run: seq<Look>) {
    run != [] &&
    (var o := OutcomeAt(run, |run| - 1);
     o == HotspotStarted || (o != Recovered && Holding(run[..|run| - 1])))
  }

  /** The link has been found down since this moment: by the first tick of a stretch of ticks that never found it up. */
  function DownSince(run: seq<Look>): Option<real> {
    if run == [] then None
    else
      var l, before := run[|run| - 1], DownSince(run[..|run| - 1]);
      match OutcomeAt(run, |run| - 1)
      case Waiting => if before.Some? then before else Some(l.now)
      case Healthy => None
      case Recovered => None
      case HotspotStarted => None
      case _ => before
  }

  lemma SoundPrefix(run: seq<Look>)
    requires Sound(run) && run != []
    ensures Sound(run[..|run| - 1])
  {
    var n := |run| - 1;
    assert forall i :: 0 <= i < n ==> run[..n][i] == run[i];
  }

  /** On such runs the file says exactly that. */
  lemma {:induction false} FileSays(run: seq<Look>)
    requires Sound(run)
    ensures After(run).Held? <==> Holding(run)
    ensures !Holding(run) ==> (After(run).Down? <==> DownSince(run).Some?)
    ensures After(run).Down? ==>
      DownSince(run) == Some(After(run).since) && run != [] && After(run).since <= run[|run| - 1].now
    ensures Holding(run) ==> DownSince(run).None?
  {
    if run != [] {
      var n := |run| - 1;
      SoundPrefix(run);
      FileSays(run[..n]);
      TickAnswers(After(run[..n]), run[n]);
      TickLeaves(After(run[..n]), run[n]);
      assert run[..n][..|run[..n]|] == run[..n];
      assert OutcomeAt(run, n) == Ticked(After(run[..n]), run[n]).1;
      assert After(run) == Ticked(After(run[..n]), run[n]).0;
      assert run[n].readable && run[n].writable;
      assert n > 0 ==> run[n - 1].now <= run[n].now && run[..n][n - 1] == run[n - 1];
      hide Ticked, Sound, OutcomeAt, Looks;
    }
  }

  /**
   * On every run with a sound file and clock, the next tick starts a hotspot exactly when it gets to look, no hotspot
   * is held, the link is down and has been found down since at least the threshold, and the hotspot starts.
   */
  lemma StartsIff(run: seq<Look>, l: Look)
    requires Sound(run + [l])
    ensures OutcomeAt(run + [l], |run|) == HotspotStarted <==>
      && Looks(l) && !Holding(run) && !l.ready && l.starts
      && DownSince(run).Some? && l.now - DownSince(run).value >= 60.0 * l.minutes as real
  {
    var all := run + [l];
    assert all[..|run|] == run && all[|run|] == l;
    SoundPrefix(all);
    FileSays(run);
    TickAnswers(After(run), l);
    assert l.readable;
    assert run != [] ==> all[|run| - 1] == run[|run| - 1] && run[|run| - 1].now <= l.now;
    hide Ticked, Sound, Looks, DownSince, Holding, After;
  }
}
