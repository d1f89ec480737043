/** The root network transaction of `app/network_apply.py`: apply, wait for the link, restore or fall back. */
module NetworkApply {
  import opened Common

  const POLL := 2.0
  const HEALTH_TIMEOUT := 60.0
  const RESTORE_TIMEOUT := 30.0

  /** One look at the link: whether it is activated with an address and a gateway, and whether the gateway answers. */
  datatype Probe = Probe(ready: bool, ping: bool)

  /** What a wait observes: `start` and the clock reading after each probe. */
  datatype Link = Link(start: real, probe: nat -> Probe, reading: nat -> real)

  /** The clock passes at least one poll interval per round. */
  ghost predicate Ticking(l: Link) {
    l.reading(0) >= l.start && forall i: nat :: l.reading(i + 1) >= l.reading(i) + POLL
  }

  predicate Good(p: Probe, requirePing: bool) { p.ready && (requirePing ==> p.ping) }

  /** The wait reaches its `i`-th probe. */
  ghost predicate Reached(l: Link, requirePing: bool, timeout: real, i: nat) {
    forall j: nat :: j < i ==> !Good(l.probe(j), requirePing) && l.reading(j) < l.start + timeout
  }

  /** Some probe before the deadline passes is good. */
  ghost predicate ComesUp(l: Link, requirePing: bool, timeout: real) {
    exists i: nat :: Reached(l, requirePing, timeout, i) && Good(l.probe(i), requirePing)
  }

  lemma {:induction false} ReadingGrows(l: Link, i: nat)
    requires Ticking(l)
    ensures l.reading(i) >= l.start + POLL * i as real
  {
    if i > 0 {
      ReadingGrows(l, i - 1);
    }
  }

  /** Polls until a good probe or the deadline; it answers yes exactly when a reached probe is good. */
  method WaitHealthy(l: Link, requirePing: bool, timeout: real) returns (ok: bool, polls: nat)
    requires Ticking(l) && timeout >= 0.0
    ensures ok <==> ComesUp(l, requirePing, timeout)
    ensures polls >= 1 && Reached(l, requirePing, timeout, polls - 1)
    ensures ok <==> l.probe(polls - 1).ready && (requirePing ==> l.probe(polls - 1).ping)
    ensures !ok ==> l.reading(polls - 1) >= l.start + timeout
    ensures polls as real <= timeout / POLL + 2.0
  {
    polls := 0;
    ghost var bound := (timeout / POLL).Floor + 2;
    while true
      invariant Reached(l, requirePing, timeout, polls)
      invariant polls > 0 ==> l.reading(polls - 1) < l.start + timeout
      invariant polls < bound
      decreases bound - polls
    {
      var probe := l.probe(polls);
      polls := polls + 1;
      if Good(probe, requirePing) {
        assert Reached(l, requirePing, timeout, polls - 1);
        return true, polls;
      }
      ReadingGrows(l, polls - 1);
      if l.reading(polls - 1) >= l.start + timeout {
        NeverGood(l, requirePing, timeout, polls - 1);
        return false, polls;
      }
    }
  }

  /** A wait whose deadline passes on a bad probe never comes up. */
  lemma NeverGood(l: Link, requirePing: bool, timeout: real, i: nat)
    requires Reached(l, requirePing, timeout, i) && !Good(l.probe(i), requirePing)
    requires l.reading(i) >= l.start + timeout
    ensures !ComesUp(l, requirePing, timeout)
  {
    forall j: nat | Reached(l, requirePing, timeout, j) ensures !Good(l.probe(j), requirePing) {
      assert j <= i;
    }
  }

  // ------------------------------------------------------------------ the transaction

  datatype State = Applying | Applied | Reverted | Hotspot

  /**
   * Everything the transaction meets: whether applying the profile succeeded and the keyfile it
   * left, the links of the two waits, whether the snapshot could be read, whether writing it back
   * or deleting the profile worked and the keyfile a deletion left, the hotspot's answer (`None`
   * when it raised), and which result writes reach the disk.
   */
  datatype World = World(
    manual: bool, snapshotReadable: bool, applyOk: bool, applied: Option<string>, health: Link,
    restoreOk: bool, deleted: Option<string>, back: Link, hotspot: Option<bool>, written: (bool, bool))

  class Machine {
    var keyfile: Option<string>
    var result: Option<State>
    /** Every state passed to the result writer, whether or not it reached the disk. */
    var reported: seq<State>

    constructor (keyfile: Option<string>, result: Option<State>)
      ensures this.keyfile == keyfile && this.result == result && reported == []
    {
      this.keyfile, this.result, reported := keyfile, result, [];
    }

    method WriteResult(state: State, reachesDisk: bool)
      modifies this`result, this`reported
      ensures reported == old(reported) + [state]
      ensures result == if reachesDisk then Some(state) else old(result)
    {
      reported := reported + [state];
      if reachesDisk {
        result := Some(state);
      }
    }

    /** Put the snapshot back, or delete the new profile when there was none. */
    method Restore(snapshot: Option<string>, w: World) returns (ok: bool)
      modifies this`keyfile
      ensures ok <==> snapshot.None? || w.restoreOk
      ensures keyfile == if snapshot.None? then w.deleted else if w.restoreOk then snapshot else old(keyfile)
    {
      if snapshot.None? {
        keyfile := w.deleted;
        return true;
      }
      if !w.restoreOk {
        return false;
      }
      keyfile := snapshot;
      return true;
    }

    /**
     * The transaction reports `applying` first and then exactly one final state, the one it
     * returns. It is `applied` exactly when the profile was accepted and the link was seen up in
     * time, and whenever a snapshot could be read and written back after a failure, the keyfile
     * is the one from before.
     */
    method Run(w: World) returns (state: State)
      requires Ticking(w.health) && Ticking(w.back)
      modifies this
      ensures state != Applying && reported == old(reported) + [Applying, state]
      ensures w.written.1 ==> result == Some(state)
      ensures state == Applied <==> w.applyOk && ComesUp(w.health, w.manual, HEALTH_TIMEOUT)
      ensures state == Applied ==> keyfile == w.applied
      ensures state != Applied && w.snapshotReadable && old(keyfile).Some? && w.restoreOk ==> keyfile == old(keyfile)
      ensures state == Hotspot ==>
        && w.hotspot == Some(true)
        && !(w.snapshotReadable && old(keyfile).Some? && w.restoreOk && ComesUp(w.back, false, RESTORE_TIMEOUT))
      ensures state == Reverted && w.hotspot == Some(true) ==>
        && w.snapshotReadable && old(keyfile).Some? && keyfile == old(keyfile)
        && ComesUp(w.back, false, RESTORE_TIMEOUT)
    {
      WriteResult(Applying, w.written.0);
      var snapshot := if w.snapshotReadable then keyfile else None;
      keyfile := w.applied;
      var ok, polls := w.applyOk, 0;
      if ok {
        ok, polls := WaitHealthy(w.health, w.manual, HEALTH_TIMEOUT);
      }
      if ok {
        WriteResult(Applied, w.written.1);
        return Applied;
      }
      var restored := Restore(snapshot, w);
      var healthy := false;
      if restored && snapshot.Some? {
        healthy, polls := WaitHealthy(w.back, false, RESTORE_TIMEOUT);
      }
      if healthy {
        WriteResult(Reverted, w.written.1);
        return Reverted;
      }
      state := if w.hotspot == Some(true) then Hotspot else Reverted;
      WriteResult(state, w.written.1);
    }
  }
}
