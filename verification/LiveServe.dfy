/** Whether a viewer who was just admitted gets a frame: what `_ensure_running` finds and what follows from it. */
module LiveServe {
  import opened Common
  import opened LiveMonitor
  import opened LiveProtocol

  ghost predicate LeaseLives(s: State) { exists v :: v in s.leases && s.leases[v] > s.now }

  /** A producer that will look for viewers again, or has found one, before it leaves its loop. */
  predicate Heading(t: Thread, stop: bool, now: real, c: Config) {
    match t.pc
    case AtViewers => true
    case AtCapture => true
    case AtTest => !stop
    case AtWait => !stop
    case AtIdle => !stop && (t.idleSince.None? || now - t.idleSince.value < c.idleGrace)
    case _ => false
  }

  /** What `_ensure_running` must find: no producer, so that it starts one, or one that heads for a capture. */
  predicate WillServe(s: State, c: Config)
    requires ThreadRefOk(s)
  {
    !ProducerUp(s) || Heading(s.threads[s.thread.value], s.stop, s.now, c)
  }

  /** The state after `n` steps of thread `i` alone. */
  function AfterOwn(s: State, i: nat, n: nat, c: Config): (r: State)
    requires i < |s.threads|
    ensures |r.threads| == |s.threads|
    decreases n
  {
    if n == 0 then s else AfterOwn(ThreadStep(s, i, c), i, n - 1, c)
  }

  // ------------------------------------------------------------------ a producer that heads for a capture

  function Rank(pc: Pc): nat {
    match pc
    case AtIdle => 4
    case AtWait => 3
    case AtTest => 2
    case AtViewers => 1
    case _ => 0
  }

  lemma HeadingStep(s: State, i: nat, c: Config)
    requires i < |s.threads| && Heading(s.threads[i], s.stop, s.now, c) && !s.threads[i].pc.AtCapture? && LeaseLives(s)
    ensures var s' := ThreadStep(s, i, c);
            && Heading(s'.threads[i], s'.stop, s'.now, c) && LeaseLives(s')
            && Rank(s'.threads[i].pc) < Rank(s.threads[i].pc)
  {
    var v :| v in s.leases && s.leases[v] > s.now;
    assert v in Pruned(s.leases, s.now);
    var s' := ThreadStep(s, i, c);
    assert v in s'.leases && s'.leases[v] > s'.now;
  }

  lemma {:induction false} HeadingCaptures(s: State, i: nat, c: Config) returns (n: nat)
    requires i < |s.threads| && Heading(s.threads[i], s.stop, s.now, c) && LeaseLives(s)
    ensures AfterOwn(s, i, n, c).threads[i].pc.AtCapture?
    decreases Rank(s.threads[i].pc)
  {
    if s.threads[i].pc.AtCapture? {
      n := 0;
    } else {
      HeadingStep(s, i, c);
      hide ThreadStep, Heading, LeaseLives;
      n := HeadingCaptures(ThreadStep(s, i, c), i, c);
      n := n + 1;
    }
  }

  // ------------------------------------------------------------------ a producer that leaves

  /** Every thread in the loop will leave it before it looks for viewers again. */
  ghost predicate Doomed(s: State, c: Config) {
    forall i :: 0 <= i < |s.threads| && InLoop(s.threads[i].pc) ==> !Heading(s.threads[i], s.stop, s.now, c)
  }

  /** Nothing but another `_ensure_running` saves it. */
  lemma DoomedStep(s: State, a: Action, c: Config)
    requires ThreadRefOk(s) && Enabled(s, a) && !a.Ensure? && Doomed(s, c)
    ensures Doomed(Next(s, a, c), c)
  {
    hide Touched, Pruned;
    var s' := Next(s, a, c);
    forall k | 0 <= k < |s'.threads| && InLoop(s'.threads[k].pc)
      ensures !Heading(s'.threads[k], s'.stop, s'.now, c)
    {
      assert !InLoop(s.threads[k].pc) || !Heading(s.threads[k], s.stop, s.now, c);
    }
  }

  ghost predicate NoEnsure(acts: seq<Action>) { forall k :: 0 <= k < |acts| ==> !acts[k].Ensure? }

  lemma {:induction false} DoomedRun(s: State, acts: seq<Action>, c: Config)
    requires Doomed(s, c) && Valid(s, acts, c) && NoEnsure(acts)
    ensures Doomed(End(s, acts, c), c)
    decreases |acts|
  {
    hide Doomed, Next, Enabled;
    if acts != [] {
      assert !acts[0].Ensure?;
      DoomedStep(s, acts[0], c);
      DoomedRun(Next(s, acts[0], c), acts[1..], c);
    }
  }

  lemma NotServed(s: State, startOk: bool, c: Config)
    requires Inv(s, c) && s.callers > 0 && !WillServe(s, c)
    ensures EnsureRunning(s, startOk) == s.(callers := s.callers - 1) && Doomed(EnsureRunning(s, startOk), c)
  {
    hide Heading;
  }

  /**
   If `_ensure_running` finds a producer that leaves, then no thread captures in any state of any run from
   there on that does not enter `_ensure_running` again, whatever the other threads do meanwhile.
   */
  lemma MissedForGood(s: State, startOk: bool, acts: seq<Action>, c: Config)
    requires Inv(s, c) && s.callers > 0 && !WillServe(s, c)
    requires Valid(EnsureRunning(s, startOk), acts, c) && NoEnsure(acts)
    ensures var s' := End(EnsureRunning(s, startOk), acts, c);
            forall k :: 0 <= k < |s'.threads| ==> !s'.threads[k].pc.AtCapture?
  {
    assert ThreadRefOk(s);
    hide Valid, End, EnsureRunning, WillServe, Inv;
    NotServed(s, startOk, c);
    DoomedRun(EnsureRunning(s, startOk), acts, c);
  }

  lemma {:induction false} DoomedOwn(s: State, i: nat, n: nat, c: Config)
    requires ThreadRefOk(s) && i < |s.threads| && Doomed(s, c)
    ensures Doomed(AfterOwn(s, i, n, c), c)
    decreases n
  {
    if n > 0 {
      DoomedStep(s, Step(i), c);
      ThreadRefKept(s, i, c);
      hide Doomed, ThreadStep;
      DoomedOwn(ThreadStep(s, i, c), i, n - 1, c);
    }
  }

  /**
   With a live lease, the current producer's own steps after `_ensure_running` lead to a capture exactly when
   no producer was up, or the one that was heads for a capture.
   */
  lemma EnsureServesIff(s: State, c: Config)
    requires Inv(s, c) && s.callers > 0 && LeaseLives(s)
    ensures var s' := EnsureRunning(s, true);
            && s'.thread.Some? && s'.thread.value < |s'.threads|
            && ((exists n: nat :: AfterOwn(s', s'.thread.value, n, c).threads[s'.thread.value].pc.AtCapture?) <==>
                WillServe(s, c))
  {
    var s' := EnsureRunning(s, true);
    var i := s'.thread.value;
    assert LeaseLives(s') by {
      var v :| v in s.leases && s.leases[v] > s.now;
      assert v in s'.leases;
    }
    if WillServe(s, c) {
      assert Heading(s'.threads[i], s'.stop, s'.now, c);
      var n := HeadingCaptures(s', i, c);
    } else {
      NotServed(s, true, c);
      forall n: nat ensures !AfterOwn(s', i, n, c).threads[i].pc.AtCapture? {
        hide Inv, EnsureRunning, WillServe, AfterOwn;
        DoomedOwn(s', i, n, c);
      }
    }
  }

  // ------------------------------------------------------------------ what the other calls leave

  /** A viewer without a name is not admitted; a finished stop has let go of a dead producer; a viewer test prunes. */
  lemma CallsLeave(s: State, a: Action, c: Config)
    requires ThreadRefOk(s) && Enabled(s, a)
    ensures a == Touch("") ==> Next(s, a, c) == s
    ensures a.StopFinish? && s.thread.Some? && !Alive(s.threads[s.thread.value].pc) ==>
      Next(s, a, c).thread.None? && !Next(s, a, c).running
    ensures a.Step? && s.threads[a.i].pc.AtViewers? ==>
      forall v :: v in Next(s, a, c).leases <==> v in s.leases && s.leases[v] > s.now
  {
    hide Touched, EnsureRunning;
  }

  // ------------------------------------------------------------------ an admitted viewer without a producer

  /** The viewer holds a lease, but no thread is in the loop, none is marked running and nobody is starting one. */
  ghost predicate Missed(s: State, viewer: string) {
    && viewer in s.leases && s.leases[viewer] > s.now
    && (forall i :: 0 <= i < |s.threads| ==> !InLoop(s.threads[i].pc))
    && !s.running && s.callers == 0
  }

  function Own(i: nat, n: nat): seq<Action> { if n == 0 then [] else [Step(i)] + Own(i, n - 1) }

  /** Puts one step in front of a run. */
  lemma Before(s: State, a: Action, acts: seq<Action>, c: Config)
    requires ThreadRefOk(s) && Enabled(s, a) && Valid(Next(s, a, c), acts, c)
    ensures Valid(s, [a] + acts, c) && End(s, [a] + acts, c) == End(Next(s, a, c), acts, c)
  {
    assert ([a] + acts)[1..] == acts;
  }

  lemma {:induction false} OwnIsRun(s: State, i: nat, n: nat, c: Config)
    requires ThreadRefOk(s) && i < |s.threads|
    ensures Valid(s, Own(i, n), c) && End(s, Own(i, n), c) == AfterOwn(s, i, n, c)
    decreases n
  {
    if n > 0 {
      ThreadRefKept(s, i, c);
      var s' := ThreadStep(s, i, c);
      assert Enabled(s, Step(i)) && Next(s, Step(i), c) == s';
      hide ThreadStep, Valid, End, Next, Enabled, ThreadRefOk;
      assert AfterOwn(s, i, n, c) == AfterOwn(s', i, n - 1, c);
      OwnIsRun(s', i, n - 1, c);
      Before(s, Step(i), Own(i, n - 1), c);
    }
  }

  /** Left to itself, a current producer that is doomed leaves and clears the running flag; nothing else changes. */
  lemma {:induction false} Leaves(s: State, i: nat, c: Config) returns (n: nat)
    requires Inv(s, c) && Doomed(s, c) && s.thread == Some(i) && Producing(s.threads[i].pc)
    ensures var r := AfterOwn(s, i, n, c);
            && !r.running && (forall k :: 0 <= k < |r.threads| ==> !InLoop(r.threads[k].pc))
            && r.leases == s.leases && r.now == s.now && r.callers == s.callers
    decreases Rank(s.threads[i].pc)
  {
    var s' := ThreadStep(s, i, c);
    ThreadStepInv(s, i, c);
    DoomedStep(s, Step(i), c);
    if s.threads[i].pc.Leaving? {
      n := 1;
      assert AfterOwn(s, i, 1, c) == AfterOwn(s', i, 0, c) == s';
    } else {
      assert !Heading(s.threads[i], s.stop, s.now, c);
      DoomedMoves(s, i, c);
      hide ThreadStep, Inv, Doomed, Heading;
      n := Leaves(s', i, c);
      n := n + 1;
    }
  }

  lemma DoomedMoves(s: State, i: nat, c: Config)
    requires i < |s.threads| && InLoop(s.threads[i].pc) && !Heading(s.threads[i], s.stop, s.now, c)
    ensures var s' := ThreadStep(s, i, c);
            && Producing(s'.threads[i].pc) && Rank(s'.threads[i].pc) < Rank(s.threads[i].pc)
            && s'.thread == s.thread && s'.leases == s.leases && s'.now == s.now && s'.callers == s.callers
  {
  }

  lemma {:induction false} Joined(s: State, acts: seq<Action>, more: seq<Action>, c: Config)
    requires Valid(s, acts, c) && Valid(End(s, acts, c), more, c)
    ensures Valid(s, acts + more, c) && End(s, acts + more, c) == End(End(s, acts, c), more, c)
    decreases |acts|
  {
    hide Next, Enabled, ThreadRefOk;
    if acts == [] {
      assert acts + more == more;
    } else {
      Joined(Next(s, acts[0], c), acts[1..], more, c);
      assert acts + more == [acts[0]] + (acts[1..] + more);
    }
  }

  /**
   In every run that brings a viewer's own call to `_ensure_running` while the producer leaves, the rest of that
   call and the producer's own steps end with the viewer admitted and nobody capturing.
   */
  lemma MissedFollows(acts: seq<Action>, viewer: string, c: Config) returns (more: seq<Action>)
    requires Valid(INIT, acts, c)
    requires var s := End(INIT, acts, c);
             s.callers == 1 && viewer in s.leases && s.leases[viewer] > s.now && ThreadRefOk(s) && !WillServe(s, c)
    ensures Valid(INIT, acts + more, c) && Missed(End(INIT, acts + more, c), viewer)
  {
    var s := End(INIT, acts, c);
    InvHolds(INIT, acts, c);
    NotServed(s, true, c);
    var s' := EnsureRunning(s, true);
    EnsureInv(s, true, c);
    var i := s.thread.value;
    assert Enabled(s, Ensure(true)) && Next(s, Ensure(true), c) == s';
    hide Valid, End, EnsureRunning, Next, Enabled, ThreadStep, Doomed, Heading;
    var n := Leaves(s', i, c);
    OwnIsRun(s', i, n, c);
    Before(s, Ensure(true), Own(i, n), c);
    more := [Ensure(true)] + Own(i, n);
    Joined(INIT, acts, more, c);
  }

  lemma Extend(acts: seq<Action>, a: Action, s: State, s': State, c: Config)
    requires Valid(INIT, acts, c) && End(INIT, acts, c) == s
    requires ThreadRefOk(s) && Enabled(s, a) && Next(s, a, c) == s'
    ensures Valid(INIT, acts + [a], c) && End(INIT, acts + [a], c) == s'
  {
    hide Next, Enabled, ThreadRefOk;
    assert Valid(s', [], c) && End(s', [], c) == s';
    Before(s, a, [], c);
    assert [a] + [] == [a];
    Joined(INIT, acts, [a], c);
  }

  lemma FirstTouch(viewer: string, now: real, c: Config)
    requires ConfigOk(c)
    ensures Touched(map[], viewer, now, c) == (map[viewer := now + c.viewerTtl], true)
  {
    assert Pruned(map[], now) == map[];
  }

  /** One producer, nobody watching. */
  function Alone(now: real, stop: bool, t: Thread): State {
    State(now, stop, Some(0), true, 1, map[], [t], 0, if stop then [Joining] else [])
  }

  lemma Started(c: Config) returns (acts: seq<Action>)
    ensures Valid(INIT, acts, c) && End(INIT, acts, c) == Alone(0.0, false, Thread(1, AtTest, None, 0.0))
  {
    acts := [];
    assert Valid(INIT, acts, c) && End(INIT, acts, c) == INIT;
    hide Valid, End;
    var s1 := INIT.(callers := 1);
    Extend(acts, Start, INIT, s1, c);
    Extend(acts + [Start], Ensure(true), s1, Alone(0.0, false, Thread(1, AtTest, None, 0.0)), c);
    acts := acts + [Start] + [Ensure(true)];
  }

  lemma Stopped(c: Config) returns (acts: seq<Action>)
    ensures Valid(INIT, acts, c) && End(INIT, acts, c) == Alone(0.0, true, Thread(1, AtTest, None, 0.0))
  {
    acts := Started(c);
    hide Valid, End;
    var t := Thread(1, AtTest, None, 0.0);
    Extend(acts, Stop, Alone(0.0, false, t), Alone(0.0, true, t), c);
    acts := acts + [Stop];
  }

  /** A first viewer touches and finds the producer about to leave. */
  lemma TouchLate(before: seq<Action>, s: State, viewer: string, c: Config)
    returns (acts: seq<Action>, more: seq<Action>)
    requires ConfigOk(c) && viewer != "" && Valid(INIT, before, c) && End(INIT, before, c) == s
    requires |s.threads| == 1 && s == Alone(s.now, s.stop, s.threads[0])
    requires Alive(s.threads[0].pc) && !Heading(s.threads[0], s.stop, s.now, c)
    ensures acts == before + [Touch(viewer)] && Valid(INIT, acts, c)
    ensures Valid(INIT, acts + more, c) && Missed(End(INIT, acts + more, c), viewer)
  {
    hide Valid, End, Pruned, Heading;
    FirstTouch(viewer, s.now, c);
    var s' := s.(leases := map[viewer := s.now + c.viewerTtl], callers := 1);
    Extend(before, Touch(viewer), s, s', c);
    acts := before + [Touch(viewer)];
    more := MissedFollows(acts, viewer, c);
  }

  /** The producer was told to stop and has left its loop. */
  lemma TouchMissed(viewer: string, c: Config) returns (before: seq<Action>, acts: seq<Action>)
    requires ConfigOk(c) && viewer != ""
    ensures Valid(INIT, before, c) && End(INIT, before, c) == Alone(0.0, true, Thread(1, Leaving, None, 0.0))
    ensures before + [Touch(viewer)] <= acts && Valid(INIT, acts, c) && Missed(End(INIT, acts, c), viewer)
  {
    before := Stopped(c);
    var s, s' := Alone(0.0, true, Thread(1, AtTest, None, 0.0)), Alone(0.0, true, Thread(1, Leaving, None, 0.0));
    hide Valid, End, Missed;
    Extend(before, Step(0), s, s', c);
    before := before + [Step(0)];
    var a, more := TouchLate(before, s', viewer, c);
    acts := a + more;
  }

  /** The producer is still at the top of its loop, but will find the stop event set. */
  lemma StoppingMissed(viewer: string, c: Config) returns (before: seq<Action>, acts: seq<Action>)
    requires ConfigOk(c) && viewer != ""
    ensures Valid(INIT, before, c) && End(INIT, before, c) == Alone(0.0, true, Thread(1, AtTest, None, 0.0))
    ensures before + [Touch(viewer)] <= acts && Valid(INIT, acts, c) && Missed(End(INIT, acts, c), viewer)
  {
    before := Stopped(c);
    hide Valid, End, Missed;
    var a, more := TouchLate(before, Alone(0.0, true, Thread(1, AtTest, None, 0.0)), viewer, c);
    acts := a + more;
  }

  /** Nobody stops it, but it has found no viewer and its idle grace is used up. */
  lemma IdleMissed(viewer: string, c: Config) returns (before: seq<Action>, acts: seq<Action>)
    requires ConfigOk(c) && viewer != ""
    ensures Valid(INIT, before, c)
      && End(INIT, before, c) == Alone(c.idleGrace, false, Thread(1, AtIdle, Some(0.0), 0.0))
    ensures before + [Touch(viewer)] <= acts && Valid(INIT, acts, c) && Missed(End(INIT, acts, c), viewer)
  {
    before := Started(c);
    hide Valid, End, Missed;
    before := Looped(before, None, c);
    var s := Alone(0.0, false, Thread(1, AtIdle, None, 0.0));
    var s1 := Alone(0.0, false, Thread(1, AtWait, Some(0.0), 0.0));
    var s2 := Alone(0.0, false, Thread(1, AtTest, Some(0.0), 0.0));
    Extend(before, Step(0), s, s1, c);
    Extend(before + [Step(0)], Step(0), s1, s2, c);
    before := Looped(before + [Step(0)] + [Step(0)], Some(0.0), c);
    var t := Thread(1, AtIdle, Some(0.0), 0.0);
    var s3, s4 := Alone(0.0, false, t), Alone(c.idleGrace, false, t);
    Extend(before, Pass(c.idleGrace), s3, s4, c);
    before := before + [Pass(c.idleGrace)];
    var a, more := TouchLate(before, s4, viewer, c);
    acts := a + more;
  }

  /** One pass of the loop that finds no viewer. */
  lemma Looped(before: seq<Action>, idle: Option<real>, c: Config) returns (acts: seq<Action>)
    requires Valid(INIT, before, c) && End(INIT, before, c) == Alone(0.0, false, Thread(1, AtTest, idle, 0.0))
    ensures Valid(INIT, acts, c) && End(INIT, acts, c) == Alone(0.0, false, Thread(1, AtIdle, idle, 0.0))
  {
    hide Valid, End;
    assert Pruned(map[], 0.0) == map[];
    var s0, s1, s2 := Alone(0.0, false, Thread(1, AtTest, idle, 0.0)),
                      Alone(0.0, false, Thread(1, AtViewers, idle, 0.0)),
                      Alone(0.0, false, Thread(1, AtIdle, idle, 0.0));
    Extend(before, Step(0), s0, s1, c);
    Extend(before + [Step(0)], Step(0), s1, s2, c);
    acts := before + [Step(0)] + [Step(0)];
  }
}
