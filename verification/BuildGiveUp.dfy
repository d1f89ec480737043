/**
 * Two runs in which the queue is stranded: the give-up branch of `_drain_queue` returns without re-arming the
 * timer, and a timer's start raises.
 */
module BuildGiveUp {
  import opened Common
  import opened BuildManager
  import opened BuildProtocol
  import opened BuildWakeup
  import opened BuildRuns

  const LIMITS := Limits(20000, 2147483648, 33554432)
  const OPTS := Options(5, None, None)

  /** One frame, room enough, and the lock file held by another process. */
  const BUSY := Env(true, false, [1], Some(100000000), false, true, 0, 0)

  /** `a` has been retried `k` times and waits for its timer; `b` is behind it; nothing else is going on. */
  ghost predicate Parked(s: State, k: nat) {
    && s.timers != []
    && s.c == Core(map[], [], false, false, [0, 1], [Item("a", OPTS, k), Item("b", OPTS, 0)], Some(|s.timers| - 1))
    && Quiet(s)
    && s.timers[|s.timers| - 1].Waiting?
    && (forall t :: 0 <= t < |s.timers| - 1 ==> s.timers[t].TimerDone?)
  }

  ghost predicate Quiet(s: State) {
    && s.builds == [] && s.stops == [] && s.used == {}
    && (forall i :: 0 <= i < |s.schedules| ==> s.schedules[i].ScheduleDone?)
    && (forall i :: 0 <= i < |s.drains| ==> s.drains[i].DrainDone?)
  }

  lemma BusyStart(s: State)
    requires s.c.jobs == map[] && s.c.order == [] && !s.c.held
    ensures StartBuild(s, true, BUSY, LIMITS) == (s, Busy(None))
  {
    assert BUSY.sizes[..0] == [];
    assert Sum(BUSY.sizes) == 1;
  }

  lemma Compose(s: State, a: seq<Action>, b: seq<Action>, limits: Limits)
    requires Valid(s, a, limits) && Valid(End(s, a, limits), b, limits)
    ensures Valid(s, a + b, limits) && End(s, a + b, limits) == End(End(s, a, limits), b, limits)
    decreases |a|
  {
    hide Next, Enabled, RefsOk;
    if a == [] {
      assert a + b == b;
    } else {
      assert (a + b)[1..] == a[1..] + b && (a + b)[0] == a[0];
      Compose(Next(s, a[0], limits), a[1..], b, limits);
    }
  }

  lemma One(s: State, a: Action, s': State, limits: Limits)
    requires RefsOk(s) && Enabled(s, a) && Next(s, a, limits) == s'
    ensures Valid(s, [a], limits) && End(s, [a], limits) == s'
  {
    assert [a][1..] == [];
  }

  /** Extends a run by one step. */
  lemma Then(s: State, acts: seq<Action>, a: Action, s': State, limits: Limits)
    requires Valid(s, acts, limits)
    requires var m := End(s, acts, limits); RefsOk(m) && Enabled(m, a) && Next(m, a, limits) == s'
    ensures Valid(s, acts + [a], limits) && End(s, acts + [a], limits) == s'
  {
    hide Next, Enabled, RefsOk;
    One(End(s, acts, limits), a, s', limits);
    Compose(s, acts, [a], limits);
  }

  function Attempt(s: State, n: nat): State
    requires |s.c.items| == 2
  {
    s.(c := s.c.(items := [s.c.items[0].(attempts := n), s.c.items[1]]))
  }

  /** The timer fires and hands over to a drain. */
  function Firing(s: State): State
    requires s.timers != []
  {
    s.(c := s.c.(timer := None), timers := s.timers[|s.timers| - 1 := TimerDone], drains := s.drains + [Peek])
  }

  lemma Fire(s: State, k: nat) returns (acts: seq<Action>)
    requires Parked(s, k)
    ensures Valid(s, acts, LIMITS) && End(s, acts, LIMITS) == Firing(s)
  {
    hide StartBuild, RemoveEqual, Queued, Valid, End, ScheduleStep, EnqueueStep, DrainStep, StopStep, BuildStep;
    var t := |s.timers| - 1;
    var s1 := s.(timers := s.timers[t := Fired]);
    One(s, Tick(t), s1, LIMITS);
    acts := [Tick(t)];
    assert s1.timers[t := TimerDone] == Firing(s).timers;
    Then(s, acts, Tick(t), Firing(s), LIMITS);
    acts := acts + [Tick(t)];
  }

  /** The drain reads the head and finds the manager busy once more, up to the retry test. */
  lemma Look(s2: State, d: nat, k: nat) returns (acts: seq<Action>)
    requires RefsOk(s2) && |s2.drains| == d + 1 && s2.drains[d] == Peek && s2.used == {}
    requires s2.c == Core(map[], [], false, false, [0, 1], [Item("a", OPTS, k), Item("b", OPTS, 0)], None)
    ensures Valid(s2, acts, LIMITS)
    ensures End(s2, acts, LIMITS) == Attempt(s2, k + 1).(drains := s2.drains[d := Test(0)])
  {
    hide StartBuild, RemoveEqual, Queued, Valid, End, ScheduleStep, EnqueueStep, TimerStep, StopStep, BuildStep;
    var a := Drain(d, BUSY);
    var s3 := s2.(drains := s2.drains[d := Unpack(0)]);
    One(s2, a, s3, LIMITS);
    acts := [a];
    var s4 := s2.(drains := s2.drains[d := TryHead(0, k)]);
    assert s3.drains[d := TryHead(0, k)] == s4.drains;
    Then(s2, acts, a, s4, LIMITS);
    acts := acts + [a];
    BusyStart(s4);
    var s5 := s2.(drains := s2.drains[d := Bump(0, k)]);
    assert s4.drains[d := Bump(0, k)] == s5.drains;
    Then(s2, acts, a, s5, LIMITS);
    acts := acts + [a];
    var s6 := Attempt(s2, k + 1).(drains := s2.drains[d := Test(0)]);
    assert s5.drains[d := Test(0)] == s6.drains;
    assert s5.c.items[0 := s5.c.items[0].(attempts := k + 1)] == s6.c.items;
    Then(s2, acts, a, s6, LIMITS);
    acts := acts + [a];
  }

  /** One retry, up to the test of the count. */
  lemma Retry(s: State, k: nat) returns (acts: seq<Action>)
    requires Parked(s, k)
    ensures Valid(s, acts, LIMITS)
    ensures End(s, acts, LIMITS) ==
            Attempt(s, k + 1).(c := Attempt(s, k + 1).c.(timer := None),
                               timers := s.timers[|s.timers| - 1 := TimerDone],
                               drains := s.drains + [Test(0)])
  {
    hide Next, Valid, End;
    acts := Fire(s, k);
    var d := |s.drains|;
    var more := Look(Firing(s), d, k);
    Compose(s, acts, more, LIMITS);
    acts := acts + more;
    assert Firing(s).drains[d := Test(0)] == s.drains + [Test(0)];
  }

  /** Below the limit the drain re-arms the timer, and the manager is parked again with one more retry counted. */
  lemma RearmDrain(s: State, k: nat) returns (acts: seq<Action>, s7: State)
    requires Parked(s, k) && k + 1 < QUEUE_MAX_RETRIES
    ensures Valid(s, acts, LIMITS) && End(s, acts, LIMITS) == s7
    ensures s7 == Attempt(s, k + 1).(c := Attempt(s, k + 1).c.(timer := None),
                                     timers := s.timers[|s.timers| - 1 := TimerDone],
                                     drains := s.drains + [DrainDone],
                                     schedules := s.schedules + [Scheduling])
  {
    acts := Retry(s, k);
    hide TryStart, RemoveEqual, Queued, StartBuild, Valid, End;
    hide ScheduleStep, EnqueueStep, TimerStep, StopStep, BuildStep;
    var d := |s.drains|;
    var s6 := End(s, acts, LIMITS);
    s7 := s6.(drains := s.drains + [DrainDone], schedules := s.schedules + [Scheduling]);
    assert s6.drains[d := DrainDone] == s7.drains;
    Then(s, acts, Drain(d, BUSY), s7, LIMITS);
    acts := acts + [Drain(d, BUSY)];
  }

  lemma RearmArm(s: State, k: nat) returns (acts: seq<Action>, s8: State)
    requires Parked(s, k) && k + 1 < QUEUE_MAX_RETRIES
    ensures Valid(s, acts, LIMITS) && End(s, acts, LIMITS) == s8
    ensures s8 == Attempt(s, k + 1).(c := Attempt(s, k + 1).c.(timer := Some(|s.timers|)),
                                     timers := s.timers[|s.timers| - 1 := TimerDone] + [Idle],
                                     drains := s.drains + [DrainDone],
                                     schedules := s.schedules + [Arming(|s.timers|)])
  {
    var s7;
    acts, s7 := RearmDrain(s, k);
    hide TryStart, RemoveEqual, Queued, StartBuild, Valid, End;
    hide DrainStep, EnqueueStep, TimerStep, StopStep, BuildStep;
    var n, m := |s.timers|, |s.schedules|;
    s8 := s7.(c := s7.c.(timer := Some(n)), timers := s7.timers + [Idle], schedules := s.schedules + [Arming(n)]);
    assert s7.schedules[m := Arming(n)] == s8.schedules;
    Then(s, acts, Schedule(m, true), s8, LIMITS);
    acts := acts + [Schedule(m, true)];
  }

  lemma Rearm(s: State, k: nat) returns (acts: seq<Action>, s': State)
    requires Parked(s, k) && k + 1 < QUEUE_MAX_RETRIES
    ensures Valid(s, acts, LIMITS) && End(s, acts, LIMITS) == s' && Parked(s', k + 1)
  {
    var s8;
    acts, s8 := RearmArm(s, k);
    hide TryStart, RemoveEqual, Queued, StartBuild, Valid, End;
    hide DrainStep, EnqueueStep, TimerStep, StopStep, BuildStep;
    var n, m := |s.timers|, |s.schedules|;
    var done := s.timers[n - 1 := TimerDone];
    s' := s8.(timers := done + [Waiting], schedules := s.schedules + [ScheduleDone]);
    assert s8.schedules[m := ScheduleDone] == s'.schedules;
    assert s8.timers[n := Waiting] == s'.timers;
    Then(s, acts, Schedule(m, true), s', LIMITS);
    acts := acts + [Schedule(m, true)];
  }

  lemma {:induction false} Patience(s: State, k: nat, n: nat) returns (acts: seq<Action>, s': State)
    requires Parked(s, k) && k <= n < QUEUE_MAX_RETRIES
    ensures Valid(s, acts, LIMITS) && End(s, acts, LIMITS) == s' && Parked(s', n)
    decreases n - k
  {
    hide Next, Parked;
    if k == n {
      acts, s' := [], s;
    } else {
      var first, mid := Rearm(s, k);
      var rest;
      rest, s' := Patience(mid, k + 1, n);
      Compose(s, first, rest, LIMITS);
      acts := first + rest;
    }
  }

  /** A request arrives while another process holds the lock, and a timer is about to be started for it. */
  lemma FirstRequest() returns (acts: seq<Action>, s4: State)
    ensures Valid(INIT, acts, LIMITS) && End(INIT, acts, LIMITS) == s4
    ensures s4 == State(Core(map[], [], false, false, [0], [Item("a", OPTS, 0)], Some(0)), [EnqueueDone],
                        [Arming(0)], [], [], [Idle], [], {}, [Entered("a")])
  {
    hide TryStart, RemoveEqual, StartBuild, Valid, End;
    var i0 := INIT;
    var s1 := i0.(enqueues := [TryNow("a", OPTS)]);
    One(i0, CallEnqueue("a", OPTS), s1, LIMITS);
    acts := [CallEnqueue("a", OPTS)];
    BusyStart(s1);
    var s2 := i0.(enqueues := [AppendNext("a", OPTS)]);
    Then(i0, acts, Enqueue(0, BUSY), s2, LIMITS);
    acts := acts + [Enqueue(0, BUSY)];
    var s3 := i0.(c := i0.c.(items := [Item("a", OPTS, 0)], queue := [0]), log := [Entered("a")],
                  enqueues := [EnqueueDone], schedules := [Scheduling]);
    Then(i0, acts, Enqueue(0, BUSY), s3, LIMITS);
    acts := acts + [Enqueue(0, BUSY)];
    s4 := s3.(c := s3.c.(timer := Some(0)), timers := [Idle], schedules := [Arming(0)]);
    Then(i0, acts, Schedule(0, true), s4, LIMITS);
    acts := acts + [Schedule(0, true)];
  }

  /** Two requests arrive while another process holds the lock. */
  lemma ParkedReached() returns (acts: seq<Action>, s: State)
    ensures Valid(INIT, acts, LIMITS) && End(INIT, acts, LIMITS) == s && Parked(s, 0)
  {
    var s4;
    acts, s4 := FirstRequest();
    hide TryStart, RemoveEqual, StartBuild, Valid, End;
    var s5 := s4.(timers := [Waiting], schedules := [ScheduleDone]);
    Then(INIT, acts, Schedule(0, true), s5, LIMITS);
    acts := acts + [Schedule(0, true)];
    var rest;
    rest, s := SecondRequest(s5);
    Compose(INIT, acts, rest, LIMITS);
    acts := acts + rest;
  }

  lemma SecondRequest(s: State) returns (acts: seq<Action>, s': State)
    requires s == State(Core(map[], [], false, false, [0], [Item("a", OPTS, 0)], Some(0)), [EnqueueDone],
                        [ScheduleDone], [], [], [Waiting], [], {}, [Entered("a")])
    ensures Valid(s, acts, LIMITS) && End(s, acts, LIMITS) == s' && Parked(s', 0)
  {
    hide TryStart, RemoveEqual, StartBuild, Valid, End;
    var s6 := s.(enqueues := [EnqueueDone, TryNow("b", OPTS)]);
    One(s, CallEnqueue("b", OPTS), s6, LIMITS);
    acts := [CallEnqueue("b", OPTS)];
    BusyStart(s6);
    var s7 := s.(enqueues := [EnqueueDone, AppendNext("b", OPTS)]);
    Then(s, acts, Enqueue(1, BUSY), s7, LIMITS);
    acts := acts + [Enqueue(1, BUSY)];
    var s8 := s.(c := s.c.(items := [Item("a", OPTS, 0), Item("b", OPTS, 0)], queue := [0, 1]),
                 log := [Entered("a"), Entered("b")],
                 enqueues := [EnqueueDone, EnqueueDone], schedules := [ScheduleDone, Scheduling]);
    assert !Queued(s.c, "b");
    Then(s, acts, Enqueue(1, BUSY), s8, LIMITS);
    acts := acts + [Enqueue(1, BUSY)];
    s' := s8.(schedules := [ScheduleDone, ScheduleDone]);
    Then(s, acts, Schedule(1, true), s', LIMITS);
    acts := acts + [Schedule(1, true)];
  }

  /**
   The wake-up fails once a request is given up: after 120 busy retries of `a`, request `b` is still
   queued and no thread, timer or build is left that would ever look at it.
   */
  lemma GiveUpStrandsQueue() returns (acts: seq<Action>)
    ensures Valid(INIT, acts, LIMITS)
    ensures var s := End(INIT, acts, LIMITS); s.c.queue == [1] && !HasWaker(s)
  {
    hide TryStart, StartBuild, Valid, End;
    var s;
    acts, s := ParkedReached();
    var more, p := Patience(s, 0, 119);
    Compose(INIT, acts, more, LIMITS);
    acts := acts + more;
    var last := Retry(p, 119);
    Compose(INIT, acts, last, LIMITS);
    acts := acts + last;
    var d := |p.drains|;
    var s6 := End(INIT, acts, LIMITS);
    var s7 := s6.(drains := p.drains + [GiveUp(0)], log := s6.log + [Settled("a")]);
    assert s6.drains[d := GiveUp(0)] == s7.drains;
    Then(INIT, acts, Drain(d, BUSY), s7, LIMITS);
    acts := acts + [Drain(d, BUSY)];
    var s8 := s7.(c := s7.c.(queue := [1]), drains := p.drains + [DrainDone], log := s7.log + [Left("a")]);
    assert s7.drains[d := DrainDone] == s8.drains;
    assert RemoveEqual([0, 1], s7.c.items, 0) == [1] by { assert [0, 1][1..] == [1]; }
    Then(INIT, acts, Drain(d, BUSY), s8, LIMITS);
    acts := acts + [Drain(d, BUSY)];
    assert forall t :: 0 <= t < |s8.timers| ==> s8.timers[t].TimerDone?;
  }

  /** A timer whose start raises stays in the field, and the queued request is never looked at again. */
  lemma FailedStartStrandsQueue() returns (acts: seq<Action>)
    ensures Valid(INIT, acts, LIMITS)
    ensures var s := End(INIT, acts, LIMITS); s.c.queue == [0] && s.c.timer.Some? && !HasWaker(s)
  {
    var s4;
    acts, s4 := FirstRequest();
    hide TryStart, RemoveEqual, StartBuild, Valid, End;
    var s5 := s4.(timers := [Dead], schedules := [ScheduleDone]);
    Then(INIT, acts, Schedule(0, false), s5, LIMITS);
    acts := acts + [Schedule(0, false)];
  }
}
