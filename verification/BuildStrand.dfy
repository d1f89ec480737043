/** Exactly when the build queue is left with nobody to wake it: for one step and over whole runs. */
module BuildStrand {
  import opened Common
  import opened BuildManager
  import opened BuildProtocol
  import opened BuildWakeup
  import opened BuildRuns

  /** Somebody besides the thread of this drain or schedule step will look at the queue. */
  ghost predicate OthersWake(s: State, a: Action)
    requires a.Drain? || a.Schedule?
  {
    || (exists k :: 0 <= k < |s.schedules| && (a.Drain? || k != a.i)
          && ScheduleWaking(s.schedules[k], s.timers, s.stops))
    || (exists k :: 0 <= k < |s.drains| && (a.Schedule? || k != a.i) && DrainWaking(s.drains[k]))
    || BuildWakes(s.builds)
    || TimerWakes(s.timers, s.stops)
  }

  /** A drain step to a place that no longer looks at the queue leaves the other wakers. */
  lemma DrainLeaves(s: State, a: Action, s': State)
    requires a.Drain? && a.i < |s.drains| && s'.schedules == s.schedules && s'.timers == s.timers && s'.stops == s.stops
    requires s'.builds == s.builds && |s'.drains| == |s.drains| && !DrainWaking(s'.drains[a.i])
    requires forall k :: 0 <= k < |s.drains| && k != a.i ==> s'.drains[k] == s.drains[k]
    ensures HasWaker(s') <==> OthersWake(s, a)
  {
    hide ScheduleWaking, DrainWaking, TimerWakes, BuildWakes;
    if DrainWakes(s'.drains) {
      var k :| 0 <= k < |s'.drains| && DrainWaking(s'.drains[k]);
      assert k != a.i && DrainWaking(s.drains[k]);
    }
    if k :| 0 <= k < |s.drains| && k != a.i && DrainWaking(s.drains[k]) {
      assert DrainWaking(s'.drains[k]);
    }
    if k :| 0 <= k < |s.schedules| && ScheduleWaking(s.schedules[k], s.timers, s.stops) {
      assert ScheduleWaking(s'.schedules[k], s'.timers, s'.stops);
    }
  }

  /** So does a schedule step that ends, possibly with its own timer dead. */
  lemma ScheduleLeaves(s: State, a: Action, s': State)
    requires a.Schedule? && a.i < |s.schedules| && ArmedOnce(s.schedules)
    requires s'.drains == s.drains && s'.stops == s.stops && s'.builds == s.builds
    requires s'.schedules == s.schedules[a.i := ScheduleDone] && |s'.timers| == |s.timers|
    requires forall t :: 0 <= t < |s.timers| && s'.timers[t] != s.timers[t] ==>
      s.schedules[a.i] == Arming(t) && s.timers[t].Idle? && s'.timers[t].Dead?
    ensures HasWaker(s') <==> OthersWake(s, a)
  {
    hide DrainWaking, BuildWakes, Doomed;
    if ScheduleWakes(s'.schedules, s'.timers, s'.stops) {
      var k :| 0 <= k < |s'.schedules| && ScheduleWaking(s'.schedules[k], s'.timers, s'.stops);
      assert k != a.i && ScheduleWaking(s.schedules[k], s.timers, s.stops);
    }
    if k :| 0 <= k < |s.schedules| && k != a.i && ScheduleWaking(s.schedules[k], s.timers, s.stops) {
      assert ScheduleWaking(s'.schedules[k], s'.timers, s'.stops);
    }
    if TimerWakes(s'.timers, s'.stops) {
      var t :| 0 <= t < |s'.timers| && (s'.timers[t].Fired? || (s'.timers[t].Waiting? && !Doomed(s'.stops, t)));
      assert s.timers[t] == s'.timers[t];
    }
    if TimerWakes(s.timers, s.stops) {
      var t :| 0 <= t < |s.timers| && (s.timers[t].Fired? || (s.timers[t].Waiting? && !Doomed(s.stops, t)));
      assert s'.timers[t] == s.timers[t];
    }
    if k :| 0 <= k < |s.drains| && DrainWaking(s.drains[k]) {
      assert DrainWaking(s'.drains[k]);
    }
  }

  /** A quitting step strands the queue exactly when something is queued and nobody else will look at it. */
  lemma QuitStrandsIff(s: State, a: Action, limits: Limits)
    requires LinksOk(s) && Enabled(s, a) && Quits(s, a)
    ensures !Wakeful(Next(s, a, limits)) <==> s.c.queue != [] && !OthersWake(s, a)
  {
    var s' := Next(s, a, limits);
    hide HasWaker, OthersWake, TimerOk;
    if a.Drain? {
      DrainLeaves(s, a, s');
    } else {
      ScheduleLeaves(s, a, s');
    }
  }

  /** Giving up strands the rest of the queue exactly when there is a rest and nobody else will look at it. */
  lemma GiveUpIff(s: State, a: Action, limits: Limits)
    requires LinksOk(s) && Enabled(s, a) && a.Drain? && s.drains[a.i].GiveUp?
    ensures ItemOk(s.drains[a.i], |s.c.items|)
    ensures !Wakeful(Next(s, a, limits)) <==>
            RemoveEqual(s.c.queue, s.c.items, s.drains[a.i].item) != [] && !OthersWake(s, a)
  {
    assert ItemOk(s.drains[a.i], |s.c.items|);
    hide HasWaker, OthersWake, TimerOk, RemoveEqual;
    DrainLeaves(s, a, Next(s, a, limits));
  }

  // ------------------------------------------------------------------ runs

  /** The step starts a build, appends a request, lets a timer fire, or empties the queue. */
  predicate Revives(s: State, a: Action, limits: Limits)
    requires RefsOk(s) && Enabled(s, a)
  {
    match a
    case CallStart(folder, env) => StartBuild(s, folder, env, limits).1.Started?
    case Enqueue(i, env) =>
      || s.enqueues[i].AppendNext?
      || (s.enqueues[i].TryNow? && env.sessionOk && StartBuild(s, true, env, limits).1.Started?)
    case Drain(i, _) =>
      && (s.drains[i].Remove? || s.drains[i].GiveUp?)
      && ItemOk(s.drains[i], |s.c.items|) && RemoveEqual(s.c.queue, s.c.items, s.drains[i].item) == []
    case Tick(i) => s.timers[i].Waiting?
    case Stop(i) => s.stops[i].Clearing?
    case _ => false
  }

  /**
   * With the same other threads, timers and stops, a queue nobody woke is woken only by a thread that came or
   * by being emptied.
   */
  lemma SameWakers(s: State, s': State)
    requires !Wakeful(s) && s'.schedules == s.schedules && s'.timers == s.timers && s'.stops == s.stops
    requires s'.drains == s.drains && s'.builds == s.builds
    ensures s.c.queue != [] && (Wakeful(s') <==> s'.c.queue == [])
  {
  }

  lemma StartRevives(s: State, session: bool, env: Env, limits: Limits)
    requires !Wakeful(s) && BuildInv(s) && env.jobId !in s.used
    ensures var (s', r) := StartBuild(s, session, env, limits); s'.c.queue != [] && (Wakeful(s') <==> r.Started?)
  {
    StartedKeeps(s, session, env, limits);
    var (s', r) := StartBuild(s, session, env, limits);
    hide StartBuild, BuildInv, Wakeful;
    if r.Started? {
      MoreBuilds(s.builds, Begin(r.job));
      assert Wakeful(s');
    } else {
      SameWakers(s, s');
    }
  }

  lemma EnqueueRevives(s: State, a: Action, limits: Limits)
    requires Links(s) && Enabled(s, a) && !Wakeful(s) && a.Enqueue?
    ensures Wakeful(Next(s, a, limits)) <==> Revives(s, a, limits)
  {
    var s' := Next(s, a, limits);
    StartRevives(s, true, a.env, limits);
    hide BuildInv, StartBuild, Queued, ScheduleWakes, DrainWakes, BuildWakes, TimerWakes, LinksOk;
    MoreSchedules(s.schedules, s.timers, s.stops);
  }

  lemma DrainRevives(s: State, a: Action, limits: Limits)
    requires LinksOk(s) && Enabled(s, a) && !Wakeful(s) && a.Drain?
    ensures Wakeful(Next(s, a, limits)) <==> Revives(s, a, limits)
  {
    var s' := Next(s, a, limits);
    assert ItemOk(s.drains[a.i], |s.c.items|);
    assert !DrainWaking(s.drains[a.i]);
    hide RemoveEqual, TimerOk, RefsOk, ScheduleWakes, BuildWakes, TimerWakes;
    forall k | 0 <= k < |s'.drains| ensures !DrainWaking(s'.drains[k]) {
      assert !DrainWaking(s.drains[k]);
    }
  }

  lemma ScheduleSleeps(s: State, a: Action, limits: Limits)
    requires LinksOk(s) && Enabled(s, a) && !Wakeful(s) && a.Schedule?
    ensures !Wakeful(Next(s, a, limits))
  {
    var s' := Next(s, a, limits);
    assert !ScheduleWaking(s.schedules[a.i], s.timers, s.stops);
    hide DrainWakes, BuildWakes, TimerOk;
    forall k | 0 <= k < |s'.schedules| ensures !ScheduleWaking(s'.schedules[k], s'.timers, s'.stops) {
      assert !ScheduleWaking(s.schedules[k], s.timers, s.stops);
    }
    forall t | 0 <= t < |s'.timers| ensures !s'.timers[t].Fired? && (s'.timers[t].Waiting? ==> Doomed(s'.stops, t)) {
      assert !s.timers[t].Fired? && (s.timers[t].Waiting? ==> Doomed(s.stops, t));
    }
  }

  lemma BuildSleeps(s: State, a: Action, limits: Limits)
    requires LinksOk(s) && Enabled(s, a) && !Wakeful(s) && a.Build?
    ensures Next(s, a, limits) == s
  {
    hide ScheduleWakes, DrainWakes, TimerWakes, RefsOk, TimerOk;
    assert s.builds[a.i].BuildDone?;
  }

  lemma TickRevives(s: State, a: Action, limits: Limits)
    requires LinksOk(s) && Enabled(s, a) && !Wakeful(s) && a.Tick?
    ensures Wakeful(Next(s, a, limits)) <==> Revives(s, a, limits)
  {
    hide ScheduleWakes, DrainWakes, BuildWakes, RefsOk, TimerOk, Doomed;
    var s' := Next(s, a, limits);
    assert !s.timers[a.i].Fired?;
    if s.timers[a.i].Waiting? {
      assert s'.timers[a.i].Fired?;
    }
  }

  lemma StopRevives(s: State, a: Action, limits: Limits)
    requires LinksOk(s) && Enabled(s, a) && !Wakeful(s) && a.Stop?
    ensures Wakeful(Next(s, a, limits)) <==> Revives(s, a, limits)
  {
    var s' := Next(s, a, limits);
    if s.stops[a.i].Cancelling? {
      CancelSleeps(s, a.i);
    }
  }

  /** Cancelling a timer wakes nobody: the only timer it releases is over. */
  lemma CancelSleeps(s: State, i: nat)
    requires RefsOk(s) && i < |s.stops| && s.stops[i].Cancelling? && !Wakeful(s)
    ensures !Wakeful(StopStep(s, i))
  {
    var s', taken := StopStep(s, i), s.stops[i].taken;
    hide RefsOk, DrainWakes, BuildWakes;
    forall t: nat | Doomed(s.stops, t) && taken != Some(t) ensures Doomed(s'.stops, t) {
      var k :| 0 <= k < |s.stops| && s.stops[k] == Cancelling(Some(t));
      assert s'.stops[k] == s.stops[k];
    }
    hide Doomed;
    forall k | 0 <= k < |s'.schedules| ensures !ScheduleWaking(s'.schedules[k], s'.timers, s'.stops) {
      assert !ScheduleWaking(s.schedules[k], s.timers, s.stops);
    }
    forall t | 0 <= t < |s'.timers| ensures !s'.timers[t].Fired? && (s'.timers[t].Waiting? ==> Doomed(s'.stops, t)) {
      assert !s.timers[t].Fired? && (s.timers[t].Waiting? ==> Doomed(s.stops, t));
    }
  }

  lemma CallSleeps(s: State)
    requires LinksOk(s) && !Wakeful(s)
    ensures !Wakeful(s.(c := s.c.(stop := true), stops := s.stops + [Clearing]))
  {
    hide RefsOk, TimerOk, DrainWakes, BuildWakes;
    var s' := s.(c := s.c.(stop := true), stops := s.stops + [Clearing]);
    forall t: nat | Doomed(s.stops, t) ensures Doomed(s'.stops, t) {
      var k :| 0 <= k < |s.stops| && s.stops[k] == Cancelling(Some(t));
      assert s'.stops[k] == s.stops[k];
    }
    hide Doomed;
    forall k | 0 <= k < |s'.schedules| ensures !ScheduleWaking(s'.schedules[k], s'.timers, s'.stops) {
      assert !ScheduleWaking(s.schedules[k], s.timers, s.stops);
    }
  }

  /** A queue that nobody wakes is woken, or emptied, by exactly the reviving steps. */
  lemma ReviveIff(s: State, a: Action, limits: Limits)
    requires Links(s) && Enabled(s, a) && !Wakeful(s)
    ensures Wakeful(Next(s, a, limits)) <==> Revives(s, a, limits)
  {
    hide BuildInv, Wakeful, StartBuild, EnqueueStep, DrainStep, BuildStep, ScheduleStep, TimerStep, StopStep;
    match a {
      case CallStart(folder, env) => StartRevives(s, folder, env, limits);
      case CallEnqueue(session, opts) =>
        SameWakers(s, s.(enqueues := s.enqueues + [TryNow(session, opts)]));
      case CallStop => CallSleeps(s);
      case Enqueue(_, _) => EnqueueRevives(s, a, limits);
      case Schedule(_, _) => ScheduleSleeps(s, a, limits);
      case Drain(_, _) => DrainRevives(s, a, limits);
      case Build(_, _, _, _) => BuildSleeps(s, a, limits);
      case Tick(_) => TickRevives(s, a, limits);
      case Stop(_) => StopRevives(s, a, limits);
    }
  }

  /** No step of the run revives the queue. */
  ghost predicate Undisturbed(s: State, acts: seq<Action>, limits: Limits)
    requires Valid(s, acts, limits)
    decreases |acts|
  {
    acts == [] || (!Revives(s, acts[0], limits) && Undisturbed(Next(s, acts[0], limits), acts[1..], limits))
  }

  /** Some step quits while something is queued and nobody else wakes it, and no later step revives the queue. */
  ghost predicate Strands(s: State, acts: seq<Action>, limits: Limits)
    requires Valid(s, acts, limits)
    decreases |acts|
  {
    acts != [] &&
    (var a, s', rest := acts[0], Next(s, acts[0], limits), acts[1..];
     || (Quits(s, a) && s.c.queue != [] && !OthersWake(s, a) && Undisturbed(s', rest, limits))
     || Strands(s', rest, limits))
  }

  lemma {:induction false} SleepIff(s: State, acts: seq<Action>, limits: Limits)
    requires Links(s) && Valid(s, acts, limits)
    ensures !Wakeful(End(s, acts, limits)) <==>
      (!Wakeful(s) && Undisturbed(s, acts, limits)) || Strands(s, acts, limits)
    decreases |acts|
  {
    hide BuildInv, LinksOk, Next, Enabled, Wakeful, OthersWake, Quits, RefsOk, Revives;
    if acts != [] {
      var a := acts[0];
      LinksInvStep(s, a, limits);
      WakeStep(s, a, limits);
      if Quits(s, a) {
        QuitStrandsIff(s, a, limits);
      }
      if !Wakeful(s) {
        ReviveIff(s, a, limits);
      }
      SleepIff(Next(s, a, limits), acts[1..], limits);
    }
  }

  /**
   * In every run, give-ups and failing timer starts included: the queue ends with nobody to wake it
   * exactly when some step quit with something queued and nobody else to wake it, and since then no step
   * has started a build, appended a request, let a timer fire or emptied the queue.
   */
  lemma StrandedIff(acts: seq<Action>, limits: Limits)
    requires Valid(INIT, acts, limits)
    ensures !Wakeful(End(INIT, acts, limits)) <==> Strands(INIT, acts, limits)
  {
    InitLinks();
    SleepIff(INIT, acts, limits);
    assert Wakeful(INIT);
  }
}
