/** What every run of the build manager keeps: references, the retry wake-up and the accounting of the queue. */
module BuildWakeup {
  import opened Common
  import opened BuildManager
  import opened BuildProtocol

  // ------------------------------------------------------------------ references

  lemma {:induction false} RemoveWithin(queue: seq<nat>, items: seq<Item>, item: nat)
    requires item < |items|
    ensures forall x :: x in RemoveEqual(queue, items, item) ==> x in queue
  {
    if queue != [] { RemoveWithin(queue[1..], items, item); }
  }

  lemma StartedKeeps(s: State, session: bool, env: Env, limits: Limits)
    requires BuildInv(s) && env.jobId !in s.used
    ensures var (s', r) := StartBuild(s, session, env, limits);
            && s'.c.queue == s.c.queue && s'.c.items == s.c.items && s'.c.timer == s.c.timer
            && s'.enqueues == s.enqueues && s'.schedules == s.schedules && s'.drains == s.drains
            && s'.timers == s.timers && s'.stops == s.stops && s'.log == s.log
            && s'.builds == (if r.Started? then s.builds + [Begin(r.job)] else s.builds)
  {
    hide TryStart, JobsOk;
    StartJobsOk(s.c, session, env, limits);
  }

  lemma DrainRefs(s: State, i: nat, env: Env, limits: Limits)
    requires RefsOk(s) && BuildInv(s) && i < |s.drains| && env.jobId !in s.used
    ensures RefsOk(DrainStep(s, i, env, limits))
  {
    hide BuildInv, StartBuild, RemoveEqual;
    StartedKeeps(s, true, env, limits);
    if s.drains[i].Remove? || s.drains[i].GiveUp? {
      RemoveWithin(s.c.queue, s.c.items, s.drains[i].item);
      var queue := RemoveEqual(s.c.queue, s.c.items, s.drains[i].item);
      forall k | 0 <= k < |queue| ensures queue[k] < |s.c.items| { assert queue[k] in s.c.queue; }
    }
  }

  lemma EnqueueRefs(s: State, i: nat, env: Env, limits: Limits)
    requires RefsOk(s) && BuildInv(s) && i < |s.enqueues| && env.jobId !in s.used
    ensures RefsOk(EnqueueStep(s, i, env, limits))
  {
    hide BuildInv, StartBuild, Queued;
    StartedKeeps(s, true, env, limits);
  }

  lemma OtherRefs(s: State, a: Action, limits: Limits)
    requires RefsOk(s) && BuildInv(s) && Enabled(s, a) && !a.Drain? && !a.Enqueue?
    requires a.Stop? && s.stops[a.i].Clearing? ==> TimerOk(s)
    ensures RefsOk(Next(s, a, limits))
  {
    hide BuildInv, StartBuild, EnqueueStep, DrainStep, SetState, SetWritten;
    if a.CallStart? {
      StartedKeeps(s, a.folder, a.env, limits);
    }
    if a.Build? {
      BuildKeeps(s, a.i, a.now, a.progress, a.end);
    }
  }

  lemma BuildKeeps(s: State, i: nat, now: int, progress: Option<int>, end: BuildEnd)
    requires i < |s.builds|
    ensures var s' := BuildStep(s, i, now, progress, end);
            && s'.c.queue == s.c.queue && s'.c.items == s.c.items && s'.c.timer == s.c.timer
            && s'.enqueues == s.enqueues && s'.schedules == s.schedules
            && s'.timers == s.timers && s'.stops == s.stops && s'.log == s.log
            && s'.drains == (if s.builds[i].Finishing? then s.drains + [Peek] else s.drains)
            && (!s.builds[i].Finishing? && !s.builds[i].BuildDone? ==>
                  i < |s'.builds| && !s'.builds[i].BuildDone?)
            && (s.builds[i].BuildDone? ==> s'.builds == s.builds)
  {
  }

  // ------------------------------------------------------------------ wake-up

  /** A timer that a `stop` has taken and is about to cancel. */
  ghost predicate Doomed(stops: seq<StopPc>, t: nat) {
    exists i :: 0 <= i < |stops| && stops[i] == Cancelling(Some(t))
  }

  ghost predicate Armed(schedules: seq<SchedulePc>, t: nat) {
    exists i :: 0 <= i < |schedules| && schedules[i] == Arming(t)
  }

  /**
   * The timer in the field will fire, because it waits, has fired, or a thread is about to start it; or its
   * start failed.
   */
  ghost predicate TimerOk(s: State) {
    s.c.timer.Some? ==>
      var t := s.c.timer.value;
      && t < |s.timers|
      && !Doomed(s.stops, t)
      && (s.timers[t].Waiting? || s.timers[t].Fired? || s.timers[t].Dead?
          || (s.timers[t].Idle? && Armed(s.schedules, t)))
  }

  /** Each timer is started by one thread. */
  ghost predicate ArmedOnce(schedules: seq<SchedulePc>) {
    forall i, k :: 0 <= i < k < |schedules| && schedules[i].Arming? && schedules[k].Arming? ==>
      schedules[i].timer != schedules[k].timer
  }

  ghost predicate ScheduleWakes(schedules: seq<SchedulePc>, timers: seq<TimerPc>, stops: seq<StopPc>) {
    exists i :: 0 <= i < |schedules| && ScheduleWaking(schedules[i], timers, stops)
  }

  ghost predicate ScheduleWaking(pc: SchedulePc, timers: seq<TimerPc>, stops: seq<StopPc>) {
    pc.Scheduling? || (pc.Arming? && pc.timer < |timers| && timers[pc.timer].Idle? && !Doomed(stops, pc.timer))
  }

  /** A drain that will look at the queue again or schedule a retry; not one that returns after its removal. */
  predicate DrainWaking(pc: DrainPc) {
    pc.Peek? || pc.Unpack? || pc.TryHead? || (pc.Remove? && pc.again) || pc.Bump? || pc.Test?
  }

  ghost predicate DrainWakes(drains: seq<DrainPc>) {
    exists i :: 0 <= i < |drains| && DrainWaking(drains[i])
  }

  ghost predicate BuildWakes(builds: seq<BuildPc>) {
    exists i :: 0 <= i < |builds| && !builds[i].BuildDone?
  }

  ghost predicate TimerWakes(timers: seq<TimerPc>, stops: seq<StopPc>) {
    exists t :: 0 <= t < |timers| && (timers[t].Fired? || (timers[t].Waiting? && !Doomed(stops, t)))
  }

  /** An unfinished build that will drain, a live timer, or a thread inside drain or schedule. */
  ghost predicate HasWaker(s: State) {
    || ScheduleWakes(s.schedules, s.timers, s.stops)
    || DrainWakes(s.drains)
    || BuildWakes(s.builds)
    || TimerWakes(s.timers, s.stops)
  }

  /** Nothing is queued, or somebody will look at the queue. */
  ghost predicate Wakeful(s: State) { s.c.queue == [] || HasWaker(s) }

  ghost predicate LinksOk(s: State) { RefsOk(s) && TimerOk(s) && ArmedOnce(s.schedules) }

  /** A start that found its request busy for the 120th time. */
  predicate Exhausts(s: State, a: Action) {
    && a.Drain? && a.i < |s.drains| && s.drains[a.i].Test? && s.drains[a.i].item < |s.c.items|
    && s.c.items[s.drains[a.i].item].attempts >= QUEUE_MAX_RETRIES
  }

  /** `timer.start()` raises on a timer nobody has cancelled. */
  predicate FailsStart(s: State, a: Action) {
    && a.Schedule? && !a.starts && a.i < |s.schedules| && s.schedules[a.i].Arming?
    && s.schedules[a.i].timer < |s.timers| && s.timers[s.schedules[a.i].timer].Idle?
  }

  /** `_schedule_retry` leaves the wake-up to a timer in the field that was never started. */
  predicate FindsDead(s: State, a: Action) {
    && a.Schedule? && a.i < |s.schedules| && s.schedules[a.i].Scheduling?
    && s.c.timer.Some? && s.c.timer.value < |s.timers| && s.timers[s.c.timer.value].Dead?
  }

  /** The step ends its thread's care for the queue without handing it to anybody. */
  predicate Quits(s: State, a: Action) { Exhausts(s, a) || FailsStart(s, a) || FindsDead(s, a) }

  // -- one lemma for each kind of thread

  lemma MoreBuilds(builds: seq<BuildPc>, pc: BuildPc)
    requires !pc.BuildDone?
    ensures BuildWakes(builds + [pc])
  {
    assert (builds + [pc])[|builds|] == pc;
  }

  lemma MoreDrains(drains: seq<DrainPc>, pc: DrainPc)
    requires DrainWaking(pc)
    ensures DrainWakes(drains + [pc])
  {
    assert (drains + [pc])[|drains|] == pc;
  }

  lemma MoreSchedules(schedules: seq<SchedulePc>, timers: seq<TimerPc>, stops: seq<StopPc>)
    ensures ScheduleWakes(schedules + [Scheduling], timers, stops)
  {
    assert (schedules + [Scheduling])[|schedules|] == Scheduling;
  }

  lemma StartBuildWake(s: State, session: bool, env: Env, limits: Limits)
    requires LinksOk(s) && BuildInv(s) && env.jobId !in s.used
    ensures var (s', r) := StartBuild(s, session, env, limits);
            TimerOk(s') && (Wakeful(s) ==> Wakeful(s')) && (r.Started? ==> BuildWakes(s'.builds))
  {
    hide BuildInv, StartBuild, RefsOk;
    StartedKeeps(s, session, env, limits);
    var (s', r) := StartBuild(s, session, env, limits);
    if r.Started? {
      MoreBuilds(s.builds, Begin(r.job));
    }
  }

  lemma EnqueueWake(s: State, i: nat, env: Env, limits: Limits)
    requires LinksOk(s) && BuildInv(s) && i < |s.enqueues| && env.jobId !in s.used
    ensures var s' := EnqueueStep(s, i, env, limits); TimerOk(s') && (Wakeful(s) ==> Wakeful(s'))
  {
    StartBuildWake(s, true, env, limits);
    MoreSchedules(s.schedules, s.timers, s.stops);
    ArmedGrows(s.schedules, Scheduling);
    hide BuildInv, StartBuild, RefsOk, BuildWakes, ScheduleWakes, DrainWakes, TimerWakes, Queued, Armed;
  }

  lemma ArmedGrows(schedules: seq<SchedulePc>, pc: SchedulePc)
    ensures forall t :: Armed(schedules, t) ==> Armed(schedules + [pc], t)
  {
    forall t | Armed(schedules, t) ensures Armed(schedules + [pc], t) {
      var i :| 0 <= i < |schedules| && schedules[i] == Arming(t);
      assert (schedules + [pc])[i] == Arming(t);
    }
  }

  /** `_schedule_retry` hands the wake-up to a timer: to the one in the field, or to the one it creates and starts. */
  lemma ScheduleWake(s: State, i: nat, starts: bool)
    requires LinksOk(s) && i < |s.schedules|
    ensures var s' := ScheduleStep(s, i, starts); TimerOk(s') && ArmedOnce(s'.schedules)
    ensures Wakeful(s) && !Quits(s, Schedule(i, starts)) ==> Wakeful(ScheduleStep(s, i, starts))
  {
    match s.schedules[i] {
      case Scheduling =>
        if s.c.timer.Some? || s.c.queue == [] {
          ScheduleEnds(s, i, starts);
        } else {
          ScheduleCreates(s, i, starts);
        }
      case Arming(t) => ScheduleArms(s, i, t, starts);
      case ScheduleDone =>
    }
  }

  lemma ScheduleEnds(s: State, i: nat, starts: bool)
    requires LinksOk(s) && i < |s.schedules| && s.schedules[i].Scheduling?
    requires s.c.timer.Some? || s.c.queue == []
    ensures var s' := ScheduleStep(s, i, starts); TimerOk(s') && ArmedOnce(s'.schedules)
    ensures Wakeful(s) && !FindsDead(s, Schedule(i, starts)) ==> Wakeful(ScheduleStep(s, i, starts))
  {
    hide RefsOk;
    var s' := ScheduleStep(s, i, starts);
    if s.c.timer.Some? {
      var t := s.c.timer.value;
      if s.timers[t].Idle? {
        var k :| 0 <= k < |s.schedules| && s.schedules[k] == Arming(t);
        assert s'.schedules[k] == Arming(t);
        assert ScheduleWaking(s'.schedules[k], s'.timers, s'.stops);
      }
    }
  }

  lemma ScheduleCreates(s: State, i: nat, starts: bool)
    requires LinksOk(s) && i < |s.schedules| && s.schedules[i].Scheduling?
    requires s.c.timer.None? && s.c.queue != []
    ensures var s' := ScheduleStep(s, i, starts); TimerOk(s') && ArmedOnce(s'.schedules) && Wakeful(s')
  {
    var s' := ScheduleStep(s, i, starts);
    var n := |s.timers|;
    assert !Doomed(s.stops, n);
    assert s'.schedules[i] == Arming(n) && s'.timers[n] == Idle;
    assert ScheduleWaking(s'.schedules[i], s'.timers, s'.stops);
  }

  lemma ScheduleArms(s: State, i: nat, t: nat, starts: bool)
    requires LinksOk(s) && i < |s.schedules| && s.schedules[i] == Arming(t)
    ensures var s' := ScheduleStep(s, i, starts); TimerOk(s') && ArmedOnce(s'.schedules)
    ensures Wakeful(s) && !FailsStart(s, Schedule(i, starts)) ==> Wakeful(ScheduleStep(s, i, starts))
  {
    assert t < |s.timers|;
    hide RefsOk;
    var s' := ScheduleStep(s, i, starts);
    if s'.c.timer.Some? && s'.c.timer.value != t && s'.timers[s'.c.timer.value].Idle? {
      var u := s'.c.timer.value;
      var k :| 0 <= k < |s.schedules| && s.schedules[k] == Arming(u);
      assert s'.schedules[k] == Arming(u);
    }
    assert TimerOk(s');
    if !FailsStart(s, Schedule(i, starts)) {
      if ScheduleWakes(s.schedules, s.timers, s.stops) {
        var k :| 0 <= k < |s.schedules| && ScheduleWaking(s.schedules[k], s.timers, s.stops);
        if s.schedules[k] == Arming(t) {
          assert s'.timers[t].Waiting? && !Doomed(s'.stops, t);
        } else {
          assert ScheduleWaking(s'.schedules[k], s'.timers, s'.stops);
        }
      } else if TimerWakes(s.timers, s.stops) {
        var u :| 0 <= u < |s.timers| && (s.timers[u].Fired? || (s.timers[u].Waiting? && !Doomed(s.stops, u)));
        assert s'.timers[u] == s.timers[u];
      }
    }
  }

  lemma KeepDrains(drains: seq<DrainPc>, i: nat, pc: DrainPc)
    requires i < |drains|
    ensures DrainWaking(pc) ==> DrainWakes(drains[i := pc])
    ensures !DrainWaking(drains[i]) && DrainWakes(drains) ==> DrainWakes(drains[i := pc])
  {
    if DrainWaking(pc) {
      assert drains[i := pc][i] == pc;
    } else if !DrainWaking(drains[i]) && DrainWakes(drains) {
      var k :| 0 <= k < |drains| && DrainWaking(drains[k]);
      assert drains[i := pc][k] == drains[k];
    }
  }

  lemma HeadWake(s: State, i: nat, item: nat, attempts: nat, env: Env, limits: Limits)
    requires LinksOk(s) && BuildInv(s) && i < |s.drains| && item < |s.c.items| && env.jobId !in s.used
    requires s.drains[i] == TryHead(item, attempts)
    ensures var s' := HeadStep(s, i, item, attempts, env, limits); TimerOk(s') && (Wakeful(s) ==> Wakeful(s'))
  {
    StartBuildWake(s, true, env, limits);
    StartedKeeps(s, true, env, limits);
    var (s1, r) := StartBuild(s, true, env, limits);
    KeepDrains(s.drains, i, if r.Busy? then Bump(item, attempts) else Remove(item, r.Rejected?));
    hide BuildInv, StartBuild, RefsOk, BuildWakes, ScheduleWakes, DrainWakes, TimerWakes, Armed, Doomed;
  }

  lemma DrainWake(s: State, i: nat, env: Env, limits: Limits)
    requires LinksOk(s) && BuildInv(s) && i < |s.drains| && env.jobId !in s.used
    ensures TimerOk(DrainStep(s, i, env, limits))
    ensures Wakeful(s) && !Exhausts(s, Drain(i, env)) ==> Wakeful(DrainStep(s, i, env, limits))
  {
    assert ItemOk(s.drains[i], |s.c.items|);
    hide BuildInv, RefsOk, HeadStep, BuildWakes, ScheduleWakes, DrainWakes, TimerWakes, Armed, Doomed;
    var s' := DrainStep(s, i, env, limits);
    match s.drains[i] {
      case TryHead(item, attempts) => HeadWake(s, i, item, attempts, env, limits);
      case Test(item) =>
        ArmedGrows(s.schedules, Scheduling);
        MoreSchedules(s.schedules, s.timers, s.stops);
      case DrainDone =>
      case _ => KeepDrains(s.drains, i, s'.drains[i]);
    }
  }

  lemma BuildWake(s: State, i: nat, now: int, progress: Option<int>, end: BuildEnd)
    requires LinksOk(s) && i < |s.builds|
    ensures var s' := BuildStep(s, i, now, progress, end); TimerOk(s') && (Wakeful(s) ==> Wakeful(s'))
  {
    BuildKeeps(s, i, now, progress, end);
    MoreDrains(s.drains, Peek);
    hide RefsOk, BuildStep, ScheduleWakes, DrainWakes, TimerWakes, Armed, Doomed;
  }

  lemma TickWake(s: State, t: nat)
    requires LinksOk(s) && t < |s.timers|
    ensures TimerOk(TimerStep(s, t)) && (Wakeful(s) ==> Wakeful(TimerStep(s, t)))
  {
    MoreDrains(s.drains, Peek);
    hide RefsOk, BuildWakes, DrainWakes, Armed, Doomed;
    var s' := TimerStep(s, t);
    if s.timers[t].Waiting? {
      assert s'.timers[t].Fired?;
    }
  }

  /** `stop` empties the queue first; the timer it then cancels is one nobody relies on any more. */
  lemma StopWake(s: State, i: nat)
    requires LinksOk(s) && i < |s.stops|
    ensures TimerOk(StopStep(s, i)) && (Wakeful(s) ==> Wakeful(StopStep(s, i)))
  {
    var s' := StopStep(s, i);
    if s.stops[i].Cancelling? {
      CancelWake(s, i);
    }
  }

  lemma CancelWake(s: State, i: nat)
    requires LinksOk(s) && i < |s.stops| && s.stops[i].Cancelling?
    ensures TimerOk(StopStep(s, i)) && (Wakeful(s) ==> Wakeful(StopStep(s, i)))
  {
    var taken := s.stops[i].taken;
    assert taken.Some? ==> taken.value < |s.timers|;
    hide RefsOk, ClearedAll;
    var s' := StopStep(s, i);
    forall t | Doomed(s'.stops, t) ensures Doomed(s.stops, t) {
      var k :| 0 <= k < |s'.stops| && s'.stops[k] == Cancelling(Some(t));
      assert s.stops[k] == s'.stops[k];
    }
    assert taken.Some? ==> Doomed(s.stops, taken.value) by { assert s.stops[i] == Cancelling(taken); }
    assert TimerOk(s');
    if ScheduleWakes(s.schedules, s.timers, s.stops) {
      var k :| 0 <= k < |s.schedules| && ScheduleWaking(s.schedules[k], s.timers, s.stops);
      assert ScheduleWaking(s'.schedules[k], s'.timers, s'.stops);
    } else if TimerWakes(s.timers, s.stops) {
      var u :| 0 <= u < |s.timers| && (s.timers[u].Fired? || (s.timers[u].Waiting? && !Doomed(s.stops, u)));
      assert s'.timers[u] == s.timers[u];
    }
  }

  /** Every step keeps the links, whatever it does to the wake-up. */
  lemma LinksStep(s: State, a: Action, limits: Limits)
    requires LinksOk(s) && BuildInv(s) && Enabled(s, a)
    ensures LinksOk(Next(s, a, limits))
  {
    if a.Drain? {
      DrainRefs(s, a.i, a.env, limits);
    } else if a.Enqueue? {
      EnqueueRefs(s, a.i, a.env, limits);
    } else {
      OtherRefs(s, a, limits);
    }
    WakeStep(s, a, limits);
    ArmedStep(s, a, limits);
    hide LinksOk;
  }

  lemma ArmedStep(s: State, a: Action, limits: Limits)
    requires LinksOk(s) && BuildInv(s) && Enabled(s, a)
    ensures ArmedOnce(Next(s, a, limits).schedules)
  {
    if a.Schedule? {
      ScheduleWake(s, a.i, a.starts);
    } else {
      SchedulesGrow(s, a, limits);
    }
  }

  lemma SchedulesGrow(s: State, a: Action, limits: Limits)
    requires RefsOk(s) && BuildInv(s) && Enabled(s, a) && !a.Schedule?
    ensures Next(s, a, limits).schedules in {s.schedules, s.schedules + [Scheduling]}
  {
    hide BuildInv, StartBuild, RemoveEqual, Queued, ClearedAll, SetState, SetWritten, Finish, Verdict;
    match a {
      case CallStart(folder, env) => StartedKeeps(s, folder, env, limits);
      case Enqueue(i, env) => StartedKeeps(s, true, env, limits);
      case Drain(i, env) =>
        assert ItemOk(s.drains[i], |s.c.items|);
        StartedKeeps(s, true, env, limits);
      case Build(i, now, progress, end) => BuildKeeps(s, i, now, progress, end);
      case _ =>
    }
  }

  /** No step but a quitting one puts a queue to sleep. */
  lemma WakeStep(s: State, a: Action, limits: Limits)
    requires LinksOk(s) && BuildInv(s) && Enabled(s, a)
    ensures TimerOk(Next(s, a, limits))
    ensures Wakeful(s) && !Quits(s, a) ==> Wakeful(Next(s, a, limits))
  {
    hide BuildInv, RefsOk, StartBuild, EnqueueStep, DrainStep, BuildStep, ScheduleStep, TimerStep, StopStep;
    match a {
      case CallStart(folder, env) => StartBuildWake(s, folder, env, limits);
      case CallEnqueue(_, _) =>
      case CallStop => CallStopWake(s);
      case Enqueue(i, env) => EnqueueWake(s, i, env, limits);
      case Schedule(i, starts) => ScheduleWake(s, i, starts);
      case Drain(i, env) => DrainWake(s, i, env, limits);
      case Build(i, now, progress, end) => BuildWake(s, i, now, progress, end);
      case Tick(t) => TickWake(s, t);
      case Stop(i) => StopWake(s, i);
    }
  }

  lemma CallStopWake(s: State)
    requires LinksOk(s)
    ensures var s' := s.(c := s.c.(stop := true), stops := s.stops + [Clearing]);
            TimerOk(s') && (Wakeful(s) ==> Wakeful(s'))
  {
    hide RefsOk;
    var stops := s.stops + [Clearing];
    forall t | Doomed(stops, t) ensures Doomed(s.stops, t) {
      var k :| 0 <= k < |stops| && stops[k] == Cancelling(Some(t));
      assert s.stops[k] == stops[k];
    }
    if ScheduleWakes(s.schedules, s.timers, s.stops) {
      var k :| 0 <= k < |s.schedules| && ScheduleWaking(s.schedules[k], s.timers, s.stops);
      assert ScheduleWaking(s.schedules[k], s.timers, stops);
    }
  }
}
