/**
 The build manager as an interleaving of threads. One step is one `with self._lock` block of
 `app/media_build.py`, or one access to shared state outside the lock; anything may come between steps.

 A thread is listed under the routine it is in. When `_run` or `_retry` goes on to `_drain_queue`, or
 `enqueue_session` and `_drain_queue` go on to `_schedule_retry`, the thread moves to the list of that routine.
 */
module BuildProtocol {
  import opened Common
  import opened BuildManager

  datatype EnqueuePc = TryNow(session: string, opts: Options) | AppendNext(session: string, opts: Options) | EnqueueDone

  /** `_schedule_retry`: the locked part, then `timer.start()`. */
  datatype SchedulePc = Scheduling | Arming(timer: nat) | ScheduleDone

  /** `_drain_queue`: read the head, unpack it outside the lock, start it; then remove, or count and test. */
  datatype DrainPc =
    | Peek | Unpack(item: nat) | TryHead(item: nat, attempts: nat)
    | Remove(item: nat, again: bool) | Bump(item: nat, attempts: nat) | Test(item: nat) | GiveUp(item: nat)
    | DrainDone

  datatype BuildPc =
    | Begin(job: JobId)
    | Building(job: JobId)
    | Finishing(job: JobId, state: JobState, reason: string)
    | BuildDone

  /**
   * A `threading.Timer`: created, started, fired and about to clear the field, over, or never started because
   * its start raised.
   */
  datatype TimerPc = Idle | Waiting | Fired | TimerDone | Dead

  /** `stop`: the locked part, then `timer.cancel()`. */
  datatype StopPc = Clearing | Cancelling(taken: Option<nat>) | StopDone

  datatype Event =
    | Entered(session: string)
    | Settled(session: string)
    | Left(session: string)
    | Cleared(session: string)

  datatype State = State(
    c: Core, enqueues: seq<EnqueuePc>, schedules: seq<SchedulePc>, drains: seq<DrainPc>, builds: seq<BuildPc>,
    timers: seq<TimerPc>, stops: seq<StopPc>, used: set<JobId>, log: seq<Event>)

  const INIT := State(Core(map[], [], false, false, [], [], None), [], [], [], [], [], [], {}, [])

  /** How the builder ended: an exception, a cancellation, or a path that may be empty. */
  datatype BuildEnd = Raised | Cancelled | Returned(path: bool)

  datatype Action =
    | CallStart(folder: bool, env: Env)
    | CallEnqueue(session: string, opts: Options)
    | CallStop
    | Enqueue(i: nat, env: Env)
    | Schedule(i: nat, starts: bool)
    | Drain(i: nat, env: Env)
    | Build(i: nat, now: int, progress: Option<int>, end: BuildEnd)
    | Tick(i: nat)
    | Stop(i: nat)

  /** The `start` critical section; a started build brings its own thread. */
  function StartBuild(s: State, session: bool, env: Env, limits: Limits): (State, StartResult) {
    var (c, r) := TryStart(s.c, session, env, limits);
    (if r.Started? then s.(c := c, builds := s.builds + [Begin(r.job)], used := s.used + {r.job}) else s.(c := c), r)
  }

  function Verdict(stop: bool, end: BuildEnd): (JobState, string) {
    match end
    case Cancelled => (Failed, "build stopped")
    case Raised => (Failed, "build failed")
    case Returned(path) =>
      if stop then (Failed, "build stopped")
      else if path then (Finished, "")
      else (Failed, "no frames to build")
  }

  function Removed(s: State, item: nat): State
    requires item < |s.c.items|
  {
    var queue := RemoveEqual(s.c.queue, s.c.items, item);
    s.(c := s.c.(queue := queue),
       log := if |queue| < |s.c.queue| then s.log + [Left(s.c.items[item].session)] else s.log)
  }

  function ClearedAll(queue: seq<nat>, items: seq<Item>): (r: seq<Event>)
    requires forall i :: 0 <= i < |queue| ==> queue[i] < |items|
    ensures |r| == |queue| && forall i :: 0 <= i < |r| ==> r[i] == Cleared(items[queue[i]].session)
  {
    seq(|queue|, i requires 0 <= i < |queue| => Cleared(items[queue[i]].session))
  }

  predicate ItemOk(pc: DrainPc, items: nat) { pc.Peek? || pc.DrainDone? || pc.item < items }

  /** The queue and the threads refer to items and timers that exist. */
  predicate RefsOk(s: State) {
    && (forall i :: 0 <= i < |s.c.queue| ==> s.c.queue[i] < |s.c.items|)
    && (forall i :: 0 <= i < |s.drains| ==> ItemOk(s.drains[i], |s.c.items|))
    && (forall i :: 0 <= i < |s.schedules| && s.schedules[i].Arming? ==> s.schedules[i].timer < |s.timers|)
    && (forall i :: 0 <= i < |s.stops| && s.stops[i].Cancelling? && s.stops[i].taken.Some? ==>
          s.stops[i].taken.value < |s.timers|)
  }

  /** A job id is drawn fresh from 128 random bits. */
  predicate Enabled(s: State, a: Action) {
    match a
    case CallStart(_, env) => env.jobId !in s.used
    case CallEnqueue(_, _) => true
    case CallStop => true
    case Enqueue(i, env) => i < |s.enqueues| && env.jobId !in s.used
    case Schedule(i, _) => i < |s.schedules|
    case Drain(i, env) => i < |s.drains| && env.jobId !in s.used
    case Build(i, _, _, _) => i < |s.builds|
    case Tick(i) => i < |s.timers|
    case Stop(i) => i < |s.stops|
  }

  function Next(s: State, a: Action, limits: Limits): State
    requires RefsOk(s) && Enabled(s, a)
  {
    match a
    case CallStart(folder, env) => StartBuild(s, folder, env, limits).0
    case CallEnqueue(session, opts) => s.(enqueues := s.enqueues + [TryNow(session, opts)])
    case CallStop => s.(c := s.c.(stop := true), stops := s.stops + [Clearing])
    case Enqueue(i, env) => EnqueueStep(s, i, env, limits)
    case Schedule(i, starts) => ScheduleStep(s, i, starts)
    case Drain(i, env) => DrainStep(s, i, env, limits)
    case Build(i, now, progress, end) => BuildStep(s, i, now, progress, end)
    case Tick(i) => TimerStep(s, i)
    case Stop(i) => StopStep(s, i)
  }

  function EnqueueStep(s: State, i: nat, env: Env, limits: Limits): State
    requires i < |s.enqueues|
  {
    match s.enqueues[i]
    case TryNow(session, opts) =>
      if !env.sessionOk then s.(enqueues := s.enqueues[i := EnqueueDone])
      else
        var (s1, r) := StartBuild(s, true, env, limits);
        s1.(enqueues := s.enqueues[i := if r.Busy? then AppendNext(session, opts) else EnqueueDone])
    case AppendNext(session, opts) =>
      s.(c := Append(s.c, session, opts),
         log := if Queued(s.c, session) then s.log else s.log + [Entered(session)],
         enqueues := s.enqueues[i := EnqueueDone], schedules := s.schedules + [Scheduling])
    case EnqueueDone => s
  }

  /**
   * `starts` is whether `timer.start()` succeeds; it raises when no thread can be created, with the timer
   * already in the field.
   */
  function ScheduleStep(s: State, i: nat, starts: bool): State
    requires i < |s.schedules|
    requires s.schedules[i].Arming? ==> s.schedules[i].timer < |s.timers|
  {
    match s.schedules[i]
    case Scheduling =>
      if s.c.timer.Some? || s.c.queue == [] then s.(schedules := s.schedules[i := ScheduleDone])
      else s.(c := ArmRetry(s.c, |s.timers|), timers := s.timers + [Idle],
              schedules := s.schedules[i := Arming(|s.timers|)])
    case Arming(timer) =>
      s.(schedules := s.schedules[i := ScheduleDone],
         timers := if s.timers[timer].Idle? then s.timers[timer := if starts then Waiting else Dead] else s.timers)
    case ScheduleDone => s
  }

  function DrainStep(s: State, i: nat, env: Env, limits: Limits): State
    requires i < |s.drains| && ItemOk(s.drains[i], |s.c.items|)
  {
    match s.drains[i]
    case Peek => s.(drains := s.drains[i := if s.c.queue == [] then DrainDone else Unpack(s.c.queue[0])])
    case Unpack(item) => s.(drains := s.drains[i := TryHead(item, s.c.items[item].attempts)])
    case TryHead(item, attempts) => HeadStep(s, i, item, attempts, env, limits)
    case Remove(item, again) => Removed(s, item).(drains := s.drains[i := if again then Peek else DrainDone])
    case Bump(item, attempts) =>
      s.(c := s.c.(items := s.c.items[item := s.c.items[item].(attempts := attempts + 1)]),
         drains := s.drains[i := Test(item)])
    case Test(item) =>
      if s.c.items[item].attempts >= QUEUE_MAX_RETRIES
      then s.(drains := s.drains[i := GiveUp(item)], log := s.log + [Settled(s.c.items[item].session)])
      else s.(drains := s.drains[i := DrainDone], schedules := s.schedules + [Scheduling])
    case GiveUp(item) => Removed(s, item).(drains := s.drains[i := DrainDone])
    case DrainDone => s
  }

  /** The start attempt of a drain, and the branch on its result. */
  function HeadStep(s: State, i: nat, item: nat, attempts: nat, env: Env, limits: Limits): State
    requires i < |s.drains| && item < |s.c.items|
  {
    var (s1, r) := StartBuild(s, true, env, limits);
    if r.Busy? then s1.(drains := s.drains[i := Bump(item, attempts)])
    else s1.(drains := s.drains[i := Remove(item, r.Rejected?)], log := s.log + [Settled(s.c.items[item].session)])
  }

  function BuildStep(s: State, i: nat, now: int, progress: Option<int>, end: BuildEnd): State
    requires i < |s.builds|
  {
    match s.builds[i]
    case Begin(job) => s.(c := SetState(s.c, job, Running), builds := s.builds[i := Building(job)])
    case Building(job) =>
      if progress.Some? then s.(c := SetWritten(s.c, job, progress.value))
      else var (state, reason) := Verdict(s.c.stop, end); s.(builds := s.builds[i := Finishing(job, state, reason)])
    case Finishing(job, state, reason) =>
      s.(c := Finish(s.c, job, state, reason, now), builds := s.builds[i := BuildDone], drains := s.drains + [Peek])
    case BuildDone => s
  }

  function TimerStep(s: State, i: nat): State
    requires i < |s.timers|
  {
    match s.timers[i]
    case Waiting => s.(timers := s.timers[i := Fired])
    case Fired => s.(c := s.c.(timer := None), timers := s.timers[i := TimerDone], drains := s.drains + [Peek])
    case _ => s
  }

  function StopStep(s: State, i: nat): State
    requires RefsOk(s) && i < |s.stops|
  {
    match s.stops[i]
    case Clearing =>
      s.(c := s.c.(timer := None, queue := []), log := s.log + ClearedAll(s.c.queue, s.c.items),
         stops := s.stops[i := Cancelling(s.c.timer)])
    case Cancelling(taken) =>
      s.(stops := s.stops[i := StopDone],
         timers := if taken.Some? && (s.timers[taken.value].Idle? || s.timers[taken.value].Waiting?)
                   then s.timers[taken.value := TimerDone] else s.timers)
    case StopDone => s
  }

  // ------------------------------------------------------------------ one build at a time

  /**
   The job table: `order` lists the keys of `jobs` once each, at most eight, only the newest can be
   active, and the lock is held exactly when it is.
   */
  ghost predicate JobsOk(c: Core) {
    && (forall i, j :: 0 <= i < j < |c.order| ==> c.order[i] != c.order[j])
    && (forall i :: 0 <= i < |c.order| ==> c.order[i] in c.jobs)
    && (forall id :: id in c.jobs ==> id in c.order)
    && |c.order| <= MAX_JOBS
    && (forall i :: 0 <= i < |c.order| - 1 ==> !Active(c.jobs[c.order[i]].state))
    && (c.held <==> c.order != [] && Active(c.jobs[c.order[|c.order| - 1]].state))
  }

  /** The thread that builds is the one of the newest job, and there is one exactly while the lock is held. */
  ghost predicate BuildersOk(c: Core, builds: seq<BuildPc>) {
    && (forall i :: 0 <= i < |builds| && !builds[i].BuildDone? ==> BuilderOk(c, builds[i]))
    && (forall i, j :: 0 <= i < j < |builds| ==> builds[i].BuildDone? || builds[j].BuildDone?)
    && (c.held ==> exists i :: 0 <= i < |builds| && !builds[i].BuildDone?)
  }

  ghost predicate BuilderOk(c: Core, pc: BuildPc) {
    && !pc.BuildDone?
    && c.held && c.order != []
    && pc.job == c.order[|c.order| - 1]
    && pc.job in c.jobs
    && (pc.Finishing? ==> !Active(pc.state))
    && c.jobs[pc.job].state == if pc.Begin? then Pending else Running
  }

  ghost predicate BuildInv(s: State) {
    JobsOk(s.c) && BuildersOk(s.c, s.builds) && s.c.jobs.Keys <= s.used
  }

  // -- the job table under the critical sections

  lemma {:induction false} FirstActiveNone(jobs: map<JobId, Job>, order: seq<JobId>)
    requires forall i :: 0 <= i < |order| ==> order[i] in jobs
    ensures FirstActive(jobs, order).None? <==>
            forall i :: 0 <= i < |order| ==> !Active(jobs[order[i]].state)
  {
    if order != [] {
      FirstActiveNone(jobs, order[1..]);
      assert order == [order[0]] + order[1..];
    }
  }

  /** Under the table invariant, an active job is found exactly when the lock is held. */
  lemma BusyIffHeld(c: Core)
    requires JobsOk(c)
    ensures FirstActive(c.jobs, c.order).Some? <==> c.held
  {
    FirstActiveNone(c.jobs, c.order);
  }

  lemma {:induction false} WithoutLast(order: seq<JobId>, id: JobId)
    requires id !in order
    ensures Without(order + [id], id) == order
  {
    if order == [] {
      assert order + [id] == [id];
      assert [id][1..] == [];
    } else {
      assert (order + [id])[1..] == order[1..] + [id];
      WithoutLast(order[1..], id);
    }
  }

  /** The jobs kept when one is registered: all of them, or all but the oldest. */
  function Kept(order: seq<JobId>): seq<JobId> { if |order| == MAX_JOBS then order[1..] else order }

  lemma RegisterShape(c: Core, env: Env)
    requires JobsOk(c) && !c.held && env.jobId !in c.jobs
    ensures var r := Register(c, env);
            && r.order == Kept(c.order) + [env.jobId]
            && r.held && !r.stop && r.queue == c.queue && r.items == c.items && r.timer == c.timer
            && r.jobs.Keys == (set id | id in Kept(c.order)) + {env.jobId}
            && r.jobs[env.jobId] == NewJob(env)
            && forall id :: id in Kept(c.order) ==> id in c.jobs && r.jobs[id] == c.jobs[id]
  {
    var c1 := c.(held := true, jobs := c.jobs[env.jobId := NewJob(env)], order := c.order + [env.jobId]);
    if |c.order| == MAX_JOBS {
      var c2 := c1.(order := c1.order[1..], jobs := c1.jobs - {c1.order[0]});
      assert !Active(c1.jobs[c1.order[0]].state);
      assert c2.order == c.order[1..] + [env.jobId];
      assert Prune(c1) == c2;
    } else {
      assert Prune(c1) == c1;
    }
  }

  /** What is kept of the order still lists known jobs once each, none active when the lock is free. */
  lemma KeptOk(c: Core)
    requires JobsOk(c) && !c.held
    ensures var k := Kept(c.order);
            && |k| < MAX_JOBS
            && (forall i :: 0 <= i < |k| ==> k[i] in c.jobs && !Active(c.jobs[k[i]].state))
            && (forall i, j :: 0 <= i < j < |k| ==> k[i] != k[j])
  {
    var k := Kept(c.order);
    forall i | 0 <= i < |c.order| ensures !Active(c.jobs[c.order[i]].state) {
    }
    if |c.order| == MAX_JOBS {
      assert forall i :: 0 <= i < |k| ==> k[i] == c.order[i + 1];
    }
  }

  lemma KeptAndNew(c: Core, r: Core, kept: seq<JobId>, id: JobId)
    requires |kept| < MAX_JOBS && id !in c.jobs && r.order == kept + [id] && r.held
    requires forall i :: 0 <= i < |kept| ==> kept[i] in c.jobs && !Active(c.jobs[kept[i]].state)
    requires forall i, j :: 0 <= i < j < |kept| ==> kept[i] != kept[j]
    requires r.jobs.Keys == (set x | x in kept) + {id} && Active(r.jobs[id].state)
    requires forall x :: x in kept ==> x in c.jobs && r.jobs[x] == c.jobs[x]
    ensures JobsOk(r)
  {
    var n := |kept|;
    assert r.order[n] == id;
    forall i | 0 <= i < n
      ensures r.order[i] == kept[i] && r.order[i] in r.jobs && r.order[i] != id
      ensures !Active(r.jobs[r.order[i]].state)
    {
      assert kept[i] in kept;
    }
    forall x | x in r.jobs ensures x in r.order {
      if x != id {
        assert x in kept;
      }
    }
  }

  lemma RegisterJobsOk(c: Core, env: Env)
    requires JobsOk(c) && !c.held && env.jobId !in c.jobs
    ensures JobsOk(Register(c, env))
  {
    hide Register;
    RegisterShape(c, env);
    KeptOk(c);
    var r := Register(c, env);
    hide Kept, JobsOk;
    KeptAndNew(c, r, Kept(c.order), env.jobId);
  }

  /** When the build thread cannot be started the job is taken out again and the lock released. */
  function Backout(c: Core, env: Env): Core {
    var reg := Register(c, env);
    reg.(jobs := reg.jobs - {env.jobId}, order := Without(reg.order, env.jobId), held := false)
  }

  lemma BackoutJobsOk(c: Core, env: Env)
    requires JobsOk(c) && !c.held && env.jobId !in c.jobs
    ensures JobsOk(Backout(c, env))
    ensures Backout(c, env).order == Kept(c.order)
  {
    hide Register, Without;
    RegisterShape(c, env);
    WithoutLast(Kept(c.order), env.jobId);
    KeptJobsOk(c, Backout(c, env));
  }

  lemma KeptJobsOk(c: Core, d: Core)
    requires JobsOk(c) && !c.held && !d.held
    requires d.order == Kept(c.order) && d.jobs.Keys == set id | id in d.order
    requires forall id :: id in d.order ==> d.jobs[id] == c.jobs[id]
    ensures JobsOk(d)
  {
    forall i | 0 <= i < |d.order| ensures d.order[i] in d.jobs && !Active(d.jobs[d.order[i]].state) {
      assert d.order[i] in d.order;
      assert d.order[i] == c.order[if |c.order| == MAX_JOBS then i + 1 else i];
    }
  }

  ghost predicate StartEffect(c: Core, c': Core, r: StartResult, id: JobId) {
    && c'.queue == c.queue && c'.items == c.items && c'.timer == c.timer
    && (r.Started? ==>
          && !c.held && c'.held && r.job == id
          && c'.order == Kept(c.order) + [id]
          && id in c'.jobs && c'.jobs[id].state == Pending
          && c'.jobs.Keys <= c.jobs.Keys + {id})
    && (!r.Started? ==> c'.held == c.held && c'.jobs.Keys <= c.jobs.Keys)
    && (c.held ==> c' == c)
    && (forall k :: k in c'.jobs && k in c.jobs ==> c'.jobs[k] == c.jobs[k])
  }

  /** What `start` does to the table, whatever it answers: only an idle manager starts, and it keeps the invariant. */
  lemma StartJobsOk(c: Core, session: bool, env: Env, limits: Limits)
    requires JobsOk(c) && env.jobId !in c.jobs
    ensures var (c', r) := TryStart(c, session, env, limits);
            JobsOk(c') && StartEffect(c, c', r, env.jobId)
  {
    hide Register, Gate, JobsOk, Without;
    BusyIffHeld(c);
    if !c.held {
      RegisterShape(c, env);
      RegisterJobsOk(c, env);
      BackoutJobsOk(c, env);
    }
  }

  lemma SetStateJobsOk(c: Core, id: JobId)
    requires JobsOk(c) && c.held && id == c.order[|c.order| - 1]
    ensures JobsOk(SetState(c, id, Running))
  {
  }

  lemma SetWrittenJobsOk(c: Core, id: JobId, n: int)
    requires JobsOk(c)
    ensures JobsOk(SetWritten(c, id, n))
  {
  }

  lemma FinishJobsOk(c: Core, id: JobId, state: JobState, reason: string, now: int)
    requires JobsOk(c) && c.held && id == c.order[|c.order| - 1] && !Active(state)
    ensures JobsOk(Finish(c, id, state, reason, now))
  {
  }

  // -- the threads

  ghost predicate SameTable(c: Core, d: Core) { d.jobs == c.jobs && d.order == c.order && d.held == c.held }

  lemma FrameTable(s: State, s': State)
    requires BuildInv(s) && SameTable(s.c, s'.c) && s'.builds == s.builds && s'.used == s.used
    ensures BuildInv(s')
  {
    assert JobsOk(s'.c);
    forall i | 0 <= i < |s.builds| && !s.builds[i].BuildDone? ensures BuilderOk(s'.c, s.builds[i]) {
      assert BuilderOk(s.c, s.builds[i]);
    }
  }

  lemma StartedBuilders(s: State, session: bool, env: Env, limits: Limits)
    requires BuildInv(s) && env.jobId !in s.used
    ensures BuildInv(StartBuild(s, session, env, limits).0)
  {
    hide TryStart, JobsOk;
    StartJobsOk(s.c, session, env, limits);
    var (c, r) := TryStart(s.c, session, env, limits);
    var builds := StartBuild(s, session, env, limits).0.builds;
    if r.Started? {
      assert forall i :: 0 <= i < |s.builds| ==> s.builds[i].BuildDone?;
      assert BuilderOk(c, builds[|s.builds|]);
    }
  }

  /** The building thread's own step. */
  lemma OwnStep(s: State, i: nat, c: Core, pc: BuildPc)
    requires BuildInv(s) && i < |s.builds| && !s.builds[i].BuildDone? && JobsOk(c)
    requires if pc.BuildDone? then !c.held else BuilderOk(c, pc)
    ensures BuildersOk(c, s.builds[i := pc])
  {
    hide JobsOk;
    var builds := s.builds[i := pc];
    forall k | 0 <= k < |builds| && k != i ensures builds[k].BuildDone? {
      assert s.builds[if k < i then k else i].BuildDone? || s.builds[if k < i then i else k].BuildDone?;
    }
    assert builds[i] == pc;
  }

  lemma TheBuilder(s: State, i: nat)
    requires BuildInv(s) && i < |s.builds| && !s.builds[i].BuildDone?
    ensures BuilderOk(s.c, s.builds[i])
  {
  }

  lemma BeginBuilders(s: State, i: nat, job: JobId)
    requires BuildInv(s) && i < |s.builds| && s.builds[i] == Begin(job)
    ensures BuildInv(s.(c := SetState(s.c, job, Running), builds := s.builds[i := Building(job)]))
  {
    hide JobsOk, BuildersOk;
    TheBuilder(s, i);
    SetStateJobsOk(s.c, job);
    OwnStep(s, i, SetState(s.c, job, Running), Building(job));
  }

  lemma ProgressBuilders(s: State, i: nat, job: JobId, written: int)
    requires BuildInv(s) && i < |s.builds| && s.builds[i] == Building(job)
    ensures BuildInv(s.(c := SetWritten(s.c, job, written)))
  {
    hide JobsOk, BuildersOk;
    TheBuilder(s, i);
    SetWrittenJobsOk(s.c, job, written);
    OwnStep(s, i, SetWritten(s.c, job, written), s.builds[i]);
    assert s.builds[i := s.builds[i]] == s.builds;
  }

  lemma EndBuilders(s: State, i: nat, job: JobId, state: JobState, reason: string)
    requires BuildInv(s) && i < |s.builds| && s.builds[i] == Building(job) && !Active(state)
    ensures BuildInv(s.(builds := s.builds[i := Finishing(job, state, reason)]))
  {
    hide JobsOk, BuildersOk;
    TheBuilder(s, i);
    OwnStep(s, i, s.c, Finishing(job, state, reason));
  }

  lemma FinishBuilders(s: State, i: nat, job: JobId, state: JobState, reason: string, now: int)
    requires BuildInv(s) && i < |s.builds| && s.builds[i] == Finishing(job, state, reason)
    ensures BuildInv(s.(c := Finish(s.c, job, state, reason, now), builds := s.builds[i := BuildDone]))
  {
    hide JobsOk, BuildersOk;
    TheBuilder(s, i);
    FinishJobsOk(s.c, job, state, reason, now);
    OwnStep(s, i, Finish(s.c, job, state, reason, now), BuildDone);
  }

  lemma BuildStepBuilders(s: State, i: nat, now: int, progress: Option<int>, end: BuildEnd)
    requires BuildInv(s) && i < |s.builds|
    ensures BuildInv(BuildStep(s, i, now, progress, end))
  {
    hide JobsOk, BuildersOk, SetState, SetWritten, Finish;
    match s.builds[i] {
      case Begin(job) => BeginBuilders(s, i, job);
      case Building(job) =>
        if progress.Some? {
          ProgressBuilders(s, i, job, progress.value);
        } else {
          EndBuilders(s, i, job, Verdict(s.c.stop, end).0, Verdict(s.c.stop, end).1);
        }
      case Finishing(job, state, reason) => FinishBuilders(s, i, job, state, reason, now);
      case BuildDone =>
    }
  }

  lemma EnqueueBuilders(s: State, i: nat, env: Env, limits: Limits)
    requires BuildInv(s) && i < |s.enqueues| && env.jobId !in s.used
    ensures BuildInv(EnqueueStep(s, i, env, limits))
  {
    hide JobsOk, BuildersOk, TryStart, Queued;
    StartedBuilders(s, true, env, limits);
    FrameTable(if s.enqueues[i].TryNow? && env.sessionOk then StartBuild(s, true, env, limits).0 else s,
               EnqueueStep(s, i, env, limits));
  }

  lemma HeadBuilders(s: State, i: nat, item: nat, attempts: nat, env: Env, limits: Limits)
    requires BuildInv(s) && i < |s.drains| && item < |s.c.items| && env.jobId !in s.used
    ensures BuildInv(HeadStep(s, i, item, attempts, env, limits))
  {
    hide JobsOk, BuildersOk, TryStart;
    StartedBuilders(s, true, env, limits);
    FrameTable(StartBuild(s, true, env, limits).0, HeadStep(s, i, item, attempts, env, limits));
  }

  lemma DrainBuilders(s: State, i: nat, env: Env, limits: Limits)
    requires BuildInv(s) && i < |s.drains| && ItemOk(s.drains[i], |s.c.items|) && env.jobId !in s.used
    ensures BuildInv(DrainStep(s, i, env, limits))
  {
    hide JobsOk, BuildersOk, RemoveEqual, HeadStep;
    if s.drains[i].TryHead? {
      HeadBuilders(s, i, s.drains[i].item, s.drains[i].attempts, env, limits);
    } else {
      FrameTable(s, DrainStep(s, i, env, limits));
    }
  }

  lemma OtherBuilders(s: State, a: Action, limits: Limits)
    requires BuildInv(s) && RefsOk(s) && Enabled(s, a)
    requires a.CallEnqueue? || a.CallStop? || a.Schedule? || a.Tick? || a.Stop?
    ensures BuildInv(Next(s, a, limits))
  {
    hide JobsOk, BuildersOk, EnqueueStep, DrainStep, BuildStep, StartBuild;
    FrameTable(s, Next(s, a, limits));
  }

  lemma BuildInvStep(s: State, a: Action, limits: Limits)
    requires BuildInv(s) && RefsOk(s) && Enabled(s, a)
    ensures BuildInv(Next(s, a, limits))
  {
    hide JobsOk, BuildersOk, BuildInv, StartBuild, EnqueueStep, DrainStep, BuildStep, ScheduleStep, TimerStep, StopStep;
    match a {
      case CallStart(folder, env) => StartedBuilders(s, folder, env, limits);
      case Enqueue(i, env) => EnqueueBuilders(s, i, env, limits);
      case Drain(i, env) => DrainBuilders(s, i, env, limits);
      case Build(i, now, progress, end) => BuildStepBuilders(s, i, now, progress, end);
      case _ => OtherBuilders(s, a, limits);
    }
  }
}
