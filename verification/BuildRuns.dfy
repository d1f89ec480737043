/** Theorems about whole runs of the build manager, from the first call on. */
module BuildRuns {
  import opened Common
  import opened BuildManager
  import opened BuildProtocol
  import opened BuildWakeup

  /** A finite run: any number of calls and thread steps, in any order. */
  ghost predicate Valid(s: State, acts: seq<Action>, limits: Limits)
    decreases |acts|
  {
    acts == [] || (RefsOk(s) && Enabled(s, acts[0]) && Valid(Next(s, acts[0], limits), acts[1..], limits))
  }

  ghost function End(s: State, acts: seq<Action>, limits: Limits): State
    requires Valid(s, acts, limits)
    decreases |acts|
  {
    if acts == [] then s else End(Next(s, acts[0], limits), acts[1..], limits)
  }

  // ------------------------------------------------------------------ accounting of the queue

  predicate Leaves(pc: DrainPc, items: seq<Item>, x: string) {
    (pc.Remove? || pc.GiveUp?) && pc.item < |items| && items[pc.item].session == x
  }

  /** Threads that hold a settled request of session `x` and are about to remove it. */
  function Leaving(drains: seq<DrainPc>, items: seq<Item>, x: string): nat {
    if drains == [] then 0
    else (if Leaves(drains[0], items, x) then 1 else 0) + Leaving(drains[1..], items, x)
  }

  function InQueue(queue: seq<nat>, items: seq<Item>, x: string): nat {
    if queue == [] then 0
    else (if queue[0] < |items| && items[queue[0]].session == x then 1 else 0) + InQueue(queue[1..], items, x)
  }

  /**
   A request enters once and then is in the queue, has left, or was cleared by `stop`; and it leaves only
   against a start attempt that was answered with something other than busy, or against its 120th retry.
   */
  ghost predicate Account(s: State, x: string) {
    var log := multiset(s.log);
    && log[Entered(x)] == InQueue(s.c.queue, s.c.items, x) + log[Left(x)] + log[Cleared(x)]
    && log[Left(x)] + Leaving(s.drains, s.c.items, x) <= log[Settled(x)]
  }

  ghost predicate SameSessions(items: seq<Item>, items': seq<Item>) {
    |items| <= |items'| && forall i :: 0 <= i < |items| ==> items'[i].session == items[i].session
  }

  lemma {:induction false} InQueueFrame(queue: seq<nat>, items: seq<Item>, items': seq<Item>, x: string)
    requires SameSessions(items, items') && forall i :: 0 <= i < |queue| ==> queue[i] < |items|
    ensures InQueue(queue, items', x) == InQueue(queue, items, x)
  {
    if queue != [] { InQueueFrame(queue[1..], items, items', x); }
  }

  lemma {:induction false} LeavingFrame(drains: seq<DrainPc>, items: seq<Item>, items': seq<Item>, x: string)
    requires SameSessions(items, items') && forall i :: 0 <= i < |drains| ==> ItemOk(drains[i], |items|)
    ensures Leaving(drains, items', x) == Leaving(drains, items, x)
  {
    if drains != [] { LeavingFrame(drains[1..], items, items', x); }
  }

  lemma {:induction false} LeavingUpdate(drains: seq<DrainPc>, items: seq<Item>, x: string, i: nat, pc: DrainPc)
    requires i < |drains|
    ensures Leaving(drains[i := pc], items, x) + (if Leaves(drains[i], items, x) then 1 else 0)
         == Leaving(drains, items, x) + (if Leaves(pc, items, x) then 1 else 0)
  {
    if i == 0 {
      assert drains[i := pc][1..] == drains[1..];
    } else {
      LeavingUpdate(drains[1..], items, x, i - 1, pc);
      assert drains[i := pc][1..] == drains[1..][i - 1 := pc];
    }
  }

  lemma {:induction false} LeavingPeek(drains: seq<DrainPc>, items: seq<Item>, x: string)
    ensures Leaving(drains + [Peek], items, x) == Leaving(drains, items, x)
  {
    if drains == [] {
      assert drains + [Peek] == [Peek];
      assert [Peek][1..] == [];
    } else {
      LeavingPeek(drains[1..], items, x);
      assert (drains + [Peek])[1..] == drains[1..] + [Peek];
    }
  }

  lemma {:induction false} InQueueAppend(queue: seq<nat>, items: seq<Item>, x: string, id: nat)
    ensures InQueue(queue + [id], items, x)
         == InQueue(queue, items, x) + (if id < |items| && items[id].session == x then 1 else 0)
  {
    if queue == [] {
      assert queue + [id] == [id];
      assert [id][1..] == [];
    } else {
      InQueueAppend(queue[1..], items, x, id);
      assert (queue + [id])[1..] == queue[1..] + [id];
    }
  }

  lemma {:induction false} InQueueRemove(queue: seq<nat>, items: seq<Item>, item: nat, x: string)
    requires item < |items|
    ensures var queue' := RemoveEqual(queue, items, item);
            && |queue'| <= |queue|
            && InQueue(queue, items, x) ==
               InQueue(queue', items, x) + (if |queue'| < |queue| && items[item].session == x then 1 else 0)
  {
    if queue != [] && !(queue[0] < |items| && items[queue[0]] == items[item]) {
      InQueueRemove(queue[1..], items, item, x);
      var queue' := RemoveEqual(queue, items, item);
      assert queue'[1..] == RemoveEqual(queue[1..], items, item);
    }
  }

  lemma {:induction false} ClearedCounts(queue: seq<nat>, items: seq<Item>, x: string)
    requires forall i :: 0 <= i < |queue| ==> queue[i] < |items|
    ensures multiset(ClearedAll(queue, items))[Cleared(x)] == InQueue(queue, items, x)
    ensures multiset(ClearedAll(queue, items))[Entered(x)] == 0
    ensures multiset(ClearedAll(queue, items))[Left(x)] == 0
    ensures multiset(ClearedAll(queue, items))[Settled(x)] == 0
  {
    var all := ClearedAll(queue, items);
    if queue != [] {
      ClearedCounts(queue[1..], items, x);
      assert all == [Cleared(items[queue[0]].session)] + ClearedAll(queue[1..], items);
    }
  }

  lemma RemovedAccount(s: State, i: nat, x: string, pc: DrainPc)
    requires RefsOk(s) && Account(s, x) && i < |s.drains| && (s.drains[i].Remove? || s.drains[i].GiveUp?)
    requires !pc.Remove? && !pc.GiveUp?
    ensures Account(Removed(s, s.drains[i].item).(drains := s.drains[i := pc]), x)
  {
    assert ItemOk(s.drains[i], |s.c.items|);
    hide RefsOk, RemoveEqual;
    var item := s.drains[i].item;
    InQueueRemove(s.c.queue, s.c.items, item, x);
    LeavingUpdate(s.drains, s.c.items, x, i, pc);
    var e := Left(s.c.items[item].session);
    assert multiset(s.log + [e]) == multiset(s.log) + multiset{e};
  }

  lemma SettledAccount(s: State, s': State, i: nat, x: string, item: nat, pc: DrainPc)
    requires Account(s, x) && i < |s.drains| && item < |s.c.items|
    requires !s.drains[i].Remove? && !s.drains[i].GiveUp? && (pc.Remove? || pc.GiveUp?) && pc.item == item
    requires s'.c.queue == s.c.queue && s'.c.items == s.c.items && s'.drains == s.drains[i := pc]
    requires s'.log == s.log + [Settled(s.c.items[item].session)]
    ensures Account(s', x)
  {
    LeavingUpdate(s.drains, s.c.items, x, i, pc);
    var e := Settled(s.c.items[item].session);
    assert multiset(s'.log) == multiset(s.log) + multiset{e};
  }

  /** A step that neither touches the queue nor settles or removes anything. */
  lemma IdleAccount(s: State, s': State, x: string)
    requires RefsOk(s) && Account(s, x) && s'.c.queue == s.c.queue && s'.log == s.log
    requires SameSessions(s.c.items, s'.c.items)
    requires s'.drains == s.drains || s'.drains == s.drains + [Peek]
    ensures Account(s', x)
  {
    InQueueFrame(s.c.queue, s.c.items, s'.c.items, x);
    LeavingFrame(s.drains, s.c.items, s'.c.items, x);
    if s'.drains != s.drains {
      LeavingPeek(s.drains, s'.c.items, x);
    }
  }

  lemma MoveAccount(s: State, s': State, i: nat, pc: DrainPc, x: string)
    requires RefsOk(s) && Account(s, x) && s'.c.queue == s.c.queue && s'.log == s.log
    requires SameSessions(s.c.items, s'.c.items)
    requires i < |s.drains| && s'.drains == s.drains[i := pc]
    requires !s.drains[i].Remove? && !s.drains[i].GiveUp? && !pc.Remove? && !pc.GiveUp?
    ensures Account(s', x)
  {
    InQueueFrame(s.c.queue, s.c.items, s'.c.items, x);
    LeavingFrame(s.drains, s.c.items, s'.c.items, x);
    LeavingUpdate(s.drains, s'.c.items, x, i, pc);
  }

  lemma EnqueueAccount(s: State, i: nat, env: Env, limits: Limits, x: string)
    requires RefsOk(s) && BuildInv(s) && Account(s, x) && i < |s.enqueues| && env.jobId !in s.used
    ensures Account(EnqueueStep(s, i, env, limits), x)
  {
    hide BuildInv, StartBuild, Queued, Account;
    StartedKeeps(s, true, env, limits);
    var s' := EnqueueStep(s, i, env, limits);
    if s.enqueues[i].AppendNext? && !Queued(s.c, s.enqueues[i].session) {
      AppendAccount(s, s', s.enqueues[i].session, s.enqueues[i].opts, x);
    } else {
      IdleAccount(s, s', x);
    }
  }

  lemma AppendAccount(s: State, s': State, session: string, opts: Options, x: string)
    requires RefsOk(s) && Account(s, x) && s'.drains == s.drains && s'.log == s.log + [Entered(session)]
    requires s'.c.items == s.c.items + [Item(session, opts, 0)] && s'.c.queue == s.c.queue + [|s.c.items|]
    ensures Account(s', x)
  {
    InQueueFrame(s.c.queue, s.c.items, s'.c.items, x);
    LeavingFrame(s.drains, s.c.items, s'.c.items, x);
    InQueueAppend(s.c.queue, s'.c.items, x, |s.c.items|);
    assert multiset(s'.log) == multiset(s.log) + multiset{Entered(session)};
  }

  lemma HeadAccount(s: State, i: nat, env: Env, limits: Limits, x: string)
    requires RefsOk(s) && BuildInv(s) && Account(s, x) && i < |s.drains| && env.jobId !in s.used
    requires s.drains[i].TryHead? && s.drains[i].item < |s.c.items|
    ensures Account(HeadStep(s, i, s.drains[i].item, s.drains[i].attempts, env, limits), x)
  {
    hide BuildInv, StartBuild, Account, RefsOk;
    StartedKeeps(s, true, env, limits);
    var item, attempts := s.drains[i].item, s.drains[i].attempts;
    var s' := HeadStep(s, i, item, attempts, env, limits);
    var r := StartBuild(s, true, env, limits).1;
    if r.Busy? {
      MoveAccount(s, s', i, Bump(item, attempts), x);
    } else {
      SettledAccount(s, s', i, x, item, Remove(item, r.Rejected?));
    }
  }

  lemma TestAccount(s: State, i: nat, env: Env, limits: Limits, x: string)
    requires RefsOk(s) && BuildInv(s) && Account(s, x) && i < |s.drains| && s.drains[i].Test?
    ensures Account(DrainStep(s, i, env, limits), x)
  {
    var item := s.drains[i].item;
    assert ItemOk(s.drains[i], |s.c.items|);
    hide BuildInv, Account, RefsOk, HeadStep, Removed;
    var s' := DrainStep(s, i, env, limits);
    if s.c.items[item].attempts >= QUEUE_MAX_RETRIES {
      SettledAccount(s, s', i, x, item, GiveUp(item));
    } else {
      MoveAccount(s, s', i, DrainDone, x);
    }
  }

  lemma DrainAccount(s: State, i: nat, env: Env, limits: Limits, x: string)
    requires RefsOk(s) && BuildInv(s) && Account(s, x) && i < |s.drains| && env.jobId !in s.used
    ensures Account(DrainStep(s, i, env, limits), x)
  {
    assert ItemOk(s.drains[i], |s.c.items|);
    hide BuildInv, Account, RefsOk, HeadStep, Removed;
    var s' := DrainStep(s, i, env, limits);
    match s.drains[i] {
      case TryHead(_, _) => HeadAccount(s, i, env, limits, x);
      case Remove(item, again) => RemovedAccount(s, i, x, if again then Peek else DrainDone);
      case GiveUp(item) => RemovedAccount(s, i, x, DrainDone);
      case Test(item) => TestAccount(s, i, env, limits, x);
      case DrainDone =>
      case _ =>
        MoveAccount(s, s', i, s'.drains[i], x);
    }
  }

  lemma StopAccount(s: State, i: nat, x: string)
    requires RefsOk(s) && Account(s, x) && i < |s.stops|
    ensures Account(StopStep(s, i), x)
  {
    var s' := StopStep(s, i);
    if s.stops[i].Clearing? {
      ClearedCounts(s.c.queue, s.c.items, x);
      assert multiset(s'.log) == multiset(s.log) + multiset(ClearedAll(s.c.queue, s.c.items));
    } else {
      IdleAccount(s, s', x);
    }
  }

  lemma AccountStep(s: State, a: Action, limits: Limits, x: string)
    requires RefsOk(s) && BuildInv(s) && Account(s, x) && Enabled(s, a)
    ensures Account(Next(s, a, limits), x)
  {
    hide BuildInv, RefsOk, Account, StartBuild, EnqueueStep, DrainStep, BuildStep, StopStep;
    match a {
      case CallStart(folder, env) =>
        StartedKeeps(s, folder, env, limits);
        IdleAccount(s, Next(s, a, limits), x);
      case Enqueue(i, env) => EnqueueAccount(s, i, env, limits, x);
      case Drain(i, env) => DrainAccount(s, i, env, limits, x);
      case Build(i, now, progress, end) =>
        BuildKeeps(s, i, now, progress, end);
        IdleAccount(s, Next(s, a, limits), x);
      case Stop(i) => StopAccount(s, i, x);
      case _ => IdleAccount(s, Next(s, a, limits), x);
    }
  }

  // ------------------------------------------------------------------ every run

  ghost predicate Links(s: State) { BuildInv(s) && LinksOk(s) }

  lemma LinksInvStep(s: State, a: Action, limits: Limits)
    requires Links(s) && Enabled(s, a)
    ensures Links(Next(s, a, limits))
  {
    hide BuildInv, LinksOk, RefsOk, Next;
    assert RefsOk(s) by { LinksRefs(s); }
    BuildInvStep(s, a, limits);
    LinksStep(s, a, limits);
  }

  lemma LinksRefs(s: State)
    requires LinksOk(s)
    ensures RefsOk(s)
  {
  }

  lemma InitLinks()
    ensures Links(INIT)
  {
  }

  ghost predicate Inv(s: State) { Links(s) && forall x :: Account(s, x) }

  lemma InvStep(s: State, a: Action, limits: Limits)
    requires Inv(s) && Enabled(s, a)
    ensures Inv(Next(s, a, limits))
  {
    LinksRefs(s);
    hide BuildInv, LinksOk, RefsOk, Account, Next;
    LinksInvStep(s, a, limits);
    forall x ensures Account(Next(s, a, limits), x) { AccountStep(s, a, limits, x); }
  }

  lemma {:induction false} InvHolds(s: State, acts: seq<Action>, limits: Limits)
    requires Inv(s) && Valid(s, acts, limits)
    ensures Inv(End(s, acts, limits))
    decreases |acts|
  {
    hide BuildInv, RefsOk, Account, LinksOk, Next, Enabled;
    if acts != [] {
      InvStep(s, acts[0], limits);
      InvHolds(Next(s, acts[0], limits), acts[1..], limits);
    }
  }

  lemma InitInv()
    ensures Inv(INIT)
  {
  }

  /**
   * The lock is held exactly when a job is active, at most one is, it is the newest, and its thread is the
   * only one building.
   */
  ghost predicate OneAtATime(s: State) {
    && (s.c.held <==> exists id :: id in s.c.jobs && Active(s.c.jobs[id].state))
    && (forall id :: id in s.c.jobs && Active(s.c.jobs[id].state) ==>
          s.c.order != [] && id == s.c.order[|s.c.order| - 1])
    && (forall i, j :: 0 <= i < j < |s.builds| ==> s.builds[i].BuildDone? || s.builds[j].BuildDone?)
    && (s.c.held <==> exists i :: 0 <= i < |s.builds| && !s.builds[i].BuildDone?)
  }

  /** `order` lists the keys of `jobs` once each, at most eight. */
  ghost predicate TableOk(c: Core) {
    && (forall i, j :: 0 <= i < j < |c.order| ==> c.order[i] != c.order[j])
    && (forall id :: id in c.jobs <==> id in c.order)
    && |c.order| <= 8
  }

  lemma InvMeans(s: State)
    requires BuildInv(s)
    ensures OneAtATime(s) && TableOk(s.c)
  {
    if s.c.held {
      assert s.c.order[|s.c.order| - 1] in s.c.jobs;
    }
  }

  /** One build at a time, and a consistent table, in every state of every run. */
  lemma OneBuildAtATime(acts: seq<Action>, limits: Limits)
    requires Valid(INIT, acts, limits)
    ensures OneAtATime(End(INIT, acts, limits)) && TableOk(End(INIT, acts, limits).c)
  {
    InitInv();
    hide BuildInv, LinksOk, Account, OneAtATime, TableOk;
    InvHolds(INIT, acts, limits);
    InvMeans(End(INIT, acts, limits));
  }

  /** No request uses up its retries and no timer start fails along the run. */
  ghost predicate Patient(s: State, acts: seq<Action>, limits: Limits)
    requires Valid(s, acts, limits)
    decreases |acts|
  {
    acts == [] ||
    (!Exhausts(s, acts[0]) && !FailsStart(s, acts[0]) && Patient(Next(s, acts[0], limits), acts[1..], limits))
  }

  ghost predicate NoneDead(timers: seq<TimerPc>) { forall t :: 0 <= t < |timers| ==> !timers[t].Dead? }

  lemma PatientStep(s: State, a: Action, limits: Limits)
    requires RefsOk(s) && BuildInv(s) && Enabled(s, a) && !FailsStart(s, a) && NoneDead(s.timers)
    ensures NoneDead(Next(s, a, limits).timers)
  {
    hide BuildInv, StartBuild, RemoveEqual, Queued, ClearedAll, SetState, SetWritten, Finish, Verdict;
    match a {
      case CallStart(folder, env) => StartedKeeps(s, folder, env, limits);
      case Enqueue(i, env) => StartedKeeps(s, true, env, limits);
      case Drain(i, env) =>
        assert ItemOk(s.drains[i], |s.c.items|);
        StartedKeeps(s, true, env, limits);
      case Build(i, now, progress, end) => BuildKeeps(s, i, now, progress, end);
      case _ =>
    }
  }

  lemma {:induction false} PatientHolds(s: State, acts: seq<Action>, limits: Limits)
    requires Links(s) && Wakeful(s) && NoneDead(s.timers) && Valid(s, acts, limits) && Patient(s, acts, limits)
    ensures Wakeful(End(s, acts, limits))
    decreases |acts|
  {
    if acts != [] {
      LinksRefs(s);
      assert !Quits(s, acts[0]);
      hide Next, Enabled, RefsOk, Exhausts, FailsStart, FindsDead, Quits, BuildInv, LinksOk, Wakeful, NoneDead;
      LinksInvStep(s, acts[0], limits);
      WakeStep(s, acts[0], limits);
      PatientStep(s, acts[0], limits);
      PatientHolds(Next(s, acts[0], limits), acts[1..], limits);
    }
  }

  /**
   Queue wake-up: as long as no request has used up its retries and every timer starts, a non-empty queue always
   has an unfinished build that will drain it, a live timer, or a thread inside drain or schedule. `stop` may be
   called freely.
   */
  lemma QueueWakesUp(acts: seq<Action>, limits: Limits)
    requires Valid(INIT, acts, limits) && Patient(INIT, acts, limits)
    ensures var s := End(INIT, acts, limits); s.c.queue != [] ==> HasWaker(s)
  {
    InitLinks();
    hide Valid, End, Patient, HasWaker, LinksOk;
    PatientHolds(INIT, acts, limits);
  }

  /** Requests are conserved, and leave the queue only when settled. */
  lemma RequestsAccounted(acts: seq<Action>, limits: Limits, x: string)
    requires Valid(INIT, acts, limits)
    ensures var s := End(INIT, acts, limits);
            var log := multiset(s.log);
            && log[Entered(x)] == InQueue(s.c.queue, s.c.items, x) + log[Left(x)] + log[Cleared(x)]
            && log[Left(x)] <= log[Settled(x)]
  {
    hide BuildInv, LinksOk, Next;
    InitInv();
    InvHolds(INIT, acts, limits);
    assert Account(End(INIT, acts, limits), x);
  }

  /** A job that is over: known, and not active if it is still listed. */
  ghost predicate Over(s: State, id: JobId) {
    id in s.used && (id in s.c.jobs ==> !Active(s.c.jobs[id].state))
  }

  lemma StartOver(s: State, session: bool, env: Env, limits: Limits, id: JobId)
    requires BuildInv(s) && Over(s, id) && env.jobId !in s.used
    ensures Over(StartBuild(s, session, env, limits).0, id)
  {
    hide TryStart, JobsOk, BuildersOk;
    StartJobsOk(s.c, session, env, limits);
  }

  lemma BuildOver(s: State, i: nat, now: int, progress: Option<int>, end: BuildEnd, id: JobId)
    requires BuildInv(s) && Over(s, id) && i < |s.builds|
    ensures Over(BuildStep(s, i, now, progress, end), id)
  {
    if !s.builds[i].BuildDone? {
      TheBuilder(s, i);
      hide JobsOk, BuildersOk, BuildInv, Verdict;
      assert Over(BuildStep(s, i, now, progress, end), id);
    }
  }

  lemma OverStep(s: State, a: Action, limits: Limits, id: JobId)
    requires BuildInv(s) && RefsOk(s) && Enabled(s, a) && Over(s, id)
    ensures Over(Next(s, a, limits), id)
  {
    hide BuildInv, RefsOk, StartBuild, BuildStep, RemoveEqual, Queued, ClearedAll;
    match a {
      case CallStart(folder, env) => StartOver(s, folder, env, limits, id);
      case Enqueue(_, env) => StartOver(s, true, env, limits, id);
      case Drain(_, env) => StartOver(s, true, env, limits, id);
      case Build(i, now, progress, end) => BuildOver(s, i, now, progress, end, id);
      case _ =>
    }
  }

  /** A finished job never becomes active again. */
  lemma {:induction false} FinishedStays(s: State, acts: seq<Action>, limits: Limits, id: JobId)
    requires Inv(s) && Valid(s, acts, limits) && Over(s, id)
    ensures Over(End(s, acts, limits), id)
    decreases |acts|
  {
    if acts != [] {
      LinksRefs(s);
      hide BuildInv, RefsOk, LinksOk, Account, Next, Enabled, Over;
      OverStep(s, acts[0], limits, id);
      InvStep(s, acts[0], limits);
      FinishedStays(Next(s, acts[0], limits), acts[1..], limits, id);
    }
  }
}
