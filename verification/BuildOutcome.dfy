/** What the records and the log of the build manager say: how each build ended, and why a request left the queue. */
module BuildOutcome {
  import opened Common
  import opened BuildManager
  import opened BuildProtocol
  import opened BuildWakeup
  import opened BuildRuns

  /** The record of a build that ended this way, with or without a stop called for. */
  ghost predicate Tells(job: Job, end: BuildEnd, stop: bool) {
    && (job.state == Finished <==> end == Returned(true) && !stop)
    && (job.state == Failed <==> !(end == Returned(true) && !stop))
    && (job.reason == "build failed" <==> end == Raised)
    && (job.reason == "build stopped" <==> end == Cancelled || (end.Returned? && stop))
    && (job.reason == "no frames to build" <==> end == Returned(false) && !stop)
    && (job.reason == "" <==> end == Returned(true) && !stop)
  }

  lemma VerdictTells(stop: bool, end: BuildEnd, job: Job)
    requires (job.state, job.reason) == Verdict(stop, end)
    ensures Tells(job, end, stop)
  {
    assert |"build failed"| == 12 && |"build stopped"| == 13 && |"no frames to build"| == 18;
  }

  /** Every start attempt, whoever makes it, is one `start` of the manager. */
  lemma StartsAreStarts(s: State, session: bool, env: Env, limits: Limits)
    ensures var (s', r) := StartBuild(s, session, env, limits);
      (s'.c, r) == TryStart(s.c, session, env, limits) && (r.Started? ==> s'.builds == s.builds + [Begin(r.job)])
  {
    hide TryStart;
  }

  /**
   * What an enqueued session goes through: an unknown folder ends it, else it is started at once, and only when that is
   * answered busy is it appended; appending it, or finding it queued already, is followed by scheduling a retry.
   */
  lemma EnqueueMeans(s: State, i: nat, env: Env, limits: Limits)
    requires i < |s.enqueues|
    ensures var s', pc := EnqueueStep(s, i, env, limits), s.enqueues[i];
      && (pc.TryNow? && !env.sessionOk ==> s' == s.(enqueues := s.enqueues[i := EnqueueDone]))
      && (pc.TryNow? && env.sessionOk ==>
            var (t, r) := StartBuild(s, true, env, limits);
            s' == t.(enqueues := s.enqueues[i := if r.Busy? then AppendNext(pc.session, pc.opts) else EnqueueDone]))
      && (pc.AppendNext? ==>
            && s'.c == Append(s.c, pc.session, pc.opts) && s'.schedules == s.schedules + [Scheduling]
            && s'.enqueues == s.enqueues[i := EnqueueDone])
  {
    hide StartBuild, Append, Queued;
  }

  /** No step but its own moves a building thread. */
  lemma OtherStep(s: State, a: Action, i: nat, limits: Limits)
    requires Links(s) && Enabled(s, a) && i < |s.builds| && !(a.Build? && a.i == i)
    ensures var s' := Next(s, a, limits); i < |s'.builds| && s'.builds[i] == s.builds[i]
  {
    hide BuildInv, LinksOk, StartBuild, RemoveEqual, Queued, ClearedAll, SetState, SetWritten, Finish, Verdict;
    LinksRefs(s);
    match a {
      case CallStart(folder, env) => StartedKeeps(s, folder, env, limits);
      case Enqueue(_, env) => StartedKeeps(s, true, env, limits);
      case Drain(k, env) =>
        assert ItemOk(s.drains[k], |s.c.items|);
        StartedKeeps(s, true, env, limits);
      case _ =>
    }
  }

  ghost predicate Others(acts: seq<Action>, i: nat) {
    forall k :: 0 <= k < |acts| ==> !(acts[k].Build? && acts[k].i == i)
  }

  lemma {:induction false} OtherSteps(s: State, acts: seq<Action>, i: nat, limits: Limits)
    requires Links(s) && Valid(s, acts, limits) && i < |s.builds| && Others(acts, i)
    ensures var s' := End(s, acts, limits); Links(s') && i < |s'.builds| && s'.builds[i] == s.builds[i]
    decreases |acts|
  {
    hide Links, Next, Enabled, RefsOk;
    if acts != [] {
      assert !(acts[0].Build? && acts[0].i == i);
      OtherStep(s, acts[0], i, limits);
      LinksInvStep(s, acts[0], limits);
      OtherSteps(Next(s, acts[0], limits), acts[1..], i, limits);
    }
  }

  lemma BuildEnds(s: State, i: nat, now: int, end: BuildEnd, limits: Limits)
    requires Links(s) && i < |s.builds| && s.builds[i].Building?
    ensures RefsOk(s) && Enabled(s, Build(i, now, None, end))
    ensures var s', v := Next(s, Build(i, now, None, end), limits), Verdict(s.c.stop, end);
      i < |s'.builds| && s'.builds[i] == Finishing(s.builds[i].job, v.0, v.1)
  {
    LinksRefs(s);
    hide BuildInv, LinksOk, Verdict;
  }

  lemma FinishRecords(s: State, i: nat, now: int, progress: Option<int>, end: BuildEnd, limits: Limits)
    requires Links(s) && i < |s.builds| && s.builds[i].Finishing?
    ensures RefsOk(s) && Enabled(s, Build(i, now, progress, end))
    ensures var s', pc := Next(s, Build(i, now, progress, end), limits), s.builds[i];
      && pc.job in s.c.jobs && pc.job in s'.c.jobs
      && s'.c.jobs[pc.job] == s.c.jobs[pc.job].(state := pc.state, reason := pc.reason, finished := Some(now))
      && !s'.c.held && s'.builds[i].BuildDone?
  {
    LinksRefs(s);
    assert BuilderOk(s.c, s.builds[i]);
    hide LinksOk, JobsOk;
  }

  /** A build that begins is recorded as running, and its progress as the frames written; nothing else changes. */
  lemma ProgressRecorded(s: State, i: nat, now: int, progress: Option<int>, end: BuildEnd, limits: Limits)
    requires Links(s) && i < |s.builds| && (s.builds[i].Begin? || (s.builds[i].Building? && progress.Some?))
    ensures RefsOk(s) && Enabled(s, Build(i, now, progress, end))
    ensures var s', job := Next(s, Build(i, now, progress, end), limits), s.builds[i].job;
      && job in s.c.jobs
      && s'.c == s.c.(jobs := s.c.jobs[job := if s.builds[i].Begin? then s.c.jobs[job].(state := Running)
                                             else s.c.jobs[job].(framesWritten := progress.value)])
      && s'.builds == s.builds[i := Building(job)]
  {
    LinksRefs(s);
    assert BuilderOk(s.c, s.builds[i]);
    hide LinksOk, JobsOk;
  }

  /**
   * However the other threads interleave: the record of a build says how the builder ended and whether a stop had been
   * called for when it did, it carries the time it was written at, and the lock is free again.
   */
  lemma BuildRecorded(s: State, i: nat, end: BuildEnd, acts: seq<Action>, limits: Limits, t0: int, t1: int,
                      e1: BuildEnd)
    requires Links(s) && i < |s.builds| && s.builds[i].Building? && Enabled(s, Build(i, t0, None, end)) && RefsOk(s)
    requires Valid(Next(s, Build(i, t0, None, end), limits), acts, limits) && Others(acts, i)
    ensures var mid := End(Next(s, Build(i, t0, None, end), limits), acts, limits);
      RefsOk(mid) && Enabled(mid, Build(i, t1, None, e1))
    ensures var mid := End(Next(s, Build(i, t0, None, end), limits), acts, limits);
      var last, job := Next(mid, Build(i, t1, None, e1), limits), s.builds[i].job;
      && job in last.c.jobs && Tells(last.c.jobs[job], end, s.c.stop) && last.c.jobs[job].finished == Some(t1)
      && !last.c.held
  {
    var first := Build(i, t0, None, end);
    BuildEnds(s, i, t0, end, limits);
    LinksInvStep(s, first, limits);
    var s1 := Next(s, first, limits);
    hide Links, Next, Enabled, RefsOk, Tells, Verdict;
    OtherSteps(s1, acts, i, limits);
    var mid := End(s1, acts, limits);
    FinishRecords(mid, i, t1, None, e1, limits);
    var last := Next(mid, Build(i, t1, None, e1), limits);
    VerdictTells(s.c.stop, end, last.c.jobs[s.builds[i].job]);
  }

  // ------------------------------------------------------------------ what the log means

  /** The start attempt of a drain at `TryHead` is answered with something other than busy. */
  predicate Answered(s: State, a: Action, limits: Limits)
    requires Enabled(s, a)
  {
    a.Drain? && s.drains[a.i].TryHead? && !StartBuild(s, true, a.env, limits).1.Busy?
  }

  lemma DrainLogs(s: State, a: Action, limits: Limits)
    requires Links(s) && Enabled(s, a) && RefsOk(s) && a.Drain?
    ensures var s', pc := Next(s, a, limits), s.drains[a.i];
      if pc.Peek? || pc.DrainDone? then s'.log == s.log
      else
        && pc.item < |s.c.items|
        && (var x := s.c.items[pc.item].session;
            if Answered(s, a, limits) || (pc.Test? && s.c.items[pc.item].attempts >= 120)
            then s'.log == s.log + [Settled(x)]
            else if pc.Remove? || pc.GiveUp? then s'.log in {s.log, s.log + [Left(x)]}
            else s'.log == s.log)
  {
    DrainItem(s, a.i);
    StartedKeeps(s, true, a.env, limits);
    hide BuildInv, LinksOk, StartBuild, RemoveEqual, RefsOk;
  }

  lemma EnqueueLogs(s: State, a: Action, limits: Limits)
    requires Links(s) && Enabled(s, a) && RefsOk(s) && a.Enqueue?
    ensures var s', pc := Next(s, a, limits), s.enqueues[a.i];
      s'.log == s.log + if pc.AppendNext? && !Queued(s.c, pc.session) then [Entered(pc.session)] else []
  {
    StartedKeeps(s, true, a.env, limits);
    hide BuildInv, LinksOk, StartBuild, Queued, RefsOk;
  }

  lemma OtherLogs(s: State, a: Action, limits: Limits)
    requires Links(s) && Enabled(s, a) && RefsOk(s) && !a.Drain? && !a.Enqueue?
    ensures var s' := Next(s, a, limits);
      s'.log == s.log + if a.Stop? && s.stops[a.i].Clearing? then ClearedAll(s.c.queue, s.c.items) else []
  {
    if a.CallStart? {
      StartedKeeps(s, a.folder, a.env, limits);
    }
    if a.Build? {
      BuildKeeps(s, a.i, a.now, a.progress, a.end);
    }
    hide BuildInv, LinksOk, StartBuild, BuildStep, ClearedAll, RefsOk;
    assert s.log + [] == s.log;
  }

  /** The step writes this event to the log. */
  ghost predicate Logs(s: State, a: Action, limits: Limits, e: Event)
    requires RefsOk(s) && Enabled(s, a)
  {
    var s' := Next(s, a, limits);
    |s.log| < |s'.log| && e in s'.log[|s.log|..]
  }

  lemma LogsIff(s: State, a: Action, limits: Limits, added: seq<Event>, e: Event)
    requires RefsOk(s) && Enabled(s, a) && Next(s, a, limits).log == s.log + added
    ensures Logs(s, a, limits, e) <==> e in added
  {
    hide Next, Enabled, RefsOk;
    assert (s.log + added)[|s.log|..] == added;
  }

  /** The request of a drain that has one. */
  predicate Handles(s: State, a: Action, x: string) {
    && a.Drain? && a.i < |s.drains| && !s.drains[a.i].Peek? && !s.drains[a.i].DrainDone?
    && s.drains[a.i].item < |s.c.items| && s.c.items[s.drains[a.i].item].session == x
  }

  /**
   * Every step's entries in the log: a request enters when it is appended and its session was not queued, is settled
   * exactly when its start attempt is answered with something other than busy or it has been tried 120 times, leaves
   * only when it is removed after that, and is cleared only by stop.
   */
  lemma LogMeans(s: State, a: Action, limits: Limits, x: string)
    requires Links(s) && Enabled(s, a) && RefsOk(s)
    ensures Logs(s, a, limits, Settled(x)) <==>
      && Handles(s, a, x)
      && (Answered(s, a, limits) || (s.drains[a.i].Test? && s.c.items[s.drains[a.i].item].attempts >= 120))
    ensures Logs(s, a, limits, Entered(x)) <==>
      a.Enqueue? && s.enqueues[a.i].AppendNext? && s.enqueues[a.i].session == x && !Queued(s.c, x)
    ensures Logs(s, a, limits, Left(x)) ==> Handles(s, a, x) && (s.drains[a.i].Remove? || s.drains[a.i].GiveUp?)
    ensures Logs(s, a, limits, Cleared(x)) ==> a.Stop? && s.stops[a.i].Clearing?
  {
    if a.Drain? {
      DrainLogs(s, a, limits);
      hide Next, Links, RefsOk, Queued, Answered, Logs;
      var s', pc := Next(s, a, limits), s.drains[a.i];
      assert s.log + [] == s.log;
      var added := if s'.log == s.log then [] else s'.log[|s.log|..];
      assert s'.log == s.log + added;
      LogsAll(s, a, limits, added, x);
    } else if a.Enqueue? {
      EnqueueLogs(s, a, limits);
      hide Next, Links, RefsOk, Queued, Logs;
      var pc := s.enqueues[a.i];
      LogsAll(s, a, limits, if pc.AppendNext? && !Queued(s.c, pc.session) then [Entered(pc.session)] else [], x);
    } else {
      OtherLogs(s, a, limits);
      hide Next, Links, Queued, Logs;
      LogsAll(s, a, limits, if a.Stop? && s.stops[a.i].Clearing? then ClearedAll(s.c.queue, s.c.items) else [], x);
    }
  }

  lemma LogsAll(s: State, a: Action, limits: Limits, added: seq<Event>, x: string)
    requires RefsOk(s) && Enabled(s, a) && Next(s, a, limits).log == s.log + added
    ensures Logs(s, a, limits, Settled(x)) <==> Settled(x) in added
    ensures Logs(s, a, limits, Entered(x)) <==> Entered(x) in added
    ensures Logs(s, a, limits, Left(x)) <==> Left(x) in added
    ensures Logs(s, a, limits, Cleared(x)) <==> Cleared(x) in added
  {
    hide Next, Enabled, RefsOk, Logs;
    LogsIff(s, a, limits, added, Settled(x));
    LogsIff(s, a, limits, added, Entered(x));
    LogsIff(s, a, limits, added, Left(x));
    LogsIff(s, a, limits, added, Cleared(x));
  }

  lemma DrainItem(s: State, k: nat)
    requires RefsOk(s) && k < |s.drains|
    ensures ItemOk(s.drains[k], |s.c.items|)
  {
  }
}
