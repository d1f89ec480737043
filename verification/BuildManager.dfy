/**
 The critical sections of `BuildManager` in `app/media_build.py`. Every `with self._lock` block is one
 function on `Core`, the state the lock guards, and one method of the class that is proved to compute it.
 */
module BuildManager {
  import opened Common

  const MAX_JOBS := 8
  const QUEUE_MAX_RETRIES := 120

  type JobId = nat
  type Tid = nat

  datatype JobState = Pending | Running | Finished | Failed

  predicate Active(s: JobState) { s.Pending? || s.Running? }

  datatype Job = Job(state: JobState, framesTotal: nat, framesWritten: int, reason: string,
                     started: int, finished: Option<int>)

  /** fps, width and height are passed through unread. */
  datatype Options = Options(fps: int, width: Option<int>, height: Option<int>)

  /** A queued request. The source keeps a mutable list; here `items` is its heap and the queue holds indices. */
  datatype Item = Item(session: string, opts: Options, attempts: nat)

  datatype Core = Core(
    jobs: map<JobId, Job>, order: seq<JobId>, held: bool, stop: bool,
    queue: seq<nat>, items: seq<Item>, timer: Option<Tid>)

  datatype Limits = Limits(maxFrames: int, maxInputBytes: int, minFreeBytes: int)

  /** What the file system, the clock and the id generator answer during one `start`. */
  datatype Env = Env(sessionOk: bool, truncated: bool, sizes: seq<nat>, free: Option<int>,
                     lockOk: bool, spawnOk: bool, jobId: JobId, now: int)

  datatype StartResult = Started(job: JobId) | Busy(active: Option<JobId>) | Rejected(code: string)

  function Sum(sizes: seq<nat>): nat {
    if sizes == [] then 0 else Sum(sizes[..|sizes| - 1]) + sizes[|sizes| - 1]
  }

  function FirstActive(jobs: map<JobId, Job>, order: seq<JobId>): Option<JobId> {
    if order == [] then None
    else if order[0] in jobs && Active(jobs[order[0]].state) then Some(order[0])
    else FirstActive(jobs, order[1..])
  }

  /** `_prune_locked`: drop the oldest completed jobs beyond MAX_JOBS. */
  function Prune(c: Core): Core
    decreases |c.order|
  {
    if |c.order| > MAX_JOBS && !(c.order[0] in c.jobs && Active(c.jobs[c.order[0]].state))
    then Prune(c.(order := c.order[1..], jobs := c.jobs - {c.order[0]}))
    else c
  }

  /** The gates of `start` that come before the lock file, in order. */
  function Gate(env: Env, limits: Limits): Option<string> {
    var count, total := |env.sizes|, Sum(env.sizes);
    if env.truncated then Some("too_large")
    else if count == 0 then Some("no_frames")
    else if count > limits.maxFrames then Some("too_many_frames")
    else if total > limits.maxInputBytes then Some("input_too_large")
    else if env.free.None? || env.free.value < total + count * 16 + 4096 + limits.minFreeBytes
    then Some("low_space")
    else None
  }

  function NewJob(env: Env): Job { Job(Pending, |env.sizes|, 0, "", env.now, None) }

  /** The state in which the build thread is started: the job registered, the backlog pruned, the lock held. */
  function Register(c: Core, env: Env): Core {
    Prune(c.(held := true, jobs := c.jobs[env.jobId := NewJob(env)], order := c.order + [env.jobId]))
      .(stop := false)
  }

  function Without(order: seq<JobId>, id: JobId): seq<JobId> {
    if order == [] then []
    else (if order[0] == id then [] else [order[0]]) + Without(order[1..], id)
  }

  /** `start`. `session` is whether a session folder was asked for. */
  function TryStart(c: Core, session: bool, env: Env, limits: Limits): (Core, StartResult) {
    if session && !env.sessionOk then (c, Rejected("bad_session"))
    else if FirstActive(c.jobs, c.order).Some? then (c, Busy(FirstActive(c.jobs, c.order)))
    else if Gate(env, limits).Some? then (c, Rejected(Gate(env, limits).value))
    else if c.held || !env.lockOk then (c, Busy(None))
    else
      var reg := Register(c, env);
      if env.spawnOk then (reg, Started(env.jobId))
      else (reg.(jobs := reg.jobs - {env.jobId}, order := Without(reg.order, env.jobId), held := false),
            Rejected("failed"))
  }

  function SetState(c: Core, id: JobId, state: JobState): Core {
    if id in c.jobs then c.(jobs := c.jobs[id := c.jobs[id].(state := state)]) else c
  }

  function SetWritten(c: Core, id: JobId, written: int): Core {
    if id in c.jobs then c.(jobs := c.jobs[id := c.jobs[id].(framesWritten := written)]) else c
  }

  /** `_finish`: terminal state and lock release in one critical section. */
  function Finish(c: Core, id: JobId, state: JobState, reason: string, now: int): Core {
    var d := if id in c.jobs
             then c.(jobs := c.jobs[id := c.jobs[id].(state := state, reason := reason, finished := Some(now))])
             else c;
    d.(held := false)
  }

  predicate Queued(c: Core, session: string) {
    exists i :: 0 <= i < |c.queue| && c.queue[i] < |c.items| && c.items[c.queue[i]].session == session
  }

  /** The locked part of `enqueue_session`. */
  function Append(c: Core, session: string, opts: Options): Core {
    if Queued(c, session) then c
    else c.(items := c.items + [Item(session, opts, 0)], queue := c.queue + [|c.items|])
  }

  /** `if item in queue: queue.remove(item)`; items are compared by content. */
  function RemoveEqual(queue: seq<nat>, items: seq<Item>, item: nat): seq<nat>
    requires item < |items|
  {
    if queue == [] then []
    else if queue[0] < |items| && items[queue[0]] == items[item] then queue[1..]
    else [queue[0]] + RemoveEqual(queue[1..], items, item)
  }

  /** The locked part of `_schedule_retry`; `timerId` names the timer it creates. */
  function ArmRetry(c: Core, timerId: Tid): Core {
    if c.timer.Some? || c.queue == [] then c else c.(timer := Some(timerId))
  }

  class Manager {
    const limits: Limits
    var jobs: map<JobId, Job>
    var order: seq<JobId>
    var held: bool
    var stop: bool
    var queue: seq<nat>
    var items: seq<Item>
    var timer: Option<Tid>

    function Snapshot(): Core
      reads this
    {
      Core(jobs, order, held, stop, queue, items, timer)
    }

    constructor (limits: Limits)
      ensures Snapshot() == Core(map[], [], false, false, [], [], None)
    {
      this.limits := limits;
      jobs, order, held, stop, queue, items, timer := map[], [], false, false, [], [], None;
    }

    method ActiveJob() returns (id: Option<JobId>)
      ensures id == FirstActive(jobs, order)
      ensures id.Some? ==> id.value in jobs && Active(jobs[id.value].state)
      ensures id.None? ==> forall k :: 0 <= k < |order| && order[k] in jobs ==> !Active(jobs[order[k]].state)
    {
      for k := 0 to |order|
        invariant FirstActive(jobs, order) == FirstActive(jobs, order[k..])
        invariant forall j :: 0 <= j < k && order[j] in jobs ==> !Active(jobs[order[j]].state)
      {
        if order[k] in jobs && Active(jobs[order[k]].state) {
          return Some(order[k]);
        }
        assert order[k..][1..] == order[k + 1..];
      }
      return None;
    }

    method PruneOldest()
      modifies this`jobs, this`order
      ensures Snapshot() == Prune(old(Snapshot()))
    {
      while |order| > MAX_JOBS
        invariant Prune(Snapshot()) == Prune(old(Snapshot()))
        decreases |order|
      {
        if order[0] in jobs && Active(jobs[order[0]].state) {
          break;
        }
        jobs, order := jobs - {order[0]}, order[1..];
      }
    }

    method Start(session: bool, env: Env) returns (r: StartResult)
      modifies this`jobs, this`order, this`held, this`stop
      ensures (Snapshot(), r) == TryStart(old(Snapshot()), session, env, limits)
    {
      if session && !env.sessionOk {
        return Rejected("bad_session");
      }
      var active := ActiveJob();
      if active.Some? {
        return Busy(active);
      }
      if env.truncated {
        return Rejected("too_large");
      }
      var count, total := |env.sizes|, Sum(env.sizes);
      if count == 0 {
        return Rejected("no_frames");
      }
      if count > limits.maxFrames {
        return Rejected("too_many_frames");
      }
      if total > limits.maxInputBytes {
        return Rejected("input_too_large");
      }
      var required := total + count * 16 + 4096 + limits.minFreeBytes;
      if env.free.None? || env.free.value < required {
        return Rejected("low_space");
      }
      if held || !env.lockOk {
        return Busy(None);
      }
      held := true;
      jobs, order := jobs[env.jobId := NewJob(env)], order + [env.jobId];
      PruneOldest();
      stop := false;
      if !env.spawnOk {
        jobs, order, held := jobs - {env.jobId}, Without(order, env.jobId), false;
        return Rejected("failed");
      }
      return Started(env.jobId);
    }

    method FinishJob(id: JobId, state: JobState, reason: string, now: int)
      modifies this`jobs, this`held
      ensures Snapshot() == Finish(old(Snapshot()), id, state, reason, now)
      ensures !held && jobs.Keys == old(jobs).Keys && forall k :: k in jobs && k != id ==> jobs[k] == old(jobs)[k]
      ensures id in jobs ==> jobs[id] == old(jobs)[id].(state := state, reason := reason, finished := Some(now))
    {
      if id in jobs {
        jobs := jobs[id := jobs[id].(state := state, reason := reason, finished := Some(now))];
      }
      held := false;
    }

    method AppendRequest(session: string, opts: Options)
      modifies this`queue, this`items
      ensures Snapshot() == Append(old(Snapshot()), session, opts)
      ensures if exists i :: 0 <= i < |old(queue)| && old(queue)[i] < |old(items)|
                             && old(items)[old(queue)[i]].session == session
              then queue == old(queue) && items == old(items)
              else queue == old(queue) + [|old(items)|] && items == old(items) + [Item(session, opts, 0)]
    {
      var present := false;
      for k := 0 to |queue|
        invariant present <==> exists i :: 0 <= i < k && queue[i] < |items| && items[queue[i]].session == session
      {
        present := present || (queue[k] < |items| && items[queue[k]].session == session);
      }
      if !present {
        queue, items := queue + [|items|], items + [Item(session, opts, 0)];
      }
    }

    method RemoveRequest(item: nat)
      requires item < |items|
      modifies this`queue
      ensures queue == RemoveEqual(old(queue), items, item)
    {
      for k := 0 to |queue|
        invariant queue == old(queue)
        invariant RemoveEqual(queue, items, item) == queue[..k] + RemoveEqual(queue[k..], items, item)
      {
        assert queue[k..][1..] == queue[k + 1..];
        if queue[k] < |items| && items[queue[k]] == items[item] {
          assert RemoveEqual(queue[k..], items, item) == queue[k + 1..];
          queue := queue[..k] + queue[k + 1..];
          return;
        }
        assert queue[..k] + [queue[k]] == queue[..k + 1];
        Assoc(queue[..k], [queue[k]], RemoveEqual(queue[k + 1..], items, item));
        assert RemoveEqual(queue[k..], items, item) == [queue[k]] + RemoveEqual(queue[k + 1..], items, item);
      }
      assert queue[..|queue|] + [] == queue;
    }

    method ScheduleRetry(timerId: Tid) returns (created: bool)
      modifies this`timer
      ensures Snapshot() == ArmRetry(old(Snapshot()), timerId)
      ensures created <==> old(timer).None? && queue != []
    {
      if timer.Some? || queue == [] {
        return false;
      }
      timer := Some(timerId);
      return true;
    }
  }
}
