/** How every `start` of `app/media_build.py` is answered and what it leaves behind. */
module BuildStart {
  import opened Common
  import opened BuildManager

  /** `sums[k]` is the total size of the first `k` frames. */
  ghost predicate RunningTotals(sizes: seq<nat>, sums: seq<nat>) {
    && |sums| == |sizes| + 1 && sums[0] == 0
    && forall k :: 0 <= k < |sizes| ==> sums[k + 1] == sums[k] + sizes[k]
  }

  lemma {:induction false} SumIsTotal(sizes: seq<nat>, sums: seq<nat>)
    requires RunningTotals(sizes, sums)
    ensures Sum(sizes) == sums[|sizes|]
  {
    if sizes != [] {
      var n := |sizes| - 1;
      assert forall k :: 0 <= k < n ==> sizes[..n][k] == sizes[k];
      SumIsTotal(sizes[..n], sums[..|sizes|]);
    }
  }

  /** No listed job is pending or running. */
  ghost predicate Idle(c: Core) {
    forall k :: 0 <= k < |c.order| && c.order[k] in c.jobs ==> !Active(c.jobs[c.order[k]].state)
  }

  /** `id` is the first listed job that is pending or running. */
  ghost predicate FirstBusy(c: Core, id: JobId) {
    exists k :: 0 <= k < |c.order| && c.order[k] == id && id in c.jobs && Active(c.jobs[id].state)
                && forall j :: 0 <= j < k && c.order[j] in c.jobs ==> !Active(c.jobs[c.order[j]].state)
  }

  lemma {:induction false} FirstActiveIs(jobs: map<JobId, Job>, order: seq<JobId>, c: Core)
    requires c.jobs == jobs && c.order == order
    ensures match FirstActive(jobs, order) case Some(id) => FirstBusy(c, id) && !Idle(c) case None => Idle(c)
    decreases |order|
  {
    if order != [] && !(order[0] in jobs && Active(jobs[order[0]].state)) {
      var rest := c.(order := order[1..]);
      FirstActiveIs(jobs, order[1..], rest);
      assert forall k :: 0 <= k < |rest.order| ==> rest.order[k] == order[k + 1];
      match FirstActive(jobs, order[1..]) {
        case Some(id) =>
          var k :| 0 <= k < |rest.order| && rest.order[k] == id && id in jobs && Active(jobs[id].state)
                   && forall j :: 0 <= j < k && rest.order[j] in jobs ==> !Active(jobs[rest.order[j]].state);
          assert order[k + 1] == id;
          forall j | 0 <= j < k + 1 && order[j] in jobs ensures !Active(jobs[order[j]].state) {
            assert j > 0 ==> rest.order[j - 1] == order[j];
          }
        case None =>
          forall j | 0 <= j < |order| && order[j] in jobs ensures !Active(jobs[order[j]].state) {
            assert j > 0 ==> rest.order[j - 1] == order[j];
          }
      }
    } else if order != [] {
      assert order[0] in jobs && Active(jobs[order[0]].state);
    }
  }

  /**
   * The answer to every start, each exactly in its case. A build starts exactly when the session folder is good, no
   * listed job is active, the frames were all listed and are at least one and at most the limit, their total size is
   * within its limit, the free space covers total, index, header and margin, the lock is free here and on disk, and
   * the thread starts; every other answer names the first of these that fails.
   */
  lemma StartAnswers(c: Core, session: bool, env: Env, limits: Limits, sums: seq<nat>)
    requires RunningTotals(env.sizes, sums)
    ensures var r, frames, total := TryStart(c, session, env, limits).1, |env.sizes|, sums[|env.sizes|];
      var folder := session ==> env.sessionOk;
      var listed := folder && Idle(c) && !env.truncated;
      var small := listed && 1 <= frames <= limits.maxFrames && total <= limits.maxInputBytes;
      var roomy := small && env.free.Some? && env.free.value >= total + 16 * frames + 4096 + limits.minFreeBytes;
      var locked := roomy && !c.held && env.lockOk;
      && (r == Rejected("bad_session") <==> !folder)
      && (r.Busy? && r.active.Some? <==> folder && !Idle(c))
      && (r.Busy? && r.active.Some? ==> FirstBusy(c, r.active.value))
      && (r == Rejected("too_large") <==> folder && Idle(c) && env.truncated)
      && (r == Rejected("no_frames") <==> listed && frames == 0)
      && (r == Rejected("too_many_frames") <==> listed && frames > 0 && frames > limits.maxFrames)
      && (r == Rejected("input_too_large") <==>
            listed && 1 <= frames <= limits.maxFrames && total > limits.maxInputBytes)
      && (r == Rejected("low_space") <==> small && !roomy)
      && (r == Busy(None) <==> roomy && !locked)
      && (r == Rejected("failed") <==> locked && !env.spawnOk)
      && (r.Started? <==> locked && env.spawnOk)
      && (r.Started? ==> r.job == env.jobId)
  {
    SumIsTotal(env.sizes, sums);
    FirstActiveIs(c.jobs, c.order, c);
    hide FirstActive, Register, Without, Sum, FirstBusy, Idle;
  }

  /**
   * A start that is refused before its thread changes nothing; one that gets that far registers the job or
   * takes it back.
   */
  lemma StartLeaves(c: Core, session: bool, env: Env, limits: Limits)
    requires env.jobId !in c.jobs && env.jobId !in c.order
    ensures var (c', r) := TryStart(c, session, env, limits);
      && (!r.Started? && r != Rejected("failed") ==> c' == c)
      && (r == Rejected("failed") ==> !c'.held && env.jobId !in c'.jobs && env.jobId !in c'.order)
      && (r.Started? ==>
            && c'.held && !c'.stop && env.jobId in c'.jobs
            && c'.jobs[env.jobId] == Job(Pending, |env.sizes|, 0, "", env.now, None)
            && c'.order != [] && c'.order[|c'.order| - 1] == env.jobId)
  {
    var c1 := c.(held := true, jobs := c.jobs[env.jobId := NewJob(env)], order := c.order + [env.jobId]);
    PruneKeepsNewest(c1, env.jobId);
    WithoutIs(Prune(c1).order, env.jobId);
    hide FirstActive, Gate, Prune, Without;
  }

  /** Pruning keeps the newest job when it is active. */
  lemma {:induction false} PruneKeepsNewest(c: Core, id: JobId)
    requires c.order != [] && c.order[|c.order| - 1] == id && id in c.jobs && Active(c.jobs[id].state)
    requires forall k :: 0 <= k < |c.order| - 1 ==> c.order[k] != id
    ensures var d := Prune(c);
      && d.order != [] && d.order[|d.order| - 1] == id && id in d.jobs && d.jobs[id] == c.jobs[id]
      && d.held == c.held && d.stop == c.stop && d.queue == c.queue && d.items == c.items && d.timer == c.timer
    decreases |c.order|
  {
    if |c.order| > MAX_JOBS && !(c.order[0] in c.jobs && Active(c.jobs[c.order[0]].state)) {
      PruneKeepsNewest(c.(order := c.order[1..], jobs := c.jobs - {c.order[0]}), id);
    }
  }

  lemma {:induction false} WithoutIs(order: seq<JobId>, id: JobId)
    ensures id !in Without(order, id)
  {
    if order != [] {
      WithoutIs(order[1..], id);
    }
  }

  /**
   * Pruning drops the `n` oldest jobs, none of them active: as many as are beyond the eight, unless an active one stops
   * it first; their records go and no others.
   */
  lemma {:induction false} PruneDrops(c: Core) returns (n: nat)
    ensures n <= |c.order| && Prune(c).order == c.order[n..]
    ensures forall k :: 0 <= k < n ==> !(c.order[k] in c.jobs && Active(c.jobs[c.order[k]].state))
    ensures n > 0 ==> |c.order| - n >= MAX_JOBS
    ensures |c.order| - n > MAX_JOBS ==> c.order[n] in c.jobs && Active(c.jobs[c.order[n]].state)
    ensures forall id :: id in Prune(c).jobs <==> id in c.jobs && id !in c.order[..n]
    ensures forall id :: id in Prune(c).jobs ==> Prune(c).jobs[id] == c.jobs[id]
    decreases |c.order|
  {
    n := 0;
    if |c.order| > MAX_JOBS && !(c.order[0] in c.jobs && Active(c.jobs[c.order[0]].state)) {
      var d := c.(order := c.order[1..], jobs := c.jobs - {c.order[0]});
      assert Prune(c) == Prune(d);
      var m := PruneDrops(d);
      n := m + 1;
      hide Prune;
      assert c.order[1..][m..] == c.order[n..] && c.order[..n] == [c.order[0]] + c.order[1..][..m];
      forall k | 0 <= k < n ensures !(c.order[k] in c.jobs && Active(c.jobs[c.order[k]].state)) {
        if k > 0 && c.order[k] != c.order[0] {
          assert d.order[k - 1] == c.order[k];
        }
      }
    }
  }

  /** Removing a request takes out the first equal one and keeps the rest in order, or changes nothing. */
  lemma {:induction false} RemoveTakesFirst(queue: seq<nat>, items: seq<Item>, item: nat, k: nat)
    requires item < |items| && k <= |queue|
    requires forall j :: 0 <= j < k ==> !(queue[j] < |items| && items[queue[j]] == items[item])
    requires k < |queue| ==> queue[k] < |items| && items[queue[k]] == items[item]
    ensures RemoveEqual(queue, items, item) == queue[..k] + (if k < |queue| then queue[k + 1..] else [])
  {
    if k > 0 {
      var rest := queue[1..];
      assert forall j :: 0 <= j < |rest| ==> rest[j] == queue[j + 1];
      RemoveTakesFirst(rest, items, item, k - 1);
      assert queue[..k] == [queue[0]] + rest[..k - 1];
    }
  }
}
