/** When the error worker wipes: never before an error's time is up, and surely after. */
module MqttExpiry {
  import opened Common
  import opened MqttError

  /** The moment a setter writes in this step, if any. */
  ghost function Stamp(s: State, a: Action): set<real>
    requires Enabled(s, a)
  {
    if a.Set? && s.sets[a.i].WriteTime? then {s.now} else {}
  }

  /** The moments that setters wrote along the run. */
  ghost function Stamps(s: State, acts: seq<Action>): set<real>
    requires Valid(s, acts)
    decreases |acts|
  {
    if acts == [] then {} else Stamp(s, acts[0]) + Stamps(Next(s, acts[0]), acts[1..])
  }

  ghost predicate Overdue(stamps: set<real>, now: real) {
    exists t :: t in stamps && now - t >= 60.0
  }

  /** Times come from setters, and a worker about to wipe has seen one that was up. */
  ghost predicate Dated(s: State, stamps: set<real>) {
    && (s.at.Some? ==> s.at.value in stamps)
    && forall i :: 0 <= i < |s.workers| ==> Knows(s.workers[i], stamps, s.now)
  }

  lemma OverdueMore(stamps: set<real>, now: real, more: set<real>, later: real)
    requires Overdue(stamps, now) && stamps <= more && now <= later
    ensures Overdue(more, later)
  {
    var t :| t in stamps && now - t >= 60.0;
    assert t in more;
  }

  /** What a worker knows at each place. */
  ghost predicate Knows(pc: WorkPc, stamps: set<real>, now: real) {
    match pc
    case Decide(at) => at in stamps
    case CheckAgain => Overdue(stamps, now)
    case WipeError => Overdue(stamps, now)
    case _ => true
  }

  lemma KnowsMore(pc: WorkPc, stamps: set<real>, now: real, more: set<real>, later: real)
    requires Knows(pc, stamps, now) && stamps <= more && now <= later
    ensures Knows(pc, more, later)
  {
    if pc.CheckAgain? || pc.WipeError? {
      OverdueMore(stamps, now, more, later);
    }
  }

  /** A worker's step leaves the clock, the other workers and, unless it erases it, the time. */
  lemma WorkFrame(s: State, i: nat)
    requires i < |s.workers|
    ensures var s' := WorkStep(s, i);
      && s'.now == s.now && (s'.at == s.at || s'.at.None?) && |s'.workers| == |s.workers|
      && (forall k :: 0 <= k < |s.workers| && k != i ==> s'.workers[k] == s.workers[k])
  {
  }

  lemma WorkKnows(s: State, i: nat, stamps: set<real>)
    requires i < |s.workers| && Knows(s.workers[i], stamps, s.now) && (s.at.Some? ==> s.at.value in stamps)
    ensures Knows(WorkStep(s, i).workers[i], stamps, s.now)
  {
  }

  lemma WorkDated(s: State, i: nat, stamps: set<real>)
    requires Dated(s, stamps) && i < |s.workers|
    ensures Dated(WorkStep(s, i), stamps)
  {
    hide WorkStep, Knows;
    WorkFrame(s, i);
    WorkKnows(s, i, stamps);
    var s' := WorkStep(s, i);
    forall k | 0 <= k < |s'.workers| ensures Knows(s'.workers[k], stamps, s'.now) {
      assert Knows(s.workers[k], stamps, s.now);
    }
  }

  /** Any other step adds at most a worker that knows nothing yet, and takes the time from the clock. */
  lemma OtherFrame(s: State, a: Action)
    requires Enabled(s, a) && !a.Work?
    ensures var s' := Next(s, a);
      && s.now <= s'.now && s'.workers in {s.workers, s.workers + [ReadError]}
      && (s'.at.Some? ==> s'.at == s.at || s'.at.value in Stamp(s, a))
  {
  }

  lemma DatedStep(s: State, a: Action, stamps: set<real>)
    requires Dated(s, stamps) && Enabled(s, a)
    ensures Dated(Next(s, a), stamps + Stamp(s, a))
  {
    var s', more := Next(s, a), stamps + Stamp(s, a);
    if a.Work? {
      WorkDated(s, a.i, stamps);
      assert more == stamps;
    } else {
      OtherFrame(s, a);
      hide Next, Knows, Stamp, Enabled;
      forall k | 0 <= k < |s'.workers| ensures Knows(s'.workers[k], more, s'.now) {
        if k < |s.workers| {
          assert s'.workers[k] == s.workers[k];
          KnowsMore(s.workers[k], stamps, s.now, more, s'.now);
        } else {
          FreshKnows(more, s'.now);
        }
      }
    }
  }

  lemma FreshKnows(stamps: set<real>, now: real)
    ensures Knows(ReadError, stamps, now)
  {
  }

  lemma {:induction false} DatedHolds(s: State, acts: seq<Action>, stamps: set<real>)
    requires Dated(s, stamps) && Valid(s, acts)
    ensures Dated(End(s, acts), stamps + Stamps(s, acts))
    decreases |acts|
  {
    hide Dated, Next, Enabled, Stamp;
    if acts == [] {
      assert stamps + Stamps(s, acts) == stamps;
    } else {
      DatedStep(s, acts[0], stamps);
      var more := stamps + Stamp(s, acts[0]);
      DatedHolds(Next(s, acts[0]), acts[1..], more);
      assert more + Stamps(Next(s, acts[0]), acts[1..]) == stamps + Stamps(s, acts);
    }
  }

  /** In every run, a worker erases the error only when some setter wrote its time at least 60 seconds before. */
  lemma WipesLate(acts: seq<Action>, i: nat)
    requires Valid(INIT, acts) && i < |End(INIT, acts).workers|
    requires End(INIT, acts).error.Some? && Next(End(INIT, acts), Work(i)).error.None?
    ensures exists t :: t in Stamps(INIT, acts) && End(INIT, acts).now - t >= 60.0
  {
    DatedHolds(INIT, acts, {});
    assert {} + Stamps(INIT, acts) == Stamps(INIT, acts);
    var s := End(INIT, acts);
    assert s.workers[i].WipeError?;
    assert Knows(s.workers[i], Stamps(INIT, acts), s.now);
    hide Valid, End, Next;
  }

  /** The state after `n` steps of worker `i` alone. */
  function AfterOwn(s: State, i: nat, n: nat): (r: State)
    requires i < |s.workers|
    ensures |r.workers| == |s.workers|
    decreases n
  {
    if n == 0 then s else AfterOwn(WorkStep(s, i), i, n - 1)
  }

  /**
   * A worker that starts to look, left to itself: an error whose time is up is gone with its time in six steps, one
   * whose time is not up is still there and the worker sleeps, and without an error or a time it leaves.
   */
  lemma WorkerLooks(s: State, i: nat)
    requires i < |s.workers| && s.workers[i].ReadError?
    ensures s.error.Some? && s.at.Some? && s.now - s.at.value >= 60.0 ==>
      var r := AfterOwn(s, i, 6); r.error.None? && r.at.None? && r.workers[i].Publish?
    ensures s.error.Some? && s.at.Some? && s.now - s.at.value < 60.0 ==>
      AfterOwn(s, i, 3) == s.(workers := s.workers[i := Sleep])
    ensures s.error.None? || s.at.None? ==> AfterOwn(s, i, 2) == s.(workers := s.workers[i := Finally])
  {
    var s1 := WorkStep(s, i);
    var s2 := WorkStep(s1, i);
    var s3 := WorkStep(s2, i);
    assert AfterOwn(s, i, 2) == AfterOwn(s1, i, 1) == AfterOwn(s2, i, 0);
    assert AfterOwn(s, i, 3) == AfterOwn(s1, i, 2) == AfterOwn(s2, i, 1) == AfterOwn(s3, i, 0);
    assert s1 == s.(workers := s.workers[i := ReadTime(s.error)]);
    if s.error.Some? && s.at.Some? {
      assert s2.workers == s.workers[i := Decide(s.at.value)];
      if s.now - s.at.value >= 60.0 {
        assert s3 == s.(workers := s.workers[i := CheckAgain]);
        WorkerWipes(s3, i);
        assert AfterOwn(s, i, 6) == AfterOwn(s1, i, 5) == AfterOwn(s2, i, 4) == AfterOwn(s3, i, 3);
      } else {
        assert s3.workers == s.workers[i := Sleep];
      }
    } else {
      assert s2.workers == s.workers[i := Finally];
    }
  }

  lemma WorkerWipes(s: State, i: nat)
    requires i < |s.workers| && s.workers[i].CheckAgain? && s.error.Some?
    ensures var r := AfterOwn(s, i, 3); r.error.None? && r.at.None? && r.workers[i].Publish?
  {
    var s1 := WorkStep(s, i);
    var s2 := WorkStep(s1, i);
    var s3 := WorkStep(s2, i);
    assert AfterOwn(s, i, 3) == AfterOwn(s1, i, 2) == AfterOwn(s2, i, 1) == AfterOwn(s3, i, 0);
  }

  /** A set, left to itself: the error and its time are there, and a request to clear it is on its way. */
  lemma SetSets(s: State, e: nat)
    ensures var i := |s.sets|;
      var r := SetStep(SetStep(Next(s, CallSet(e)), i), i);
      && r.error == Some(e) && r.at == Some(s.now)
      && r.sets == s.sets + [SetDone] && r.schedules == s.schedules + [AtLock]
      && r.clears == s.clears && r.workers == s.workers && r.running == s.running && r.pending == s.pending
  {
  }

  /** A clear, left to itself: the error and its time are gone. */
  lemma ClearClears(s: State)
    ensures var i := |s.clears|;
      var r := ClearStep(ClearStep(Next(s, CallClear), i), i);
      && r.error.None? && r.at.None?
      && r.clears == s.clears + [ClearDone]
      && r.sets == s.sets && r.schedules == s.schedules && r.workers == s.workers && r.running == s.running
      && r.pending == s.pending
  {
  }

  /** A request to clear dispatches the one worker, or tells the one there is to look again. */
  lemma ScheduleSchedules(s: State, i: nat)
    requires i < |s.schedules| && s.schedules[i].AtLock?
    ensures s.running ==> ScheduleStep(s, i) == s.(pending := true, schedules := s.schedules[i := ScheduleDone])
    ensures !s.running ==>
      ScheduleStep(ScheduleStep(s, i), i) ==
      s.(running := true, pending := false, schedules := s.schedules[i := ScheduleDone],
         workers := s.workers + [ReadError])
  {
  }

  /** A worker that ends frees the flag, and asks for another one exactly when it was told to and an error is set. */
  lemma WorkerEnds(s: State, i: nat)
    requires i < |s.workers| && s.workers[i].Finally?
    ensures var r := WorkStep(WorkStep(s, i), i);
      && !r.running && !r.pending && r.workers == s.workers[i := WorkDone]
      && r.schedules == (if s.pending && s.error.Some? then s.schedules + [AtLock] else s.schedules)
      && r.error == s.error && r.at == s.at
  {
  }
}
