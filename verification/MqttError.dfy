/**
 The command-error lifecycle of `app/mqtt_service.py`. The error and its time are two fields written
 without a lock, so every read and every write of them is a step of its own.
 */
module MqttError {
  import opened Common

  const COMMAND_ERROR_TTL := 60.0

  /** `_set_command_error`: the text, then the time, then `_schedule_error_clear`. */
  datatype SetPc = WriteError(e: nat) | WriteTime | SetDone

  /** `_clear_command_error`. */
  datatype ClearPc = EraseError | EraseTime | ClearDone

  /** `_schedule_error_clear`: the locked part, then the dispatch. */
  datatype SchedulePc = AtLock | AtDispatch | ScheduleDone

  /** `_error_clear_worker`. */
  datatype WorkPc =
    | ReadError
    | ReadTime(error: Option<nat>)
    | Decide(at: real)
    | CheckAgain
    | WipeError | WipeTime           // its own _clear_command_error
    | Publish
    | Sleep
    | Finally                        // the locked part of the finally block
    | Reschedule(pending: bool)
    | WorkDone

  datatype State = State(
    now: real, error: Option<nat>, at: Option<real>, running: bool, pending: bool,
    sets: seq<SetPc>, clears: seq<ClearPc>, schedules: seq<SchedulePc>, workers: seq<WorkPc>)

  const INIT := State(0.0, None, None, false, false, [], [], [], [])

  datatype Action =
    | Pass(dt: real)
    | CallSet(e: nat)
    | CallClear
    | Set(i: nat)
    | Clear(i: nat)
    | Schedule(i: nat)
    | Work(i: nat)

  predicate Enabled(s: State, a: Action) {
    match a
    case Pass(dt) => dt >= 0.0
    case CallSet(_) => true
    case CallClear => true
    case Set(i) => i < |s.sets|
    case Clear(i) => i < |s.clears|
    case Schedule(i) => i < |s.schedules|
    case Work(i) => i < |s.workers|
  }

  function Next(s: State, a: Action): State
    requires Enabled(s, a)
  {
    match a
    case Pass(dt) => s.(now := s.now + dt)
    case CallSet(e) => s.(sets := s.sets + [WriteError(e)])
    case CallClear => s.(clears := s.clears + [EraseError])
    case Set(i) => SetStep(s, i)
    case Clear(i) => ClearStep(s, i)
    case Schedule(i) => ScheduleStep(s, i)
    case Work(i) => WorkStep(s, i)
  }

  function SetStep(s: State, i: nat): State
    requires i < |s.sets|
  {
    match s.sets[i]
    case WriteError(e) => s.(error := Some(e), sets := s.sets[i := WriteTime])
    case WriteTime => s.(at := Some(s.now), sets := s.sets[i := SetDone], schedules := s.schedules + [AtLock])
    case SetDone => s
  }

  function ClearStep(s: State, i: nat): State
    requires i < |s.clears|
  {
    match s.clears[i]
    case EraseError => s.(error := None, clears := s.clears[i := EraseTime])
    case EraseTime => s.(at := None, clears := s.clears[i := ClearDone])
    case ClearDone => s
  }

  function ScheduleStep(s: State, i: nat): State
    requires i < |s.schedules|
  {
    match s.schedules[i]
    case AtLock =>
      if s.running then s.(pending := true, schedules := s.schedules[i := ScheduleDone])
      else s.(running := true, pending := false, schedules := s.schedules[i := AtDispatch])
    case AtDispatch => s.(schedules := s.schedules[i := ScheduleDone], workers := s.workers + [ReadError])
    case ScheduleDone => s
  }

  /** The sleeper is taken to succeed. */
  function WorkStep(s: State, i: nat): State
    requires i < |s.workers|
  {
    match s.workers[i]
    case ReadError => s.(workers := s.workers[i := ReadTime(s.error)])
    case ReadTime(error) =>
      s.(workers := s.workers[i := if error.None? || s.at.None? then Finally else Decide(s.at.value)])
    case Decide(at) =>
      s.(workers := s.workers[i := if at + COMMAND_ERROR_TTL - s.now <= 0.0 then CheckAgain else Sleep])
    case CheckAgain => s.(workers := s.workers[i := if s.error.Some? then WipeError else Finally])
    case WipeError => s.(error := None, workers := s.workers[i := WipeTime])
    case WipeTime => s.(at := None, workers := s.workers[i := Publish])
    case Publish => s.(workers := s.workers[i := Finally])
    case Sleep => s.(workers := s.workers[i := ReadError])
    case Finally => s.(running := false, pending := false, workers := s.workers[i := Reschedule(s.pending)])
    case Reschedule(pending) =>
      if pending && s.error.Some?
      then s.(workers := s.workers[i := WorkDone], schedules := s.schedules + [AtLock])
      else s.(workers := s.workers[i := WorkDone])
    case WorkDone => s
  }

  ghost predicate Valid(s: State, acts: seq<Action>)
    decreases |acts|
  {
    acts == [] || (Enabled(s, acts[0]) && Valid(Next(s, acts[0]), acts[1..]))
  }

  ghost function End(s: State, acts: seq<Action>): State
    requires Valid(s, acts)
    decreases |acts|
  {
    if acts == [] then s else End(Next(s, acts[0]), acts[1..])
  }

  // ------------------------------------------------------------------ one worker

  predicate Active(pc: WorkPc) { !pc.WorkDone? && !pc.Reschedule? }

  /** The holders of the running flag: a dispatch under way, or a worker that has not reached its finally block. */
  ghost predicate Holders(s: State) {
    && (forall i, j :: 0 <= i < j < |s.workers| ==> !Active(s.workers[i]) || !Active(s.workers[j]))
    && (forall i, j :: 0 <= i < j < |s.schedules| ==> !s.schedules[i].AtDispatch? || !s.schedules[j].AtDispatch?)
    && (forall i, j :: 0 <= i < |s.workers| && 0 <= j < |s.schedules| ==>
          !Active(s.workers[i]) || !s.schedules[j].AtDispatch?)
    && (s.running <==> Working(s) || Dispatching(s))
    && (s.pending ==> s.running)
  }

  ghost predicate Working(s: State) { exists i :: 0 <= i < |s.workers| && Active(s.workers[i]) }

  ghost predicate Dispatching(s: State) { exists i :: 0 <= i < |s.schedules| && s.schedules[i].AtDispatch? }

  lemma ScheduleHolders(s: State, i: nat)
    requires Holders(s) && i < |s.schedules|
    ensures Holders(ScheduleStep(s, i))
  {
    var s' := ScheduleStep(s, i);
    if s.schedules[i].AtLock? && !s.running {
      assert s'.schedules[i].AtDispatch?;
    } else if s.schedules[i].AtDispatch? {
      assert Dispatching(s);
      assert Active(s'.workers[|s.workers|]);
    } else {
      assert Working(s') <==> Working(s);
      if Dispatching(s) {
        var k :| 0 <= k < |s.schedules| && s.schedules[k].AtDispatch?;
        assert s'.schedules[k].AtDispatch?;
      }
    }
  }

  lemma WorkHolders(s: State, i: nat)
    requires Holders(s) && i < |s.workers|
    ensures Holders(WorkStep(s, i))
  {
    var s' := WorkStep(s, i);
    WorkShape(s, i);
    hide WorkStep;
    if Active(s.workers[i]) {
      assert Working(s);
      if Active(s'.workers[i]) { assert Working(s'); }
    } else if Working(s) {
      var k :| 0 <= k < |s.workers| && Active(s.workers[k]);
      assert Active(s'.workers[k]);
    }
    if Dispatching(s) {
      var k :| 0 <= k < |s.schedules| && s.schedules[k].AtDispatch?;
      assert s'.schedules[k].AtDispatch?;
    }
  }

  /** What a worker's step does to the flag and to the lists. */
  lemma WorkShape(s: State, i: nat)
    requires i < |s.workers|
    ensures var s' := WorkStep(s, i);
            && |s'.workers| == |s.workers|
            && (forall k :: 0 <= k < |s.workers| && k != i ==> s'.workers[k] == s.workers[k])
            && (s'.schedules == s.schedules || s'.schedules == s.schedules + [AtLock])
            && (s.workers[i].Finally? ==> !s'.running && !s'.pending && !Active(s'.workers[i]))
            && (!s.workers[i].Finally? ==>
                  s'.running == s.running && s'.pending == s.pending
                  && (Active(s'.workers[i]) <==> Active(s.workers[i])))
  {
  }

  lemma SetHolders(s: State, i: nat)
    requires Holders(s) && i < |s.sets|
    ensures Holders(SetStep(s, i))
  {
    var s' := SetStep(s, i);
    assert Working(s') <==> Working(s);
    if Dispatching(s) {
      var k :| 0 <= k < |s.schedules| && s.schedules[k].AtDispatch?;
      assert s'.schedules[k].AtDispatch?;
    }
  }

  lemma HoldersStep(s: State, a: Action)
    requires Holders(s) && Enabled(s, a)
    ensures Holders(Next(s, a))
  {
    match a {
      case Set(i) => SetHolders(s, i);
      case Schedule(i) => ScheduleHolders(s, i);
      case Work(i) => WorkHolders(s, i);
      case _ =>
        assert Working(Next(s, a)) <==> Working(s);
        assert Dispatching(Next(s, a)) <==> Dispatching(s);
    }
  }

  // ------------------------------------------------------------------ no stuck error

  ghost predicate Timing(s: State) { exists i :: 0 <= i < |s.sets| && s.sets[i].WriteTime? }

  ghost predicate Locking(s: State) { exists i :: 0 <= i < |s.schedules| && s.schedules[i].AtLock? }

  ghost predicate Requeueing(s: State) { exists i :: 0 <= i < |s.workers| && s.workers[i] == Reschedule(true) }

  /** A worker that will reach its finally block without looking at the error again. */
  predicate Quitting(pc: WorkPc) { pc == ReadTime(None) || pc.WipeTime? || pc.Publish? || pc.Finally? }

  ghost predicate Quits(s: State) { exists i :: 0 <= i < |s.workers| && Quitting(s.workers[i]) }

  /** A set error has its time unless a setter is just about to write it. */
  ghost predicate Timed(s: State) { s.error.Some? && s.at.None? ==> Timing(s) }

  /** A set error has somebody to clear it: the worker, a dispatch, or a thread on its way to the schedule lock. */
  ghost predicate Watched(s: State) {
    s.error.Some? ==>
      || Timing(s) || Locking(s) || Requeueing(s)
      || (s.running && (Quits(s) ==> s.pending))
  }

  /** The second half of a clear that erases the time of an error set since the first half. */
  ghost predicate Tears(s: State, a: Action) {
    && ((a.Clear? && a.i < |s.clears| && s.clears[a.i].EraseTime?)
        || (a.Work? && a.i < |s.workers| && s.workers[a.i].WipeTime?))
    && s.error.Some? && !Timing(s)
  }

  ghost predicate Inv(s: State) { Holders(s) && Timed(s) && Watched(s) }

  lemma SetWatch(s: State, i: nat)
    requires Inv(s) && i < |s.sets|
    ensures Timed(SetStep(s, i)) && Watched(SetStep(s, i))
  {
    hide Holders;
    var s' := SetStep(s, i);
    match s.sets[i] {
      case WriteError(_) => assert s'.sets[i].WriteTime?;
      case WriteTime => assert s'.schedules[|s.schedules|].AtLock?;
      case SetDone =>
    }
  }

  lemma ClearWatch(s: State, i: nat)
    requires Inv(s) && i < |s.clears| && !Tears(s, Clear(i))
    ensures Timed(ClearStep(s, i)) && Watched(ClearStep(s, i))
  {
    hide Holders;
    var s' := ClearStep(s, i);
    assert Timing(s') <==> Timing(s);
    assert Locking(s') <==> Locking(s);
    assert Requeueing(s') <==> Requeueing(s);
    assert Quits(s') <==> Quits(s);
  }

  lemma QuittingHolds(s: State)
    requires Holders(s) && Quits(s)
    ensures s.running && !Dispatching(s)
  {
    var i :| 0 <= i < |s.workers| && Quitting(s.workers[i]);
    assert Active(s.workers[i]);
  }

  lemma ScheduleWatch(s: State, i: nat)
    requires Inv(s) && i < |s.schedules|
    ensures Timed(ScheduleStep(s, i)) && Watched(ScheduleStep(s, i))
  {
    if Quits(s) { QuittingHolds(s); }
    assert s.schedules[i].AtDispatch? ==> s.running;
    hide Holders;
    var s' := ScheduleStep(s, i);
    assert Timing(s') <==> Timing(s);
    if s.schedules[i].AtDispatch? {
      assert forall k :: 0 <= k < |s'.workers| && Quitting(s'.workers[k]) ==> k < |s.workers| && Quitting(s.workers[k]);
      if Locking(s) {
        var k :| 0 <= k < |s.schedules| && s.schedules[k].AtLock?;
        assert s'.schedules[k].AtLock?;
      }
      if Requeueing(s) {
        var k :| 0 <= k < |s.workers| && s.workers[k] == Reschedule(true);
        assert s'.workers[k] == Reschedule(true);
      }
    }
  }

  /** A worker's step changes its own entry only. */
  lemma OthersKept(s: State, i: nat)
    requires i < |s.workers|
    ensures var s' := WorkStep(s, i);
            && |s'.workers| == |s.workers|
            && (forall k :: 0 <= k < |s.workers| && k != i ==> s'.workers[k] == s.workers[k])
            && s'.sets == s.sets && s.schedules <= s'.schedules
            && (Timing(s') <==> Timing(s)) && (Locking(s) ==> Locking(s'))
            && (Requeueing(s) && s.workers[i] != Reschedule(true) ==> Requeueing(s'))
  {
    var s' := WorkStep(s, i);
    if Locking(s) {
      var k :| 0 <= k < |s.schedules| && s.schedules[k].AtLock?;
      assert s'.schedules[k].AtLock?;
    }
    if Requeueing(s) && s.workers[i] != Reschedule(true) {
      var k :| 0 <= k < |s.workers| && s.workers[k] == Reschedule(true);
      assert s'.workers[k] == Reschedule(true);
    }
  }

  lemma ActiveWatch(s: State, i: nat)
    requires Inv(s) && i < |s.workers| && Active(s.workers[i]) && !Tears(s, Work(i))
    ensures Timed(WorkStep(s, i)) && Watched(WorkStep(s, i))
  {
    assert forall k :: 0 <= k < |s.workers| && k != i ==> !Active(s.workers[k]);
    assert s.running;
    OthersKept(s, i);
    hide Holders, Timing, Locking;
    var s' := WorkStep(s, i);
    assert Quits(s') <==> Quitting(s'.workers[i]);
    assert Quits(s) <==> Quitting(s.workers[i]);
    if s.workers[i].Finally? {
      assert s'.workers[i] == Reschedule(s.pending);
    }
  }

  lemma IdleWatch(s: State, i: nat)
    requires Inv(s) && i < |s.workers| && !Active(s.workers[i])
    ensures Timed(WorkStep(s, i)) && Watched(WorkStep(s, i))
  {
    OthersKept(s, i);
    hide Holders, Timing;
    var s' := WorkStep(s, i);
    if s.workers[i] == Reschedule(true) && s.error.Some? {
      assert s'.schedules[|s.schedules|].AtLock?;
    }
    if Quits(s') {
      var k :| 0 <= k < |s'.workers| && Quitting(s'.workers[k]);
      assert Quitting(s.workers[k]);
    }
  }

  lemma InvStep(s: State, a: Action)
    requires Inv(s) && Enabled(s, a) && !Tears(s, a)
    ensures Inv(Next(s, a))
  {
    HoldersStep(s, a);
    match a {
      case Set(i) => SetWatch(s, i);
      case Clear(i) => ClearWatch(s, i);
      case Schedule(i) => ScheduleWatch(s, i);
      case Work(i) => if Active(s.workers[i]) { ActiveWatch(s, i); } else { IdleWatch(s, i); }
      case _ => CallWatch(s, a);
    }
  }

  lemma CallWatch(s: State, a: Action)
    requires Inv(s) && Enabled(s, a) && (a.Pass? || a.CallSet? || a.CallClear?)
    ensures Timed(Next(s, a)) && Watched(Next(s, a))
  {
    hide Holders;
    var s' := Next(s, a);
    if Timing(s) {
      var k :| 0 <= k < |s.sets| && s.sets[k].WriteTime?;
      assert s'.sets[k].WriteTime?;
    }
    assert (Locking(s') <==> Locking(s)) && (Requeueing(s') <==> Requeueing(s)) && (Quits(s') <==> Quits(s));
  }

  /** From a good state, the error loses its time exactly in a step that tears a clear. */
  lemma TornExactly(s: State, a: Action)
    requires Inv(s) && Enabled(s, a)
    ensures Timed(Next(s, a)) <==> !Tears(s, a)
  {
    if !Tears(s, a) {
      InvStep(s, a);
    } else {
      assert Timing(Next(s, a)) <==> Timing(s);
    }
  }

  /** No clear is torn by a set along the run. */
  ghost predicate Untorn(s: State, acts: seq<Action>)
    requires Valid(s, acts)
    decreases |acts|
  {
    acts == [] || (!Tears(s, acts[0]) && Untorn(Next(s, acts[0]), acts[1..]))
  }

  lemma {:induction false} InvHolds(s: State, acts: seq<Action>)
    requires Inv(s) && Valid(s, acts) && Untorn(s, acts)
    ensures Inv(End(s, acts))
    decreases |acts|
  {
    hide Next, Enabled, Inv, Tears;
    if acts != [] {
      InvStep(s, acts[0]);
      InvHolds(Next(s, acts[0]), acts[1..]);
    }
  }

  lemma {:induction false} HoldersHold(s: State, acts: seq<Action>)
    requires Holders(s) && Valid(s, acts)
    ensures Holders(End(s, acts))
    decreases |acts|
  {
    hide Next, Enabled, Holders;
    if acts != [] {
      HoldersStep(s, acts[0]);
      HoldersHold(Next(s, acts[0]), acts[1..]);
    }
  }

  /** In every run at most one worker runs or is being dispatched, and the flag says whether one does. */
  lemma OneWorker(acts: seq<Action>)
    requires Valid(INIT, acts)
    ensures var s := End(INIT, acts);
            && (forall i, j :: 0 <= i < j < |s.workers| ==> !Active(s.workers[i]) || !Active(s.workers[j]))
            && !(Working(s) && Dispatching(s))
            && (s.running <==> Working(s) || Dispatching(s))
  {
    HoldersHold(INIT, acts);
  }

  /**
   No stuck error, in every run without a torn clear: whenever an error is set and no setter is between its
   writes and the schedule lock, the error has its time, and a clearing worker runs, is being dispatched, or
   is about to be rescheduled; a worker that will not look at the error again has been told to reschedule.
   */
  lemma NoStuckError(acts: seq<Action>)
    requires Valid(INIT, acts) && Untorn(INIT, acts)
    ensures var s := End(INIT, acts);
            s.error.Some? && !Timing(s) && !Locking(s) ==>
              && s.at.Some?
              && (s.running || Requeueing(s))
              && (s.running && Quits(s) && !Requeueing(s) ==> s.pending)
  {
    InvHolds(INIT, acts);
  }

  // ------------------------------------------------------------------ a torn clear leaves the error stuck

  /** Where a worker can be that does not erase an error without a time. */
  predicate Blind(pc: WorkPc) {
    pc.ReadError? || pc.ReadTime? || pc.Publish? || pc.Finally? || pc.Reschedule? || pc.WorkDone?
  }

  /** The error is set, its time is gone, and nobody is inside a set or a clear. */
  ghost predicate Stuck(s: State) {
    && s.error.Some? && s.at.None?
    && (forall i :: 0 <= i < |s.sets| ==> s.sets[i].SetDone?)
    && (forall i :: 0 <= i < |s.clears| ==> s.clears[i].ClearDone?)
    && (forall i :: 0 <= i < |s.workers| ==> Blind(s.workers[i]))
  }

  /** Nothing but a new command changes that: no worker, however often scheduled, ever clears the error. */
  lemma {:induction false} StuckStays(s: State, acts: seq<Action>)
    requires Stuck(s) && Valid(s, acts) && forall k :: 0 <= k < |acts| ==> !acts[k].CallSet? && !acts[k].CallClear?
    ensures Stuck(End(s, acts)) && End(s, acts).error == s.error
    decreases |acts|
  {
    if acts != [] {
      StuckStays(Next(s, acts[0]), acts[1..]);
    }
  }

  /** Puts one step in front of a run. */
  lemma Before(s: State, a: Action, s': State, acts: seq<Action>)
    requires Enabled(s, a) && Next(s, a) == s' && Valid(s', acts)
    ensures Valid(s, [a] + acts) && End(s, [a] + acts) == End(s', acts)
  {
    assert ([a] + acts)[1..] == acts;
  }

  /** A torn clear by the worker itself, with a second error set between its two writes. */
  lemma TornClearSticks() returns (acts: seq<Action>)
    ensures Valid(INIT, acts) && Stuck(End(INIT, acts)) && End(INIT, acts).error == Some(2)
  {
    var i0 := INIT;
    var s1 := i0.(sets := [WriteError(1)]);
    var s2 := i0.(error := Some(1), sets := [WriteTime]);
    var s3 := i0.(error := Some(1), at := Some(0.0), sets := [SetDone], schedules := [AtLock]);
    var s4 := s3.(running := true, schedules := [AtDispatch]);
    var s5 := s4.(schedules := [ScheduleDone], workers := [ReadError]);
    acts := TornTail(s5);
    hide Valid, End;
    Before(s4, Schedule(0), s5, acts);
    acts := [Schedule(0)] + acts;
    Before(s3, Schedule(0), s4, acts);
    acts := [Schedule(0)] + acts;
    Before(s2, Set(0), s3, acts);
    acts := [Set(0)] + acts;
    Before(s1, Set(0), s2, acts);
    acts := [Set(0)] + acts;
    Before(i0, CallSet(1), s1, acts);
    acts := [CallSet(1)] + acts;
  }

  lemma TornTail(s5: State) returns (acts: seq<Action>)
    requires s5 == State(0.0, Some(1), Some(0.0), true, false, [SetDone], [], [ScheduleDone], [ReadError])
    ensures Valid(s5, acts) && Stuck(End(s5, acts)) && End(s5, acts).error == Some(2)
  {
    var s6 := s5.(workers := [ReadTime(Some(1))]);
    var s7 := s5.(workers := [Decide(0.0)]);
    var s8 := s7.(now := 60.0);
    var s9 := s8.(workers := [CheckAgain]);
    var s10 := s8.(workers := [WipeError]);
    var s11 := s8.(error := None, workers := [WipeTime]);
    var s12 := s11.(sets := [SetDone, WriteError(2)]);
    var s13 := s11.(error := Some(2), sets := [SetDone, WriteTime]);
    var s14 := s11.(error := Some(2), at := Some(60.0), sets := [SetDone, SetDone],
                    schedules := [ScheduleDone, AtLock]);
    var s15 := s14.(at := None, workers := [Publish]);
    acts := [];
    assert Valid(s15, acts) && End(s15, acts) == s15;
    hide Valid, End;
    Before(s14, Work(0), s15, acts);
    acts := [Work(0)] + acts;
    Before(s13, Set(1), s14, acts);
    acts := [Set(1)] + acts;
    Before(s12, Set(1), s13, acts);
    acts := [Set(1)] + acts;
    Before(s11, CallSet(2), s12, acts);
    acts := [CallSet(2)] + acts;
    Before(s10, Work(0), s11, acts);
    acts := [Work(0)] + acts;
    Before(s9, Work(0), s10, acts);
    acts := [Work(0)] + acts;
    Before(s8, Work(0), s9, acts);
    acts := [Work(0)] + acts;
    Before(s7, Pass(60.0), s8, acts);
    acts := [Pass(60.0)] + acts;
    Before(s6, Work(0), s7, acts);
    acts := [Work(0)] + acts;
    Before(s5, Work(0), s6, acts);
    acts := [Work(0)] + acts;
  }
}
