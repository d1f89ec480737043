/**
 The on-disk build lock of `app/media_build.py` among any number of processes. A step is one system
 call; the in-process lock does not reach other processes, so anything may come between two calls.
 */
module LockFile {
  import opened Common

  /** Where a process is in `_acquire_lock` and `_release_lock_locked`. */
  datatype Pc =
    | Free | Creating      // os.open(O_CREAT | O_EXCL)
    | Checking             // _lock_is_stale
    | Unlinking            // os.unlink of a lock judged stale
    | Recreating           // the second os.open
    | Holding
    | Releasing            // _lock_held is False; os.unlink comes next
    | Crashed

  /** `file` is the process that created the lock file. */
  datatype State = State(file: Option<nat>, procs: seq<Pc>)

  /** `works` is whether the system call succeeds as far as anything but the file's presence decides. */
  datatype Action =
    | Start(p: nat)
    | Create(p: nat, works: bool)
    | Check(p: nat, stale: bool)   // the age, or a failing stat, decides
    | Unlink(p: nat, works: bool)
    | Release(p: nat)
    | Remove(p: nat, works: bool)
    | Crash(p: nat)

  predicate Enabled(s: State, a: Action) {
    && a.p < |s.procs|
    && match a
       case Start(p) => s.procs[p].Free?
       case Create(p, _) => s.procs[p].Creating? || s.procs[p].Recreating?
       case Check(p, _) => s.procs[p].Checking?
       case Unlink(p, _) => s.procs[p].Unlinking?
       case Release(p) => s.procs[p].Holding?
       case Remove(p, _) => s.procs[p].Releasing?
       case Crash(p) => true
  }

  function Next(s: State, a: Action): State
    requires Enabled(s, a)
  {
    match a
    case Start(p) => s.(procs := s.procs[p := Creating])
    case Create(p, works) =>
      if works && s.file.None? then State(Some(p), s.procs[p := Holding])
      else s.(procs := s.procs[p := if s.procs[p].Creating? then Checking else Free])
    case Check(p, stale) => s.(procs := s.procs[p := if stale then Unlinking else Free])
    case Unlink(p, works) =>
      if !works || s.file.None? then s.(procs := s.procs[p := Free])
      else State(None, s.procs[p := Recreating])
    case Release(p) => s.(procs := s.procs[p := Releasing])
    case Remove(p, works) => State(if works then None else s.file, s.procs[p := Free])
    case Crash(p) => s.(procs := s.procs[p := Crashed])
  }

  ghost predicate Valid(s: State, acts: seq<Action>)
    decreases |acts|
  {
    acts == [] || (Enabled(s, acts[0]) && Valid(Next(s, acts[0]), acts[1..]))
  }

  ghost function End(s: State, acts: seq<Action>): State
    requires Valid(s, acts)
    decreases |acts|
  {
    if acts == [] then s else End(Next(s, acts[0]), acts[1..])
  }

  predicate Owns(pc: Pc) { pc.Holding? || pc.Releasing? }

  /** No two processes hold the lock. */
  ghost predicate Exclusive(s: State) {
    forall p, q :: 0 <= p < q < |s.procs| ==> !s.procs[p].Holding? || !s.procs[q].Holding?
  }

  ghost predicate OwnerOk(s: State) {
    forall p :: 0 <= p < |s.procs| && Owns(s.procs[p]) ==> s.file == Some(p)
  }

  /** A stale-lock removal that takes the file of a process which still owns it. */
  predicate Robs(s: State, a: Action) {
    a.Unlink? && a.works && s.file.Some? && s.file.value < |s.procs| && Owns(s.procs[s.file.value])
  }

  ghost predicate Honest(s: State, acts: seq<Action>)
    requires Valid(s, acts)
    decreases |acts|
  {
    acts == [] || (!Robs(s, acts[0]) && Honest(Next(s, acts[0]), acts[1..]))
  }

  /** A step that robs nobody keeps every owner's file. */
  lemma HonestStep(s: State, a: Action)
    requires OwnerOk(s) && Enabled(s, a) && !Robs(s, a)
    ensures OwnerOk(Next(s, a))
  {
    var s' := Next(s, a);
    forall p | 0 <= p < |s'.procs| && Owns(s'.procs[p]) ensures s'.file == Some(p) {
      assert p != a.p ==> s'.procs[p] == s.procs[p];
    }
  }

  /** Exclusion holds in every run whose stale-lock branch never removes the file of a live owner. */
  lemma {:induction false} HonestExcludes(s: State, acts: seq<Action>)
    requires OwnerOk(s) && Valid(s, acts) && Honest(s, acts)
    ensures Exclusive(End(s, acts)) && OwnerOk(End(s, acts))
    decreases |acts|
  {
    if acts != [] {
      HonestStep(s, acts[0]);
      HonestExcludes(Next(s, acts[0]), acts[1..]);
    }
  }

  /** Puts one step in front of a run; a step that robs nobody keeps it honest. */
  lemma Before(s: State, a: Action, s': State, acts: seq<Action>)
    requires Enabled(s, a) && Next(s, a) == s' && Valid(s', acts)
    ensures Valid(s, [a] + acts) && End(s, [a] + acts) == End(s', acts)
    ensures !Robs(s, a) && Honest(s', acts) ==> Honest(s, [a] + acts)
  {
    assert ([a] + acts)[1..] == acts;
  }

  /** After a removal that robs an owner, holding or about to release, steps that rob nobody lead to two holders. */
  lemma RobberyBreaks(s: State, p: nat) returns (acts: seq<Action>)
    requires OwnerOk(s) && Enabled(s, Unlink(p, true)) && Robs(s, Unlink(p, true))
    ensures var m := Next(s, Unlink(p, true)); Valid(m, acts) && Honest(m, acts) && !Exclusive(End(m, acts))
  {
    var q := s.file.value;
    var m := Next(s, Unlink(p, true));
    var s' := Next(m, Create(p, true));
    if s.procs[q].Holding? {
      acts := [];
      assert s'.procs[p].Holding? && s'.procs[q].Holding?;
    } else {
      acts := ReleaseAndTake(s', p, q);
    }
    hide Next, Enabled, Robs, Exclusive;
    assert Enabled(m, Create(p, true)) && !Robs(m, Create(p, true)) by { TakeEnabled(s, p); }
    Before(m, Create(p, true), s', acts);
    acts := [Create(p, true)] + acts;
  }

  lemma TakeEnabled(s: State, p: nat)
    requires Enabled(s, Unlink(p, true)) && s.file.Some?
    ensures Enabled(Next(s, Unlink(p, true)), Create(p, true)) && !Robs(Next(s, Unlink(p, true)), Create(p, true))
  {
  }

  /** The robbed owner's own release removes the robber's file, and it takes the lock again. */
  lemma ReleaseAndTake(s: State, p: nat, q: nat) returns (acts: seq<Action>)
    requires p < |s.procs| && q < |s.procs| && p != q && s.procs[p].Holding? && s.procs[q].Releasing?
    ensures Valid(s, acts) && Honest(s, acts) && !Exclusive(End(s, acts))
  {
    var s1 := Next(s, Remove(q, true));
    var s2 := Next(s1, Start(q));
    var s3 := Next(s2, Create(q, true));
    assert s3.procs[p].Holding? && s3.procs[q].Holding?;
    Before(s2, Create(q, true), s3, []);
    Before(s1, Start(q), s2, [Create(q, true)] + []);
    Before(s, Remove(q, true), s1, [Start(q)] + ([Create(q, true)] + []));
    acts := [Remove(q, true)] + ([Start(q)] + ([Create(q, true)] + []));
  }

  /** However the processes go on from here, as long as nobody is robbed from now on no two of them hold the lock. */
  ghost predicate Sound(s: State) {
    forall more :: Valid(s, more) && Honest(s, more) ==> Exclusive(End(s, more))
  }

  ghost predicate SoundAlong(s: State, acts: seq<Action>)
    requires Valid(s, acts)
    decreases |acts|
  {
    Sound(s) && (acts != [] ==> SoundAlong(Next(s, acts[0]), acts[1..]))
  }

  lemma OwnedIsSound(s: State)
    requires OwnerOk(s)
    ensures Sound(s)
  {
    forall more | Valid(s, more) && Honest(s, more) ensures Exclusive(End(s, more)) {
      HonestExcludes(s, more);
    }
  }

  /**
   For each run: it robs no owner exactly when exclusion was safe in every state along it, that is, could
   only have been broken by a robbery still to come.
   */
  lemma {:induction false} ExclusionIff(s: State, acts: seq<Action>)
    requires OwnerOk(s) && Valid(s, acts)
    ensures Honest(s, acts) <==> SoundAlong(s, acts)
    decreases |acts|
  {
    OwnedIsSound(s);
    if acts != [] {
      var a := acts[0];
      if Robs(s, a) {
        var bad := RobberyBreaks(s, a.p);
        assert !Sound(Next(s, a));
      } else {
        HonestStep(s, a);
        hide Sound, Next, Enabled, Robs, OwnerOk;
        ExclusionIff(Next(s, a), acts[1..]);
      }
    }
  }

  /**
   Checking that the lock is stale does not make its removal honest: the file of a crashed process, found
   stale by two others, ends with both of them holding.
   */
  lemma StaleRace() returns (acts: seq<Action>)
    ensures var s := State(Some(0), [Crashed, Free, Free]);
            OwnerOk(s) && Valid(s, acts) && !Exclusive(End(s, acts))
  {
    var ending := State(Some(2), [Crashed, Holding, Holding]);
    acts := RaceMiddle(ending);
    var free := State(Some(0), [Crashed, Free, Free]);
    var s1, s2, s3 := free.(procs := [Crashed, Creating, Free]), free.(procs := [Crashed, Checking, Free]),
                      free.(procs := [Crashed, Unlinking, Free]);
    hide Valid, End;
    Before(s2, Check(1, true), s3, acts);
    acts := [Check(1, true)] + acts;
    Before(s1, Create(1, true), s2, acts);
    acts := [Create(1, true)] + acts;
    Before(free, Start(1), s1, acts);
    acts := [Start(1)] + acts;
    assert ending.procs[1].Holding? && ending.procs[2].Holding?;
  }

  lemma RaceMiddle(ending: State) returns (acts: seq<Action>)
    requires ending == State(Some(2), [Crashed, Holding, Holding])
    ensures var s := State(Some(0), [Crashed, Unlinking, Free]); Valid(s, acts) && End(s, acts) == ending
  {
    acts := RaceTail(ending);
    var s3 := State(Some(0), [Crashed, Unlinking, Free]);
    var s4, s5, s6 := s3.(procs := [Crashed, Unlinking, Creating]), s3.(procs := [Crashed, Unlinking, Checking]),
                      s3.(procs := [Crashed, Unlinking, Unlinking]);
    hide Valid, End;
    Before(s5, Check(2, true), s6, acts);
    acts := [Check(2, true)] + acts;
    Before(s4, Create(2, true), s5, acts);
    acts := [Create(2, true)] + acts;
    Before(s3, Start(2), s4, acts);
    acts := [Start(2)] + acts;
  }

  lemma RaceTail(ending: State) returns (acts: seq<Action>)
    requires ending == State(Some(2), [Crashed, Holding, Holding])
    ensures var s := State(Some(0), [Crashed, Unlinking, Unlinking]); Valid(s, acts) && End(s, acts) == ending
  {
    var s6, s7 := State(Some(0), [Crashed, Unlinking, Unlinking]), State(None, [Crashed, Recreating, Unlinking]);
    var s8, s9 := State(Some(1), [Crashed, Holding, Unlinking]), State(None, [Crashed, Holding, Recreating]);
    acts := [];
    assert Valid(ending, acts) && End(ending, acts) == ending;
    hide Valid, End;
    Before(s9, Create(2, true), ending, acts);
    acts := [Create(2, true)] + acts;
    Before(s8, Unlink(2, true), s9, acts);
    acts := [Unlink(2, true)] + acts;
    Before(s7, Create(1, true), s8, acts);
    acts := [Create(1, true)] + acts;
    Before(s6, Unlink(1, true), s7, acts);
    acts := [Unlink(1, true)] + acts;
  }
}
