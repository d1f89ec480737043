/** Viewer leases, the one-slot frame buffer and the capture backoff of `app/live_monitor.py`. */
module LiveMonitor {
  import opened Common
  import opened Utf8

  const MIN_JPEG_BYTES := 128

  datatype Config = Config(interval: real, idleGrace: real, viewerTtl: real, maxViewers: nat,
                           freshSeconds: real, maxStaleSeconds: real, maxFrameBytes: nat, backoffMax: real)

  /** The checks of the constructor. */
  predicate ConfigOk(c: Config) {
    && 0.05 <= c.interval <= 1.0
    && c.idleGrace >= 0.0
    && c.viewerTtl > 0.0
    && c.maxViewers >= 1
    && 0.0 <= c.freshSeconds <= c.maxStaleSeconds
    && c.backoffMax >= c.interval
  }

  predicate ValidJpeg(data: seq<byte>, maxBytes: nat) {
    && MIN_JPEG_BYTES <= |data| <= maxBytes
    && data[..2] == [0xFF, 0xD8]
    && data[|data| - 2..] == [0xFF, 0xD9]
  }

  lemma JpegEnds(data: seq<byte>)
    requires |data| >= 2
    ensures data[..2] == [0xFF, 0xD8] <==> data[0] == 0xFF && data[1] == 0xD8
    ensures data[|data| - 2..] == [0xFF, 0xD9] <==> data[|data| - 2] == 0xFF && data[|data| - 1] == 0xD9
  {
    assert data[..2] == [data[0], data[1]];
    assert data[|data| - 2..] == [data[|data| - 2], data[|data| - 1]];
  }

  function Pruned(leases: map<string, real>, now: real): map<string, real> {
    map v | v in leases && leases[v] > now :: leases[v]
  }

  /** The locked part of `touch`: the new leases and whether the viewer was admitted. */
  function Touched(leases: map<string, real>, viewer: string, now: real, c: Config): (map<string, real>, bool) {
    var live := Pruned(leases, now);
    if viewer !in live && |live| >= c.maxViewers then (live, false)
    else (live[viewer := now + c.viewerTtl], true)
  }

  lemma {:induction false} SubsetSize<T>(a: set<T>, b: set<T>)
    requires a <= b
    ensures |a| <= |b|
  {
    if a != {} {
      var x :| x in a;
      SubsetSize(a - {x}, b - {x});
    }
  }

  lemma PrunedSize(leases: map<string, real>, now: real)
    ensures |Pruned(leases, now)| <= |leases|
  {
    assert Pruned(leases, now).Keys <= leases.Keys;
    SubsetSize(Pruned(leases, now).Keys, leases.Keys);
  }

  /**
   * The viewer cap is kept; a viewer with a live lease is never refused, and a refusal means the cap is full
   * of others.
   */
  lemma TouchKeepsCap(leases: map<string, real>, viewer: string, now: real, c: Config)
    requires |leases| <= c.maxViewers
    ensures var (l, ok) := Touched(leases, viewer, now, c);
            && |l| <= c.maxViewers
            && (viewer in leases && leases[viewer] > now ==> ok)
            && (ok ==> viewer in l && l[viewer] == now + c.viewerTtl)
            && (!ok ==> |Pruned(leases, now)| == c.maxViewers && l == Pruned(leases, now))
            && (forall v :: v != viewer ==>
                  (v in l <==> v in leases && leases[v] > now) && (v in l ==> l[v] == leases[v]))
  {
    PrunedSize(leases, now);
    var live := Pruned(leases, now);
    var l := live[viewer := now + c.viewerTtl];
    assert l.Keys == live.Keys + {viewer};
  }

  /** 2 ** streak, with the exponent capped at 16. */
  function Factor(streak: nat): real { Pow2(if streak < 16 then streak else 16) as real }

  function Scaled(streak: nat, c: Config): real { c.interval * Factor(streak) }

  function Backoff(streak: nat, c: Config): real { MinReal(c.backoffMax, Scaled(streak, c)) }

  lemma ScaleReal(x: real, a: real, b: real)
    requires x > 0.0 && 1.0 <= a <= b
    ensures x <= x * a
    ensures x * a <= x * b
  {
    assert x * (b - a) >= 0.0 && x * (a - 1.0) >= 0.0;
  }

  lemma FactorGrows(m: nat, n: nat)
    requires m <= n
    ensures 1.0 <= Factor(m) <= Factor(n)
  {
    PowGrows(if m < 16 then m else 16, if n < 16 then n else 16);
  }

  lemma ScaledGrows(m: nat, n: nat, c: Config)
    requires m <= n && c.interval > 0.0
    ensures c.interval <= Scaled(m, c)
    ensures Scaled(m, c) <= Scaled(n, c)
  {
    FactorGrows(m, n);
    var p, q := Factor(m), Factor(n);
    hide Factor;
    ScaleReal(c.interval, p, q);
  }

  /** Failures only lengthen the wait, which stays between the interval and the cap. */
  lemma BackoffBounds(streak: nat, more: nat, c: Config)
    requires ConfigOk(c) && streak <= more
    ensures c.interval <= Backoff(streak, c) <= Backoff(more, c) <= c.backoffMax
  {
    hide Scaled;
    ScaledGrows(streak, more, c);
  }

  /**
   * The first failure doubles the interval, each further one doubles the wait again up to the cap, and none
   * after the 16th.
   */
  lemma BackoffDoubles(streak: nat, c: Config)
    requires ConfigOk(c)
    ensures Backoff(1, c) == MinReal(c.backoffMax, 2.0 * c.interval)
    ensures streak < 16 ==> Backoff(streak + 1, c) == MinReal(c.backoffMax, 2.0 * Backoff(streak, c))
    ensures streak >= 16 ==> Backoff(streak, c) == Backoff(16, c)
  {
    assert Pow2(1) == 2;
    assert Factor(1) == 2.0;
    if streak < 16 {
      assert Pow2(streak + 1) == 2 * Pow2(streak);
      assert Factor(streak + 1) == 2.0 * Factor(streak);
      assert Scaled(streak + 1, c) == 2.0 * Scaled(streak, c);
      hide Scaled, Factor;
    }
  }

  datatype Capture = Failed | Frame(data: seq<byte>)

  datatype FrameState = Live | Stale | Unavailable

  class Monitor {
    const config: Config
    var leases: map<string, real>
    var jpeg: seq<byte>
    var capturedAt: Option<real>
    var framesProduced: nat
    var capturesFailed: nat
    var invalidFrames: nat
    var streak: nat

    /** Only a complete bounded JPEG is ever in the slot, and the cap is kept. */
    ghost predicate Valid()
      reads this
    {
      && ConfigOk(config)
      && |leases| <= config.maxViewers
      && (jpeg == [] || ValidJpeg(jpeg, config.maxFrameBytes))
      && (jpeg != [] ==> capturedAt.Some?)
    }

    constructor (config: Config)
      requires ConfigOk(config)
      ensures Valid() && this.config == config && leases == map[] && jpeg == []
    {
      this.config := config;
      leases, jpeg, capturedAt := map[], [], None;
      framesProduced, capturesFailed, invalidFrames, streak := 0, 0, 0, 0;
    }

    method Prune(now: real)
      requires Valid()
      modifies this`leases
      ensures Valid() && leases == Pruned(old(leases), now)
    {
      var keys := leases.Keys;
      while keys != {}
        invariant keys <= leases.Keys <= old(leases).Keys
        invariant forall v :: v in leases ==> leases[v] == old(leases)[v]
        invariant forall v :: v in old(leases) && v !in keys ==> (v in leases <==> old(leases)[v] > now)
        decreases keys
      {
        var v :| v in keys;
        if leases[v] <= now {
          leases := leases - {v};
        }
        keys := keys - {v};
      }
      PrunedSize(old(leases), now);
      assert leases == Pruned(old(leases), now);
    }

    method Touch(viewer: string, now: real) returns (ok: bool)
      requires Valid()
      modifies this`leases
      ensures Valid()
      ensures viewer == "" ==> !ok && leases == old(leases)
      ensures viewer != "" ==> (leases, ok) == Touched(old(leases), viewer, now, config)
    {
      if viewer == "" {
        return false;
      }
      ghost var before := leases;
      TouchKeepsCap(before, viewer, now, config);
      Prune(now);
      if viewer !in leases && |leases| >= config.maxViewers {
        return false;
      }
      leases := leases[viewer := now + config.viewerTtl];
      return true;
    }

    method CaptureOnce(outcome: Capture, now: real) returns (ok: bool)
      requires Valid()
      modifies this`jpeg, this`capturedAt, this`framesProduced, this`capturesFailed, this`invalidFrames
      ensures Valid()
      ensures ok <==>
        && outcome.Frame? && 128 <= |outcome.data| <= config.maxFrameBytes
        && outcome.data[0] == 0xFF && outcome.data[1] == 0xD8
        && outcome.data[|outcome.data| - 2] == 0xFF && outcome.data[|outcome.data| - 1] == 0xD9
      ensures ok ==> jpeg == outcome.data && capturedAt == Some(now)
      ensures !ok ==> jpeg == old(jpeg) && capturedAt == old(capturedAt)
      ensures framesProduced == old(framesProduced) + (if ok then 1 else 0)
      ensures capturesFailed == old(capturesFailed) + (if outcome.Failed? then 1 else 0)
      ensures invalidFrames == old(invalidFrames) + (if outcome.Frame? && !ok then 1 else 0)
    {
      if outcome.Frame? && |outcome.data| >= 128 {
        JpegEnds(outcome.data);
      }
      if outcome.Failed? {
        capturesFailed := capturesFailed + 1;
        return false;
      }
      if !ValidJpeg(outcome.data, config.maxFrameBytes) {
        invalidFrames := invalidFrames + 1;
        return false;
      }
      jpeg, capturedAt, framesProduced := outcome.data, Some(now), framesProduced + 1;
      return true;
    }

    method BackoffDelay(ok: bool) returns (delay: real)
      requires Valid()
      modifies this`streak
      ensures Valid()
      ensures streak == if ok then 0 else old(streak) + 1
      ensures delay == if ok then config.interval else Backoff(streak, config)
      ensures config.interval <= delay <= config.backoffMax
    {
      if ok {
        streak := 0;
        return config.interval;
      }
      streak := streak + 1;
      BackoffBounds(streak, streak, config);
      return Backoff(streak, config);
    }

    /** A frame is served only while it is within the stale bound, and is called live only while fresh. */
    method Latest(now: real) returns (state: FrameState, frame: Option<seq<byte>>, age: Option<real>)
      requires Valid()
      ensures state.Unavailable? <==> jpeg == []
      ensures frame.Some? ==> frame.value == jpeg && ValidJpeg(frame.value, config.maxFrameBytes)
      ensures frame.Some? <==> jpeg != [] && now - capturedAt.value <= config.maxStaleSeconds
      ensures state.Live? <==> jpeg != [] && now - capturedAt.value <= config.freshSeconds
      ensures age.Some? <==> jpeg != []
      ensures age.Some? ==> age.value == if now > capturedAt.value then now - capturedAt.value else 0.0
    {
      if jpeg == [] || capturedAt.None? {
        return Unavailable, None, None;
      }
      var a := if now - capturedAt.value > 0.0 then now - capturedAt.value else 0.0;
      if a > config.maxStaleSeconds {
        return Stale, None, Some(a);
      }
      return if a <= config.freshSeconds then Live else Stale, Some(jpeg), Some(a);
    }
  }
}

/**
 * The producer thread, `touch` and `stop` as an interleaving; every step is one critical section or one
 * unlocked access.
 */
module LiveProtocol {
  import opened Common
  import opened LiveMonitor

  /** Where a producer thread is. The first five are inside the capture loop. */
  datatype Pc =
    | AtTest           // while not stop.is_set()
    | AtViewers        // _has_viewers()
    | AtIdle           // no viewer was found: start or check the idle clock
    | AtCapture        // _capture_once()
    | AtWait           // stop.wait(...)
    | Leaving          // the loop was left; the locked finally block comes next
    | Exiting          // past the finally block, still alive
    | Dead
    | NotStarted       // Thread.start() raised

  /** `lastSeen` is when the thread was started or last found a viewer. */
  datatype Thread = Thread(gen: nat, pc: Pc, idleSince: Option<real>, lastSeen: real)

  predicate InLoop(pc: Pc) { pc.AtTest? || pc.AtViewers? || pc.AtIdle? || pc.AtCapture? || pc.AtWait? }

  predicate Alive(pc: Pc) { !pc.Dead? && !pc.NotStarted? }

  /** A `stop` call: after setting the event it reads `_thread`, joins it for a while, then enters its locked part. */
  datatype StopPc = Joining | StopDone

  /** `callers` have registered their lease and are about to enter `_ensure_running`. */
  datatype State = State(
    now: real, stop: bool, thread: Option<nat>, running: bool, generation: nat,
    leases: map<string, real>, threads: seq<Thread>, callers: nat, stops: seq<StopPc>)

  const INIT := State(0.0, false, None, false, 0, map[], [], 0, [])

  datatype Action =
    | Pass(dt: real)
    | Touch(viewer: string)
    | Start
    | Ensure(startOk: bool)
    | Release(viewer: string)
    | Stop
    | StopFinish(i: nat)
    | Step(i: nat)

  predicate Enabled(s: State, a: Action) {
    match a
    case Pass(dt) => dt >= 0.0
    case Touch(_) => true
    case Start => true
    case Ensure(_) => s.callers > 0
    case Release(_) => true
    case Stop => true
    case StopFinish(i) => i < |s.stops| && s.stops[i].Joining?
    case Step(i) => i < |s.threads|
  }

  predicate ThreadRefOk(s: State) { s.thread.Some? ==> s.thread.value < |s.threads| }

  predicate ProducerUp(s: State)
    requires ThreadRefOk(s)
  {
    s.running && s.thread.Some? && Alive(s.threads[s.thread.value].pc)
  }

  function Next(s: State, a: Action, c: Config): State
    requires ThreadRefOk(s) && Enabled(s, a)
  {
    match a
    case Pass(dt) => s.(now := s.now + dt)
    case Touch(viewer) =>
      if viewer == "" then s
      else
        var (leases, ok) := Touched(s.leases, viewer, s.now, c);
        s.(leases := leases, callers := if ok then s.callers + 1 else s.callers)
    case Start => s.(callers := s.callers + 1)
    case Ensure(startOk) => EnsureRunning(s, startOk)
    case Release(viewer) => s.(leases := s.leases - {viewer})
    case Stop => s.(stop := true, stops := s.stops + [Joining])
    case StopFinish(i) =>
      var s1 := s.(stops := s.stops[i := StopDone]);
      if s.thread.Some? && !Alive(s.threads[s.thread.value].pc) then s1.(thread := None, running := false) else s1
    case Step(i) => ThreadStep(s, i, c)
  }

  function EnsureRunning(s: State, startOk: bool): State
    requires ThreadRefOk(s) && s.callers > 0
  {
    var s1 := s.(callers := s.callers - 1);
    if ProducerUp(s) then s1
    else s1.(stop := false, generation := s.generation + 1, running := true, thread := Some(|s.threads|),
             threads := s.threads + [Thread(s.generation + 1, if startOk then AtTest else NotStarted, None, s.now)])
  }

  function Goto(s: State, i: nat, pc: Pc): State
    requires i < |s.threads|
  {
    s.(threads := s.threads[i := s.threads[i].(pc := pc)])
  }

  function ThreadStep(s: State, i: nat, c: Config): State
    requires i < |s.threads|
  {
    var t := s.threads[i];
    match t.pc
    case AtTest => Goto(s, i, if s.stop then Leaving else AtViewers)
    case AtViewers =>
      var live := Pruned(s.leases, s.now);
      var s1 := s.(leases := live);
      if live == map[] then Goto(s1, i, AtIdle)
      else s1.(threads := s.threads[i := Thread(t.gen, AtCapture, None, s.now)])
    case AtIdle =>
      if t.idleSince.None? then s.(threads := s.threads[i := t.(pc := AtWait, idleSince := Some(s.now))])
      else Goto(s, i, if s.now - t.idleSince.value >= c.idleGrace then Leaving else AtWait)
    case AtCapture => Goto(s, i, AtWait)
    case AtWait => Goto(s, i, AtTest)
    case Leaving =>
      Goto(s.(running := if s.generation == t.gen then false else s.running), i, Exiting)
    case Exiting => Goto(s, i, Dead)
    case _ => s
  }

  ghost predicate Valid(s: State, acts: seq<Action>, c: Config)
    decreases |acts|
  {
    acts == [] || (ThreadRefOk(s) && Enabled(s, acts[0]) && Valid(Next(s, acts[0], c), acts[1..], c))
  }

  ghost function End(s: State, acts: seq<Action>, c: Config): State
    requires Valid(s, acts, c)
    decreases |acts|
  {
    if acts == [] then s else End(Next(s, acts[0], c), acts[1..], c)
  }

  // ------------------------------------------------------------------ what every run keeps

  predicate Producing(pc: Pc) { InLoop(pc) || pc.Leaving? }

  /**
   * A thread in the loop or on its way to the finally block is the current one, of the current generation,
   * and runs.
   */
  ghost predicate Inv(s: State, c: Config) {
    && ThreadRefOk(s)
    && (forall i :: 0 <= i < |s.threads| && Producing(s.threads[i].pc) ==>
          s.thread == Some(i) && s.threads[i].gen == s.generation && s.running)
    && (s.running && s.thread.Some? ==> var pc := s.threads[s.thread.value].pc; Producing(pc) || pc.NotStarted?)
    && |s.leases| <= c.maxViewers
    && (forall i :: 0 <= i < |s.threads| ==>
          s.threads[i].lastSeen <= s.now
          && (s.threads[i].idleSince.Some? ==> s.threads[i].lastSeen <= s.threads[i].idleSince.value))
  }

  lemma TouchStep(s: State, viewer: string, c: Config)
    requires Inv(s, c)
    ensures Inv(Next(s, Touch(viewer), c), c)
  {
    TouchKeepsCap(s.leases, viewer, s.now, c);
  }

  /** A thread's step changes its own entry, the running flag when it leaves, and may prune the leases. */
  lemma ThreadShape(s: State, i: nat, c: Config)
    requires i < |s.threads|
    ensures var s', t := ThreadStep(s, i, c), s.threads[i];
            && |s'.threads| == |s.threads|
            && (forall k :: 0 <= k < |s.threads| && k != i ==> s'.threads[k] == s.threads[k])
            && s'.threads[i].gen == t.gen && (Producing(s'.threads[i].pc) ==> Producing(t.pc))
            && s'.thread == s.thread && s'.generation == s.generation && s'.now == s.now
            && (s'.running == s.running || (t.pc.Leaving? && !Producing(s'.threads[i].pc)))
            && s'.leases in {s.leases, Pruned(s.leases, s.now)}
  {
  }

  lemma ThreadTimes(s: State, i: nat, c: Config)
    requires Inv(s, c) && i < |s.threads|
    ensures var t := ThreadStep(s, i, c).threads[i];
            t.lastSeen <= s.now && (t.idleSince.Some? ==> t.lastSeen <= t.idleSince.value)
  {
  }

  lemma ThreadRefKept(s: State, i: nat, c: Config)
    requires ThreadRefOk(s) && i < |s.threads|
    ensures ThreadRefOk(ThreadStep(s, i, c))
  {
    ThreadShape(s, i, c);
  }

  lemma ThreadStepInv(s: State, i: nat, c: Config)
    requires Inv(s, c) && i < |s.threads|
    ensures Inv(ThreadStep(s, i, c), c)
  {
    PrunedSize(s.leases, s.now);
    ThreadShape(s, i, c);
    ThreadTimes(s, i, c);
    ThreadRefKept(s, i, c);
    hide ThreadStep, Pruned, ThreadRefOk, Producing;
    var s' := ThreadStep(s, i, c);
    forall k | 0 <= k < |s'.threads| && Producing(s'.threads[k].pc)
      ensures s'.thread == Some(k) && s'.threads[k].gen == s'.generation && s'.running
    {
      assert Producing(s.threads[k].pc);
    }
  }

  lemma EnsureInv(s: State, startOk: bool, c: Config)
    requires Inv(s, c) && s.callers > 0
    ensures Inv(EnsureRunning(s, startOk), c)
  {
  }

  lemma StopFinishInv(s: State, i: nat, c: Config)
    requires Inv(s, c) && Enabled(s, StopFinish(i))
    ensures Inv(Next(s, StopFinish(i), c), c)
  {
  }

  lemma ReleaseInv(s: State, viewer: string, c: Config)
    requires Inv(s, c)
    ensures Inv(s.(leases := s.leases - {viewer}), c)
  {
    SubsetSize((s.leases - {viewer}).Keys, s.leases.Keys);
  }

  lemma PassInv(s: State, dt: real, c: Config)
    requires Inv(s, c) && dt >= 0.0
    ensures Inv(s.(now := s.now + dt), c)
  {
  }

  lemma InvStep(s: State, a: Action, c: Config)
    requires Inv(s, c) && Enabled(s, a)
    ensures Inv(Next(s, a, c), c)
  {
    hide ThreadStep, EnsureRunning;
    match a {
      case Pass(dt) => PassInv(s, dt, c);
      case Touch(viewer) => TouchStep(s, viewer, c);
      case Step(i) => ThreadStepInv(s, i, c);
      case Ensure(startOk) => EnsureInv(s, startOk, c);
      case Release(viewer) => ReleaseInv(s, viewer, c);
      case StopFinish(i) => StopFinishInv(s, i, c);
      case _ =>
    }
  }

  lemma {:induction false} InvHolds(s: State, acts: seq<Action>, c: Config)
    requires Inv(s, c) && Valid(s, acts, c)
    ensures Inv(End(s, acts, c), c)
    decreases |acts|
  {
    hide Next, Enabled, Inv;
    if acts != [] {
      InvStep(s, acts[0], c);
      InvHolds(Next(s, acts[0], c), acts[1..], c);
    }
  }

  /**
   Single producer, in every state of every run: at most one thread is inside the capture loop, it is the
   current one with the current generation and is marked running, and the viewer cap holds.
   */
  lemma SingleProducer(acts: seq<Action>, c: Config)
    requires Valid(INIT, acts, c)
    ensures var s := End(INIT, acts, c);
            && (forall i, j :: 0 <= i < j < |s.threads| ==> !InLoop(s.threads[i].pc) || !InLoop(s.threads[j].pc))
            && (forall i :: 0 <= i < |s.threads| && InLoop(s.threads[i].pc) ==>
                  s.thread == Some(i) && s.threads[i].gen == s.generation && s.running)
            && |s.leases| <= c.maxViewers
  {
    InvHolds(INIT, acts, c);
  }

  /**
   What one more step can do after any run: the stop event is never cleared while a thread is in the loop,
   the generation test at the exit always matches, and a loop is left for lack of viewers only when the
   last sighting of one is at least the idle grace ago.
   */
  lemma StepsAreSafe(acts: seq<Action>, a: Action, c: Config)
    requires Valid(INIT, acts, c) && ThreadRefOk(End(INIT, acts, c)) && Enabled(End(INIT, acts, c), a)
    ensures var s := End(INIT, acts, c);
            var s' := Next(s, a, c);
            && (s.stop && !s'.stop ==> forall i :: 0 <= i < |s.threads| ==> !Producing(s.threads[i].pc))
            && (a.Step? && s.threads[a.i].pc.Leaving? ==> s.threads[a.i].gen == s.generation && !s'.running)
            && (a.Step? && InLoop(s.threads[a.i].pc) && s'.threads[a.i].pc.Leaving? ==>
                  s.stop || s.now - s.threads[a.i].lastSeen >= c.idleGrace)
  {
    InvHolds(INIT, acts, c);
    hide Valid, End, Touched, Pruned;
  }
}
