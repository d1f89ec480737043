/** The `/c/info` refresh loop: `app/info_service.py`, `app/http_result.py` and its driver in `app/main.py`. */
module InfoService {
  import opened Common

  const MAX_RETRIES := 10
  const RETRY_COUNTDOWN := 10

  datatype Class = Success | Redirect | Blocked | ClientError | ServerError | Timeout | ConnectionError

  function ClassifyStatus(status: int): Class {
    if 200 <= status < 300 then Success
    else if 300 <= status < 400 then Redirect
    else if status == 403 then Blocked
    else if 400 <= status < 500 then ClientError
    else if 500 <= status < 600 then ServerError
    else ClientError
  }

  /** How an upload ends: with a status, or by an exception, which is a timeout or counts as a connection error. */
  datatype Answer = Status(code: int) | TimedOut | Broken

  function Classify(a: Answer): Class {
    match a
    case Status(code) => ClassifyStatus(code)
    case TimedOut => Timeout
    case Broken => ConnectionError
  }

  /** Worth another attempt: blocked, a server error, or no answer. */
  predicate Transient(a: Answer) { a.Status? ==> a.code == 403 || 500 <= a.code < 600 }

  predicate Retryable(c: Class) { c in {Blocked, ServerError, Timeout, ConnectionError} }

  /** Exponential backoff in whole seconds, capped at thirty. */
  function RetryDelay(failures: nat): nat { if Pow2(failures) <= 30 then Pow2(failures) else 30 }

  predicate ShouldRetry(c: Class, failures: nat) { Retryable(c) && failures < MAX_RETRIES }

  function CountdownAfter(c: Class, failures: nat): nat {
    if !ShouldRetry(c, failures) then 0 else Max(RETRY_COUNTDOWN, RetryDelay(failures))
  }

  datatype State = State(dirty: bool, countdown: nat, failures: nat)

  /**
   * One second of the loop: whether the flag was marked before it, whether it is marked while an
   * upload of it is under way, and how that upload ends.
   */
  datatype Tick = Tick(mark: bool, during: bool, answer: Answer)

  function ResultOf(t: Tick): Class { Classify(t.answer) }

  function Marked(s: State, t: Tick): State { s.(dirty := s.dirty || t.mark) }

  predicate Attempts(s: State, t: Tick) { Marked(s, t).dirty && s.countdown == 0 }

  function Step(s: State, t: Tick): State {
    if !Marked(s, t).dirty then s.(failures := 0)
    else if s.countdown > 0 then Marked(s, t).(countdown := s.countdown - 1)
    else if ResultOf(t) == Success then State(false, 0, 0)
    else State(ShouldRetry(ResultOf(t), s.failures), CountdownAfter(ResultOf(t), s.failures), s.failures + 1)
  }

  class InfoLoop {
    var dirty: bool
    var countdown: nat
    var failures: nat

    function Now(): State
      reads this
    {
      State(dirty, countdown, failures)
    }

    constructor (dirty: bool)
      ensures Now() == State(dirty, 0, 0)
    {
      this.dirty, countdown, failures := dirty, 0, 0;
    }

    method NextAction() returns (attempt: bool)
      modifies this`countdown
      ensures attempt <==> dirty && old(countdown) == 0
      ensures countdown == if dirty && old(countdown) > 0 then old(countdown) - 1 else old(countdown)
    {
      if !dirty {
        return false;
      }
      if countdown == 0 {
        return true;
      }
      countdown := countdown - 1;
      return false;
    }

    /** The loop for as many seconds as there are ticks; `attempts` counts the uploads. */
    method Serve(ticks: seq<Tick>) returns (attempts: nat)
      modifies this
      ensures Now() == Run(old(Now()), ticks)
      ensures attempts == Count(old(Now()), ticks)
    {
      attempts := 0;
      for k := 0 to |ticks|
        invariant Run(Now(), ticks[k..]) == Run(old(Now()), ticks)
        invariant attempts + Count(Now(), ticks[k..]) == Count(old(Now()), ticks)
      {
        assert ticks[k..][1..] == ticks[k + 1..];
        var t := ticks[k];
        dirty := dirty || t.mark;
        var attempt := NextAction();
        if !attempt {
          if !dirty {
            failures := 0;
          }
        } else {
          attempts := attempts + 1;
          dirty := dirty || t.during;
          if ResultOf(t) == Success {
            dirty, countdown, failures := false, 0, 0;
          } else {
            dirty := ShouldRetry(ResultOf(t), failures);
            countdown := CountdownAfter(ResultOf(t), failures);
            failures := failures + 1;
          }
        }
      }
    }
  }

  // ------------------------------------------------------------------ what an attempt means

  /** The upload was answered with a 2xx status. */
  predicate Succeeds(a: Answer) { a.Status? && 200 <= a.code < 300 }

  /**
   * What every attempt leaves: a success clears the flag and forgets the failures, a transient failure with retries
   * left counts one more and waits for the gap, and any other result gives up.
   */
  lemma AttemptMeans(s: State, t: Tick)
    requires Attempts(s, t)
    ensures Succeeds(t.answer) ==> Step(s, t) == State(false, 0, 0)
    ensures Transient(t.answer) && s.failures < 10 ==>
      Step(s, t) == State(true, Gap(s.failures) - 1, s.failures + 1)
    ensures !Succeeds(t.answer) && !(Transient(t.answer) && s.failures < 10) ==>
      Step(s, t) == State(false, 0, s.failures + 1)
  {
    hide RetryDelay;
  }

  /** A tick without an attempt counts down, or finds nothing to do and forgets the failures. */
  lemma RestMeans(s: State, t: Tick)
    requires !Attempts(s, t)
    ensures Step(s, t) == if s.dirty || t.mark then State(true, s.countdown - 1, s.failures) else s.(failures := 0)
  {
  }

  // ------------------------------------------------------------------ runs

  function Run(s: State, ticks: seq<Tick>): State
    decreases |ticks|
  {
    if ticks == [] then s else Run(Step(s, ticks[0]), ticks[1..])
  }

  function Count(s: State, ticks: seq<Tick>): nat
    decreases |ticks|
  {
    if ticks == [] then 0 else (if Attempts(s, ticks[0]) then 1 else 0) + Count(Step(s, ticks[0]), ticks[1..])
  }

  lemma {:induction false} RunConcat(s: State, a: seq<Tick>, b: seq<Tick>)
    ensures Run(s, a + b) == Run(Run(s, a), b)
    ensures Count(s, a + b) == Count(s, a) + Count(Run(s, a), b)
    decreases |a|
  {
    if a == [] {
      assert a + b == b;
    } else {
      assert (a + b)[1..] == a[1..] + b;
      RunConcat(Step(s, a[0]), a[1..], b);
    }
  }

  /** While the countdown runs nothing is sent. */
  lemma {:induction false} CountsDown(s: State, ticks: seq<Tick>)
    requires s.dirty && |ticks| <= s.countdown
    ensures Run(s, ticks) == s.(countdown := s.countdown - |ticks|) && Count(s, ticks) == 0
    decreases |ticks|
  {
    if ticks != [] {
      CountsDown(Step(s, ticks[0]), ticks[1..]);
    }
  }

  /** Ticks from one attempt to the next. */
  function Gap(failures: nat): nat { Max(RETRY_COUNTDOWN, RetryDelay(failures)) + 1 }

  lemma GapBounds(failures: nat)
    ensures 11 <= Gap(failures) <= 31
    ensures failures <= 3 ==> Gap(failures) == 11
    ensures failures == 4 ==> Gap(failures) == 17
    ensures failures >= 5 ==> Gap(failures) == 31
  {
    assert Pow2(1) == 2;
    assert Pow2(2) == 4;
    assert Pow2(3) == 8;
    assert Pow2(4) == 16;
    assert Pow2(5) == 32;
    if failures >= 5 {
      PowGrows(5, failures);
    }
  }

  /** After a failed attempt that will be retried, the next attempt comes 11 to 31 ticks later and none before. */
  lemma AttemptsAreSpaced(s: State, t: Tick, ticks: seq<Tick>)
    requires Attempts(s, t) && Transient(t.answer) && s.failures < MAX_RETRIES && |ticks| >= Gap(s.failures)
    ensures var g := Gap(s.failures);
      && 11 <= g <= 31
      && Count(Step(s, t), ticks[..g - 1]) == 0
      && Attempts(Run(Step(s, t), ticks[..g - 1]), ticks[g - 1])
  {
    GapBounds(s.failures);
    CountsDown(Step(s, t), ticks[..Gap(s.failures) - 1]);
  }

  /**
   * How many ticks until the flag is surely cleared, when `failures` attempts have failed and `countdown`
   * ticks are left.
   */
  function Left(countdown: nat, failures: nat): nat
    decreases if failures < MAX_RETRIES then MAX_RETRIES - failures else 0
  {
    countdown + 1 + if failures < MAX_RETRIES then Left(Gap(failures) - 1, failures + 1) else 0
  }

  /** From the first attempt on it is 216 ticks. */
  lemma LeftIs()
    ensures Left(0, 0) == 1 + 216
  {
    GapBounds(0);
    GapBounds(1);
    GapBounds(2);
    GapBounds(3);
    GapBounds(4);
    GapBounds(5);
    GapBounds(6);
    GapBounds(7);
    GapBounds(8);
    GapBounds(9);
    hide Gap;
    assert Left(30, 10) == 31;
    assert Left(30, 9) == 62;
    assert Left(30, 8) == 93;
    assert Left(30, 7) == 124;
    assert Left(30, 6) == 155;
    assert Left(16, 5) == 17 + 155;
    assert Left(10, 4) == 11 + 172;
    assert Left(10, 3) == 11 + 183;
    assert Left(10, 2) == 11 + 194;
    assert Left(10, 1) == 11 + 205;
  }

  ghost predicate AllTransient(ticks: seq<Tick>) { forall i :: 0 <= i < |ticks| ==> Transient(ticks[i].answer) }

  /** The flag is cleared for the first time after `n` ticks. */
  ghost predicate ClearedAfter(s: State, ticks: seq<Tick>, n: nat) {
    n <= |ticks| && !Run(s, ticks[..n]).dirty && forall m :: 0 <= m < n ==> Run(s, ticks[..m]).dirty
  }

  /**
   * A dirty flag is cleared within the bound, whatever the results, the marks and the failures
   * counted so far, by the attempts that count leaves and at least one; and when every attempt
   * fails transiently it takes exactly that long.
   */
  lemma {:induction false} ClearsWithin(s: State, ticks: seq<Tick>) returns (n: nat)
    requires s.dirty && |ticks| >= Left(s.countdown, s.failures)
    ensures n <= Left(s.countdown, s.failures) && ClearedAfter(s, ticks, n)
    ensures Count(s, ticks[..n]) <= Max(1, MAX_RETRIES + 1 - s.failures)
    ensures AllTransient(ticks) ==>
              n == Left(s.countdown, s.failures) && Count(s, ticks[..n]) == Max(1, MAX_RETRIES + 1 - s.failures)
    decreases if s.failures < MAX_RETRIES then MAX_RETRIES - s.failures else 0
  {
    hide Run, Count, Step, Gap, ClearedAfter;
    var c, t := s.countdown, ticks[s.countdown];
    var s2 := Step(s.(countdown := 0), t);
    OneMore(s, ticks, c);
    AttemptLeaves(s.(countdown := 0), t);
    if s2.dirty {
      var m := ClearsWithin(s2, ticks[c + 1..]);
      n := c + 1 + m;
      Joins(s, ticks, c, m);
    } else {
      n := c + 1;
      FirstClear(s, ticks, c);
    }
  }

  /** What an attempt leaves: the flag clear, or one more failure and the next countdown. */
  lemma AttemptLeaves(s: State, t: Tick)
    requires s.dirty && s.countdown == 0
    ensures Step(s, t).dirty ==>
      && s.failures < MAX_RETRIES
      && Step(s, t) == State(true, Gap(s.failures) - 1, s.failures + 1)
    ensures Transient(t.answer) && s.failures < MAX_RETRIES ==> Step(s, t).dirty
  {
  }

  /** The ticks up to and including an attempt. */
  lemma OneMore(s: State, ticks: seq<Tick>, c: nat)
    requires s.dirty && s.countdown == c < |ticks|
    ensures Run(s, ticks[..c + 1]) == Step(s.(countdown := 0), ticks[c]) && Count(s, ticks[..c + 1]) == 1
  {
    CountsDown(s, ticks[..c]);
    assert ticks[..c + 1] == ticks[..c] + [ticks[c]];
    RunConcat(s, ticks[..c], [ticks[c]]);
    var s1 := s.(countdown := 0);
    assert Run(Step(s1, ticks[c]), [ticks[c]][1..]) == Step(s1, ticks[c]);
    assert Count(Step(s1, ticks[c]), [ticks[c]][1..]) == 0;
  }

  lemma StillDirty(s: State, ticks: seq<Tick>, m: nat)
    requires s.dirty && m <= s.countdown <= |ticks|
    ensures Run(s, ticks[..m]).dirty
  {
    CountsDown(s, ticks[..m]);
  }

  lemma FirstClear(s: State, ticks: seq<Tick>, c: nat)
    requires s.dirty && s.countdown == c < |ticks| && !Step(s.(countdown := 0), ticks[c]).dirty
    ensures ClearedAfter(s, ticks, c + 1)
  {
    OneMore(s, ticks, c);
    forall m | 0 <= m < c + 1 ensures Run(s, ticks[..m]).dirty {
      StillDirty(s, ticks, m);
    }
  }

  lemma Joins(s: State, ticks: seq<Tick>, c: nat, m: nat)
    requires s.dirty && s.countdown == c < |ticks|
    requires ClearedAfter(Step(s.(countdown := 0), ticks[c]), ticks[c + 1..], m)
    requires Step(s.(countdown := 0), ticks[c]).dirty
    ensures ClearedAfter(s, ticks, c + 1 + m)
    ensures Count(s, ticks[..c + 1 + m]) == 1 + Count(Step(s.(countdown := 0), ticks[c]), ticks[c + 1..][..m])
  {
    JoinAt(s, ticks, c, m);
    forall k | 0 <= k < c + 1 + m ensures Run(s, ticks[..k]).dirty {
      if k <= c {
        StillDirty(s, ticks, k);
      } else {
        JoinAt(s, ticks, c, k - c - 1);
      }
    }
  }

  lemma JoinAt(s: State, ticks: seq<Tick>, c: nat, k: nat)
    requires s.dirty && s.countdown == c && c + 1 + k <= |ticks|
    ensures Run(s, ticks[..c + 1 + k]) == Run(Step(s.(countdown := 0), ticks[c]), ticks[c + 1..][..k])
    ensures Count(s, ticks[..c + 1 + k]) == 1 + Count(Step(s.(countdown := 0), ticks[c]), ticks[c + 1..][..k])
  {
    OneMore(s, ticks, c);
    assert ticks[..c + 1 + k] == ticks[..c + 1] + ticks[c + 1..][..k];
    RunConcat(s, ticks[..c + 1], ticks[c + 1..][..k]);
  }

  /** From a fresh mark with the countdown at rest: at most 11 attempts, and clear within 216 ticks of the first. */
  lemma RetriesAreBounded(ticks: seq<Tick>) returns (n: nat)
    requires |ticks| >= 217
    ensures n <= 1 + 216 && ClearedAfter(State(true, 0, 0), ticks, n)
    ensures Count(State(true, 0, 0), ticks[..n]) <= 11
    ensures AllTransient(ticks) ==> n == 1 + 216 && Count(State(true, 0, 0), ticks[..n]) == 11
  {
    LeftIs();
    n := ClearsWithin(State(true, 0, 0), ticks);
  }

  /** Along every run a clear flag has no countdown left. */
  lemma {:induction false} ClearIsIdle(s: State, ticks: seq<Tick>)
    requires !s.dirty ==> s.countdown == 0
    ensures !Run(s, ticks).dirty ==> Run(s, ticks).countdown == 0
    decreases |ticks|
  {
    if ticks != [] {
      ClearIsIdle(Step(s, ticks[0]), ticks[1..]);
    }
  }

  /**
   * A mark on a clear flag inherits the failures counted before it: with every attempt failing
   * transiently it is given exactly the attempts that count leaves, and at least one. An idle tick
   * in between forgets the count.
   */
  lemma MarkInherits(s: State, t: Tick, ticks: seq<Tick>) returns (n: nat)
    requires !s.dirty && s.countdown == 0 && t.mark && |ticks| >= Left(0, s.failures) && AllTransient(ticks)
    ensures ClearedAfter(Marked(s, t), ticks, n)
    ensures Count(Marked(s, t), ticks[..n]) == Max(1, MAX_RETRIES + 1 - s.failures)
    ensures (n > 1 <==> s.failures < MAX_RETRIES) && Step(s, t.(mark := false)).failures == 0
  {
    n := ClearsWithin(Marked(s, t), ticks);
    GapBounds(s.failures);
  }

  // ------------------------------------------------------------------ marks during an upload

  /** A clear flag stays clear, and nothing is sent, until it is marked. */
  lemma {:induction false} IdleUntilMarked(s: State, ticks: seq<Tick>)
    requires !s.dirty && forall i :: 0 <= i < |ticks| ==> !ticks[i].mark
    ensures !Run(s, ticks).dirty && Count(s, ticks) == 0
    decreases |ticks|
  {
    if ticks != [] {
      IdleUntilMarked(Step(s, ticks[0]), ticks[1..]);
    }
  }

  /**
   * A mark set while an upload is under way is overwritten by its result: it is followed by another
   * attempt, without a new mark, exactly when that result is one to retry.
   */
  lemma MarkDuringServedIff(s: State, t: Tick, ticks: seq<Tick>)
    requires Attempts(s, t) && t.during && |ticks| >= Gap(s.failures)
    requires forall i :: 0 <= i < |ticks| ==> !ticks[i].mark
    ensures Count(Step(s, t), ticks) > 0 <==> Transient(t.answer) && s.failures < MAX_RETRIES
  {
    if Transient(t.answer) && s.failures < MAX_RETRIES {
      AttemptsAreSpaced(s, t, ticks);
      var g := Gap(s.failures);
      var a, b := ticks[..g - 1], ticks[g - 1..];
      assert ticks == a + b && b[0] == ticks[g - 1];
      RunConcat(Step(s, t), a, b);
    } else {
      IdleUntilMarked(Step(s, t), ticks);
    }
  }
}
