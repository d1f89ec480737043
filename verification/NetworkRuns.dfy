/**
 * Runs of the console, the root transaction and the watchdog over one result file: for whose
 * success the console stores a Wi-Fi key.
 */
module NetworkRuns {
  import opened Common
  import opened NetworkApply
  import opened NetworkKey

  /** A transaction handed over and not yet ended; `since` is when it wrote `applying`. */
  datatype Tx = Tx(id: nat, since: Option<real>)

  /** A stored key: the request it was pending for, and who wrote the `applied` it was stored on. */
  datatype Stored = Stored(id: nat, owner: Option<nat>)

  /**
   * `handing` is the request between the helper's acceptance and its note as pending, and `txs` the
   * transactions in the order of their hand-over.
   */
  datatype System = System(
    pending: Option<Pending>, note: Option<Note>, txs: seq<Tx>, handing: Option<Pending>,
    next: nat, kept: seq<Stored>)

  /** `Watchdog` is the watchdog's own write to the result file, after a recovery or a hotspot start. */
  datatype Event =
    | HandOver(psk: string)
    | Record
    | Finalize
    | TxStart
    | TxEnd(state: State)
    | Watchdog(state: State)

  datatype Step = Step(event: Event, now: real)

  const START := System(None, None, [], None, 0, [])

  /**
   * `apply` holds the controller's lock from its test to its note and the root unit runs its transactions one after
   * the other; a status call takes no lock and may finalize at any moment.
   */
  predicate Enabled(s: System, e: Step) {
    match e.event
    case HandOver(_) => s.handing.None? && !Busy(s.pending, s.note, e.now)
    case Record => s.handing.Some?
    case Finalize => true
    case TxStart => s.txs != [] && s.txs[0].since.None?
    case TxEnd(state) => s.txs != [] && s.txs[0].since.Some? && state != Applying
    case Watchdog(state) => state in {Applied, Hotspot}
  }

  function Next(s: System, e: Step): System
    requires Enabled(s, e)
  {
    match e.event
    case HandOver(psk) =>
      s.(handing := Some(Pending(s.next, psk, e.now)), next := s.next + 1, txs := s.txs + [Tx(s.next, None)])
    case Record => s.(handing := None, pending := Some(s.handing.value.(at := e.now)))
    case Finalize =>
      if s.pending.None? then s
      else
        var (q, key) := Finalized(s.pending.value, s.note, e.now);
        s.(pending := q, kept := s.kept + if key.Some? then [Stored(s.pending.value.id, s.note.value.owner)] else [])
    case TxStart =>
      s.(txs := [s.txs[0].(since := Some(e.now))] + s.txs[1..], note := Some(Note(Applying, e.now, Some(s.txs[0].id))))
    case TxEnd(state) =>
      s.(txs := s.txs[1..], note := Some(Note(state, e.now, Some(s.txs[0].id))))
    case Watchdog(state) => s.(note := Some(Note(state, e.now, None)))
  }

  /** Every step is possible; clock readings are arbitrary. */
  predicate Possible(run: seq<Step>)
    decreases |run|, 0
  {
    run == [] || (Possible(run[..|run| - 1]) && Enabled(After(run[..|run| - 1]), run[|run| - 1]))
  }

  function After(run: seq<Step>): System
    requires Possible(run)
    decreases |run|, 1
  {
    if run == [] then START else Next(After(run[..|run| - 1]), run[|run| - 1])
  }

  // ------------------------------------------------------------------ what a run wrote

  function HandOvers(run: seq<Step>): nat {
    if run == [] then 0 else HandOvers(run[..|run| - 1]) + if run[|run| - 1].event.HandOver? then 1 else 0
  }

  function Ends(run: seq<Step>): nat {
    if run == [] then 0 else Ends(run[..|run| - 1]) + if run[|run| - 1].event.TxEnd? then 1 else 0
  }

  /**
   * The last write to the result file. Transactions run in order, so the one under way is numbered by those
   * that ended.
   */
  function LastNote(run: seq<Step>): Option<Note> {
    if run == [] then None
    else
      var before, e := run[..|run| - 1], run[|run| - 1];
      match e.event
      case TxStart => Some(Note(Applying, e.now, Some(Ends(before))))
      case TxEnd(state) => Some(Note(state, e.now, Some(Ends(before))))
      case Watchdog(state) => Some(Note(state, e.now, None))
      case _ => LastNote(before)
  }

  function LastKey(run: seq<Step>): string {
    if run == [] then ""
    else if run[|run| - 1].event.HandOver? then run[|run| - 1].event.psk
    else LastKey(run[..|run| - 1])
  }

  /** The request noted as pending last. */
  function LastRequest(run: seq<Step>): Option<Pending> {
    if run == [] then None
    else
      var before, e := run[..|run| - 1], run[|run| - 1];
      if e.event.Record? && HandOvers(before) > 0
      then Some(Pending(HandOvers(before) - 1, LastKey(before), e.now))
      else LastRequest(before)
  }

  /** Transaction `id` ended `applied` in the run. */
  predicate EndedApplied(run: seq<Step>, id: nat) {
    run != [] &&
    ((run[|run| - 1].event == TxEnd(Applied) && Ends(run[..|run| - 1]) == id) || EndedApplied(run[..|run| - 1], id))
  }

  ghost predicate Tracks(s: System, run: seq<Step>) {
    && s.note == LastNote(run)
    && s.next == HandOvers(run) == Ends(run) + |s.txs|
    && (forall i :: 0 <= i < |s.txs| ==> s.txs[i].id == Ends(run) + i)
    && (s.pending.Some? ==> s.pending == LastRequest(run))
    && (s.handing.Some? ==> s.next > 0 && s.handing.value.id == s.next - 1 && s.handing.value.psk == LastKey(run))
  }

  /** In every run, the state is what the run's own writes say. */
  lemma {:induction false} AlwaysTracks(run: seq<Step>)
    requires Possible(run)
    ensures Tracks(After(run), run)
  {
    if run != [] {
      var before, e := run[..|run| - 1], run[|run| - 1];
      AlwaysTracks(before);
      hide Busy, Finalized;
      match e.event
      case HandOver(_) =>
      case Record =>
      case Finalize => PendingStays(After(before).pending, After(before).note, e.now);
      case TxStart =>
      case TxEnd(_) =>
      case Watchdog(_) =>
    }
  }

  lemma PendingStays(p: Option<Pending>, note: Option<Note>, now: real)
    ensures p.Some? ==> Finalized(p.value, note, now).0 in {None, p}
  {
  }

  /** An `applied` note of a transaction is there only when that transaction ended so. */
  lemma {:induction false} NoteEarned(run: seq<Step>, id: nat)
    requires LastNote(run).Some? && LastNote(run).value.state == Applied && LastNote(run).value.owner == Some(id)
    ensures EndedApplied(run, id)
  {
    var e := run[|run| - 1].event;
    if !e.TxStart? && !e.TxEnd? && !e.Watchdog? {
      NoteEarned(run[..|run| - 1], id);
    }
  }

  // ------------------------------------------------------------------ when a key is stored

  /** The last write is an `applied` at or after the noted request's reading, and its key is not empty. */
  predicate Ripe(run: seq<Step>) {
    var p, n := LastRequest(run), LastNote(run);
    p.Some? && n.Some? && p.value.psk != "" && n.value.state == Applied && n.value.at >= p.value.at
  }

  /**
   * In every run, whatever the clock readings: finalizing stores the pending request's key exactly
   * when the last write to the result file is an `applied` no earlier than the request, and then on
   * the word of whoever wrote it.
   */
  lemma FinalizeStoresIff(run: seq<Step>, now: real)
    requires Possible(run) && After(run).pending.Some?
    ensures var kept := Next(After(run), Step(Finalize, now)).kept;
      if Ripe(run)
      then kept == After(run).kept + [Stored(LastRequest(run).value.id, LastNote(run).value.owner)]
      else kept == After(run).kept
  {
    AlwaysTracks(run);
    assert After(run).kept + [] == After(run).kept;
  }

  /**
   * In every run: finalizing ends the pending request exactly when the last write since its noting is final, as an
   * `applying` older than 180 seconds is too, or the request itself is older than that; otherwise it stays pending.
   */
  lemma FinalizeEndsIff(run: seq<Step>, now: real)
    requires Possible(run) && After(run).pending.Some?
    ensures LastRequest(run).Some?
    ensures var p, n, pending := LastRequest(run).value, LastNote(run), Next(After(run), Step(Finalize, now)).pending;
      && (pending.None? <==>
            || now - p.at > 180.0
            || (n.Some? && n.value.at >= p.at && !(n.value.state == Applying && now - n.value.at <= 180.0)))
      && (pending.Some? ==> pending == Some(p))
  {
    AlwaysTracks(run);
  }

  /**
   * In every run: the console refuses a new request exactly when the last write is an `applying` of the last 180
   * seconds, or a request noted in the last 30 seconds is pending and nothing was written since.
   */
  lemma RefusesIff(run: seq<Step>, psk: string, now: real)
    requires Possible(run) && After(run).handing.None?
    ensures var n, p := LastNote(run), LastRequest(run);
      !Enabled(After(run), Step(HandOver(psk), now)) <==>
        || (n.Some? && n.value.state == Applying && now - n.value.at <= 180.0)
        || (&& After(run).pending.Some? && p.Some? && now - p.value.at < 30.0
            && !(n.Some? && n.value.at >= p.value.at))
  {
    AlwaysTracks(run);
  }

  /** Finalizing here would store a key on a word other than its own transaction's. */
  predicate Misleads(run: seq<Step>)
    requires Possible(run)
  {
    After(run).pending.Some? && Ripe(run) && LastNote(run).value.owner != Some(LastRequest(run).value.id)
  }

  ghost predicate Earned(s: System) { forall i :: 0 <= i < |s.kept| ==> s.kept[i].owner == Some(s.kept[i].id) }

  /** Some finalizing step of the run is misled by the file. */
  predicate EverMisled(run: seq<Step>)
    requires Possible(run)
  {
    run != [] &&
    (EverMisled(run[..|run| - 1]) || (run[|run| - 1].event.Finalize? && Misleads(run[..|run| - 1])))
  }

  /** In every run, all stored keys are earned exactly when no finalizing step read another writer's `applied`. */
  lemma {:induction false} EarnedIff(run: seq<Step>)
    requires Possible(run)
    ensures Earned(After(run)) <==> !EverMisled(run)
  {
    if run != [] {
      var before, e := run[..|run| - 1], run[|run| - 1];
      EarnedIff(before);
      var s := After(before);
      if e.event.Finalize? && s.pending.Some? {
        FinalizeStoresIff(before, e.now);
        assert e == Step(Finalize, e.now);
        hide Ripe, Finalized, Busy;
        assert forall i :: 0 <= i < |s.kept| ==> After(run).kept[i] == s.kept[i];
        assert Ripe(before) ==>
          After(run).kept[|s.kept|] == Stored(LastRequest(before).value.id, LastNote(before).value.owner);
      } else {
        assert After(run).kept == s.kept;
      }
    }
  }

  // ------------------------------------------------------------------ runs in which every key is earned

  /** A transaction writes `applying` before the hand-over window closes and ends before that note goes stale. */
  predicate Prompt(s: System, now: real) {
    s.txs != [] ==>
      && (s.txs[0].since.None? && s.handing.None? && s.pending.Some? ==> now < s.pending.value.at + HAND_OVER)
      && (s.txs[0].since.Some? ==> now - s.txs[0].since.value <= STALE)
  }

  /**
   * The watchdog writes nothing between the noting of a request or the start of its transaction and
   * that transaction's end, and no `applied` between the noting of a request and its finalizing. No status call
   * finalizes an older request between the hand-over of the next one and its noting.
   */
  predicate Calm(s: System, e: Event) {
    && (e.Watchdog? ==>
          && (s.txs != [] ==> s.handing.Some? && s.txs[0].since.None?)
          && (e.state == Applied ==> s.handing.Some? || s.pending.None?))
    && (e.Finalize? ==> s.handing.None? || s.pending.None?)
  }

  function LastReading(run: seq<Step>): real { if run == [] then 0.0 else run[|run| - 1].now }

  /** Possible, prompt, calm, and at strictly increasing clock readings. */
  predicate Orderly(run: seq<Step>)
    decreases |run|, 2
  {
    Possible(run) &&
    (run == [] ||
     (var before, e := run[..|run| - 1], run[|run| - 1];
      Orderly(before) && LastReading(before) < e.now && Prompt(After(before), e.now) && Calm(After(before), e.event)))
  }

  ghost predicate TxOk(s: System) {
    && |s.txs| <= 1
    && (s.txs != [] ==>
          var t := s.txs[0];
          && (s.handing.Some? ==> s.handing.value.id == t.id)
          && (s.handing.None? && s.pending.Some? ==> s.pending.value.id == t.id)
          && (t.since.None? && s.handing.None? ==>
                s.pending.Some? && (s.note.Some? ==> s.note.value.at < s.pending.value.at))
          && (t.since.Some? ==> s.note == Some(Note(Applying, t.since.value, Some(t.id)))))
  }

  ghost predicate NoteOk(s: System, last: real) {
    && (s.note.Some? ==> s.note.value.at <= last)
    && (s.handing.None? && s.pending.Some? && s.note.Some? && s.note.value.state == Applied ==>
          s.note.value.at < s.pending.value.at || s.note.value.owner == Some(s.pending.value.id))
  }

  ghost predicate Inv(s: System, last: real) { TxOk(s) && NoteOk(s, last) }

  /** While a transaction is under way the console counts as busy. */
  lemma BusyWhileRunning(s: System, last: real, now: real)
    requires Inv(s, last) && last < now && Prompt(s, now) && s.handing.None? && s.txs != []
    ensures Busy(s.pending, s.note, now)
  {
  }

  lemma InvStep(s: System, last: real, e: Step)
    requires Inv(s, last) && last < e.now && Prompt(s, e.now) && Calm(s, e.event) && Enabled(s, e)
    ensures Inv(Next(s, e), e.now)
  {
    match e.event
    case HandOver(_) =>
      if s.txs != [] {
        BusyWhileRunning(s, last, e.now);
      }
    case Record =>
    case Finalize =>
    case TxStart =>
    case TxEnd(_) =>
    case Watchdog(_) =>
  }

  lemma {:induction false} InvHolds(run: seq<Step>)
    requires Orderly(run)
    ensures Inv(After(run), LastReading(run)) && !EverMisled(run)
  {
    if run != [] {
      var before, e := run[..|run| - 1], run[|run| - 1];
      InvHolds(before);
      InvStep(After(before), LastReading(before), e);
      AlwaysTracks(before);
      hide TxOk, Busy, Next, Prompt, Calm;
    }
  }

  /** In every orderly run a key is stored only for a request whose own transaction ended `applied`. */
  lemma KeysAreEarned(run: seq<Step>, i: nat)
    requires Orderly(run) && i < |After(run).kept|
    ensures var k := After(run).kept[i]; k.owner == Some(k.id) && EndedApplied(run, k.id)
  {
    InvHolds(run);
    EarnedIff(run);
    KeptEarned(run, i);
  }

  lemma {:induction false} KeptEarned(run: seq<Step>, i: nat)
    requires Possible(run) && i < |After(run).kept|
    requires After(run).kept[i].owner.Some?
    ensures EndedApplied(run, After(run).kept[i].owner.value)
  {
    var before, e := run[..|run| - 1], run[|run| - 1];
    var s := After(before);
    if i < |s.kept| {
      assert After(run).kept[i] == s.kept[i];
      KeptEarned(before, i);
    } else {
      FinalizeStoresIff(before, e.now);
      assert e == Step(Finalize, e.now);
      NoteEarned(before, LastNote(before).value.owner.value);
    }
  }

  // ------------------------------------------------------------------ what each hypothesis is for

  lemma Extend(run: seq<Step>, event: Event, now: real, s: System)
    requires Possible(run) && Enabled(After(run), Step(event, now)) && Next(After(run), Step(event, now)) == s
    ensures Possible(run + [Step(event, now)]) && After(run + [Step(event, now)]) == s
  {
    var more := run + [Step(event, now)];
    assert more[..|more| - 1] == run;
  }

  ghost predicate NoneApplied(run: seq<Step>) { forall i :: 0 <= i < |run| ==> run[i].event != TxEnd(Applied) }

  lemma {:induction false} NoneEnded(run: seq<Step>, id: nat)
    requires NoneApplied(run)
    ensures !EndedApplied(run, id)
  {
    if run != [] {
      NoneEnded(run[..|run| - 1], id);
    }
  }

  /** The state after one request has been handed over and noted. */
  function Noted(psk: string, at: real): System {
    System(Some(Pending(0, psk, at)), None, [Tx(0, None)], None, 1, [])
  }

  /** The state in which its transaction has written `applying`. */
  function Begun(psk: string, at: real, since: real): System {
    Noted(psk, at).(txs := [Tx(0, Some(since))], note := Some(Note(Applying, since, Some(0))))
  }

  lemma NoteFirst(psk: string, at: real) returns (run: seq<Step>)
    ensures Possible(run) && After(run) == Noted(psk, at) && NoneApplied(run)
  {
    run := [];
    var s := START.(handing := Some(Pending(0, psk, at)), next := 1, txs := [Tx(0, None)]);
    assert START.txs + [Tx(0, None)] == s.txs;
    Extend(run, HandOver(psk), at, s);
    run := run + [Step(HandOver(psk), at)];
    Extend(run, Record, at, Noted(psk, at));
    run := run + [Step(Record, at)];
  }

  lemma BeginFirst(psk: string, at: real, since: real) returns (run: seq<Step>)
    ensures Possible(run) && After(run) == Begun(psk, at, since) && NoneApplied(run)
  {
    run := NoteFirst(psk, at);
    assert [Tx(0, Some(since))] + Noted(psk, at).txs[1..] == [Tx(0, Some(since))];
    Extend(run, TxStart, since, Begun(psk, at, since));
    run := run + [Step(TxStart, since)];
  }

  /** Hand over and note a second request, when the console is not busy. */
  lemma NoteSecond(run0: seq<Step>, psk: string, at: real) returns (run: seq<Step>)
    requires Possible(run0) && After(run0).handing.None? && After(run0).next == 1
    requires !Busy(After(run0).pending, After(run0).note, at)
    ensures Possible(run)
    ensures After(run) == After(run0).(pending := Some(Pending(1, psk, at)), next := 2,
                                      txs := After(run0).txs + [Tx(1, None)])
  {
    var s := After(run0);
    var s1 := s.(handing := Some(Pending(1, psk, at)), next := 2, txs := s.txs + [Tx(1, None)]);
    Extend(run0, HandOver(psk), at, s1);
    run := run0 + [Step(HandOver(psk), at)];
    Extend(run, Record, at, s1.(handing := None, pending := Some(Pending(1, psk, at))));
    run := run + [Step(Record, at)];
  }

  lemma FinalizeLast(run0: seq<Step>, id: nat, owner: Option<nat>, now: real) returns (run: seq<Step>)
    requires Possible(run0)
    requires After(run0).pending.Some? && After(run0).note.Some? && After(run0).kept == []
    requires var p := After(run0).pending.value; p.id == id && p.psk != "" && After(run0).note.value.at >= p.at
    requires After(run0).note.value.state == Applied && After(run0).note.value.owner == owner
    ensures Possible(run) && After(run).kept == [Stored(id, owner)]
    ensures NoneApplied(run0) ==> NoneApplied(run)
  {
    var s := After(run0);
    assert s.kept + [Stored(id, owner)] == [Stored(id, owner)];
    Extend(run0, Finalize, now, s.(pending := None, kept := [Stored(id, owner)]));
    run := run0 + [Step(Finalize, now)];
  }

  /**
   * With equal readings the first transaction's success, at any moment, counts for a second request noted at
   * that moment.
   */
  lemma EqualReadingsMislead(first: string, psk: string, at: real, since: real, end: real) returns (run: seq<Step>)
    requires psk != "" && at <= since <= end
    ensures Possible(run) && After(run).kept == [Stored(1, Some(0))]
  {
    run := BeginFirst(first, at, since);
    assert Begun(first, at, since).txs[1..] == [];
    Extend(run, TxEnd(Applied), end, Begun(first, at, since).(txs := [], note := Some(Note(Applied, end, Some(0)))));
    run := run + [Step(TxEnd(Applied), end)];
    run := NoteSecond(run, psk, end);
    run := FinalizeLast(run, 1, Some(0), end);
  }

  /**
   * A transaction not started 30 seconds after its hand-over lets a second request in, and its success counts
   * for that one.
   */
  lemma SlowStartMisleads(first: string, psk: string, at: real, second: real, since: real, end: real)
    returns (run: seq<Step>)
    requires psk != "" && second - at >= HAND_OVER && second <= since <= end
    ensures Possible(run) && After(run).kept == [Stored(1, Some(0))]
  {
    run := NoteFirst(first, at);
    run := NoteSecond(run, psk, second);
    var s := After(run);
    assert s.txs == [Tx(0, None), Tx(1, None)];
    var s1 := s.(txs := [Tx(0, Some(since)), Tx(1, None)], note := Some(Note(Applying, since, Some(0))));
    assert [Tx(0, Some(since))] + s.txs[1..] == s1.txs;
    Extend(run, TxStart, since, s1);
    run := run + [Step(TxStart, since)];
    Extend(run, TxEnd(Applied), end, s1.(txs := s1.txs[1..], note := Some(Note(Applied, end, Some(0)))));
    run := run + [Step(TxEnd(Applied), end)];
    run := FinalizeLast(run, 1, Some(0), end);
  }

  /** So does a transaction still under way when its `applying` is more than 180 seconds old. */
  lemma LongRunMisleads(first: string, psk: string, at: real, since: real, second: real, end: real)
    returns (run: seq<Step>)
    requires psk != "" && at <= since && second - since > STALE && second <= end
    ensures Possible(run) && After(run).kept == [Stored(1, Some(0))]
  {
    run := BeginFirst(first, at, since);
    run := NoteSecond(run, psk, second);
    run := EndFirst(run, end);
    run := FinalizeLast(run, 1, Some(0), end);
  }

  lemma EndFirst(run0: seq<Step>, end: real) returns (run: seq<Step>)
    requires Possible(run0) && |After(run0).txs| == 2 && After(run0).txs[0].id == 0 && After(run0).txs[0].since.Some?
    ensures Possible(run)
    ensures After(run) == After(run0).(txs := After(run0).txs[1..], note := Some(Note(Applied, end, Some(0))))
  {
    var s := After(run0);
    Extend(run0, TxEnd(Applied), end, s.(txs := s.txs[1..], note := Some(Note(Applied, end, Some(0)))));
    run := run0 + [Step(TxEnd(Applied), end)];
  }

  /** A watchdog write of either state over an `applying` hides the transaction under way, with the same effect. */
  lemma WatchdogHidesRunning(first: string, psk: string, at: real, since: real, state: State, write: real,
                             second: real, end: real)
    returns (run: seq<Step>)
    requires psk != "" && state in {Applied, Hotspot} && at <= since <= write <= second <= end
    ensures Possible(run) && After(run).kept == [Stored(1, Some(0))]
  {
    run := BeginFirst(first, at, since);
    Extend(run, Watchdog(state), write, Begun(first, at, since).(note := Some(Note(state, write, None))));
    run := run + [Step(Watchdog(state), write)];
    run := NoteSecond(run, psk, second);
    run := EndFirst(run, end);
    run := FinalizeLast(run, 1, Some(0), end);
  }

  /**
   * A request whose own transaction failed gets its key stored when the watchdog reports a recovery before
   * the next status call.
   */
  lemma RecoveryMisleads(psk: string, at: real, since: real, state: State, end: real, write: real, now: real)
    returns (run: seq<Step>)
    requires psk != "" && state in {Reverted, Hotspot} && at <= since <= end <= write
    ensures Possible(run) && After(run).kept == [Stored(0, None)] && !EndedApplied(run, 0)
  {
    run := BeginFirst(psk, at, since);
    assert Begun(psk, at, since).txs[1..] == [];
    Extend(run, TxEnd(state), end, Begun(psk, at, since).(txs := [], note := Some(Note(state, end, Some(0)))));
    run := run + [Step(TxEnd(state), end)];
    Extend(run, Watchdog(Applied), write, After(run).(note := Some(Note(Applied, write, None))));
    run := run + [Step(Watchdog(Applied), write)];
    run := FinalizeLast(run, 0, None, now);
    NoneEnded(run, 0);
  }

  /**
   * A status call between the hand-over of a second request and its noting can find the first one still pending
   * and store its key on the second transaction's success, although its own transaction failed.
   */
  lemma StatusInsideApplyMisleads(psk: string, second: string, at: real, since: real, state: State, end: real,
                                  over: real, since': real, end': real, now: real) returns (run: seq<Step>)
    requires psk != "" && state in {Reverted, Hotspot} && at <= since <= end && at <= end'
    ensures Possible(run) && After(run).kept == [Stored(0, Some(1))]
  {
    run := BeginFirst(psk, at, since);
    assert Begun(psk, at, since).txs[1..] == [];
    var s1 := Begun(psk, at, since).(txs := [], note := Some(Note(state, end, Some(0))));
    Extend(run, TxEnd(state), end, s1);
    run := run + [Step(TxEnd(state), end)];
    var s2 := s1.(handing := Some(Pending(1, second, over)), next := 2, txs := [Tx(1, None)]);
    assert s1.txs + [Tx(1, None)] == s2.txs;
    Extend(run, HandOver(second), over, s2);
    run := run + [Step(HandOver(second), over)];
    var s3 := s2.(txs := [Tx(1, Some(since'))], note := Some(Note(Applying, since', Some(1))));
    assert [Tx(1, Some(since'))] + s2.txs[1..] == s3.txs;
    Extend(run, TxStart, since', s3);
    run := run + [Step(TxStart, since')];
    assert s3.txs[1..] == [];
    Extend(run, TxEnd(Applied), end', s3.(txs := [], note := Some(Note(Applied, end', Some(1)))));
    run := run + [Step(TxEnd(Applied), end')];
    run := FinalizeLast(run, 0, Some(1), now);
  }
}
