/** The console's side of a network change: `NetworkController` of `app/network_settings.py`. */
module NetworkKey {
  import opened Common
  import NetworkApply

  const STALE := 180.0
  const HAND_OVER := 30.0

  /** The result file; `owner` names the transaction that wrote it, `None` the watchdog, and is not in the file. */
  datatype Note = Note(state: NetworkApply.State, at: real, owner: Option<nat>)

  datatype Pending = Pending(id: nat, psk: string, at: real)

  /** A reader sees an old `applying` as `reverted`. */
  function StateSeen(n: Note, now: real): NetworkApply.State {
    if n.state == NetworkApply.Applying && now - n.at > STALE then NetworkApply.Reverted else n.state
  }

  /** The state of the result written since the pending request, if any. */
  function ResultFor(p: Pending, note: Option<Note>, now: real): Option<NetworkApply.State> {
    if note.None? || note.value.at < p.at then None else Some(StateSeen(note.value, now))
  }

  predicate Busy(pending: Option<Pending>, note: Option<Note>, now: real) {
    || (note.Some? && StateSeen(note.value, now) == NetworkApply.Applying)
    || (pending.Some? && now - pending.value.at < HAND_OVER && ResultFor(pending.value, note, now).None?)
  }

  /** What finalizing makes of the pending request, and the key it stores. */
  function Finalized(p: Pending, note: Option<Note>, now: real): (Option<Pending>, Option<string>) {
    var r := ResultFor(p, note, now);
    if r.None? || r.value == NetworkApply.Applying
    then (if now - p.at > STALE then None else Some(p), None)
    else (None, if r.value == NetworkApply.Applied && p.psk != "" then Some(p.psk) else None)
  }

  /** The helper's answer: it accepts, an old one does not know the verb, or it fails otherwise. */
  datatype Answer = Accepted | UnknownVerb | Refused

  class NetworkController {
    var pending: Option<Pending>
    /** Every key stored, newest last. */
    var stored: seq<string>

    constructor ()
      ensures pending == None && stored == []
    {
      pending, stored := None, [];
    }

    /**
     * `helper` is whether there is one at all, `answer` what it says, and `id` stands for the transaction it starts;
     * the clock is read after it.
     */
    method Apply(id: nat, psk: string, note: Option<Note>, now: real, helper: bool, answer: Answer, after: real)
      returns (status: int)
      modifies this`pending
      ensures status == 409 <==> helper && Busy(old(pending), note, now)
      ensures status == 202 <==> helper && !Busy(old(pending), note, now) && answer == Accepted
      ensures status == 501 <==> !helper || (!Busy(old(pending), note, now) && answer == UnknownVerb)
      ensures status in {202, 409, 501, 502}
      ensures pending == if status == 202 then Some(Pending(id, psk, after)) else old(pending)
    {
      if !helper {
        return 501;
      }
      if Busy(pending, note, now) {
        return 409;
      }
      if answer != Accepted {
        return if answer == UnknownVerb then 501 else 502;
      }
      pending := Some(Pending(id, psk, after));
      return 202;
    }

    method Finalize(note: Option<Note>, now: real)
      modifies this
      ensures old(pending).None? ==> pending == None && stored == old(stored)
      ensures old(pending).Some? ==>
        var (p, key) := Finalized(old(pending).value, note, now);
        pending == p && stored == old(stored) + if key.Some? then [key.value] else []
    {
      if pending.None? {
        return;
      }
      var p := pending.value;
      var result := ResultFor(p, note, now);
      if result.None? || result.value == NetworkApply.Applying {
        if now - p.at > STALE {
          pending := None;
        }
        return;
      }
      pending := None;
      if result.value == NetworkApply.Applied && p.psk != "" {
        stored := stored + [p.psk];
      }
    }
  }
}
