/**
 * Atomic writes and the rollback of the device/secrets pair of `app/config_schema.py`, for every
 * pattern of failing calls and for a stop between any two steps.
 */
module PairSave {
  import opened Common
  import opened Utf8

  type Bytes = seq<byte>

  /** How one call into the file system ends: it works, it raises `OSError`, or the process stops before it. */
  datatype Fault = Fine | Fails | Stops

  /**
   * The calls of one atomic write. `sync` stands for flushing, syncing and closing the temporary
   * file, `dirSync` for the directory sync, which raises only from its closing call, and `partial`
   * is how much of the text a failing write leaves behind.
   */
  datatype WritePlan = WritePlan(
    mkdir: Fault, open: Fault, chmod: Fault, write: Fault, partial: nat, sync: Fault,
    replace: Fault, dirSync: Fault, cleanup: Fault)

  /** How far an atomic write got: whether the rename happened, and whether it ended by an error or a stop. */
  datatype Fate = Written | FailedBefore | FailedAfter | StoppedBefore | StoppedAfter

  function TempOf(path: string): string { path + ".tmp" }

  function FirstFault(faults: seq<Fault>): Fault {
    if faults == [] then Fine else if faults[0] != Fine then faults[0] else FirstFault(faults[1..])
  }

  /** The fate of a write; an existing temporary file makes the exclusive open fail. */
  function FateOf(p: WritePlan, tempExists: bool): Fate {
    var open := if p.open == Fine && tempExists then Fails else p.open;
    var before := FirstFault([p.mkdir, open, p.chmod, p.write, p.sync, p.replace]);
    if before == Stops || (before == Fails && p.cleanup == Stops) then StoppedBefore
    else if before == Fails then FailedBefore
    else if p.dirSync == Stops || (p.dirSync == Fails && p.cleanup == Stops) then StoppedAfter
    else if p.dirSync == Fails then FailedAfter
    else Written
  }

  predicate Renamed(f: Fate) { f in {Written, FailedAfter, StoppedAfter} }

  /** Whether the write leaves a temporary file: its own or an old one that neither a rename nor a cleanup took away. */
  predicate TempAfter(p: WritePlan, tempExists: bool) {
    var fate := FateOf(p, tempExists);
    && !Renamed(fate)
    && !(fate == FailedBefore && p.cleanup == Fine)
    && (tempExists || (p.mkdir == Fine && p.open == Fine))
  }

  /** Reading in text mode turns every line ending into a line feed. */
  function Newlines(t: string): string {
    if t == "" then ""
    else if |t| > 1 && t[0] == '\r' && t[1] == '\n' then "\n" + Newlines(t[2..])
    else [if t[0] == '\r' then '\n' else t[0]] + Newlines(t[1..])
  }

  /** What a rollback writes for a document it read, or `None` when the document is not UTF-8. */
  function Restored(was: Bytes): Option<Bytes> {
    var t := Decode(was);
    if t.None? then None else Some(Encode(Newlines(t.value)))
  }

  // ------------------------------------------------------------------ what a pair save does to the two documents

  datatype PairPlan = PairPlan(read: Fault, device: WritePlan, secrets: WritePlan, remove: Fault, restore: WritePlan)

  datatype Outcome = Saved | NotSaved | Raised | Halted

  datatype Pair = Pair(device: Option<Bytes>, secrets: Option<Bytes>)

  /** The device document after the rollback of a written one. */
  function RolledBack(was: Option<Bytes>, written: Bytes, p: PairPlan): Option<Bytes> {
    if was.None? then if p.remove == Fine then None else Some(written)
    else if p.read == Fails || !Renamed(FateOf(p.restore, false)) then Some(written)
    else Restored(was.value)
  }

  predicate RollbackStops(was: Option<Bytes>, p: PairPlan) {
    if was.None? then p.remove == Stops
    else p.read == Fine && FateOf(p.restore, false) in {StoppedBefore, StoppedAfter}
  }

  function PairResult(was: Pair, newDevice: Bytes, newSecrets: Bytes, p: PairPlan, temps: (bool, bool))
    : (Pair, Outcome)
  {
    var device, secrets := FateOf(p.device, temps.0), FateOf(p.secrets, temps.1);
    var now1 := if Renamed(device) then was.(device := Some(newDevice)) else was;
    var now2 := if Renamed(secrets) then now1.(secrets := Some(newSecrets)) else now1;
    if p.read == Stops then (was, Halted)
    else if p.read == Fine && was.device.Some? && Restored(was.device.value).None? then (was, Raised)
    else if device in {StoppedBefore, StoppedAfter} then (now1, Halted)
    else if device != Written then (now1, NotSaved)
    else if secrets in {StoppedBefore, StoppedAfter} then (now2, Halted)
    else if secrets == Written then (now2, Saved)
    else
      (now2.(device := RolledBack(was.device, newDevice, p)),
       if RollbackStops(was.device, p) then Halted else NotSaved)
  }

  /** Which of the two temporary files a pair save leaves. */
  function TempsAfter(was: Pair, p: PairPlan, temps: (bool, bool)): (bool, bool) {
    var device, secrets := FateOf(p.device, temps.0), FateOf(p.secrets, temps.1);
    if p.read == Stops || (p.read == Fine && was.device.Some? && Restored(was.device.value).None?) then temps
    else if device != Written then (TempAfter(p.device, temps.0), temps.1)
    else
      (secrets in {FailedBefore, FailedAfter} && was.device.Some? && p.read == Fine && TempAfter(p.restore, false),
       TempAfter(p.secrets, temps.1))
  }

  // ------------------------------------------------------------------ the steps

  function Find(m: map<string, Bytes>, q: string): Option<Bytes> { if q in m then Some(m[q]) else None }

  class Disk {
    var files: map<string, Bytes>

    constructor (files: map<string, Bytes>)
      ensures this.files == files
    {
      this.files := files;
    }

    function Doc(path: string): Option<Bytes>
      reads this
    {
      Find(files, path)
    }

    /** Remove the temporary file, ignoring errors. */
    method Cleanup(path: string, p: WritePlan) returns (stopped: bool)
      modifies this
      ensures files - {TempOf(path)} == old(files) - {TempOf(path)}
      ensures TempOf(path) in files <==> TempOf(path) in old(files) && p.cleanup != Fine
      ensures stopped <==> p.cleanup == Stops
    {
      if p.cleanup == Stops {
        return true;
      }
      if p.cleanup == Fine {
        files := files - {TempOf(path)};
      }
      return false;
    }

    method Abort(path: string, fault: Fault, p: WritePlan) returns (fate: Fate)
      requires fault != Fine
      modifies this
      ensures files - {TempOf(path)} == old(files) - {TempOf(path)}
      ensures TempOf(path) in files <==> TempOf(path) in old(files) && (fault == Stops || p.cleanup != Fine)
      ensures fate == if fault == Stops || p.cleanup == Stops then StoppedBefore else FailedBefore
    {
      if fault == Stops {
        return StoppedBefore;
      }
      var stopped := Cleanup(path, p);
      return if stopped then StoppedBefore else FailedBefore;
    }

    method WriteSteps(path: string, data: Bytes, p: WritePlan) returns (fate: Fate)
      modifies this
      ensures fate == FateOf(p, TempOf(path) in old(files))
      ensures files - {TempOf(path)}
              == (if Renamed(fate) then old(files)[path := data] else old(files)) - {TempOf(path)}
      ensures TempOf(path) in files <==> TempAfter(p, TempOf(path) in old(files))
    {
      assert |TempOf(path)| == |path| + 4;
      var temp := TempOf(path);
      FaultsUnfold(p, temp in files);
      if p.mkdir != Fine {
        fate := Abort(path, p.mkdir, p);
        return;
      }
      var open := if p.open == Fine && temp in files then Fails else p.open;
      if open != Fine {
        fate := Abort(path, open, p);
        return;
      }
      files := files[temp := []];
      if p.chmod != Fine {
        fate := Abort(path, p.chmod, p);
        return;
      }
      if p.write != Fine {
        files := files[temp := Take(data, p.partial)];
        fate := Abort(path, p.write, p);
        return;
      }
      files := files[temp := data];
      if p.sync != Fine {
        fate := Abort(path, p.sync, p);
        return;
      }
      if p.replace != Fine {
        fate := Abort(path, p.replace, p);
        return;
      }
      files := (files - {temp})[path := data];
      if p.dirSync == Stops {
        return StoppedAfter;
      }
      if p.dirSync == Fails {
        var stopped := Cleanup(path, p);
        return if stopped then StoppedAfter else FailedAfter;
      }
      return Written;
    }

    /** The document is as the fate says, wholly old or wholly new, and every file but the temporary one as it was. */
    method WriteAtomic(path: string, data: Bytes, p: WritePlan) returns (fate: Fate)
      modifies this
      ensures fate == FateOf(p, TempOf(path) in old(files))
      ensures Doc(path) == if Renamed(fate) then Some(data) else old(Doc(path))
      ensures forall q :: q != path && q != TempOf(path) ==> Doc(q) == old(Doc(q))
      ensures TempOf(path) in files <==> TempAfter(p, TempOf(path) in old(files))
    {
      assert |TempOf(path)| == |path| + 4;
      hide FateOf, TempAfter;
      fate := WriteSteps(path, data, p);
      LookupsAgree(files, if Renamed(fate) then old(files)[path := data] else old(files), TempOf(path));
    }

    /** Put the old device document back, or remove the new one when there was none. */
    method RestoreText(path: string, existed: bool, text: Option<string>, p: PairPlan) returns (stopped: bool)
      requires TempOf(path) !in files
      modifies this
      ensures forall q :: q != path && q != TempOf(path) ==> Doc(q) == old(Doc(q))
      ensures !existed ==>
        && Doc(path) == (if p.remove == Fine then None else old(Doc(path)))
        && (stopped <==> p.remove == Stops)
      ensures existed && text.None? ==> Doc(path) == old(Doc(path)) && !stopped
      ensures existed && text.Some? ==>
        && Doc(path) == (if Renamed(FateOf(p.restore, false)) then Some(Encode(text.value)) else old(Doc(path)))
        && (stopped <==> FateOf(p.restore, false) in {StoppedBefore, StoppedAfter})
      ensures TempOf(path) in files <==> existed && text.Some? && TempAfter(p.restore, false)
    {
      if !existed {
        if p.remove == Fine {
          files := files - {path};
        }
        return p.remove == Stops;
      }
      if text.None? {
        return false;
      }
      var fate := WriteAtomic(path, Encode(text.value), p.restore);
      return fate in {StoppedBefore, StoppedAfter};
    }

    /** The text of a document: `existed`, its text when readable, and whether decoding it raised. */
    method ReadText(path: string, p: PairPlan) returns (existed: bool, text: Option<string>, raised: bool)
      ensures existed <==> Doc(path).Some?
      ensures raised <==> existed && p.read == Fine && Restored(Doc(path).value).None?
      ensures text.Some? <==> existed && p.read == Fine && !raised
      ensures text.Some? ==> Restored(Doc(path).value) == Some(Encode(text.value))
    {
      if path !in files {
        return false, None, false;
      }
      if p.read != Fine {
        return true, None, false;
      }
      var t := Decode(files[path]);
      if t.None? {
        return true, None, true;
      }
      return true, Some(Newlines(t.value)), false;
    }

    method SavePair(device: string, secrets: string, newDevice: Bytes, newSecrets: Bytes, p: PairPlan)
      returns (outcome: Outcome)
      requires device != secrets && device != TempOf(secrets) && secrets != TempOf(device)
      modifies this
      ensures (Pair(Doc(device), Doc(secrets)), outcome)
              == PairResult(old(Pair(Doc(device), Doc(secrets))), newDevice, newSecrets, p,
                            (TempOf(device) in old(files), TempOf(secrets) in old(files)))
      ensures (TempOf(device) in files, TempOf(secrets) in files)
              == TempsAfter(old(Pair(Doc(device), Doc(secrets))), p,
                            (TempOf(device) in old(files), TempOf(secrets) in old(files)))
      ensures forall q :: q !in {device, secrets, TempOf(device), TempOf(secrets)} ==> Doc(q) == old(Doc(q))
    {
      Apart(device, secrets);
      hide FateOf, Restored, TempAfter;
      if p.read == Stops {
        return Halted;
      }
      var existed, text, raised := ReadText(device, p);
      if raised {
        return Raised;
      }
      assert Find(files, TempOf(secrets)).Some? <==> TempOf(secrets) in files;
      var fate := WriteAtomic(device, newDevice, p.device);
      assert Doc(TempOf(secrets)) == old(Doc(TempOf(secrets)));
      if fate != Written {
        return if fate in {StoppedBefore, StoppedAfter} then Halted else NotSaved;
      }
      assert TempOf(device) !in files by { WrittenLeavesNone(p.device, TempOf(device) in old(files)); }
      outcome := SaveSecrets(device, secrets, newSecrets, existed, text, p);
    }

    /** The second half: the secrets, and the rollback when their write fails. */
    method SaveSecrets(device: string, secrets: string, data: Bytes, existed: bool, text: Option<string>, p: PairPlan)
      returns (outcome: Outcome)
      requires device != secrets && device != TempOf(secrets) && secrets != TempOf(device)
      requires TempOf(device) !in files
      modifies this
      ensures var fate := FateOf(p.secrets, TempOf(secrets) in old(files));
        var failed := fate in {FailedBefore, FailedAfter};
        && Doc(secrets) == (if Renamed(fate) then Some(data) else old(Doc(secrets)))
        && Doc(device) == (if !failed then old(Doc(device))
                           else if !existed then if p.remove == Fine then None else old(Doc(device))
                           else if text.Some? && Renamed(FateOf(p.restore, false)) then Some(Encode(text.value))
                           else old(Doc(device)))
        && (TempOf(secrets) in files <==> TempAfter(p.secrets, TempOf(secrets) in old(files)))
        && (TempOf(device) in files <==> failed && existed && text.Some? && TempAfter(p.restore, false))
        && outcome == (if fate in {StoppedBefore, StoppedAfter} then Halted
                       else if fate == Written then Saved
                       else if !existed then if p.remove == Stops then Halted else NotSaved
                       else if text.Some? && FateOf(p.restore, false) in {StoppedBefore, StoppedAfter} then Halted
                       else NotSaved)
      ensures forall q :: q !in {device, secrets, TempOf(device), TempOf(secrets)} ==> Doc(q) == old(Doc(q))
    {
      Apart(device, secrets);
      hide FateOf, TempAfter;
      assert Doc(TempOf(device)).None?;
      var fate := WriteAtomic(secrets, data, p.secrets);
      assert Doc(TempOf(device)).None?;
      if fate in {StoppedBefore, StoppedAfter} {
        return Halted;
      }
      if fate == Written {
        return Saved;
      }
      ghost var temp := Doc(TempOf(secrets));
      var stopped := RestoreText(device, existed, text, p);
      assert Doc(TempOf(secrets)) == temp && Doc(secrets) == if Renamed(fate) then Some(data) else old(Doc(secrets));
      return if stopped then Halted else NotSaved;
    }
  }

  lemma Apart(device: string, secrets: string)
    requires device != secrets
    ensures TempOf(device) != TempOf(secrets) && TempOf(device) != device && TempOf(secrets) != secrets
  {
    assert |TempOf(device)| == |device| + 4 && |TempOf(secrets)| == |secrets| + 4;
    assert TempOf(device)[..|device|] == device && TempOf(secrets)[..|secrets|] == secrets;
  }

  lemma WrittenLeavesNone(p: WritePlan, tempExists: bool)
    requires FateOf(p, tempExists) == Written
    ensures !TempAfter(p, tempExists)
  {
  }

  lemma FaultsUnfold(p: WritePlan, tempExists: bool)
    ensures var open := if p.open == Fine && tempExists then Fails else p.open;
      FirstFault([p.mkdir, open, p.chmod, p.write, p.sync, p.replace]) ==
        if p.mkdir != Fine then p.mkdir else if open != Fine then open else if p.chmod != Fine then p.chmod
        else if p.write != Fine then p.write else if p.sync != Fine then p.sync else p.replace
  {
    var open := if p.open == Fine && tempExists then Fails else p.open;
    var f := [p.mkdir, open, p.chmod, p.write, p.sync, p.replace];
    assert f[1..][1..] == f[2..] && f[2..][1..] == f[3..] && f[3..][1..] == f[4..] && f[4..][1..] == f[5..];
    assert f[5..][1..] == [];
    assert FirstFault(f[5..]) == p.replace;
    assert FirstFault(f[4..]) == if p.sync != Fine then p.sync else p.replace;
    assert FirstFault(f[3..]) == if p.write != Fine then p.write else FirstFault(f[4..]);
    assert FirstFault(f[2..]) == if p.chmod != Fine then p.chmod else FirstFault(f[3..]);
    assert FirstFault(f[1..]) == if open != Fine then open else FirstFault(f[2..]);
  }

  lemma LookupsAgree(a: map<string, Bytes>, b: map<string, Bytes>, temp: string)
    requires a - {temp} == b - {temp}
    ensures forall q :: q != temp ==> Find(a, q) == Find(b, q)
  {
    forall q | q != temp ensures Find(a, q) == Find(b, q) {
      assert q in a <==> q in a - {temp};
      assert q in b <==> q in b - {temp};
      if q in a {
        assert (a - {temp})[q] == (b - {temp})[q];
      }
    }
  }

  // ------------------------------------------------------------------ theorems

  lemma {:induction false} NewlinesSame(t: string)
    ensures '\r' !in t ==> Newlines(t) == t
    ensures '\r' !in Newlines(t)
    decreases |t|
  {
    if t != "" {
      NewlinesSame(t[1..]);
      if |t| > 1 {
        NewlinesSame(t[2..]);
      }
    }
  }

  /** A rollback writes the very bytes it read exactly when the old text has no carriage return. */
  lemma RestoredSameIff(b: Bytes)
    requires Decode(b).Some?
    ensures Restored(b) == Some(b) <==> '\r' !in Decode(b).value
  {
    var t := Decode(b).value;
    NewlinesSame(t);
    EncodeDecode(b);
    DecodeEncode(Newlines(t));
    DecodeEncode(t);
  }

  /** The old device document survives a rollback: it is absent, not UTF-8, or free of carriage returns. */
  predicate Plain(device: Option<Bytes>) {
    device.Some? ==> var t := Decode(device.value); t.Some? ==> '\r' !in t.value
  }

  /**
   * Even the document a rollback rewrites is wholly old or wholly new: it is plain, or rewriting makes it the
   * new one.
   */
  predicate Unharmed(device: Option<Bytes>, newDevice: Bytes) {
    Plain(device) || Restored(device.value) == Some(newDevice)
  }

  /**
   * For every plan, each document is wholly old or wholly new, if the rollback does no harm to the device
   * document; and success is reported exactly when both writes ran to their end, which leaves both new.
   */
  lemma NothingTorn(was: Pair, newDevice: Bytes, newSecrets: Bytes, p: PairPlan, temps: (bool, bool))
    ensures var (r, o) := PairResult(was, newDevice, newSecrets, p, temps);
      && r.secrets in {was.secrets, Some(newSecrets)}
      && (Unharmed(was.device, newDevice) ==> r.device in {was.device, Some(newDevice)})
      && (o == Saved ==> r == Pair(Some(newDevice), Some(newSecrets)))
      && (o == Saved <==>
            && p.read != Stops && (was.device.Some? && p.read == Fine ==> Decode(was.device.value).Some?)
            && FateOf(p.device, temps.0) == Written && FateOf(p.secrets, temps.1) == Written)
  {
    hide FateOf, Newlines, Decode, Encode;
    if was.device.Some? && Decode(was.device.value).Some? {
      RestoredSameIff(was.device.value);
    }
  }

  const ALL_FINE := WritePlan(Fine, Fine, Fine, Fine, 0, Fine, Fine, Fine, Fine)

  lemma AllFineWrites()
    ensures FateOf(ALL_FINE, false) == Written
    ensures FateOf(ALL_FINE.(mkdir := Fails), false) == FailedBefore
    ensures FateOf(ALL_FINE.(dirSync := Fails), false) == FailedAfter
  {
    FaultsUnfold(ALL_FINE, false);
    FaultsUnfold(ALL_FINE.(mkdir := Fails), false);
    FaultsUnfold(ALL_FINE.(dirSync := Fails), false);
    hide FirstFault;
  }

  /** Otherwise some plan leaves a device document that is neither: the rollback rewrites its line endings. */
  lemma CarriageReturnTorn(was: Pair, newDevice: Bytes, newSecrets: Bytes)
    requires !Unharmed(was.device, newDevice)
    ensures var p := PairPlan(Fine, ALL_FINE, ALL_FINE.(mkdir := Fails), Fine, ALL_FINE);
      var (r, o) := PairResult(was, newDevice, newSecrets, p, (false, false));
      o == NotSaved && r.device !in {was.device, Some(newDevice)}
  {
    AllFineWrites();
    hide FateOf, Newlines, Decode, Encode;
    RestoredSameIff(was.device.value);
  }

  /** No plan tears the device document exactly when a rollback does it no harm. */
  lemma NeverTornIff(was: Pair, newDevice: Bytes, newSecrets: Bytes)
    ensures (forall p, temps ::
               PairResult(was, newDevice, newSecrets, p, temps).0.device in {was.device, Some(newDevice)})
            <==> Unharmed(was.device, newDevice)
  {
    hide PairResult, Unharmed;
    if Unharmed(was.device, newDevice) {
      forall p, temps
        ensures PairResult(was, newDevice, newSecrets, p, temps).0.device in {was.device, Some(newDevice)}
      {
        NothingTorn(was, newDevice, newSecrets, p, temps);
      }
    } else {
      CarriageReturnTorn(was, newDevice, newSecrets);
    }
  }

  /** The rollback put the old device document back. */
  predicate RollbackWorks(device: Option<Bytes>, p: PairPlan) {
    if device.None? then p.remove == Fine
    else p.read == Fine && Renamed(FateOf(p.restore, false)) && Plain(device)
  }

  /** The rollback left the written device document in place. */
  predicate RollbackSkips(p: PairPlan) { p.read == Fails || !Renamed(FateOf(p.restore, false)) }

  /**
   * A reported failure leaves both old documents exactly when the failing write had not yet renamed its file, or
   * its document was not to change, and, if that was the secrets write, the rollback put the device document
   * back or left one that was not to change.
   */
  lemma NotSavedIsOldIff(was: Pair, newDevice: Bytes, newSecrets: Bytes, p: PairPlan, temps: (bool, bool))
    requires PairResult(was, newDevice, newSecrets, p, temps).1 == NotSaved
    ensures var device, secrets := FateOf(p.device, temps.0), FateOf(p.secrets, temps.1);
      PairResult(was, newDevice, newSecrets, p, temps).0 == was <==>
        || device == FailedBefore
        || (device == FailedAfter && was.device == Some(newDevice))
        || (&& device == Written
            && (secrets == FailedBefore || was.secrets == Some(newSecrets))
            && (RollbackWorks(was.device, p) || (was.device == Some(newDevice) && RollbackSkips(p))))
  {
    hide FateOf, Newlines, Decode, Encode;
    if was.device.Some? && Decode(was.device.value).Some? {
      RestoredSameIff(was.device.value);
    }
  }

  /** A directory sync that fails after the rename reports failure although the new device document is in place. */
  lemma LateFailureIsNew(was: Pair, newDevice: Bytes, newSecrets: Bytes)
    requires was.device.Some? ==> Decode(was.device.value).Some?
    ensures var p := PairPlan(Fine, ALL_FINE.(dirSync := Fails), ALL_FINE, Fine, ALL_FINE);
      PairResult(was, newDevice, newSecrets, p, (false, false)) == (was.(device := Some(newDevice)), NotSaved)
  {
    AllFineWrites();
    hide FateOf, Newlines, Decode, Encode;
  }
}
