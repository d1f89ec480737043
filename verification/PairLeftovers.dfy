/** Pair saves one after the other: what a temporary file left behind by a crash costs. */
module PairLeftovers {
  import opened Common
  import opened Utf8
  import opened PairSave

  /** The calls of a write in order, the exclusive open failing on a leftover, and the rename last but one. */
  function Calls(p: WritePlan, leftover: bool): seq<Fault> {
    [p.mkdir, if leftover && p.open == Fine then Fails else p.open, p.chmod, p.write, p.sync, p.replace, p.dirSync]
  }

  /** The first `n` calls work and the next one does not. */
  ghost predicate TroubleAt(p: WritePlan, leftover: bool, n: nat) {
    n < 7 && Calls(p, leftover)[n] != Fine && forall k :: 0 <= k < n ==> Calls(p, leftover)[k] == Fine
  }

  /**
   * How every write ends: it is done exactly when every call works; otherwise its first call that does not decides,
   * the rename having happened exactly when that is the last one, and the process having stopped exactly when that
   * call or the cleanup after its failure was a stop. A temporary file stays exactly when there was one, old or new,
   * before the rename and the cleanup did not take it away.
   */
  lemma FateMeans(p: WritePlan, leftover: bool)
    ensures FateOf(p, leftover) == Written <==> forall k :: 0 <= k < 7 ==> Calls(p, leftover)[k] == Fine
    ensures forall n: nat :: TroubleAt(p, leftover, n) ==>
      var fate := FateOf(p, leftover);
      && fate != Written
      && (Renamed(fate) <==> n == 6)
      && (fate in {StoppedBefore, StoppedAfter} <==> Calls(p, leftover)[n] == Stops || p.cleanup == Stops)
      && (TempAfter(p, leftover) <==>
            n < 6 && (leftover || n >= 2) && (Calls(p, leftover)[n] == Stops || p.cleanup != Fine))
  {
    FaultsUnfold(p, leftover);
    hide FirstFault;
    var c := Calls(p, leftover);
    assert c[0] == p.mkdir && c[2] == p.chmod && c[3] == p.write && c[4] == p.sync && c[5] == p.replace;
    assert c[1] == (if leftover && p.open == Fine then Fails else p.open) && c[6] == p.dirSync;
    hide Calls;
  }

  /** A write leaves a temporary file only when its cleanup fails or the process stops. */
  lemma CleanupCleans(p: WritePlan, leftover: bool)
    requires p.cleanup == Fine && FateOf(p, leftover) !in {StoppedBefore, StoppedAfter}
    ensures !TempAfter(p, leftover)
  {
  }

  /** The rollback of a written device document stops in its only or last call. */
  predicate RollbackHalts(device: Option<Bytes>, p: PairPlan) {
    || (device.None? && p.remove == Stops)
    || (device.Some? && p.read == Fine && FateOf(p.restore, false) in {StoppedBefore, StoppedAfter})
  }

  /**
   * The answer to every pair save, each exactly in its case: it raises on a device document that can be read and not
   * decoded, stops where a step of it stops, is saved when both writes are done, and reports a failure otherwise.
   */
  lemma SaveAnswers(was: Pair, newDevice: Bytes, newSecrets: Bytes, p: PairPlan, temps: (bool, bool))
    ensures var o := PairResult(was, newDevice, newSecrets, p, temps).1;
      var d, x := FateOf(p.device, temps.0), FateOf(p.secrets, temps.1);
      var undecodable := p.read == Fine && was.device.Some? && Decode(was.device.value).None?;
      var begun := p.read != Stops && !undecodable;
      && (o == Raised <==> undecodable)
      && (o == Halted <==>
            || p.read == Stops
            || (begun && d in {StoppedBefore, StoppedAfter})
            || (begun && d == Written && x in {StoppedBefore, StoppedAfter})
            || (begun && d == Written && x in {FailedBefore, FailedAfter} && RollbackHalts(was.device, p)))
      && (o == Saved <==> begun && d == Written && x == Written)
  {
    hide FateOf, Newlines, Decode, Encode;
  }

  datatype Shelf = Shelf(docs: Pair, temps: (bool, bool))

  datatype Save = Save(device: Bytes, secrets: Bytes, plan: PairPlan)

  function Kept(s: Shelf, v: Save): Shelf {
    Shelf(PairResult(s.docs, v.device, v.secrets, v.plan, s.temps).0, TempsAfter(s.docs, v.plan, s.temps))
  }

  function Answer(s: Shelf, v: Save): Outcome { PairResult(s.docs, v.device, v.secrets, v.plan, s.temps).1 }

  function After(s: Shelf, saves: seq<Save>): Shelf
    decreases |saves|
  {
    if saves == [] then s else After(Kept(s, saves[0]), saves[1..])
  }

  function Leftovers(temps: (bool, bool)): nat { (if temps.0 then 1 else 0) + (if temps.1 then 1 else 0) }

  /** The cleanups of the save work, and the process does not stop in it. */
  ghost predicate Orderly(s: Shelf, v: Save) {
    && v.plan.device.cleanup == Fine && v.plan.secrets.cleanup == Fine && v.plan.restore.cleanup == Fine
    && Answer(s, v) != Halted
  }

  ghost predicate AllOrderly(s: Shelf, saves: seq<Save>)
    decreases |saves|
  {
    saves == [] || (Orderly(s, saves[0]) && AllOrderly(Kept(s, saves[0]), saves[1..]))
  }

  /** The save fails although without the leftovers it would have worked. */
  predicate Spoilt(s: Shelf, v: Save) {
    Answer(s, v) != Saved && Answer(s.(temps := (false, false)), v) == Saved
  }

  function SpoiltCount(s: Shelf, saves: seq<Save>): nat
    decreases |saves|
  {
    if saves == [] then 0 else (if Spoilt(s, saves[0]) then 1 else 0) + SpoiltCount(Kept(s, saves[0]), saves[1..])
  }

  /** An orderly save adds no leftover, and one that a leftover spoils removes one. */
  lemma LeftoversGo(s: Shelf, v: Save)
    requires Orderly(s, v)
    ensures Leftovers(Kept(s, v).temps) + (if Spoilt(s, v) then 1 else 0) <= Leftovers(s.temps)
  {
    var p, d, x := v.plan, FateOf(v.plan.device, s.temps.0), FateOf(v.plan.secrets, s.temps.1);
    if d !in {StoppedBefore, StoppedAfter} {
      CleanupCleans(p.device, s.temps.0);
    }
    if x !in {StoppedBefore, StoppedAfter} {
      CleanupCleans(p.secrets, s.temps.1);
    }
    if FateOf(p.restore, false) !in {StoppedBefore, StoppedAfter} {
      CleanupCleans(p.restore, false);
    }
    hide FateOf, TempAfter, Restored;
  }

  /** Over every run of orderly saves, each leftover spoils at most one. */
  lemma {:induction false} LeftoverCostsOne(s: Shelf, saves: seq<Save>)
    requires AllOrderly(s, saves)
    ensures SpoiltCount(s, saves) + Leftovers(After(s, saves).temps) <= Leftovers(s.temps)
    decreases |saves|
  {
    hide Orderly, Spoilt, Kept;
    if saves != [] {
      LeftoversGo(s, saves[0]);
      LeftoverCostsOne(Kept(s, saves[0]), saves[1..]);
    }
  }

  const FINE := PairPlan(Fine, ALL_FINE, ALL_FINE, Fine, ALL_FINE)

  lemma FineFates()
    ensures FateOf(ALL_FINE, false) == Written && FateOf(ALL_FINE, true) == FailedBefore
    ensures !TempAfter(ALL_FINE, false) && !TempAfter(ALL_FINE, true)
  {
    FaultsUnfold(ALL_FINE, false);
    FaultsUnfold(ALL_FINE, true);
    hide FirstFault;
  }

  /**
   * Saves in which every call works, on a readable device document: the first fail while there are leftovers, one
   * for each, and all the others are saved and leave both new documents.
   */
  lemma {:induction false} FineSaves(s: Shelf, saves: seq<Save>, n: nat)
    requires s.docs.device.Some? ==> Decode(s.docs.device.value).Some?
    requires forall k :: 0 <= k < |saves| ==> saves[k].plan == FINE && Decode(saves[k].device).Some?
    requires n < |saves|
    ensures Answer(After(s, saves[..n]), saves[n]) == if n < Leftovers(s.temps) then NotSaved else Saved
    ensures n >= Leftovers(s.temps) ==>
      After(s, saves[..n + 1]) == Shelf(Pair(Some(saves[n].device), Some(saves[n].secrets)), (false, false))
    decreases n
  {
    FineSave(s, saves[0]);
    if n == 0 {
      assert saves[..1][1..] == [];
      assert After(s, saves[..1]) == After(Kept(s, saves[0]), []);
    } else {
      var s1 := Kept(s, saves[0]);
      assert saves[..n][1..] == saves[1..][..n - 1] && saves[..n + 1][1..] == saves[1..][..n];
      hide Kept, Answer, Decode;
      FineSaves(s1, saves[1..], n - 1);
    }
  }

  lemma FineSave(s: Shelf, v: Save)
    requires (s.docs.device.Some? ==> Decode(s.docs.device.value).Some?) && v.plan == FINE && Decode(v.device).Some?
    ensures Answer(s, v) == if Leftovers(s.temps) > 0 then NotSaved else Saved
    ensures Leftovers(Kept(s, v).temps) == if Leftovers(s.temps) > 0 then Leftovers(s.temps) - 1 else 0
    ensures Kept(s, v).docs.device.Some? ==> Decode(Kept(s, v).docs.device.value).Some?
    ensures Leftovers(s.temps) == 0 ==> Kept(s, v) == Shelf(Pair(Some(v.device), Some(v.secrets)), (false, false))
  {
    FineFates();
    if s.docs.device.Some? {
      DecodeEncode(Newlines(Decode(s.docs.device.value).value));
    }
    hide FateOf, TempAfter, Decode, Encode, Newlines;
  }
}
