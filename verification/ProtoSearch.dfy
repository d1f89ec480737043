/** What the candidate search of `app/proto.py` finds in any message at all. */
module ProtoSearch {
  import opened Common
  import opened Utf8
  import opened Proto
  import opened ProtoWalk

  /** A value read as text; bytes that are no UTF-8 by replacement. */
  function TextOf(v: Value): string {
    match v
    case Int(_) => ""
    case Text(s) => s
    case Bytes(b) => DecodeReplace(b)
  }

  /** The text is a candidate, with or without the attribute prefix, and `bare` is it without. */
  ghost predicate CandidateText(text: string, bare: string) {
    && "candidate:" <= bare
    && (text == "a=" + bare || text == bare)
  }

  /** The value that a path of positions leads to, through the messages that the values on the way spell. */
  function At(v: Value, path: seq<nat>): Option<Value>
    decreases |path|
  {
    if path == [] then Some(v)
    else if v.Int? || path[0] >= |DecodeMessage(Inner(v))| then None
    else At(DecodeMessage(Inner(v))[path[0]].1, path[1..])
  }

  /** The path leads to a candidate. */
  ghost predicate Hits(v: Value, path: seq<nat>, bare: string) {
    At(v, path).Some? && CandidateText(TextOf(At(v, path).value), bare)
  }

  ghost predicate HitsIn(d: Dict<int, Value>, path: seq<nat>, bare: string) {
    path != [] && path[0] < |d| && Hits(d[path[0]].1, path[1..], bare)
  }

  /** The order of the search: a value before what is inside it, and that before the next value. */
  predicate Precedes(q: seq<nat>, p: seq<nat>)
    decreases |q|
  {
    p != [] && (q == [] || q[0] < p[0] || (q[0] == p[0] && Precedes(q[1..], p[1..])))
  }

  lemma CandidateIs(text: string, bare: string)
    ensures CandidateText(text, bare) <==> Normalize(text) != "" && bare == Normalize(text)
  {
    assert ("a=" + bare)[2..] == bare;
    assert "a=" <= text ==> text == "a=" + text[2..];
    assert "candidate:" <= bare ==> bare[0] == 'c';
  }

  ghost predicate NoHit(v: Value, n: nat) { forall q: seq<nat>, bare :: |q| <= n ==> !Hits(v, q, bare) }

  ghost predicate NoHitIn(d: Dict<int, Value>, n: nat) { forall q: seq<nat>, bare :: |q| <= n ==> !HitsIn(d, q, bare) }

  /** The path leads to a candidate, and no path that precedes it does. */
  ghost predicate FirstHit(v: Value, n: nat, path: seq<nat>, bare: string) {
    && |path| <= n && Hits(v, path, bare)
    && forall q: seq<nat>, other :: |q| <= n && Hits(v, q, other) ==> !Precedes(q, path)
  }

  ghost predicate FirstHitIn(d: Dict<int, Value>, n: nat, path: seq<nat>, bare: string) {
    && |path| <= n && HitsIn(d, path, bare)
    && forall q: seq<nat>, other :: |q| <= n && HitsIn(d, q, other) ==> !Precedes(q, path)
  }

  /** A value that is no candidate itself has the hits of the message inside it. */
  lemma HitsInside(v: Value, n: nat)
    requires !v.Int? && forall bare :: !CandidateText(TextOf(v), bare)
    ensures NoHitIn(DecodeMessage(Inner(v)), n) ==> NoHit(v, n)
    ensures forall path, bare :: FirstHitIn(DecodeMessage(Inner(v)), n, path, bare) ==> FirstHit(v, n, path, bare)
  {
    hide CandidateText, TextOf, DecodeMessage, Inner;
    var d := DecodeMessage(Inner(v));
    forall q: seq<nat>, bare ensures Hits(v, q, bare) <==> HitsIn(d, q, bare) {
    }
    hide Hits, HitsIn, Precedes;
  }

  lemma IntHasNone(v: Value, n: nat)
    requires v.Int?
    ensures NoHit(v, n)
  {
    forall q: seq<nat>, bare ensures !Hits(v, q, bare) {
      assert q == [] ==> At(v, q) == Some(v);
    }
  }

  lemma OwnIsFirst(v: Value, n: nat, bare: string)
    requires CandidateText(TextOf(v), bare)
    ensures FirstHit(v, n, [], bare)
  {
    hide CandidateText, TextOf;
    assert At(v, []) == Some(v);
    hide Hits;
  }

  /** One step of the search, with what a value is as text. */
  lemma ScanIs(v: Value, depth: nat)
    requires depth <= 8
    ensures v.Int? ==> Scan(v, depth) == ""
    ensures !v.Int? ==>
      var own := Normalize(TextOf(v));
      Scan(v, depth) == if own != "" then own else ScanAll(DecodeMessage(Inner(v)), depth + 1)
  {
    hide Normalize, ScanAll, DecodeMessage, Inner;
  }

  lemma {:induction false} ScanFinds(v: Value, depth: nat) returns (path: seq<nat>)
    requires depth <= 8
    ensures var r := Scan(v, depth); if r == "" then NoHit(v, 8 - depth) else FirstHit(v, 8 - depth, path, r)
    decreases 9 - depth, 1, 0
  {
    hide Normalize, CandidateText, TextOf, DecodeMessage, Inner, Scan, ScanAll, NoHit, FirstHit, NoHitIn, FirstHitIn;
    path := [];
    var own := Normalize(TextOf(v));
    ScanIs(v, depth);
    if v.Int? {
      IntHasNone(v, 8 - depth);
    } else if own != "" {
      CandidateIs(TextOf(v), own);
      OwnIsFirst(v, 8 - depth, own);
    } else {
      var d := DecodeMessage(Inner(v));
      forall bare ensures !CandidateText(TextOf(v), bare) {
        CandidateIs(TextOf(v), bare);
      }
      HitsInside(v, 8 - depth);
      if depth == 8 {
        DeepEnd(d);
        NoPathHasNone(d);
      } else {
        path := ScanAllFinds(d, depth + 1);
      }
    }
  }

  lemma NoPathHasNone(d: Dict<int, Value>)
    ensures NoHitIn(d, 0)
  {
    hide Hits;
  }

  /** Below the eighth level nothing is looked at. */
  lemma {:induction false} DeepEnd(d: Dict<int, Value>)
    ensures ScanAll(d, 9) == ""
    decreases |d|
  {
    if d != [] {
      assert Scan(d[0].1, 9) == "";
      DeepEnd(d[1..]);
    }
  }

  /** A hit in the first value is the first hit. */
  lemma HitHere(d: Dict<int, Value>, n: nat, path: seq<nat>, bare: string)
    requires d != [] && n > 0 && FirstHit(d[0].1, n - 1, path, bare)
    ensures FirstHitIn(d, n, [0] + path, bare)
  {
    hide Hits;
    var p := [0] + path;
    assert p[1..] == path;
    forall q: seq<nat>, other | |q| <= n && HitsIn(d, q, other) ensures !Precedes(q, p) {
      assert q[0] == 0 ==> Hits(d[0].1, q[1..], other);
    }
  }

  /** Hits behind the first value, one position on. */
  lemma HitsLater(d: Dict<int, Value>, q: seq<nat>, bare: string)
    requires d != [] && q != [] && q[0] > 0
    ensures HitsIn(d, q, bare) <==> HitsIn(d[1..], [q[0] - 1] + q[1..], bare)
  {
    hide Hits;
    var q' := [q[0] - 1] + q[1..];
    assert q'[1..] == q[1..];
    assert q[0] < |d| ==> d[1..][q[0] - 1] == d[q[0]];
  }

  lemma HitLater(d: Dict<int, Value>, n: nat, path: seq<nat>, bare: string)
    requires d != [] && n > 0 && NoHit(d[0].1, n - 1) && FirstHitIn(d[1..], n, path, bare)
    ensures path != [] && FirstHitIn(d, n, [path[0] + 1] + path[1..], bare)
  {
    hide Hits;
    var p := [path[0] + 1] + path[1..];
    assert p[1..] == path[1..] && [p[0] - 1] + p[1..] == path;
    HitsLater(d, p, bare);
    assert forall q: seq<nat>, other :: q != [] && |q| <= n ==> !Hits(d[0].1, q[1..], other);
    forall q: seq<nat>, other | |q| <= n && HitsIn(d, q, other) ensures !Precedes(q, p) {
      if q[0] > 0 {
        HitsLater(d, q, other);
        var q' := [q[0] - 1] + q[1..];
        assert q'[1..] == q[1..];
        assert !Precedes(q', path);
      }
    }
  }

  lemma NoHitLater(d: Dict<int, Value>, n: nat)
    requires d != [] && n > 0 && NoHit(d[0].1, n - 1) && NoHitIn(d[1..], n)
    ensures NoHitIn(d, n)
  {
    hide Hits;
    forall q: seq<nat>, bare | |q| <= n ensures !HitsIn(d, q, bare) {
      if q != [] && q[0] > 0 {
        HitsLater(d, q, bare);
        assert |[q[0] - 1] + q[1..]| <= n;
      } else if q != [] {
        assert |q[1..]| <= n - 1;
      }
    }
  }

  lemma {:induction false} ScanAllFinds(d: Dict<int, Value>, depth: nat) returns (path: seq<nat>)
    requires depth <= 8
    ensures var r := ScanAll(d, depth); if r == "" then NoHitIn(d, 9 - depth) else FirstHitIn(d, 9 - depth, path, r)
    decreases 9 - depth, 2, |d|
  {
    path := [];
    if d != [] {
      var found := Scan(d[0].1, depth);
      var first := ScanFinds(d[0].1, depth);
      assert ScanAll(d, depth) == if found != "" then found else ScanAll(d[1..], depth);
      hide Scan, ScanAll, NoHit, FirstHit, NoHitIn, FirstHitIn;
      if found != "" {
        HitHere(d, 9 - depth, first, found);
        path := [0] + first;
      } else {
        var later := ScanAllFinds(d[1..], depth);
        if ScanAll(d[1..], depth) != "" {
          HitLater(d, 9 - depth, later, ScanAll(d[1..], depth));
          path := [later[0] + 1] + later[1..];
        } else {
          NoHitLater(d, 9 - depth);
        }
      }
    }
  }

  /**
   * In every message, the search answers with nothing exactly when no value up to eight levels inside it is a
   * candidate; otherwise with the first one in the order of the fields, without its attribute prefix.
   */
  lemma SearchFinds(m: CameraMessage) returns (path: seq<nat>)
    ensures FindCandidate(m) == "" <==> NoHitIn(m.raw, 9)
    ensures FindCandidate(m) != "" ==> FirstHitIn(m.raw, 9, path, FindCandidate(m))
  {
    hide HitsIn, ScanAll, Precedes;
    path := ScanAllFinds(m.raw, 0);
  }
}
