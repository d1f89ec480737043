/** Which secrets survive redaction: exactly, for one secret alone and for one among others. */
module RedactExact {
  import opened Common
  import opened Redact

  // ------------------------------------------------------------------ plain secrets

  /** A secret without angle brackets that is no part of the word `redacted` is safe. */
  lemma PlainIsSafe(t: string)
    requires t != "" && '<' !in t && '>' !in t && !Contains("redacted", t)
    ensures Safe(t)
  {
    forall k | 0 <= k < |t| ensures !Agree(t[k..], REDACTED) {
      assert t[k..][0] == t[k] && t[k] in t;
    }
    forall j | 0 <= j < |REDACTED| ensures !Agree(REDACTED[j..], t) {
      InsideMarker(t, j);
      AroundMarker(t, j);
    }
  }

  lemma InsideMarker(t: string, j: nat)
    requires t != "" && '<' !in t && '>' !in t && j < |REDACTED|
    ensures t <= REDACTED[j..] ==> Contains("redacted", t)
  {
    if t <= REDACTED[j..] {
      assert REDACTED[j] == t[0] && t[0] in t;
      assert REDACTED[j + |t| - 1] == t[|t| - 1] && t[|t| - 1] in t;
      assert 1 <= j && j + |t| <= 9;
      assert "redacted" == REDACTED[1..9];
      var marker := REDACTED;
      assert t == marker[j..][..|t|];
      Slices(marker, t, j);
      assert OccursAt("redacted", t, j - 1);
    }
  }

  lemma Slices(m: string, t: string, j: nat)
    requires 1 <= j && j + |t| <= 9 <= |m| && t == m[j..][..|t|]
    ensures m[1..9][j - 1..j - 1 + |t|] == t
  {
    assert m[1..9][j - 1..j - 1 + |t|] == m[j..j + |t|] == m[j..][..|t|];
  }

  lemma AroundMarker(t: string, j: nat)
    requires j < |REDACTED|
    ensures REDACTED[j..] <= t ==> '>' in t
  {
    if REDACTED[j..] <= t {
      assert t[9 - j] == REDACTED[j..][9 - j] == '>';
    }
  }

  // ------------------------------------------------------------------ one secret alone

  /** The marker begins inside `t` at `k`, and `t[..k]` in front of `t` is not itself taken for part of a `t`. */
  ghost predicate Trails(t: string, k: nat) {
    0 < k < |t| && Agree(t[k..], REDACTED) && forall p: nat :: p < k ==> !OccursAt(t[..k] + t, t, p)
  }

  /** The secret begins inside a marker or around one, or a marker begins inside it after text that stays. */
  ghost predicate Leaks(t: string) {
    (exists j :: 0 <= j < |REDACTED| && Agree(REDACTED[j..], t)) || exists k: nat :: Trails(t, k)
  }

  lemma {:induction false} ReplaceShort(v: string, t: string)
    requires |v| < |t|
    ensures Replace(v, t) == v
  {
    if v != "" {
      ReplaceShort(v[1..], t);
    }
  }

  lemma ReplaceMatch(t: string, rest: string)
    requires t != ""
    ensures Replace(t + rest, t) == REDACTED + Replace(rest, t)
  {
    assert (t + rest)[|t|..] == rest && t <= t + rest;
  }

  lemma ReplaceSkip(c: char, rest: string, t: string)
    requires t != "" && !(t <= [c] + rest)
    ensures Replace([c] + rest, t) == [c] + Replace(rest, t)
  {
    assert ([c] + rest)[1..] == rest;
  }

  /** Text in front of a first occurrence stays. */
  lemma {:induction false} ReplaceFirst(y: string, t: string, rest: string)
    requires t != "" && forall p: nat :: p < |y| ==> !OccursAt(y + t, t, p)
    ensures Replace(y + (t + rest), t) == y + (REDACTED + Replace(rest, t))
  {
    hide Replace;
    if y == "" {
      assert y + (t + rest) == t + rest;
      ReplaceMatch(t, rest);
    } else {
      var tail := y[1..] + (t + rest);
      assert y + (t + rest) == [y[0]] + tail;
      assert !OccursAt(y + t, t, 0);
      NotFirst(y, t, rest);
      forall p: nat | p < |y[1..]| ensures !OccursAt(y[1..] + t, t, p) {
        assert y[1..] + t == (y + t)[1..];
        if OccursAt(y[1..] + t, t, p) {
          OccursLater(y + t, t, 1, p);
        }
      }
      hide OccursAt;
      ReplaceFirst(y[1..], t, rest);
      ReplaceSkip(y[0], tail, t);
      assert [y[0]] + (y[1..] + (REDACTED + Replace(rest, t))) == y + (REDACTED + Replace(rest, t));
    }
  }

  lemma NotFirst(y: string, t: string, rest: string)
    requires !OccursAt(y + t, t, 0)
    ensures !(t <= y + (t + rest))
  {
    assert (y + (t + rest))[..|t|] == (y + t)[0..|t|];
  }

  /** A secret that begins inside a marker survives in this text. */
  lemma BeginsInMarker(t: string, j: nat) returns (v: string)
    requires t != "" && j < |REDACTED| && Agree(REDACTED[j..], t)
    ensures Contains(Replace(v, t), t)
  {
    hide Replace;
    var m := REDACTED[j..];
    var z := if m <= t then t[|m|..] else "";
    v := t + z;
    ReplaceMatch(t, z);
    ReplaceShort(z, t);
    var r := REDACTED + z;
    assert r[j..] == m + z;
    assert t <= m + z;
    FromHere(r, t, j);
  }

  lemma FromHere(r: string, t: string, j: nat)
    requires j <= |r| && t <= r[j..]
    ensures OccursAt(r, t, j) && Contains(r, t)
  {
    assert r[j..][..|t|] == r[j..j + |t|];
    assert OccursAt(r, t, j);
  }

  /** A secret in which a marker begins survives behind its own beginning. */
  lemma TrailsSurvives(t: string, k: nat) returns (v: string)
    requires Trails(t, k)
    ensures Contains(Replace(v, t), t)
  {
    hide Replace, OccursAt;
    var y, x := t[..k], t[k..];
    var z := if REDACTED <= x then x[|REDACTED|..] else "";
    v := y + (t + z);
    ReplaceFirst(y, t, z);
    ReplaceShort(z, t);
    PutTogether(t, k, z);
  }

  /** The beginning of `t`, a marker and the rest hold `t`. */
  lemma PutTogether(t: string, k: nat, z: string)
    requires k < |t| && Agree(t[k..], REDACTED) && z == if REDACTED <= t[k..] then t[k..][|REDACTED|..] else ""
    ensures Contains(t[..k] + (REDACTED + z), t)
  {
    hide Contains, OccursAt;
    var y, x, r := t[..k], t[k..], t[..k] + (REDACTED + z);
    assert x <= REDACTED + z;
    assert t == y + x;
    assert r[0..] == r && t <= r;
    FromHere(r, t, 0);
  }

  /** A kept beginning that reads as the secret runs into a marker. */
  lemma {:induction false} RunsIntoMarker(v: string, t: string, d: nat)
    requires t != "" && d <= |t| && d <= |v| && t[..d] == v[..d] && t[d..] <= Replace(v[d..], t)
    requires forall p: nat :: p < d ==> !OccursAt(v, t, p)
    requires !(t <= v)
    ensures Leaks(t)
    decreases |t| - d
  {
    var u, w := t[d..], v[d..];
    HereIff(v, t, d);
    assert t[..|t|] == t;
    if t <= w {
      BeginningsAgree(u, REDACTED, Replace(w, t));
      assert v[0..] == v;
      TrailsHere(v, t, d);
    } else {
      assert u[0] == w[0] && u[1..] <= Replace(w[1..], t);
      assert w[1..] == v[d + 1..] && u[1..] == t[d + 1..];
      assert t[..d + 1] == t[..d] + [t[d]] && v[..d + 1] == v[..d] + [v[d]];
      RunsIntoMarker(v, t, d + 1);
    }
  }

  lemma HereIff(v: string, t: string, d: nat)
    requires d <= |v|
    ensures t <= v[d..] <==> OccursAt(v, t, d)
  {
    if d + |t| <= |v| {
      assert v[d..][..|t|] == v[d..d + |t|];
    }
  }

  lemma TrailsHere(v: string, t: string, d: nat)
    requires 0 < d < |t| && d <= |v| && t[..d] == v[..d] && t <= v[d..] && Agree(t[d..], REDACTED)
    requires forall p: nat :: p < d ==> !OccursAt(v, t, p)
    ensures Trails(t, d)
  {
    assert v[d..][..|t|] == t;
    assert t[..d] + t == v[..d + |t|];
    forall p: nat | p < d ensures !OccursAt(t[..d] + t, t, p) {
      assert v[..d + |t|][p..p + |t|] == v[p..p + |t|];
      assert !OccursAt(v, t, p);
    }
  }

  lemma {:induction false} SurvivorLeaks(v: string, t: string, i: nat)
    requires t != "" && OccursAt(Replace(v, t), t, i)
    ensures Leaks(t)
    decreases |v|
  {
    var r := Replace(v, t);
    if v == "" {
      assert false;
    } else if t <= v {
      var rest := Replace(v[|t|..], t);
      if i < |REDACTED| {
        assert t <= r[i..] && REDACTED[i..] <= r[i..];
        BeginningsAgree(REDACTED[i..], t, r[i..]);
      } else {
        assert r[10..] == rest;
        assert r[i..i + |t|] == rest[i - 10..i - 10 + |t|];
        SurvivorLeaks(v[|t|..], t, i - 10);
      }
    } else if i == 0 {
      assert t[0..] == t && v[0..] == v;
      RunsIntoMarker(v, t, 0);
    } else {
      assert r[1..] == Replace(v[1..], t);
      assert r[i..i + |t|] == r[1..][i - 1..i - 1 + |t|];
      SurvivorLeaks(v[1..], t, i - 1);
    }
  }

  /** The secret is still there after its own replacement. */
  ghost predicate Survives(v: string, t: string)
    requires t != ""
  {
    Contains(Replace(v, t), t)
  }

  /** A secret survives its own replacement in some text exactly when it leaks. */
  lemma SurvivesIff(t: string)
    requires t != ""
    ensures (exists v :: Survives(v, t)) <==> Leaks(t)
  {
    hide Leaks;
    if v :| Survives(v, t) {
      var i: nat :| OccursAt(Replace(v, t), t, i);
      SurvivorLeaks(v, t, i);
    }
    if Leaks(t) {
      var v := LeakText(t);
      assert Survives(v, t);
    }
  }

  lemma LeakText(t: string) returns (v: string)
    requires t != "" && Leaks(t)
    ensures Contains(Replace(v, t), t)
  {
    if j :| 0 <= j < |REDACTED| && Agree(REDACTED[j..], t) {
      v := BeginsInMarker(t, j);
    } else {
      var k: nat :| Trails(t, k);
      v := TrailsSurvives(t, k);
    }
  }

  /** A part of the marker stays in every text that holds it. */
  lemma {:induction false} MarkerPartStays(v: string, t: string, i: nat)
    requires t != "" && Contains(REDACTED, t) && OccursAt(v, t, i)
    ensures Contains(Replace(v, t), t)
    decreases |v|
  {
    var r := Replace(v, t);
    if t <= v {
      var k: nat :| OccursAt(REDACTED, t, k);
      assert r[k..k + |t|] == REDACTED[k..k + |t|];
      assert OccursAt(r, t, k);
    } else {
      assert i > 0;
      assert v[1..][i - 1..i - 1 + |t|] == v[i..i + |t|];
      MarkerPartStays(v[1..], t, i - 1);
      var k: nat :| OccursAt(Replace(v[1..], t), t, k);
      assert r[1..] == Replace(v[1..], t);
      OccursLater(r, t, 1, k);
    }
  }

  // ------------------------------------------------------------------ one secret among others

  function Count(s: string): nat { if s == "" then 0 else Count(s[1..]) + if s[0] == '<' then 1 else 0 }

  lemma {:induction false} CountConcat(a: string, b: string)
    ensures Count(a + b) == Count(a) + Count(b)
  {
    if a == "" {
      assert a + b == b;
    } else {
      assert (a + b)[1..] == a[1..] + b;
      CountConcat(a[1..], b);
    }
  }

  /** An occurrence has no more opening brackets than the whole. */
  lemma CountOccurs(v: string, t: string, i: nat)
    requires OccursAt(v, t, i)
    ensures Count(t) <= Count(v)
  {
    var a, b := v[..i], v[i + |t|..];
    assert v == a + (t + b);
    CountConcat(a, t + b);
    CountConcat(t, b);
  }

  /** A companion longer than `t` that stands for itself wherever it is put. */
  function Companion(n: nat): string { "p" + seq(n + 1, _ => 'q') }

  lemma {:induction false} NoBrackets(s: string)
    requires '<' !in s
    ensures Count(s) == 0
  {
    if s != "" {
      assert s[0] in s;
      NoBrackets(s[1..]);
    }
  }

  /** The companion occurs first where it was put. */
  lemma CompanionFirst(y: string, n: nat, p: nat)
    requires |y| <= n && p < |y|
    ensures !OccursAt(y + Companion(n), Companion(n), p)
  {
    var s := Companion(n);
    var v := y + s;
    var d := |y| - p;
    assert v[|y|] == 'p' && s[d] == 'q';
    assert p + |s| <= |v| ==> v[p..p + |s|][d] == v[|y|];
  }

  lemma CompanionMarks(y: string, n: nat, z: string)
    requires |y| <= n && |z| <= n
    ensures Replace(y + (Companion(n) + z), Companion(n)) == y + (REDACTED + z)
  {
    forall p: nat | p < |y| ensures !OccursAt(y + Companion(n), Companion(n), p) {
      CompanionFirst(y, n, p);
    }
    hide Companion, Replace, OccursAt;
    assert |Companion(n)| > n by { CompanionLong(n); }
    ReplaceFirst(y, Companion(n), z);
    ReplaceShort(z, Companion(n));
  }

  lemma CompanionLong(n: nat)
    ensures |Companion(n)| == n + 2 && '<' !in Companion(n)
  {
  }

  lemma ScrubTwo(v: string, a: string, b: string)
    requires a != "" && b != ""
    ensures Scrub(v, [a, b]) == Replace(Replace(v, a), b)
  {
    assert [a, b][1..] == [b] && [b][1..] == [];
    hide Replace;
    assert Scrub(Replace(v, a), [b]) == Scrub(Replace(Replace(v, a), b), []);
  }

  /** When a marker could begin inside `t`, replacing the companion brings `t` back after `t` was replaced. */
  lemma CompanionRestores(t: string, k: nat) returns (v: string, other: string)
    requires 0 < k < |t| && Agree(t[k..], REDACTED)
    ensures other != "" && Contains(Scrub(v, [t, other]), t)
  {
    var y, x := t[..k], t[k..];
    var z := if REDACTED <= x then x[|REDACTED|..] else "";
    CompanionLong(|t|);
    hide Replace, OccursAt, Companion, Scrub, Contains;
    other := Companion(|t|);
    v := y + (other + z);
    NotThere(t, k, z, other);
    ReplaceNothing(v, t);
    CompanionMarks(y, |t|, z);
    ScrubTwo(v, t, other);
    PutTogether(t, k, z);
  }

  /** The text before the companion is replaced has one opening bracket too few for `t`. */
  lemma NotThere(t: string, k: nat, z: string, other: string)
    requires 0 < k < |t| && Agree(t[k..], REDACTED) && other == Companion(|t|)
    requires z == if REDACTED <= t[k..] then t[k..][|REDACTED|..] else ""
    ensures !Contains(t[..k] + (other + z), t)
  {
    var v := t[..k] + (other + z);
    FewerBrackets(t, k, z, other);
    forall i: nat ensures !OccursAt(v, t, i) {
      if OccursAt(v, t, i) {
        CountOccurs(v, t, i);
      }
    }
  }

  lemma FewerBrackets(t: string, k: nat, z: string, other: string)
    requires 0 < k < |t| && Agree(t[k..], REDACTED) && other == Companion(|t|)
    requires z == if REDACTED <= t[k..] then t[k..][|REDACTED|..] else ""
    ensures Count(t[..k] + (other + z)) < Count(t)
  {
    var y, x := t[..k], t[k..];
    var m := if REDACTED <= x then REDACTED else x;
    assert t == y + (m + z);
    assert m[0] == '<';
    assert Count(m) >= 1;
    CompanionLong(|t|);
    hide Count, Companion;
    CountConcat(y, m + z);
    CountConcat(m, z);
    CountConcat(y, other + z);
    CountConcat(other, z);
    NoBrackets(other);
  }

  /** No list of secrets that holds `t` leaves `t` in any text. */
  ghost predicate NeverLeft(t: string) {
    t != "" &&
    forall v: string, before: seq<string>, after: seq<string> ::
      Proper(before) && Proper(after) ==> !Contains(Scrub(v, before + ([t] + after)), t)
  }

  /** A secret is never left, whatever the text and the other secrets, exactly when it is safe. */
  lemma SafeIff(t: string)
    ensures NeverLeft(t) <==> Safe(t)
  {
    if Safe(t) {
      forall v: string, before: seq<string>, after: seq<string> | Proper(before) && Proper(after)
        ensures !Contains(Scrub(v, before + ([t] + after)), t)
      {
        ScrubCleans(v, before + ([t] + after), t);
      }
    } else if t != "" {
      UnsafeIsLeft(t);
    }
  }

  lemma UnsafeIsLeft(t: string)
    requires t != "" && !Safe(t)
    ensures !NeverLeft(t)
  {
    if k :| 0 < k < |t| && Agree(t[k..], REDACTED) {
      var v, other := CompanionRestores(t, k);
      assert [t, other] == [] + ([t] + [other]);
    } else {
      assert t[0..] == t && REDACTED[0..] == REDACTED;
      var j :| 0 <= j < |REDACTED| && Agree(REDACTED[j..], t);
      var v := BeginsInMarker(t, j);
      assert [t] == [] + ([t] + []) && [t][1..] == [];
      assert Scrub(v, [t]) == Scrub(Replace(v, t), []);
    }
  }
}
