/** Recursive redaction from `app/admin_auth.py`: sensitive keys and literal secrets. */
module Redact {
  import opened Common

  const REDACTED := "<redacted>"

  /** `str.replace(secret, REDACTED)` for a non-empty secret: leftmost, non-overlapping. */
  function Replace(v: string, secret: string): string
    requires secret != ""
  {
    if v == "" then ""
    else if secret <= v then REDACTED + Replace(v[|secret|..], secret)
    else [v[0]] + Replace(v[1..], secret)
  }

  predicate Proper(secrets: seq<string>) { forall i :: 0 <= i < |secrets| ==> secrets[i] != "" }

  function Scrub(v: string, secrets: seq<string>): string
    requires Proper(secrets)
    decreases |secrets|
  {
    if secrets == [] then v else Scrub(Replace(v, secrets[0]), secrets[1..])
  }

  method ScrubLoop(value: string, secrets: seq<string>) returns (r: string)
    requires Proper(secrets)
    ensures r == Scrub(value, secrets)
  {
    r := value;
    for k := 0 to |secrets|
      invariant Scrub(r, secrets[k..]) == Scrub(value, secrets)
    {
      assert secrets[k..][1..] == secrets[k + 1..];
      r := Replace(r, secrets[k]);
    }
  }

  ghost predicate OccursAt(v: string, t: string, i: nat) { i + |t| <= |v| && v[i..i + |t|] == t }

  ghost predicate Contains(v: string, t: string) { exists i: nat :: OccursAt(v, t, i) }

  /** One of the two is the beginning of the other. */
  predicate Agree(a: string, b: string) { a <= b || b <= a }

  /** No part of `t` up to its end could be the beginning of a marker. */
  ghost predicate NoStart(t: string) { forall k :: 0 <= k < |t| ==> !Agree(t[k..], REDACTED) }

  /** A secret that neither begins nor ends inside a marker, nor lies in one or around one. */
  ghost predicate Safe(t: string) {
    t != "" && NoStart(t) && forall j :: 0 <= j < |REDACTED| ==> !Agree(REDACTED[j..], t)
  }

  // ------------------------------------------------------------------ strings

  lemma OccursLater(v: string, t: string, k: nat, i: nat)
    requires k <= |v| && OccursAt(v[k..], t, i)
    ensures OccursAt(v, t, k + i) && Contains(v, t)
  {
    assert v[k..][i..i + |t|] == v[k + i..k + i + |t|];
    assert OccursAt(v, t, k + i);
  }

  /** Two beginnings of the same string agree. */
  lemma BeginningsAgree(a: string, b: string, v: string)
    requires a <= v && b <= v
    ensures Agree(a, b)
  {
    if |a| <= |b| {
      assert a == v[..|a|] && b[..|a|] == v[..|a|];
    } else {
      assert b == v[..|b|] && a[..|b|] == v[..|b|];
    }
  }

  /** A beginning of the replaced text that no marker could begin in was already there. */
  lemma {:induction false} PrefixKept(v: string, secret: string, t: string)
    requires secret != "" && t <= Replace(v, secret) && NoStart(t)
    ensures t <= v
  {
    if t != "" {
      assert t[0..] == t && !Agree(t[0..], REDACTED);
      if secret <= v {
        BeginningsAgree(t, REDACTED, Replace(v, secret));
      } else {
        forall k | 0 <= k < |t[1..]| ensures !Agree(t[1..][k..], REDACTED) {
          assert t[1..][k..] == t[k + 1..];
        }
        assert t[1..] <= Replace(v[1..], secret);
        PrefixKept(v[1..], secret, t[1..]);
        assert t == [t[0]] + t[1..] && v == [v[0]] + v[1..];
      }
    }
  }

  /** A safe secret does not begin inside a marker. */
  lemma AcrossMarker(rest: string, t: string, i: nat)
    requires Safe(t) && i < |REDACTED|
    ensures !OccursAt(REDACTED + rest, t, i)
  {
    var v := REDACTED + rest;
    if OccursAt(v, t, i) {
      assert t <= v[i..] && REDACTED[i..] <= v[i..];
      BeginningsAgree(REDACTED[i..], t, v[i..]);
    }
  }

  /** Replacing one secret never creates an occurrence of a safe one, and leaves none of its own. */
  lemma {:induction false} NoNewOccurrence(v: string, secret: string, t: string, i: nat)
    requires secret != "" && Safe(t) && OccursAt(Replace(v, secret), t, i)
    ensures Contains(v, t) && t != secret
    decreases |v|
  {
    var r := Replace(v, secret);
    if v == "" {
      assert false;
    } else if secret <= v {
      var rest := Replace(v[|secret|..], secret);
      AcrossMarker(rest, t, if i < 10 then i else 0);
      assert r[10..] == rest;
      assert r[i..i + |t|] == rest[i - 10..i - 10 + |t|];
      NoNewOccurrence(v[|secret|..], secret, t, i - 10);
      var k: nat :| OccursAt(v[|secret|..], t, k);
      OccursLater(v, t, |secret|, k);
    } else if i == 0 {
      assert t <= r;
      PrefixKept(v, secret, t);
      assert OccursAt(v, t, 0);
    } else {
      assert r[1..] == Replace(v[1..], secret);
      assert r[i..i + |t|] == r[1..][i - 1..i - 1 + |t|];
      NoNewOccurrence(v[1..], secret, t, i - 1);
      var k: nat :| OccursAt(v[1..], t, k);
      OccursLater(v, t, 1, k);
    }
  }

  lemma ReplaceKeepsOut(v: string, secret: string, t: string)
    requires secret != "" && Safe(t) && (t == secret || !Contains(v, t))
    ensures !Contains(Replace(v, secret), t)
  {
    forall i: nat ensures !OccursAt(Replace(v, secret), t, i) {
      if OccursAt(Replace(v, secret), t, i) {
        NoNewOccurrence(v, secret, t, i);
      }
    }
  }

  ghost predicate AllSafe(secrets: seq<string>) { forall i :: 0 <= i < |secrets| ==> Safe(secrets[i]) }

  ghost predicate Clean(v: string, secrets: seq<string>) {
    forall i :: 0 <= i < |secrets| ==> !Contains(v, secrets[i])
  }

  lemma {:induction false} ScrubKeepsOut(v: string, secrets: seq<string>, t: string)
    requires Proper(secrets) && Safe(t) && !Contains(v, t)
    ensures !Contains(Scrub(v, secrets), t)
    decreases |secrets|
  {
    if secrets != [] {
      ReplaceKeepsOut(v, secrets[0], t);
      ScrubKeepsOut(Replace(v, secrets[0]), secrets[1..], t);
    }
  }

  /**
   * After all the replacements, in order, no safe secret of the list is left, whatever the others are: no
   * replacement brings one back.
   */
  lemma {:induction false} ScrubCleans(v: string, secrets: seq<string>, t: string)
    requires Proper(secrets) && t in secrets && Safe(t)
    ensures !Contains(Scrub(v, secrets), t)
    decreases |secrets|
  {
    var w := Replace(v, secrets[0]);
    if secrets[0] == t {
      ReplaceKeepsOut(v, t, t);
      ScrubKeepsOut(w, secrets[1..], t);
    } else {
      ScrubCleans(w, secrets[1..], t);
    }
  }

  lemma {:induction false} ReplaceNothing(v: string, secret: string)
    requires secret != "" && !Contains(v, secret)
    ensures Replace(v, secret) == v
  {
    if v != "" {
      if secret <= v {
        assert OccursAt(v, secret, 0);
      } else {
        forall i: nat ensures !OccursAt(v[1..], secret, i) {
          if OccursAt(v[1..], secret, i) { OccursLater(v, secret, 1, i); }
        }
        ReplaceNothing(v[1..], secret);
      }
    }
  }

  lemma {:induction false} ScrubNothing(v: string, secrets: seq<string>)
    requires Proper(secrets) && Clean(v, secrets)
    ensures Scrub(v, secrets) == v
  {
    if secrets != [] {
      ReplaceNothing(v, secrets[0]);
      forall i | 0 <= i < |secrets[1..]| ensures !Contains(v, secrets[1..][i]) {
        assert secrets[1..][i] == secrets[i + 1];
      }
      ScrubNothing(v, secrets[1..]);
    }
  }

  lemma MarkerClean(t: string)
    requires Safe(t)
    ensures !Contains(REDACTED, t)
  {
    forall k: nat ensures !OccursAt(REDACTED, t, k) {
      if k < |REDACTED| {
        assert REDACTED + "" == REDACTED;
        AcrossMarker("", t, k);
      }
    }
  }

  // ------------------------------------------------------------------ what is exchanged and what is kept

  function Join(parts: seq<string>, glue: string): string
    requires parts != []
  {
    if |parts| == 1 then parts[0] else parts[0] + (glue + Join(parts[1..], glue))
  }

  /** Cutting at every leftmost occurrence: none begins inside a part that one follows, and none is in the last part. */
  ghost predicate CutsLeftmost(parts: seq<string>, secret: string) {
    && parts != []
    && (forall i, k: nat :: 0 <= i < |parts| - 1 && k < |parts[i]| ==> !OccursAt(parts[i] + secret, secret, k))
    && !Contains(parts[|parts| - 1], secret)
  }

  /** `w` is `v` with each leftmost, non-overlapping occurrence of `secret` exchanged and all the text between kept. */
  ghost predicate Exchanged(v: string, secret: string, w: string) {
    exists parts: seq<string> :: CutsLeftmost(parts, secret) && v == Join(parts, secret) && w == Join(parts, REDACTED)
  }

  /** Up to the first occurrence `Replace` copies. */
  lemma {:induction false} ReplaceUpTo(p: string, rest: string, secret: string)
    requires secret != "" && forall k: nat :: k < |p| ==> !OccursAt(p + secret, secret, k)
    ensures Replace(p + (secret + rest), secret) == p + (REDACTED + Replace(rest, secret))
  {
    var v := p + (secret + rest);
    if p == "" {
      assert v == secret + rest && v[|secret|..] == rest;
      assert p + (REDACTED + Replace(rest, secret)) == REDACTED + Replace(rest, secret);
    } else {
      assert v[..|secret|] == (p + secret)[..|secret|];
      assert !OccursAt(p + secret, secret, 0);
      assert !(secret <= v);
      forall k: nat | k < |p[1..]| ensures !OccursAt(p[1..] + secret, secret, k) {
        assert (p + secret)[k + 1..k + 1 + |secret|] == (p[1..] + secret)[k..k + |secret|];
        assert !OccursAt(p + secret, secret, k + 1);
      }
      ReplaceUpTo(p[1..], rest, secret);
      assert v[1..] == p[1..] + (secret + rest) && v[0] == p[0];
      assert p == [p[0]] + p[1..];
      Assoc([p[0]], p[1..], REDACTED + Replace(rest, secret));
    }
  }

  /** Every cutting of a text gives its replacement. */
  lemma {:induction false} ReplaceIs(parts: seq<string>, secret: string)
    requires secret != "" && CutsLeftmost(parts, secret)
    ensures Replace(Join(parts, secret), secret) == Join(parts, REDACTED)
    decreases |parts|
  {
    if |parts| == 1 {
      ReplaceNothing(parts[0], secret);
    } else {
      var rest := parts[1..];
      assert forall i :: 0 <= i < |rest| ==> rest[i] == parts[i + 1];
      ReplaceIs(rest, secret);
      hide OccursAt, Contains;
      ReplaceUpTo(parts[0], Join(rest, secret), secret);
    }
  }

  lemma FirstPart(p: string, parts: seq<string>, secret: string)
    requires secret != "" && CutsLeftmost(parts, secret)
    requires forall k: nat :: k < |p| ==> !OccursAt(p + secret, secret, k)
    ensures CutsLeftmost([p] + parts, secret)
    ensures forall glue :: Join([p] + parts, glue) == p + (glue + Join(parts, glue))
  {
    var all := [p] + parts;
    assert all[1..] == parts && all[|all| - 1] == parts[|parts| - 1];
    forall i, k: nat | 0 <= i < |all| - 1 && k < |all[i]| ensures !OccursAt(all[i] + secret, secret, k) {
      assert i > 0 ==> all[i] == parts[i - 1];
    }
  }

  /** Every text can be cut. */
  lemma {:induction false} CutExists(v: string, secret: string) returns (parts: seq<string>)
    requires secret != ""
    ensures CutsLeftmost(parts, secret) && v == Join(parts, secret)
    decreases |v|
  {
    if !Contains(v, secret) {
      parts := [v];
    } else {
      var n := LeftmostAt(v, secret);
      var p, rest := v[..n], v[n + |secret|..];
      assert v == p + (secret + rest);
      forall k: nat | k < |p| ensures !OccursAt(p + secret, secret, k) {
        assert (p + secret)[k..k + |secret|] == v[k..k + |secret|] || k + |secret| > n + |secret|;
        assert !OccursAt(v, secret, k);
      }
      parts := CutExists(rest, secret);
      hide OccursAt, Contains;
      FirstPart(p, parts, secret);
      parts := [p] + parts;
    }
  }

  lemma LeftmostAt(v: string, secret: string) returns (n: nat)
    requires Contains(v, secret)
    ensures OccursAt(v, secret, n) && forall k: nat :: k < n ==> !OccursAt(v, secret, k)
  {
    n := 0;
    while !OccursAt(v, secret, n)
      invariant n <= |v| && forall k: nat :: k < n ==> !OccursAt(v, secret, k)
      decreases |v| - n
    {
      n := n + 1;
    }
  }

  /** The replacement exchanges, and is the only text that does. */
  lemma ReplaceExchanges(v: string, secret: string, w: string)
    requires secret != ""
    ensures Exchanged(v, secret, w) <==> w == Replace(v, secret)
  {
    if Exchanged(v, secret, w) {
      var parts: seq<string> :| CutsLeftmost(parts, secret) && v == Join(parts, secret) && w == Join(parts, REDACTED);
      ReplaceIs(parts, secret);
    }
    var parts := CutExists(v, secret);
    ReplaceIs(parts, secret);
  }

  /** The secrets are exchanged one after the other. */
  ghost predicate ExchangedAll(v: string, secrets: seq<string>, w: string)
    decreases |secrets|
  {
    if secrets == [] then w == v
    else exists next :: Exchanged(v, secrets[0], next) && ExchangedAll(next, secrets[1..], w)
  }

  lemma {:induction false} ScrubExchanges(v: string, secrets: seq<string>, w: string)
    requires Proper(secrets)
    ensures ExchangedAll(v, secrets, w) <==> w == Scrub(v, secrets)
    decreases |secrets|
  {
    hide Exchanged;
    if secrets != [] {
      var next := Replace(v, secrets[0]);
      ReplaceExchanges(v, secrets[0], next);
      ScrubExchanges(next, secrets[1..], w);
      if ExchangedAll(v, secrets, w) {
        var other :| Exchanged(v, secrets[0], other) && ExchangedAll(other, secrets[1..], w);
        ReplaceExchanges(v, secrets[0], other);
      }
    }
  }

  // ------------------------------------------------------------------ nested values

  /** Empty secrets are dropped. */
  function SecretValues(secrets: seq<string>): (r: seq<string>)
    ensures forall s :: s in r <==> s in secrets && s != ""
    ensures Proper(r)
  {
    if secrets == [] then []
    else (if secrets[0] == "" then [] else [secrets[0]]) + SecretValues(secrets[1..])
  }

  datatype Key = Name(s: string) | NonText(id: int)

  /** A mapping keeps its keys and values in parallel, in insertion order. */
  datatype PyValue =
    | Str(s: string)
    | Other(id: int)
    | Row(tuple: bool, items: seq<PyValue>)
    | Bag(frozen: bool, elements: set<PyValue>)
    | Mapping(keys: seq<Key>, values: seq<PyValue>)

  /** `sensitive` is `_is_sensitive_key`, any such test. Elements of a set that become equal merge. */
  function Redacted(v: PyValue, sensitive: Key -> bool, secrets: seq<string>): PyValue
    decreases v, 1
  {
    match v
    case Str(s) => Str(Scrub(s, SecretValues(secrets)))
    case Other(_) => v
    case Row(tuple, items) => Row(tuple, RedactedAll(items, [], sensitive, secrets))
    case Bag(frozen, elements) => Bag(frozen, set x | x in elements :: Redacted(x, sensitive, secrets))
    case Mapping(keys, values) => Mapping(keys, RedactedAll(values, keys, sensitive, secrets))
  }

  /** Element-wise; a value whose key is sensitive becomes the marker. */
  function RedactedAll(items: seq<PyValue>, keys: seq<Key>, sensitive: Key -> bool, secrets: seq<string>): seq<PyValue>
    decreases items, 0
  {
    if items == [] then []
    else
      [if keys != [] && sensitive(keys[0]) then Str(REDACTED) else Redacted(items[0], sensitive, secrets)]
      + RedactedAll(items[1..], if keys == [] then [] else keys[1..], sensitive, secrets)
  }

  /** No string anywhere inside, keys apart, contains `t`. */
  ghost predicate LeavesFree(v: PyValue, t: string)
    decreases v
  {
    match v
    case Str(s) => !Contains(s, t)
    case Other(_) => true
    case Row(_, items) => forall i :: 0 <= i < |items| ==> LeavesFree(items[i], t)
    case Bag(_, elements) => forall x :: x in elements ==> LeavesFree(x, t)
    case Mapping(_, values) => forall i :: 0 <= i < |values| ==> LeavesFree(values[i], t)
  }

  /**
   * What redaction promises: the same kinds, keys and lengths, the marker for every sensitive key, the same other
   * leaves, and each string with the secrets exchanged and everything else kept.
   */
  ghost predicate Redacts(v: PyValue, w: PyValue, sensitive: Key -> bool, secrets: seq<string>)
    decreases v
  {
    match v
    case Str(s) => w.Str? && ExchangedAll(s, SecretValues(secrets), w.s)
    case Other(_) => w == v
    case Row(tuple, items) =>
      w.Row? && w.tuple == tuple && |w.items| == |items|
      && forall i :: 0 <= i < |items| ==> Redacts(items[i], w.items[i], sensitive, secrets)
    case Bag(frozen, elements) =>
      w.Bag? && w.frozen == frozen
      && (forall x :: x in elements ==> exists y :: y in w.elements && Redacts(x, y, sensitive, secrets))
      && (forall y :: y in w.elements ==> exists x :: x in elements && Redacts(x, y, sensitive, secrets))
    case Mapping(keys, values) =>
      w.Mapping? && w.keys == keys && |w.values| == |values|
      && forall i :: 0 <= i < |values| ==>
           if i < |keys| && sensitive(keys[i]) then w.values[i] == Str(REDACTED)
           else Redacts(values[i], w.values[i], sensitive, secrets)
  }

  lemma RedactedAt(items: seq<PyValue>, keys: seq<Key>, sensitive: Key -> bool, secrets: seq<string>, i: nat)
    requires i < |items|
    ensures |RedactedAll(items, keys, sensitive, secrets)| == |items|
    ensures RedactedAll(items, keys, sensitive, secrets)[i] ==
            if i < |keys| && sensitive(keys[i]) then Str(REDACTED) else Redacted(items[i], sensitive, secrets)
    decreases |items|
  {
    var keys' := if keys == [] then [] else keys[1..];
    if i > 0 {
      RedactedAt(items[1..], keys', sensitive, secrets, i - 1);
    } else if |items| > 1 {
      RedactedAt(items[1..], keys', sensitive, secrets, 0);
    } else {
      assert items[1..] == [];
    }
  }

  lemma RedactedSize(items: seq<PyValue>, keys: seq<Key>, sensitive: Key -> bool, secrets: seq<string>)
    ensures |RedactedAll(items, keys, sensitive, secrets)| == |items|
  {
    if items != [] {
      RedactedAt(items, keys, sensitive, secrets, 0);
    }
  }

  // -- no safe secret is left

  lemma {:induction false} RedactedFree(v: PyValue, sensitive: Key -> bool, secrets: seq<string>, t: string)
    requires t in secrets && Safe(t)
    ensures LeavesFree(Redacted(v, sensitive, secrets), t)
    decreases v, 1
  {
    match v {
      case Str(s) => ScrubCleans(s, SecretValues(secrets), t);
      case Other(_) =>
      case Row(_, items) =>
        AllFree(items, [], sensitive, secrets, t, Redacted(v, sensitive, secrets).items);
      case Bag(_, elements) =>
        forall x | x in elements ensures LeavesFree(Redacted(x, sensitive, secrets), t) {
          RedactedFree(x, sensitive, secrets, t);
        }
      case Mapping(keys, values) =>
        AllFree(values, keys, sensitive, secrets, t, Redacted(v, sensitive, secrets).values);
    }
  }

  lemma {:induction false} AllFree(
    items: seq<PyValue>, keys: seq<Key>, sensitive: Key -> bool, secrets: seq<string>, t: string, r: seq<PyValue>)
    requires t in secrets && Safe(t) && r == RedactedAll(items, keys, sensitive, secrets)
    ensures forall i :: 0 <= i < |r| ==> LeavesFree(r[i], t)
    decreases items, 0
  {
    RedactedSize(items, keys, sensitive, secrets);
    MarkerClean(t);
    forall i | 0 <= i < |items| ensures LeavesFree(r[i], t) {
      RedactedAt(items, keys, sensitive, secrets, i);
      RedactedFree(items[i], sensitive, secrets, t);
    }
  }

  // -- the promise is kept

  lemma {:induction false} RedactedRedacts(v: PyValue, sensitive: Key -> bool, secrets: seq<string>)
    ensures Redacts(v, Redacted(v, sensitive, secrets), sensitive, secrets)
    decreases v
  {
    hide ExchangedAll;
    match v {
      case Str(s) => ScrubExchanges(s, SecretValues(secrets), Scrub(s, SecretValues(secrets)));
      case Other(_) =>
      case Row(_, items) =>
        RedactedSize(items, [], sensitive, secrets);
        forall i | 0 <= i < |items|
          ensures Redacts(items[i], RedactedAll(items, [], sensitive, secrets)[i], sensitive, secrets)
        {
          RedactedAt(items, [], sensitive, secrets, i);
          RedactedRedacts(items[i], sensitive, secrets);
        }
      case Bag(_, elements) =>
        forall x | x in elements ensures Redacts(x, Redacted(x, sensitive, secrets), sensitive, secrets) {
          RedactedRedacts(x, sensitive, secrets);
        }
      case Mapping(keys, values) =>
        RedactedSize(values, keys, sensitive, secrets);
        forall i | 0 <= i < |values|
          ensures var r := RedactedAll(values, keys, sensitive, secrets)[i];
            if i < |keys| && sensitive(keys[i]) then r == Str(REDACTED) else Redacts(values[i], r, sensitive, secrets)
        {
          RedactedAt(values, keys, sensitive, secrets, i);
          RedactedRedacts(values[i], sensitive, secrets);
        }
    }
  }

  // -- nothing to redact

  /** No string inside holds a secret, and no key is sensitive. */
  ghost predicate Harmless(v: PyValue, sensitive: Key -> bool, secrets: seq<string>)
    decreases v
  {
    match v
    case Str(s) => Clean(s, SecretValues(secrets))
    case Other(_) => true
    case Row(_, items) => forall i :: 0 <= i < |items| ==> Harmless(items[i], sensitive, secrets)
    case Bag(_, elements) => forall x :: x in elements ==> Harmless(x, sensitive, secrets)
    case Mapping(keys, values) =>
      && (forall i :: 0 <= i < |keys| ==> !sensitive(keys[i]))
      && forall i :: 0 <= i < |values| ==> Harmless(values[i], sensitive, secrets)
  }

  /** Such a value is returned as it is. */
  lemma {:induction false} HarmlessKept(v: PyValue, sensitive: Key -> bool, secrets: seq<string>)
    requires Harmless(v, sensitive, secrets)
    ensures Redacted(v, sensitive, secrets) == v
    decreases v, 1
  {
    match v {
      case Str(s) => ScrubNothing(s, SecretValues(secrets));
      case Other(_) =>
      case Row(_, items) => HarmlessAll(items, [], sensitive, secrets);
      case Bag(_, elements) =>
        forall x | x in elements ensures Redacted(x, sensitive, secrets) == x {
          HarmlessKept(x, sensitive, secrets);
        }
        assert (set x | x in elements :: Redacted(x, sensitive, secrets)) == elements;
      case Mapping(keys, values) => HarmlessAll(values, keys, sensitive, secrets);
    }
  }

  lemma {:induction false} HarmlessAll(items: seq<PyValue>, keys: seq<Key>, sensitive: Key -> bool,
                                       secrets: seq<string>)
    requires forall i :: 0 <= i < |items| ==> Harmless(items[i], sensitive, secrets)
    requires forall i :: 0 <= i < |keys| ==> !sensitive(keys[i])
    ensures RedactedAll(items, keys, sensitive, secrets) == items
    decreases items, 0
  {
    RedactedSize(items, keys, sensitive, secrets);
    forall i | 0 <= i < |items| ensures RedactedAll(items, keys, sensitive, secrets)[i] == items[i] {
      RedactedAt(items, keys, sensitive, secrets, i);
      HarmlessKept(items[i], sensitive, secrets);
    }
  }

  // -- redacting again

  lemma ScrubTwice(v: string, secrets: seq<string>)
    requires AllSafe(secrets)
    ensures Scrub(Scrub(v, secrets), secrets) == Scrub(v, secrets)
  {
    forall i | 0 <= i < |secrets| ensures !Contains(Scrub(v, secrets), secrets[i]) {
      ScrubCleans(v, secrets, secrets[i]);
    }
    ScrubNothing(Scrub(v, secrets), secrets);
  }

  lemma {:induction false} RedactedTwice(v: PyValue, sensitive: Key -> bool, secrets: seq<string>)
    requires AllSafe(SecretValues(secrets))
    ensures Redacted(Redacted(v, sensitive, secrets), sensitive, secrets) == Redacted(v, sensitive, secrets)
    decreases v, 1
  {
    match v {
      case Str(s) => ScrubTwice(s, SecretValues(secrets));
      case Other(_) =>
      case Row(_, items) => AllTwice(items, [], sensitive, secrets);
      case Bag(frozen, elements) =>
        var once := set x | x in elements :: Redacted(x, sensitive, secrets);
        forall x | x in elements
          ensures Redacted(Redacted(x, sensitive, secrets), sensitive, secrets) == Redacted(x, sensitive, secrets)
        {
          RedactedTwice(x, sensitive, secrets);
        }
        assert (set y | y in once :: Redacted(y, sensitive, secrets)) == once;
      case Mapping(keys, values) => AllTwice(values, keys, sensitive, secrets);
    }
  }

  lemma {:induction false} AllTwice(items: seq<PyValue>, keys: seq<Key>, sensitive: Key -> bool, secrets: seq<string>)
    requires AllSafe(SecretValues(secrets))
    ensures var r := RedactedAll(items, keys, sensitive, secrets); RedactedAll(r, keys, sensitive, secrets) == r
    decreases items, 0
  {
    var r := RedactedAll(items, keys, sensitive, secrets);
    RedactedSize(items, keys, sensitive, secrets);
    RedactedSize(r, keys, sensitive, secrets);
    forall i | 0 <= i < |r| ensures RedactedAll(r, keys, sensitive, secrets)[i] == r[i] {
      RedactedAt(items, keys, sensitive, secrets, i);
      RedactedAt(r, keys, sensitive, secrets, i);
      RedactedTwice(items[i], sensitive, secrets);
    }
  }

  /**
   * Complete scrubbing, for every value and every list of secrets: no string inside the result contains a safe
   * secret of the list, whatever the others are; keys and shape are unchanged, every sensitive value is the marker
   * and every other string keeps all its text but the exchanged secrets; and when all of them are safe or empty,
   * redacting again changes nothing.
   */
  lemma RedactionComplete(v: PyValue, sensitive: Key -> bool, secrets: seq<string>)
    ensures forall t :: t in secrets && Safe(t) ==> LeavesFree(Redacted(v, sensitive, secrets), t)
    ensures Redacts(v, Redacted(v, sensitive, secrets), sensitive, secrets)
    ensures AllSafe(SecretValues(secrets)) ==>
      Redacted(Redacted(v, sensitive, secrets), sensitive, secrets) == Redacted(v, sensitive, secrets)
  {
    hide Redacted, LeavesFree, Redacts, Safe;
    forall t | t in secrets && Safe(t) ensures LeavesFree(Redacted(v, sensitive, secrets), t) {
      RedactedFree(v, sensitive, secrets, t);
    }
    RedactedRedacts(v, sensitive, secrets);
    if AllSafe(SecretValues(secrets)) {
      RedactedTwice(v, sensitive, secrets);
    }
  }
}
