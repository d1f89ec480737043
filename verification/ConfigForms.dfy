/** The character classes and the host names of `app/config_schema.py`, said in another way. */
module ConfigForms {
  import opened Common
  import opened Config

  const UPPER := "ABCDEFGHIJKLMNOPQRSTUVWXYZ"
  const LOWER := "abcdefghijklmnopqrstuvwxyz"
  const DIGITS := "0123456789"

  /** The character at position `c - first` of a run of characters. */
  lemma InRun(run: string, first: char, c: char)
    requires |run| <= 26 && first as int + |run| <= 128
    requires forall i :: 0 <= i < |run| ==> run[i] as int == first as int + i
    ensures c in run <==> first as int <= c as int < first as int + |run|
  {
    if first as int <= c as int < first as int + |run| {
      assert run[c as int - first as int] == c;
    }
  }

  lemma Runs()
    ensures forall i :: 0 <= i < 26 ==> UPPER[i] as int == 'A' as int + i && LOWER[i] as int == 'a' as int + i
    ensures forall i :: 0 <= i < 10 ==> DIGITS[i] as int == '0' as int + i
  {
  }

  lemma AlphaNumIs(c: char)
    ensures AlphaNum(c) <==> c in UPPER || c in LOWER || c in DIGITS
  {
    Runs();
    InRun(UPPER, 'A', c);
    InRun(LOWER, 'a', c);
    InRun(DIGITS, '0', c);
  }

  /** Lower-casing exchanges each capital for the small letter at its place in the alphabet and keeps the rest. */
  lemma LowerIs(s: string, i: nat, k: nat)
    requires i < |s|
    ensures |Lower(s)| == |s|
    ensures k < 26 && s[i] == UPPER[k] ==> Lower(s)[i] == LOWER[k]
    ensures s[i] !in UPPER ==> Lower(s)[i] == s[i]
  {
    Runs();
    InRun(UPPER, 'A', s[i]);
  }

  /** The characters that stripping removes. */
  lemma SpaceIs(c: char)
    ensures Space(c) <==>
      || c in {'\t', '\n', '\U{0B}', '\U{0C}', '\r', '\U{1C}', '\U{1D}', '\U{1E}', '\U{1F}', ' ', '\U{85}', '\U{A0}'}
      || c in {'\U{1680}', '\U{2000}', '\U{2001}', '\U{2002}', '\U{2003}', '\U{2004}', '\U{2005}', '\U{2006}'}
      || c in {'\U{2007}', '\U{2008}', '\U{2009}', '\U{200A}', '\U{2028}', '\U{2029}', '\U{202F}', '\U{205F}',
        '\U{3000}'}
  {
  }

  /** A topic prefix has at least one character, and only letters, digits, underscores, slashes and hyphens. */
  lemma PrefixMeans(s: string)
    ensures Prefix(s) <==>
      |s| >= 1 && forall c :: c in s ==> c in UPPER || c in LOWER || c in DIGITS || c in {'_', '/', '-'}
  {
    forall c ensures AlphaNum(c) <==> c in UPPER || c in LOWER || c in DIGITS {
      AlphaNumIs(c);
    }
    assert forall c :: c in "_/-" <==> c in {'_', '/', '-'};
    hide AlphaNum;
    assert Prefix(s) ==> forall c :: c in s ==> AlphaNum(c) || c in "_/-";
    if forall c :: c in s ==> AlphaNum(c) || c in "_/-" {
      assert forall i :: 0 <= i < |s| ==> s[i] in s;
    }
  }

  // ------------------------------------------------------------------ host names

  function JoinDots(labels: seq<string>): string
    requires labels != []
  {
    if |labels| == 1 then labels[0] else labels[0] + ("." + JoinDots(labels[1..]))
  }

  ghost predicate Dotless(labels: seq<string>) { forall i :: 0 <= i < |labels| ==> '.' !in labels[i] }

  /** The labels of a text are what its dots separate. */
  lemma {:induction false} LabelsJoin(s: string)
    ensures JoinDots(Labels(s)) == s && Dotless(Labels(s))
  {
    if s != "" {
      LabelsJoin(s[1..]);
      var rest := Labels(s[1..]);
      assert s == [s[0]] + s[1..];
      if s[0] == '.' {
        assert ([""] + rest)[1..] == rest;
      } else {
        var r := [[s[0]] + rest[0]] + rest[1..];
        assert Labels(s) == r && r[1..] == rest[1..];
        if |rest| > 1 {
          Assoc([s[0]], rest[0], "." + JoinDots(rest[1..]));
        }
      }
    }
  }

  lemma {:induction false} LabelsOfPlain(s: string)
    requires '.' !in s
    ensures Labels(s) == [s]
  {
    if s != "" {
      LabelsOfPlain(s[1..]);
      assert [s[0]] + s[1..] == s;
    }
  }

  lemma {:induction false} LabelsOfDotted(a: string, b: string)
    requires '.' !in a
    ensures Labels(a + ("." + b)) == [a] + Labels(b)
  {
    var s := a + ("." + b);
    if a == "" {
      assert s == "." + b && s[1..] == b;
    } else {
      LabelsOfDotted(a[1..], b);
      assert s[0] == a[0] && s[1..] == a[1..] + ("." + b);
      assert [a[0]] + a[1..] == a;
    }
  }

  /** And nothing else: any labels without dots that join to the text are its labels. */
  lemma {:induction false} LabelsOnly(labels: seq<string>)
    requires labels != [] && Dotless(labels)
    ensures Labels(JoinDots(labels)) == labels
  {
    if |labels| == 1 {
      LabelsOfPlain(labels[0]);
    } else {
      assert Dotless(labels[1..]);
      LabelsOnly(labels[1..]);
      LabelsOfDotted(labels[0], JoinDots(labels[1..]));
    }
  }

  /** One to 63 letters, digits and hyphens, with no hyphen at an end. */
  ghost predicate GoodLabel(l: string) {
    && 1 <= |l| <= 63 && l[0] != '-' && l[|l| - 1] != '-'
    && forall c :: c in l ==> c in UPPER || c in LOWER || c in DIGITS || c == '-'
  }

  lemma LabelMeans(l: string)
    ensures Label(l) <==> GoodLabel(l)
  {
    forall c ensures AlphaNum(c) <==> c in UPPER || c in LOWER || c in DIGITS {
      AlphaNumIs(c);
    }
    assert !AlphaNum('-');
    hide AlphaNum;
    if GoodLabel(l) {
      assert forall i :: 0 <= i < |l| ==> l[i] in l;
    }
  }

  /** A host name is at most 253 characters of good labels joined by dots. */
  lemma HostMeans(s: string)
    ensures Host(s) <==>
      && 1 <= |s| <= 253
      && exists labels: seq<string> ::
           && labels != [] && s == JoinDots(labels) && Dotless(labels)
           && forall i :: 0 <= i < |labels| ==> GoodLabel(labels[i])
  {
    LabelsJoin(s);
    forall l ensures Label(l) <==> GoodLabel(l) {
      LabelMeans(l);
    }
    hide Label, GoodLabel;
    if labels: seq<string> :| labels != [] && s == JoinDots(labels) && Dotless(labels)
                              && forall i :: 0 <= i < |labels| ==> GoodLabel(labels[i]) {
      LabelsOnly(labels);
    }
    if Host(s) {
      var labels := Labels(s);
      assert labels != [] && s == JoinDots(labels) && Dotless(labels);
      assert forall i :: 0 <= i < |labels| ==> GoodLabel(labels[i]);
    }
  }
}
