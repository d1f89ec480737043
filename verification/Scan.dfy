/** Reading the terse scan output of NetworkManager, as `app/network_settings.py` does. */
module Scan {
  import opened Common
  import Config
  import Toml

  const MAX_SSID_BYTES := 32

  // ------------------------------------------------------------------ escaping

  /** The terse printer puts a backslash before every backslash and colon. */
  function Escape(s: string): string {
    if s == "" then "" else EscapeChar(s[0]) + Escape(s[1..])
  }

  function EscapeChar(c: char): string { if c in "\\:" then ['\\', c] else [c] }

  /** Python's `replace` of a two-character pattern by one character. */
  function Replace(s: string, a: char, b: char, c: char): string {
    if |s| < 2 then s
    else if s[0] == a && s[1] == b then [c] + Replace(s[2..], a, b, c)
    else [s[0]] + Replace(s[1..], a, b, c)
  }

  function Unescape(s: string): string { Replace(Replace(s, '\\', ':', ':'), '\\', '\\', '\\') }

  /** The string with its backslashes doubled: what the first replacement leaves. */
  function Doubled(s: string): string {
    if s == "" then "" else (if s[0] == '\\' then "\\\\" else [s[0]]) + Doubled(s[1..])
  }

  lemma {:induction false} FirstPass(s: string)
    ensures Replace(Escape(s), '\\', ':', ':') == Doubled(s)
    ensures Escape(s) != "" ==> Escape(s)[0] != ':'
  {
    if s != "" {
      FirstPass(s[1..]);
      var e, rest := Escape(s), Escape(s[1..]);
      if s[0] == ':' {
        assert e[2..] == rest;
      } else if s[0] == '\\' {
        assert e == "\\\\" + rest && e[1..] == "\\" + rest;
        SkipOne(rest);
      } else {
        assert e == [s[0]] + rest && e[1..] == rest;
      }
    }
  }

  /** A backslash before something that does not start with a colon is kept by the first replacement. */
  lemma SkipOne(rest: string)
    requires rest == "" || rest[0] != ':'
    ensures Replace("\\" + rest, '\\', ':', ':') == "\\" + Replace(rest, '\\', ':', ':')
  {
    var t := "\\" + rest;
    assert t[1..] == rest;
    if rest != "" {
      assert t[1] == rest[0];
    }
  }

  lemma {:induction false} SecondPass(s: string)
    ensures Replace(Doubled(s), '\\', '\\', '\\') == s
  {
    if s != "" {
      SecondPass(s[1..]);
      var d, rest := Doubled(s), Doubled(s[1..]);
      if s[0] == '\\' {
        assert d[2..] == rest;
      } else {
        assert d == [s[0]] + rest && d[1..] == rest;
      }
      assert [s[0]] + s[1..] == s;
    }
  }

  /** The two replacements undo the printer's escaping, for every string. */
  lemma UnescapeInverts(s: string)
    ensures Unescape(Escape(s)) == s
  {
    FirstPass(s);
    SecondPass(s);
  }

  // ------------------------------------------------------------------ splitting

  /** Split at every colon that no backslash precedes. */
  function SplitAt(s: string, after: bool): (r: seq<string>)
    ensures r != []
  {
    if s == "" then [""]
    else
      var rest := SplitAt(s[1..], s[0] == '\\');
      if s[0] == ':' && !after then [""] + rest else [[s[0]] + rest[0]] + rest[1..]
  }

  function Split(line: string): seq<string> { SplitAt(line, false) }

  predicate EndsInBackslash(s: string) { s != "" && s[|s| - 1] == '\\' }

  function Glue(p: string, parts: seq<string>): seq<string>
    requires parts != []
  {
    [p + parts[0]] + parts[1..]
  }

  lemma SplitOne(c: char, t: string, after: bool)
    requires c != ':' || after
    ensures SplitAt([c] + t, after) == Glue([c], SplitAt(t, c == '\\'))
  {
    assert ([c] + t)[1..] == t;
  }

  lemma GlueGlue(p: string, q: string, parts: seq<string>)
    requires parts != []
    ensures Glue(p, Glue(q, parts)) == Glue(p + q, parts)
  {
    assert p + (q + parts[0]) == p + q + parts[0];
  }

  lemma GlueEmpty(parts: seq<string>)
    requires parts != []
    ensures Glue("", parts) == parts
  {
    assert "" + parts[0] == parts[0];
  }

  lemma SplitEscapedChar(c: char, rest: string, after: bool)
    ensures SplitAt(EscapeChar(c) + rest, after) == Glue(EscapeChar(c), SplitAt(rest, c == '\\'))
  {
    hide SplitAt;
    if c in "\\:" {
      assert EscapeChar(c) + rest == ['\\'] + ([c] + rest);
      SplitOne('\\', [c] + rest, after);
      SplitOne(c, rest, true);
      GlueGlue(['\\'], [c], SplitAt(rest, c == '\\'));
      assert ['\\'] + [c] == EscapeChar(c);
    } else {
      SplitOne(c, rest, after);
    }
  }

  /** Escaped text is never split inside, and hides a following separator exactly when it ends in a backslash. */
  lemma {:induction false} SplitEscaped(s: string, t: string, after: bool)
    ensures SplitAt(Escape(s) + t, after)
            == Glue(Escape(s), SplitAt(t, if s == "" then after else EndsInBackslash(s)))
  {
    hide SplitAt, EscapeChar, Glue;
    if s == "" {
      assert Escape(s) + t == t;
      GlueEmpty(SplitAt(t, after));
    } else {
      var first, rest := EscapeChar(s[0]), Escape(s[1..]);
      assert if s[1..] == "" then EndsInBackslash(s) == (s[0] == '\\')
             else EndsInBackslash(s[1..]) == EndsInBackslash(s);
      SplitEscaped(s[1..], t, s[0] == '\\');
      assert Escape(s) + t == first + (rest + t);
      SplitEscapedChar(s[0], rest + t, after);
      GlueGlue(first, rest, SplitAt(t, EndsInBackslash(s)));
    }
  }

  // ------------------------------------------------------------------ rows

  datatype Row = Row(ssid: string, signal: int, security: string)

  function Print(r: Row): string { Escape(r.ssid) + (":" + (Toml.ShowInt(r.signal) + (":" + Escape(r.security)))) }

  lemma SplitColon(t: string)
    ensures SplitAt(":" + t, false) == [""] + SplitAt(t, false)
  {
    assert (":" + t)[1..] == t;
  }

  predicate Numeral(s: string) { forall i :: 0 <= i < |s| ==> s[i] == '-' || '0' <= s[i] <= '9' }

  lemma {:induction false} SplitNumeral(s: string, t: string)
    requires Numeral(s)
    ensures SplitAt(s + t, false) == Glue(s, SplitAt(t, false))
  {
    if s == "" {
      assert s + t == t;
      assert "" + SplitAt(t, false)[0] == SplitAt(t, false)[0];
    } else {
      assert s + t == [s[0]] + (s[1..] + t);
      SplitNumeral(s[1..], t);
      SplitOne(s[0], s[1..] + t, false);
      GlueGlue([s[0]], s[1..], SplitAt(t, false));
      assert [s[0]] + s[1..] == s;
    }
  }

  lemma ShownNumeral(n: int)
    ensures Numeral(Toml.ShowInt(n))
  {
    Toml.DigitsRead(if n < 0 then -n else n);
  }

  /** The fields after the SSID. */
  lemma SplitTail(r: Row)
    ensures SplitAt(Toml.ShowInt(r.signal) + (":" + Escape(r.security)), false)
            == [Toml.ShowInt(r.signal), Escape(r.security)]
  {
    var n, e := Toml.ShowInt(r.signal), Escape(r.security);
    ShownNumeral(r.signal);
    SplitNumeral(n, ":" + e);
    SplitColon(e);
    assert e + "" == e;
    SplitEscaped(r.security, "", false);
    assert n + "" == n && e + "" == e;
    hide Toml.ShowInt, Escape, Numeral;
  }

  /** A printed row splits into its three fields exactly when its SSID does not end in a backslash. */
  lemma RowSplits(r: Row)
    ensures Split(Print(r)) == [Escape(r.ssid), Toml.ShowInt(r.signal), Escape(r.security)] <==>
      !EndsInBackslash(r.ssid)
    ensures EndsInBackslash(r.ssid) ==> |Split(Print(r))| == 2
  {
    var n, e := Toml.ShowInt(r.signal), Escape(r.security);
    var tail := n + (":" + e);
    SplitEscaped(r.ssid, ":" + tail, false);
    if EndsInBackslash(r.ssid) {
      SplitOne(':', tail, true);
      SplitTail(r);
      assert |Split(Print(r))| == 2;
    } else {
      SplitColon(tail);
      SplitTail(r);
      assert Escape(r.ssid) + "" == Escape(r.ssid);
      assert Glue(Escape(r.ssid), [""] + [n, e]) == [Escape(r.ssid), n, e];
    }
  }

  // ------------------------------------------------------------------ key and value

  /** The position of the first colon, or the length. */
  function FirstColon(s: string): (n: nat)
    ensures n <= |s|
  {
    if s == "" || s[0] == ':' then 0 else 1 + FirstColon(s[1..])
  }

  /** A `key:value` line: the stripped key, `None` without a colon, and the unescaped, stripped value. */
  function SplitTerse(line: string): (Option<string>, string) {
    var n := FirstColon(line);
    if n == |line| then (None, "") else (Some(Config.Strip(line[..n])), Config.Strip(Unescape(line[n + 1..])))
  }

  lemma {:induction false} FirstColonIs(key: string, rest: string)
    requires ':' !in key
    ensures FirstColon(key + ":" + rest) == |key|
  {
    var s := key + ":" + rest;
    if key != "" {
      assert s[1..] == key[1..] + ":" + rest;
      FirstColonIs(key[1..], rest);
    }
  }

  /** A printed field is read back, up to surrounding blanks. */
  lemma TerseReads(key: string, value: string)
    requires ':' !in key
    ensures SplitTerse(key + ":" + Escape(value)) == (Some(Config.Strip(key)), Config.Strip(value))
  {
    var s := key + ":" + Escape(value);
    FirstColonIs(key, Escape(value));
    assert s[..|key|] == key && s[|key| + 1..] == Escape(value);
    UnescapeInverts(value);
    hide Unescape, Escape, Config.Strip;
  }
}
