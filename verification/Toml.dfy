/**
 * The TOML text that `app/config_schema.py` writes, and a reader for that subset of TOML v1.0.0
 * (sections "Keys", "String", "Integer", "Boolean", "Array" and "Table").
 */
module Toml {
  import opened Common

  /**
   * A value below a table, as far as the configuration code tells values apart. A list item that is no string
   * is `None`.
   */
  datatype Leaf = Str(text: string) | Int(number: int) | Bool(flag: bool) | List(items: seq<Option<string>>) | Other

  datatype Line = Blank | Header(name: string) | Pair(key: string, value: Leaf)

  // ------------------------------------------------------------------ strings

  predicate Control(c: char) { c as int < 0x20 || c as int == 0x7F }

  const HEX := "0123456789abcdef"

  function EscapeChar(c: char): string {
    if c == '"' then "\\\""
    else if c == '\\' then "\\\\"
    else if c == '\n' then "\\n"
    else if c == '\r' then "\\r"
    else if c == '\t' then "\\t"
    else if Control(c) then "\\u00" + [HEX[c as int / 16], HEX[c as int % 16]]
    else [c]
  }

  function Escaped(s: string): string {
    if s == "" then "" else EscapeChar(s[0]) + Escaped(s[1..])
  }

  function Quote(s: string): string { "\"" + Escaped(s) + "\"" }

  lemma {:induction false} EscapedConcat(a: string, b: string)
    ensures Escaped(a + b) == Escaped(a) + Escaped(b)
  {
    if a == "" {
      assert a + b == b;
    } else {
      assert (a + b)[1..] == a[1..] + b;
      EscapedConcat(a[1..], b);
    }
  }

  lemma EscapedOne(c: char)
    ensures Escaped([c]) == EscapeChar(c)
  {
    hide EscapeChar;
    assert [c][1..] == "";
    assert EscapeChar(c) + "" == EscapeChar(c);
  }

  /** The writer's own loop over the characters. */
  method QuoteLoop(value: string) returns (out: string)
    ensures out == Quote(value)
  {
    hide EscapeChar;
    out := "\"";
    for k := 0 to |value|
      invariant out == "\"" + Escaped(value[..k])
    {
      assert value[..k + 1] == value[..k] + [value[k]];
      EscapedConcat(value[..k], [value[k]]);
      EscapedOne(value[k]);
      out := out + EscapeChar(value[k]);
    }
    assert value[..|value|] == value;
    out := out + "\"";
  }

  function HexValue(c: char): (v: Option<nat>)
    ensures v.Some? ==> v.value < 16
  {
    if '0' <= c <= '9' then Some(c as int - '0' as int)
    else if 'a' <= c <= 'f' then Some(c as int - 'a' as int + 10)
    else if 'A' <= c <= 'F' then Some(c as int - 'A' as int + 10)
    else None
  }

  /** Four hexadecimal digits as a character, unless they name a surrogate. */
  function CodePoint(s: string): Option<char>
    requires |s| == 4
  {
    var a, b, c, d := HexValue(s[0]), HexValue(s[1]), HexValue(s[2]), HexValue(s[3]);
    if a.None? || b.None? || c.None? || d.None? then None
    else
      var v := ((a.value * 16 + b.value) * 16 + c.value) * 16 + d.value;
      if 0xD800 <= v < 0xE000 then None else Some(v as char)
  }

  function Simple(c: char): Option<char> {
    if c == '"' then Some('"')
    else if c == '\\' then Some('\\')
    else if c == 'n' then Some('\n')
    else if c == 'r' then Some('\r')
    else if c == 't' then Some('\t')
    else None
  }

  /** Read one character of a basic string; raw control characters other than tab are refused. */
  function ReadChar(s: string): (r: Option<(char, string)>)
    ensures r.Some? ==> |r.value.1| < |s|
  {
    if s == "" || s[0] == '"' || (Control(s[0]) && s[0] != '\t') then None
    else if s[0] != '\\' then Some((s[0], s[1..]))
    else if |s| < 2 then None
    else if s[1] == 'u' then
      if |s| < 6 || CodePoint(s[2..6]).None? then None else Some((CodePoint(s[2..6]).value, s[6..]))
    else if Simple(s[1]).None? then None
    else Some((Simple(s[1]).value, s[2..]))
  }

  /** Read a basic string after its opening quote; the second part is what follows the closing quote. */
  function ReadString(s: string): (r: Option<(string, string)>)
    ensures r.Some? ==> |r.value.1| < |s|
  {
    if s != "" && s[0] == '"' then Some(("", s[1..]))
    else
      var c := ReadChar(s);
      if c.None? then None
      else
        var r := ReadString(c.value.1);
        if r.None? then None else Some(([c.value.0] + r.value.0, r.value.1))
  }

  lemma ReadControl(c: char, rest: string)
    requires Control(c) && c !in "\n\r\t"
    ensures ReadChar(EscapeChar(c) + rest) == Some((c, rest))
    ensures (EscapeChar(c) + rest)[0] != '"'
  {
    var hi, lo := HEX[c as int / 16], HEX[c as int % 16];
    HexDigits(c as int / 16);
    HexDigits(c as int % 16);
    var s := EscapeChar(c) + rest;
    assert s == ['\\', 'u', '0', '0', hi, lo] + rest;
    assert s[6..] == rest;
    assert s[2..6] == ['0', '0', hi, lo];
    hide EscapeChar, HexValue;
    assert HexValue('0') == Some(0) by { HexDigits(0); }
  }

  lemma HexDigits(d: nat)
    requires d < 16
    ensures HexValue(HEX[d]) == Some(d)
  {
  }

  lemma ReadEscape(c: char, rest: string)
    ensures ReadChar(EscapeChar(c) + rest) == Some((c, rest))
    ensures (EscapeChar(c) + rest)[0] != '"'
  {
    if Control(c) && c !in "\n\r\t" {
      ReadControl(c, rest);
    } else {
      hide CodePoint, HexValue;
      var s := EscapeChar(c) + rest;
      if c in "\"\\\n\r\t" {
        assert s[2..] == rest;
      } else {
        assert s[1..] == rest;
      }
    }
  }

  /** Reading a quoted string gives it back, for every string. */
  lemma {:induction false} ReadQuoted(v: string, rest: string)
    ensures ReadString(Escaped(v) + "\"" + rest) == Some((v, rest))
  {
    var s := Escaped(v) + "\"" + rest;
    if v == "" {
      assert s[1..] == rest;
    } else {
      var tail := Escaped(v[1..]) + "\"" + rest;
      assert s == EscapeChar(v[0]) + tail;
      ReadEscape(v[0], tail);
      ReadQuoted(v[1..], rest);
      hide ReadChar, EscapeChar;
      assert [v[0]] + v[1..] == v;
    }
  }

  lemma ReadQuote(v: string, rest: string)
    ensures var s := Quote(v) + rest; s[0] == '"' && ReadString(s[1..]) == Some((v, rest))
  {
    assert (Quote(v) + rest)[1..] == Escaped(v) + "\"" + rest;
    ReadQuoted(v, rest);
  }

  // ------------------------------------------------------------------ integers

  function Digit(d: nat): char
    requires d < 10
  {
    ('0' as int + d) as char
  }

  function Digits(n: nat): (s: string)
    ensures s != ""
  {
    if n < 10 then [Digit(n)] else Digits(n / 10) + [Digit(n % 10)]
  }

  function ShowInt(n: int): string { if n < 0 then "-" + Digits(-n) else Digits(n) }

  predicate AllDigits(s: string) { forall i :: 0 <= i < |s| ==> '0' <= s[i] <= '9' }

  function DigitsValue(s: string): nat
    requires AllDigits(s)
  {
    if s == "" then 0 else DigitsValue(s[..|s| - 1]) * 10 + (s[|s| - 1] as int - '0' as int)
  }

  /** A decimal integer without leading zeros. */
  function ReadNat(s: string): Option<nat> {
    if s == "" || !AllDigits(s) || (|s| > 1 && s[0] == '0') then None else Some(DigitsValue(s))
  }

  function ReadInt(s: string): Option<int> {
    var negative := s != "" && s[0] == '-';
    var n := ReadNat(if negative then s[1..] else s);
    if n.None? then None else if negative then Some(-(n.value as int)) else Some(n.value as int)
  }

  lemma {:induction false} DigitsRead(n: nat)
    ensures AllDigits(Digits(n)) && DigitsValue(Digits(n)) == n
    ensures n > 0 ==> Digits(n)[0] != '0'
    ensures n < 10 ==> |Digits(n)| == 1
  {
    if n >= 10 {
      DigitsRead(n / 10);
      assert Digits(n)[..|Digits(n)| - 1] == Digits(n / 10);
    }
  }

  lemma ReadShown(n: int)
    ensures ReadInt(ShowInt(n)) == Some(n)
  {
    DigitsRead(if n < 0 then -n else n);
    hide Digits, DigitsValue;
    if n < 0 {
      assert ShowInt(n)[1..] == Digits(-n);
    } else {
      assert Digits(n)[0] != '-';
    }
  }

  // ------------------------------------------------------------------ keys, values and lines

  predicate BareChar(c: char) { 'A' <= c <= 'Z' || 'a' <= c <= 'z' || '0' <= c <= '9' || c == '_' || c == '-' }

  predicate Bare(s: string) { s != "" && forall i :: 0 <= i < |s| ==> BareChar(s[i]) }

  function ShowKey(key: string): string { if Bare(key) then key else Quote(key) }

  predicate Strings(items: seq<Option<string>>) { forall i :: 0 <= i < |items| ==> items[i].Some? }

  function ShowItems(items: seq<Option<string>>): string
    requires Strings(items)
  {
    if items == [] then ""
    else if |items| == 1 then Quote(items[0].value)
    else Quote(items[0].value) + ", " + ShowItems(items[1..])
  }

  /** What the writer can print. */
  predicate Printable(v: Leaf) { !v.Other? && (v.List? ==> Strings(v.items)) }

  function ShowLeaf(v: Leaf): string
    requires Printable(v)
  {
    match v
    case Str(s) => Quote(s)
    case Int(n) => ShowInt(n)
    case Bool(b) => if b then "true" else "false"
    case List(items) => "[" + ShowItems(items) + "]"
  }

  predicate PrintableLine(l: Line) {
    (l.Header? ==> Bare(l.name)) && (l.Pair? ==> Printable(l.value))
  }

  function ShowLine(l: Line): string
    requires PrintableLine(l)
  {
    match l
    case Blank => ""
    case Header(name) => "[" + name + "]"
    case Pair(key, value) => ShowKey(key) + " = " + ShowLeaf(value)
  }

  /** How many leading characters may stand in a bare key. */
  function BareLength(s: string): (n: nat)
    ensures n <= |s|
  {
    if s == "" || !BareChar(s[0]) then 0 else 1 + BareLength(s[1..])
  }

  function ReadKey(s: string): Option<(string, string)> {
    if s != "" && s[0] == '"' then ReadString(s[1..])
    else if BareLength(s) == 0 then None
    else Some((s[..BareLength(s)], s[BareLength(s)..]))
  }

  /** Read the items of a non-empty list up to its closing bracket, which must end the line. */
  function ReadItems(s: string): Option<seq<Option<string>>>
    decreases |s|
  {
    if s == "" || s[0] != '"' then None
    else
      var r := ReadString(s[1..]);
      if r.None? then None
      else if r.value.1 == "]" then Some([Some(r.value.0)])
      else if |r.value.1| < 2 || r.value.1[..2] != ", " then None
      else
        var more := ReadItems(r.value.1[2..]);
        if more.None? then None else Some([Some(r.value.0)] + more.value)
  }

  function ReadLeaf(s: string): Option<Leaf> {
    if s == "" then None
    else if s[0] == '"' then
      var r := ReadString(s[1..]);
      if r.None? || r.value.1 != "" then None else Some(Str(r.value.0))
    else if s[0] == '[' then
      if s == "[]" then Some(List([]))
      else var r := ReadItems(s[1..]); if r.None? then None else Some(List(r.value))
    else if s == "true" then Some(Bool(true))
    else if s == "false" then Some(Bool(false))
    else var n := ReadInt(s); if n.None? then None else Some(Int(n.value))
  }

  function ReadLine(s: string): Option<Line> {
    if s == "" then Some(Blank)
    else if s[0] == '[' then
      if |s| < 2 || s[|s| - 1] != ']' || !Bare(s[1..|s| - 1]) then None else Some(Header(s[1..|s| - 1]))
    else
      var k := ReadKey(s);
      if k.None? || |k.value.1| < 3 || k.value.1[..3] != " = " then None
      else var v := ReadLeaf(k.value.1[3..]); if v.None? then None else Some(Pair(k.value.0, v.value))
  }

  lemma {:induction false} BareLengthIs(key: string, rest: string)
    requires forall i :: 0 <= i < |key| ==> BareChar(key[i])
    requires rest != "" && !BareChar(rest[0])
    ensures BareLength(key + rest) == |key|
  {
    if key == "" {
      assert key + rest == rest;
    } else {
      assert (key + rest)[1..] == key[1..] + rest;
      BareLengthIs(key[1..], rest);
    }
  }

  lemma ReadShownKey(key: string, rest: string)
    requires rest != "" && !BareChar(rest[0])
    ensures ReadKey(ShowKey(key) + rest) == Some((key, rest))
  {
    var s := ShowKey(key) + rest;
    if Bare(key) {
      BareLengthIs(key, rest);
      assert s[0] == key[0];
      assert s[..|key|] == key && s[|key|..] == rest;
    } else {
      ReadQuote(key, rest);
      hide Quote, ReadString;
    }
  }

  lemma {:induction false} ReadShownItems(items: seq<Option<string>>)
    requires Strings(items) && items != []
    ensures ReadItems(ShowItems(items) + "]") == Some(items)
  {
    hide ReadString, Quote;
    var s, first := ShowItems(items) + "]", items[0].value;
    if |items| == 1 {
      ReadQuote(first, "]");
      assert items == [items[0]];
    } else {
      var tail := ShowItems(items[1..]) + "]";
      assert s == Quote(first) + (", " + tail);
      ReadQuote(first, ", " + tail);
      assert (", " + tail)[..2] == ", " && (", " + tail)[2..] == tail;
      ReadShownItems(items[1..]);
      assert [items[0]] + items[1..] == items;
    }
  }

  lemma ReadShownStr(s: string)
    ensures ReadLeaf(Quote(s)) == Some(Str(s))
  {
    assert Quote(s) + "" == Quote(s);
    ReadQuote(s, "");
    hide Quote, ReadString, ReadInt, ReadItems;
  }

  lemma ReadShownInt(n: int)
    ensures ReadLeaf(ShowInt(n)) == Some(Int(n))
  {
    ReadShown(n);
    IntStart(n);
    hide ReadInt, ShowInt, ReadString, ReadItems;
    assert "true"[0] == 't' && "false"[0] == 'f';
  }

  lemma ReadShownList(items: seq<Option<string>>)
    requires Strings(items)
    ensures ReadLeaf("[" + ShowItems(items) + "]") == Some(List(items))
  {
    hide ReadInt, ReadString, ReadItems, Quote;
    var s := "[" + ShowItems(items) + "]";
    if items == [] {
      assert s == "[]";
    } else {
      ReadShownItems(items);
      assert s[1..] == ShowItems(items) + "]";
      ItemsStart(items);
      assert s[1] == '"';
    }
  }

  lemma ItemsStart(items: seq<Option<string>>)
    requires Strings(items) && items != []
    ensures ShowItems(items) != "" && ShowItems(items)[0] == '"'
  {
  }

  lemma ReadShownLeaf(v: Leaf)
    requires Printable(v)
    ensures ReadLeaf(ShowLeaf(v)) == Some(v)
  {
    match v
    case Str(s) => ReadShownStr(s);
    case Int(n) => ReadShownInt(n);
    case Bool(b) =>
    case List(items) => ReadShownList(items);
  }

  lemma IntStart(n: int)
    ensures ShowInt(n) != "" && (ShowInt(n)[0] == '-' || '0' <= ShowInt(n)[0] <= '9')
  {
    DigitsRead(if n < 0 then -n else n);
  }

  lemma ReadShownPair(key: string, value: Leaf)
    requires Printable(value)
    ensures ReadLine(ShowLine(Pair(key, value))) == Some(Pair(key, value))
  {
    var shown, rest := ShowKey(key), " = " + ShowLeaf(value);
    assert shown[0] != '[' && shown != "";
    ReadShownKey(key, rest);
    ReadShownLeaf(value);
    hide ReadKey, ReadLeaf, ShowLeaf, ShowKey, Bare;
    assert shown + " = " + ShowLeaf(value) == shown + rest;
    assert rest[..3] == " = " && rest[3..] == ShowLeaf(value);
  }

  /** Reading a written line gives it back. */
  lemma ReadShownLine(l: Line)
    requires PrintableLine(l)
    ensures ReadLine(ShowLine(l)) == Some(l)
  {
    match l
    case Blank =>
    case Header(name) =>
      assert ShowLine(l)[1..|ShowLine(l)| - 1] == name;
    case Pair(key, value) =>
      ReadShownPair(key, value);
  }
}
