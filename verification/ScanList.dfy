/** The list of networks built from a scan: one entry per SSID, strongest first. */
module ScanList {
  import opened Common
  import opened Scan
  import Config
  import Toml
  import Utf8

  datatype Entry = Entry(ssid: string, signal: int, secured: bool)

  // ------------------------------------------------------------------ lines

  /** The characters Python's `splitlines` breaks at. */
  predicate Break(c: char) {
    var n := c as int;
    0x0A <= n <= 0x0D || 0x1C <= n <= 0x1E || n == 0x85 || n == 0x2028 || n == 0x2029
  }

  /** Line feed, the two tabs and feeds beside it, carriage return, three separators, and three of Unicode's own. */
  lemma BreakIs(c: char)
    ensures Break(c) <==>
      c in {'\n', '\U{0B}', '\U{0C}', '\r', '\U{1C}', '\U{1D}', '\U{1E}', '\U{85}', '\U{2028}', '\U{2029}'}
  {
  }

  predicate Unbroken(s: string) { forall i :: 0 <= i < |s| ==> !Break(s[i]) }

  /** Where the first line ends. */
  function LineLength(s: string): (n: nat)
    ensures n <= |s|
  {
    if s == "" || Break(s[0]) then 0 else 1 + LineLength(s[1..])
  }

  /** How many characters the break at the start of `s` takes. */
  function BreakLength(s: string): (n: nat)
    ensures n <= |s|
  {
    if s == "" then 0 else if |s| > 1 && s[0] == '\r' && s[1] == '\n' then 2 else 1
  }

  function SplitLines(s: string): seq<string>
    decreases |s|
  {
    if s == "" then []
    else
      var n := LineLength(s);
      var rest := s[n..];
      if n == |s| then [s] else [s[..n]] + SplitLines(rest[BreakLength(rest)..])
  }

  lemma {:induction false} LineLengthIs(s: string, t: string)
    requires Unbroken(s) && t != "" && Break(t[0])
    ensures LineLength(s + t) == |s|
  {
    if s == "" {
      assert s + t == t;
    } else {
      assert (s + t)[1..] == s[1..] + t;
      LineLengthIs(s[1..], t);
    }
  }

  /** A line and its break come off the front; a carriage return takes a line feed after it along. */
  lemma SplitFirst(s: string, b: char, rest: string)
    requires Unbroken(s) && Break(b)
    ensures var paired := b == '\r' && rest != "" && rest[0] == '\n';
            SplitLines(s + ([b] + rest)) == [s] + SplitLines(if paired then rest[1..] else rest)
  {
    var tail := [b] + rest;
    var text := s + tail;
    LineLengthIs(s, tail);
    assert text[|s|..] == tail && text[..|s|] == s;
    assert tail[1..] == rest && (rest != "" ==> tail[2..] == rest[1..]);
  }

  // ------------------------------------------------------------------ the parser

  predicate Listed(ssid: string) { ssid != "" && |Utf8.Encode(ssid)| <= MAX_SSID_BYTES }

  predicate Secured(security: string) { Config.Strip(security) !in ["", "--"] }

  /** One line, or `None` when it is skipped; a signal that is no number counts as zero. */
  function ParseLine(line: string, readInt: string -> Option<int>): Option<Entry> {
    var parts := Split(line);
    if |parts| < 3 || !Listed(Unescape(parts[0])) then None
    else
      var signal := readInt(parts[1]);
      Some(Entry(Unescape(parts[0]), if signal.Some? then signal.value else 0, Secured(parts[2])))
  }

  /** Keep an entry when its SSID is new or its signal is stronger. */
  function Better(best: Dict<string, Entry>, e: Entry): Dict<string, Entry> {
    if !Has(best, e.ssid) || e.signal > Get(best, e.ssid).value.signal then Put(best, e.ssid, e) else best
  }

  function BestOf(best: Dict<string, Entry>, lines: seq<string>, readInt: string -> Option<int>): Dict<string, Entry>
    decreases |lines|
  {
    if lines == [] then best
    else
      var e := ParseLine(lines[0], readInt);
      BestOf(if e.None? then best else Better(best, e.value), lines[1..], readInt)
  }

  function Read(best: Dict<string, Entry>, text: string, readInt: string -> Option<int>): Dict<string, Entry> {
    BestOf(best, SplitLines(text), readInt)
  }

  function Values(d: Dict<string, Entry>): (r: seq<Entry>)
    ensures |r| == |d| && forall i :: 0 <= i < |d| ==> r[i] == d[i].1
  {
    if d == [] then [] else [d[0].1] + Values(d[1..])
  }

  function InsertBySignal(e: Entry, es: seq<Entry>): seq<Entry> {
    if es == [] || e.signal >= es[0].signal then [e] + es else [es[0]] + InsertBySignal(e, es[1..])
  }

  /** Strongest first, equal signals in their old order. */
  function BySignal(es: seq<Entry>): seq<Entry> {
    if es == [] then [] else InsertBySignal(es[0], BySignal(es[1..]))
  }

  method ParseScan(text: string, readInt: string -> Option<int>) returns (out: seq<Entry>)
    ensures out == BySignal(Values(Read([], text, readInt)))
  {
    var lines := SplitLines(text);
    var best: Dict<string, Entry> := [];
    for k := 0 to |lines|
      invariant BestOf(best, lines[k..], readInt) == BestOf([], lines, readInt)
    {
      assert lines[k..][1..] == lines[k + 1..];
      var e := ParseLine(lines[k], readInt);
      if e.Some? {
        if !Has(best, e.value.ssid) || e.value.signal > Get(best, e.value.ssid).value.signal {
          best := Put(best, e.value.ssid, e.value);
        }
      }
    }
    out := BySignal(Values(best));
  }

  // ------------------------------------------------------------------ sorting

  ghost predicate Descending(es: seq<Entry>) {
    forall i, j :: 0 <= i < j < |es| ==> es[i].signal >= es[j].signal
  }

  /** The entries of one signal strength, in order. */
  function Only(es: seq<Entry>, signal: int): seq<Entry> {
    if es == [] then [] else (if es[0].signal == signal then [es[0]] else []) + Only(es[1..], signal)
  }

  lemma {:induction false} InsertKeeps(e: Entry, es: seq<Entry>)
    ensures multiset(InsertBySignal(e, es)) == multiset{e} + multiset(es)
  {
    if es != [] && e.signal < es[0].signal {
      InsertKeeps(e, es[1..]);
      assert es == [es[0]] + es[1..];
    }
  }

  lemma {:induction false} InsertSorts(e: Entry, es: seq<Entry>)
    requires Descending(es)
    ensures Descending(InsertBySignal(e, es))
    ensures var first := InsertBySignal(e, es)[0].signal; first == e.signal || (es != [] && first == es[0].signal)
  {
    if es == [] || e.signal >= es[0].signal {
    } else {
      InsertSorts(e, es[1..]);
    }
  }

  lemma {:induction false} InsertStable(e: Entry, es: seq<Entry>, signal: int)
    ensures Only(InsertBySignal(e, es), signal) == (if e.signal == signal then [e] else []) + Only(es, signal)
  {
    if es == [] || e.signal >= es[0].signal {
      assert ([e] + es)[1..] == es;
    } else {
      InsertStable(e, es[1..], signal);
      var r := InsertBySignal(e, es[1..]);
      assert ([es[0]] + r)[1..] == r;
      var o := Only(es[1..], signal);
      assert [] + ([e] + o) == [e] + ([] + o) && [] + ([es[0]] + o) == [es[0]] + ([] + o) && [] + o == o;
      assert Only([es[0]] + r, signal) == (if es[0].signal == signal then [es[0]] else []) + Only(r, signal);
      hide InsertBySignal, Only;
    }
  }

  /** The sort is descending, keeps exactly the same entries, and is stable. */
  lemma {:induction false} SignalSorts(es: seq<Entry>, signal: int)
    ensures Descending(BySignal(es)) && multiset(BySignal(es)) == multiset(es)
    ensures Only(BySignal(es), signal) == Only(es, signal)
  {
    if es != [] {
      SignalSorts(es[1..], signal);
      InsertKeeps(es[0], BySignal(es[1..]));
      InsertSorts(es[0], BySignal(es[1..]));
      InsertStable(es[0], BySignal(es[1..]), signal);
      assert es == [es[0]] + es[1..];
    }
  }

  // ------------------------------------------------------------------ printed rows

  /** The signal's numeral is read back. */
  predicate Readable(r: Row, readInt: string -> Option<int>) { readInt(Toml.ShowInt(r.signal)) == Some(r.signal) }

  /** The SSIDs that make it into the list: not hidden, not too long, and not ending in a backslash. */
  predicate Shown(ssid: string) { ssid != "" && |Utf8.Encode(ssid)| <= 32 && !EndsInBackslash(ssid) }

  /** The entry of a row: secured unless its security is blank or two dashes. */
  function EntryOf(r: Row): Entry {
    var security := Config.Strip(Escape(r.security));
    Entry(r.ssid, r.signal, security != "" && security != "--")
  }

  lemma LineParses(r: Row, readInt: string -> Option<int>)
    requires Readable(r, readInt)
    ensures ParseLine(Print(r), readInt) == if Shown(r.ssid) then Some(EntryOf(r)) else None
  {
    RowSplits(r);
    UnescapeInverts(r.ssid);
    hide Split, Unescape, Escape, Toml.ShowInt, EndsInBackslash, Utf8.Encode, Config.Strip;
  }

  /** A listed network is read exactly when its SSID does not end in a backslash; otherwise its line is skipped. */
  lemma LineReadIff(r: Row, readInt: string -> Option<int>)
    requires r.ssid != "" && |Utf8.Encode(r.ssid)| <= 32
    ensures ParseLine(Print(r), readInt).Some? <==> !EndsInBackslash(r.ssid)
  {
    RowSplits(r);
    UnescapeInverts(r.ssid);
    hide Split, Unescape, Escape, Secured, Toml.ShowInt, Utf8.Encode;
  }

  /** What is left of a text behind its last break, and in front of its first. */
  function Behind(s: string): string
    decreases |s|
  {
    var n := LineLength(s);
    if n == |s| then s else Behind(s[n + 1..])
  }

  function InFront(s: string): string { s[..LineLength(s)] }

  /**
   * The row the parser makes of a printed one: its SSID from behind the last line break in it, its security
   * up to the first.
   */
  function Cut(r: Row): Row { Row(Behind(r.ssid), r.signal, InFront(r.security)) }

  function CutAll(rows: seq<Row>): seq<Row> { if rows == [] then [] else [Cut(rows[0])] + CutAll(rows[1..]) }

  lemma {:induction false} LineEnds(s: string)
    ensures forall i :: 0 <= i < LineLength(s) ==> !Break(s[i])
    ensures LineLength(s) < |s| ==> Break(s[LineLength(s)])
  {
    hide Break;
    if s != "" && !Break(s[0]) {
      LineEnds(s[1..]);
      forall i | 0 <= i < LineLength(s) ensures !Break(s[i]) {
        assert i > 0 ==> s[i] == s[1..][i - 1];
      }
    }
  }

  lemma FirstLine(s: string)
    ensures Unbroken(InFront(s))
    ensures LineLength(s) < |s| ==>
      && Break(s[LineLength(s)])
      && s == InFront(s) + ([s[LineLength(s)]] + s[LineLength(s) + 1..])
    ensures Unbroken(s) <==> LineLength(s) == |s|
  {
    hide Break, LineLength;
    LineEnds(s);
    var n := LineLength(s);
    if n < |s| {
      Around(s, n);
      assert !Unbroken(s);
    } else {
      assert InFront(s) == s;
    }
  }

  lemma Around(s: string, n: nat)
    requires n < |s|
    ensures s == s[..n] + ([s[n]] + s[n + 1..])
  {
    assert [s[n]] + s[n + 1..] == s[n..];
  }

  lemma {:induction false} BehindShorter(s: string)
    ensures Unbroken(Behind(s)) && |Behind(s)| <= |s| && (|Behind(s)| == |s| ==> Unbroken(s))
    decreases |s|
  {
    FirstLine(s);
    if LineLength(s) < |s| {
      BehindShorter(s[LineLength(s) + 1..]);
    }
  }

  /** A row is read as itself exactly when it prints on one line. */
  lemma CutSameIff(r: Row)
    ensures Cut(r) == r <==> Unbroken(r.ssid) && Unbroken(r.security)
    ensures Unbroken(Cut(r).ssid) && Unbroken(Cut(r).security)
  {
    FirstLine(r.ssid);
    FirstLine(r.security);
    BehindShorter(r.ssid);
    hide Unbroken, LineLength;
    assert InFront(r.security) == r.security <==> |InFront(r.security)| == |r.security|;
  }

  function Added(best: Dict<string, Entry>, e: Option<Entry>): Dict<string, Entry> {
    if e.None? then best else Better(best, e.value)
  }

  lemma BestOfFirst(best: Dict<string, Entry>, line: string, lines: seq<string>, readInt: string -> Option<int>)
    ensures BestOf(best, [line] + lines, readInt) == BestOf(Added(best, ParseLine(line, readInt)), lines, readInt)
  {
    assert ([line] + lines)[1..] == lines;
  }

  /** A line without its own colons is skipped. */
  lemma EscapedSkipped(s: string, readInt: string -> Option<int>)
    ensures ParseLine(Escape(s), readInt) == None
  {
    SplitEscaped(s, "", false);
    assert Escape(s) + "" == Escape(s);
    hide Escape, Unescape;
  }

  lemma ReadBreak(best: Dict<string, Entry>, s: string, b: char, rest: string, readInt: string -> Option<int>)
    requires Unbroken(s) && Break(b)
    ensures Read(best, s + ([b] + rest), readInt) == Read(Added(best, ParseLine(s, readInt)), rest, readInt)
  {
    var next := Added(best, ParseLine(s, readInt));
    SplitFirst(s, b, rest);
    var paired := b == '\r' && rest != "" && rest[0] == '\n';
    var tail := if paired then rest[1..] else rest;
    if paired {
      EscapedSkipped("", readInt);
      assert Escape("") == "";
      assert rest == "" + (['\n'] + tail);
      SplitFirst("", '\n', tail);
      hide SplitLines, ParseLine, Better, BestOf;
      BestOfFirst(next, "", SplitLines(tail), readInt);
    }
    hide SplitLines, ParseLine, Better, BestOf;
    BestOfFirst(best, s, SplitLines(tail), readInt);
  }

  lemma {:induction false} EscapeUnbroken(s: string)
    requires Unbroken(s)
    ensures Unbroken(Escape(s))
  {
    if s != "" {
      EscapeUnbroken(s[1..]);
      assert Unbroken(EscapeChar(s[0]));
    }
  }

  lemma {:induction false} EscapeConcat(s: string, t: string)
    ensures Escape(s + t) == Escape(s) + Escape(t)
  {
    if s == "" {
      assert s + t == t;
      assert Escape(s) + Escape(t) == Escape(t);
    } else {
      assert (s + t)[0] == s[0] && (s + t)[1..] == s[1..] + t;
      EscapeConcat(s[1..], t);
      Assoc(EscapeChar(s[0]), Escape(s[1..]), Escape(t));
    }
  }

  /** A break is printed as it is. */
  lemma EscapeAtBreak(s: string, b: char, rest: string)
    requires Break(b)
    ensures Escape(s + ([b] + rest)) == Escape(s) + ([b] + Escape(rest))
  {
    EscapeConcat(s, [b] + rest);
    assert ([b] + rest)[1..] == rest && EscapeChar(b) == [b];
  }

  /** A text at its first break, and how it is printed. */
  lemma AtBreak(s: string) returns (b: char, rest: string)
    requires LineLength(s) < |s|
    ensures Break(b) && |rest| < |s| && Behind(s) == Behind(rest)
    ensures Unbroken(Escape(InFront(s))) && Escape(s) == Escape(InFront(s)) + ([b] + Escape(rest))
  {
    hide Break, Escape, Unbroken;
    var n := LineLength(s);
    b, rest := s[n], s[n + 1..];
    FirstLine(s);
    EscapeUnbroken(InFront(s));
    EscapeAtBreak(InFront(s), b, rest);
  }

  lemma BehindSame(s: string)
    requires LineLength(s) == |s|
    ensures Behind(s) == s && InFront(s) == s
  {
  }

  /** Whatever is printed in front of the last break of a field makes no line of its own. */
  lemma {:induction false} ReadBehind(best: Dict<string, Entry>, s: string, tail: string,
                                      readInt: string -> Option<int>)
    ensures Read(best, Escape(s) + tail, readInt) == Read(best, Escape(Behind(s)) + tail, readInt)
    decreases |s|
  {
    hide Escape, ParseLine, Read, Unbroken, InFront, Behind, LineLength, Break, Better;
    if LineLength(s) == |s| {
      BehindSame(s);
    } else {
      var b, rest := AtBreak(s);
      var p := Escape(InFront(s));
      EscapedSkipped(InFront(s), readInt);
      Assoc(p, [b] + Escape(rest), tail);
      Assoc([b], Escape(rest), tail);
      ReadBreak(best, p, b, Escape(rest) + tail, readInt);
      ReadBehind(best, rest, tail, readInt);
    }
  }

  /** The security field of a row whose front is on one line: what comes behind its first break makes no line either. */
  lemma ReadSecurity(best: Dict<string, Entry>, front: string, security: string, tail: string,
                     readInt: string -> Option<int>)
    requires Unbroken(front)
    ensures Read(best, (front + Escape(security)) + ("\n" + tail), readInt)
         == Read(Added(best, ParseLine(front + Escape(InFront(security)), readInt)), tail, readInt)
  {
    hide Escape, ParseLine, Read, Unbroken, InFront, Behind, LineLength, Better;
    assert Break('\n');
    hide Break;
    if LineLength(security) == |security| {
      BehindSame(security);
      FrontUnbroken(front, security);
      ReadBreak(best, front + Escape(security), '\n', tail, readInt);
    } else {
      var b, rest := AtBreak(security);
      var p := Escape(InFront(security));
      FrontUnbroken(front, security);
      var next := Added(best, ParseLine(front + p, readInt));
      Assoc(front, p, [b] + Escape(rest));
      Assoc(front + p, [b] + Escape(rest), "\n" + tail);
      Assoc([b], Escape(rest), "\n" + tail);
      ReadBreak(best, front + p, b, Escape(rest) + ("\n" + tail), readInt);
      ReadRest(next, rest, tail, readInt);
    }
  }

  lemma FrontUnbroken(front: string, security: string)
    requires Unbroken(front)
    ensures Unbroken(front + Escape(InFront(security)))
  {
    FirstLine(security);
    EscapeUnbroken(InFront(security));
    hide Break, Escape, InFront;
  }

  lemma ReadRest(best: Dict<string, Entry>, s: string, tail: string, readInt: string -> Option<int>)
    ensures Read(best, Escape(s) + ("\n" + tail), readInt) == Read(best, tail, readInt)
  {
    hide Escape, ParseLine, Read, Unbroken, Behind, Better;
    ReadBehind(best, s, "\n" + tail, readInt);
    BehindShorter(s);
    EscapeUnbroken(Behind(s));
    EscapedSkipped(Behind(s), readInt);
    ReadBreak(best, Escape(Behind(s)), '\n', tail, readInt);
  }

  /** A printed row is read as its cut one, whatever breaks it holds. */
  lemma ReadRow(best: Dict<string, Entry>, r: Row, tail: string, readInt: string -> Option<int>)
    ensures Read(best, Print(r) + ("\n" + tail), readInt)
         == Read(Added(best, ParseLine(Print(Cut(r)), readInt)), tail, readInt)
  {
    hide Escape, ParseLine, Read, Unbroken, InFront, Behind, LineLength, Better, Print, Toml.ShowInt;
    var id, mid, sec := Escape(r.ssid), Middle(r.signal), Escape(r.security);
    var last := Escape(Behind(r.ssid));
    PrintParts(r);
    PrintParts(Cut(r));
    FrontOneLine(r);
    Assoc(id, mid + sec, "\n" + tail);
    ReadBehind(best, r.ssid, (mid + sec) + ("\n" + tail), readInt);
    Assoc(last, mid + sec, "\n" + tail);
    Assoc(last, mid, sec);
    Assoc(last, mid, Escape(InFront(r.security)));
    ReadSecurity(best, last + mid, r.security, tail, readInt);
  }

  function Middle(signal: int): string { ":" + (Toml.ShowInt(signal) + ":") }

  lemma PrintParts(r: Row)
    ensures Print(r) == Escape(r.ssid) + (Middle(r.signal) + Escape(r.security))
  {
    hide Escape, Toml.ShowInt;
    var n, sec := Toml.ShowInt(r.signal), Escape(r.security);
    Assoc(":", n + ":", sec);
    Assoc(n, ":", sec);
  }

  lemma FrontOneLine(r: Row)
    ensures Unbroken(Escape(Behind(r.ssid)) + Middle(r.signal))
  {
    BehindShorter(r.ssid);
    EscapeUnbroken(Behind(r.ssid));
    ShownNumeral(r.signal);
    hide Escape, Behind, Toml.ShowInt;
  }

  function TextOf(rows: seq<Row>): string {
    if rows == [] then "" else Print(rows[0]) + ("\n" + TextOf(rows[1..]))
  }

  // ------------------------------------------------------------------ the list

  /** No row of the same SSID is stronger, and none before it is as strong. */
  ghost predicate FirstBest(rows: seq<Row>, i: nat)
    requires i < |rows|
  {
    forall j :: 0 <= j < |rows| && rows[j].ssid == rows[i].ssid ==>
      rows[j].signal <= rows[i].signal && (j < i ==> rows[j].signal < rows[i].signal)
  }

  /** The dictionary holds, for each shown SSID among the rows, the entry of the first of its strongest rows. */
  ghost predicate Holds(best: Dict<string, Entry>, rows: seq<Row>) {
    && DistinctKeys(best)
    && (forall s :: Has(best, s) ==>
          exists i :: 0 <= i < |rows| && rows[i].ssid == s && Shown(s) && Get(best, s) == Some(EntryOf(rows[i]))
                      && FirstBest(rows, i))
    && (forall i :: 0 <= i < |rows| && Shown(rows[i].ssid) ==>
          Has(best, rows[i].ssid) && Get(best, rows[i].ssid).value.signal >= rows[i].signal)
  }

  lemma HoldsNothing()
    ensures Holds([], [])
  {
  }

  lemma HoldsMore(best: Dict<string, Entry>, rows: seq<Row>, r: Row)
    requires Holds(best, rows)
    ensures Holds(if Shown(r.ssid) then Better(best, EntryOf(r)) else best, rows + [r])
  {
    hide Shown, Config.Strip, Escape;
    var e, more := EntryOf(r), rows + [r];
    var next := if Shown(r.ssid) then Better(best, e) else best;
    PutDistinct(best, r.ssid, e);
    forall s ensures Get(Put(best, r.ssid, e), s) == if s == r.ssid then Some(e) else Get(best, s) {
      GetPut(best, r.ssid, e, s);
    }
    hide DistinctKeys, Put, Get;
    forall s | Has(next, s)
      ensures exists i :: 0 <= i < |more| && more[i].ssid == s && Shown(s) && Get(next, s) == Some(EntryOf(more[i]))
                          && FirstBest(more, i)
    {
      if s == r.ssid && Shown(s) && (!Has(best, s) || r.signal > Get(best, s).value.signal) {
        assert more[|rows|] == r;
        forall j | 0 <= j < |rows| && rows[j].ssid == s ensures rows[j].signal < r.signal {
          assert Shown(rows[j].ssid);
        }
        assert FirstBest(more, |rows|);
      } else {
        var i :| 0 <= i < |rows| && rows[i].ssid == s && Shown(s) && Get(best, s) == Some(EntryOf(rows[i]))
                 && FirstBest(rows, i);
        assert more[i] == rows[i];
        assert FirstBest(more, i);
      }
    }
    forall i | 0 <= i < |more| && Shown(more[i].ssid)
      ensures Has(next, more[i].ssid) && Get(next, more[i].ssid).value.signal >= more[i].signal
    {
      if i < |rows| {
        assert more[i] == rows[i];
      }
    }
  }

  lemma {:induction false} BestHolds(best: Dict<string, Entry>, done: seq<Row>, more: seq<Row>,
                                     readInt: string -> Option<int>)
    requires Holds(best, done) && forall i :: 0 <= i < |more| ==> Readable(more[i], readInt)
    ensures Holds(Read(best, TextOf(more), readInt), done + CutAll(more))
    decreases |more|
  {
    if more == [] {
      assert done + CutAll(more) == done;
    } else {
      var r := more[0];
      assert Readable(Cut(r), readInt);
      hide Holds, Better, Readable, Print, ParseLine, Shown, Read, Cut;
      ReadRow(best, r, TextOf(more[1..]), readInt);
      LineParses(Cut(r), readInt);
      HoldsMore(best, done, Cut(r));
      var next := if Shown(Cut(r).ssid) then Better(best, EntryOf(Cut(r))) else best;
      Assoc(done, [Cut(r)], CutAll(more[1..]));
      BestHolds(next, done + [Cut(r)], more[1..], readInt);
    }
  }

  /**
   * The list holds each shown SSID of the rows exactly once, as in the first of its strongest rows, strongest
   * first.
   */
  ghost predicate ListOf(out: seq<Entry>, rows: seq<Row>) {
    && Descending(out)
    && (forall k :: 0 <= k < |out| ==> Shown(out[k].ssid) && FromRow(out[k], rows))
    && (forall i :: 0 <= i < |rows| && Shown(rows[i].ssid) ==> Covered(rows[i], out))
    && (forall i, j :: 0 <= i < j < |out| ==> out[i].ssid != out[j].ssid)
  }

  ghost predicate FromRow(e: Entry, rows: seq<Row>) {
    exists i :: 0 <= i < |rows| && e == EntryOf(rows[i]) && FirstBest(rows, i)
  }

  ghost predicate Covered(r: Row, out: seq<Entry>) {
    exists k :: 0 <= k < |out| && out[k].ssid == r.ssid && out[k].signal >= r.signal
  }

  /**
   * For all rows, the parser's list is exactly the list of the shown ones among the cut rows. A row is its cut
   * row exactly when it prints on one line (`CutSameIff`).
   */
  lemma ScanLists(rows: seq<Row>, readInt: string -> Option<int>)
    requires forall i :: 0 <= i < |rows| ==> Readable(rows[i], readInt)
    ensures ListOf(BySignal(Values(Read([], TextOf(rows), readInt))), CutAll(rows))
  {
    hide ListOf, Holds, TextOf, Read, Readable, CutAll, BySignal, Values;
    HoldsNothing();
    assert [] + CutAll(rows) == CutAll(rows);
    BestHolds([], [], rows, readInt);
    HeldIsListed(Read([], TextOf(rows), readInt), CutAll(rows));
  }

  lemma HeldIsListed(best: Dict<string, Entry>, rows: seq<Row>)
    requires Holds(best, rows)
    ensures ListOf(BySignal(Values(best)), rows)
  {
    var vals := Values(best);
    var out := BySignal(vals);
    SignalSorts(vals, 0);
    KeysAreSsids(best, rows);
    hide BySignal, Shown, Config.Strip, Escape, Get, DistinctKeys, Descending, Only, Holds, FromRow, Covered;
    DistinctSsids(vals, out);
    AllFromRows(vals, out, rows);
    forall i | 0 <= i < |rows| && Shown(rows[i].ssid) ensures Covered(rows[i], out) {
      RowCovered(best, rows, i, out);
    }
  }

  lemma AllFromRows(vals: seq<Entry>, out: seq<Entry>, rows: seq<Row>)
    requires multiset(out) == multiset(vals)
    requires forall k :: 0 <= k < |vals| ==> Shown(vals[k].ssid) && FromRow(vals[k], rows)
    ensures forall k :: 0 <= k < |out| ==> Shown(out[k].ssid) && FromRow(out[k], rows)
  {
    hide Shown, FromRow;
    forall k | 0 <= k < |out| ensures Shown(out[k].ssid) && FromRow(out[k], rows) {
      var i := Same(out, vals, k);
    }
  }

  lemma RowCovered(best: Dict<string, Entry>, rows: seq<Row>, i: nat, out: seq<Entry>)
    requires Holds(best, rows) && i < |rows| && Shown(rows[i].ssid) && multiset(Values(best)) == multiset(out)
    ensures Covered(rows[i], out)
  {
    var e := Get(best, rows[i].ssid).value;
    assert e.signal >= rows[i].signal && e.ssid == rows[i].ssid;
    GetIn(best, rows[i].ssid);
    hide Holds, Get, Shown, Config.Strip, Escape;
    var k :| 0 <= k < |best| && best[k] == (rows[i].ssid, e);
    var m := Same(Values(best), out, k);
    assert out[m] == e;
  }

  /** Where an entry stands in another sequence of the same entries. */
  lemma Same(a: seq<Entry>, b: seq<Entry>, k: nat) returns (i: nat)
    requires multiset(a) == multiset(b) && k < |a|
    ensures i < |b| && b[i] == a[k]
  {
    assert a[k] in multiset(a);
    assert a[k] in b;
    i :| 0 <= i < |b| && b[i] == a[k];
  }

  lemma KeysAreSsids(best: Dict<string, Entry>, rows: seq<Row>)
    requires Holds(best, rows)
    ensures forall k :: 0 <= k < |best| ==>
      best[k].1.ssid == best[k].0 && Shown(best[k].0) && FromRow(best[k].1, rows)
    ensures var v := Values(best); forall i, j :: 0 <= i < j < |v| ==> v[i].ssid != v[j].ssid
  {
    hide Shown, Config.Strip, Escape;
    forall k | 0 <= k < |best|
      ensures best[k].1.ssid == best[k].0 && Shown(best[k].0) && FromRow(best[k].1, rows)
    {
      GetAt(best, k);
      var s := best[k].0;
      var i :| 0 <= i < |rows| && rows[i].ssid == s && Shown(s) && Get(best, s) == Some(EntryOf(rows[i]))
               && FirstBest(rows, i);
      assert best[k].1 == EntryOf(rows[i]);
    }
  }

  /** Two sequences of the same entries agree on having no SSID twice. */
  lemma DistinctSsids(a: seq<Entry>, b: seq<Entry>)
    requires multiset(a) == multiset(b)
    requires forall i, j :: 0 <= i < j < |a| ==> a[i].ssid != a[j].ssid
    ensures forall i, j :: 0 <= i < j < |b| ==> b[i].ssid != b[j].ssid
  {
    forall i, j | 0 <= i < j < |b| ensures b[i].ssid != b[j].ssid {
      assert b[i] in multiset(b) && b[j] in multiset(b);
      assert b[i] in a && b[j] in a;
      if b[i] == b[j] {
        TwiceAt(b, i, j);
        OnceIn(a, b[i]);
      }
    }
  }

  lemma TwiceAt(b: seq<Entry>, i: nat, j: nat)
    requires i < j < |b| && b[i] == b[j]
    ensures multiset(b)[b[i]] >= 2
  {
    assert b == b[..j] + [b[j]] + b[j + 1..];
    assert b[..j][i] == b[i];
    assert b[i] in multiset(b[..j]);
  }

  lemma {:induction false} OnceIn(a: seq<Entry>, e: Entry)
    requires forall i, j :: 0 <= i < j < |a| ==> a[i].ssid != a[j].ssid
    ensures multiset(a)[e] <= 1
  {
    if a != [] {
      OnceIn(a[1..], e);
      assert a == [a[0]] + a[1..];
      if a[0] == e {
        forall k | 0 <= k < |a[1..]| ensures a[1..][k] != e {
          assert a[1..][k] == a[k + 1];
        }
        assert e !in multiset(a[1..]);
      }
    }
  }
}
