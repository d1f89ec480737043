/** Whole documents: from lines to text and back, and from lines to the tables they define. */
module TomlDoc {
  import opened Common
  import opened Toml

  datatype Value = Plain(leaf: Leaf) | Table(entries: Dict<string, Leaf>)

  type Doc = Dict<string, Value>

  // ------------------------------------------------------------------ text and lines

  function Join(sep: string, xs: seq<string>): string {
    if xs == [] then "" else if |xs| == 1 then xs[0] else xs[0] + sep + Join(sep, xs[1..])
  }

  predicate AllPrintable(ls: seq<Line>) { forall i :: 0 <= i < |ls| ==> PrintableLine(ls[i]) }

  function ShowLines(ls: seq<Line>): seq<string>
    requires AllPrintable(ls)
  {
    if ls == [] then [] else [ShowLine(ls[0])] + ShowLines(ls[1..])
  }

  function Dump(ls: seq<Line>): string
    requires AllPrintable(ls)
  {
    Join("\n", ShowLines(ls)) + "\n"
  }

  function Split(text: string): seq<string> {
    if text == "" then [""]
    else
      var rest := Split(text[1..]);
      if text[0] == '\n' then [""] + rest else if rest == [] then [[text[0]]] else [[text[0]] + rest[0]] + rest[1..]
  }

  /** A reader first turns each carriage return before a line feed into a bare line feed. */
  function LineFeeds(text: string): string {
    if text == "" then ""
    else if |text| > 1 && text[..2] == "\r\n" then "\n" + LineFeeds(text[2..])
    else [text[0]] + LineFeeds(text[1..])
  }

  function ReadLines(ss: seq<string>): Option<seq<Line>> {
    if ss == [] then Some([])
    else
      var l, rest := ReadLine(ss[0]), ReadLines(ss[1..]);
      if l.None? || rest.None? then None else Some([l.value] + rest.value)
  }

  /** Neither a line feed nor a carriage return. */
  predicate OneLine(s: string) { '\n' !in s && '\r' !in s }

  lemma {:induction false} EscapedOneLine(s: string)
    ensures OneLine(Escaped(s))
  {
    if s != "" {
      EscapedOneLine(s[1..]);
      assert OneLine(EscapeChar(s[0]));
    }
  }

  lemma {:induction false} ItemsOneLine(items: seq<Option<string>>)
    requires Strings(items)
    ensures OneLine(ShowItems(items))
  {
    if items != [] {
      EscapedOneLine(items[0].value);
      ItemsOneLine(items[1..]);
    }
  }

  lemma LeafOneLine(v: Leaf)
    requires Printable(v)
    ensures OneLine(ShowLeaf(v))
  {
    match v
    case Str(s) => EscapedOneLine(s);
    case Int(n) => DigitsRead(if n < 0 then -n else n);
    case Bool(_) =>
    case List(items) =>
      ItemsOneLine(items);
      hide ShowItems;
  }

  lemma ShownOneLine(l: Line)
    requires PrintableLine(l)
    ensures OneLine(ShowLine(l))
  {
    if l.Pair? {
      EscapedOneLine(l.key);
      LeafOneLine(l.value);
      assert OneLine(ShowKey(l.key));
      hide ShowLeaf, ShowKey;
    }
  }

  lemma {:induction false} SplitLine(x: string, rest: string)
    requires '\n' !in x
    ensures Split(x + "\n" + rest) == [x] + Split(rest)
  {
    var text := x + "\n" + rest;
    if x == "" {
      assert text[1..] == rest;
    } else {
      assert text[1..] == x[1..] + "\n" + rest;
      SplitLine(x[1..], rest);
      assert [x[0]] + x[1..] == x;
    }
  }

  lemma {:induction false} SplitJoined(xs: seq<string>)
    requires xs != [] && forall i :: 0 <= i < |xs| ==> '\n' !in xs[i]
    ensures Split(Join("\n", xs) + "\n") == xs + [""]
  {
    if |xs| == 1 {
      assert xs[0] + "\n" == xs[0] + "\n" + "";
      SplitLine(xs[0], "");
    } else {
      assert Join("\n", xs) + "\n" == xs[0] + "\n" + (Join("\n", xs[1..]) + "\n");
      SplitLine(xs[0], Join("\n", xs[1..]) + "\n");
      SplitJoined(xs[1..]);
    }
  }

  lemma {:induction false} LineFeedsSame(text: string)
    requires '\r' !in text
    ensures LineFeeds(text) == text
  {
    if text != "" {
      LineFeedsSame(text[1..]);
      assert text[0] in text;
      if |text| > 1 {
        assert text[..2][0] == text[0];
      }
    }
  }

  lemma {:induction false} JoinNoCr(xs: seq<string>)
    requires forall i :: 0 <= i < |xs| ==> '\r' !in xs[i]
    ensures '\r' !in Join("\n", xs)
  {
    if xs != [] {
      JoinNoCr(xs[1..]);
    }
  }

  lemma {:induction false} ReadShownLines(ls: seq<Line>)
    requires AllPrintable(ls)
    ensures ReadLines(ShowLines(ls) + [""]) == Some(ls + [Blank])
  {
    hide ShowLine, PrintableLine;
    var xs := ShowLines(ls) + [""];
    if ls == [] {
      assert xs[1..] == [];
      assert [Blank] + [] == ls + [Blank];
    } else {
      ReadShownLines(ls[1..]);
      ReadShownLine(ls[0]);
      hide ReadLine;
      assert xs[1..] == ShowLines(ls[1..]) + [""];
      assert [ls[0]] + (ls[1..] + [Blank]) == ls + [Blank];
    }
  }

  lemma {:induction false} ShownOneLines(ls: seq<Line>)
    requires AllPrintable(ls)
    ensures |ShowLines(ls)| == |ls| && forall i :: 0 <= i < |ls| ==> OneLine(ShowLines(ls)[i])
  {
    hide ShowLine, PrintableLine, OneLine;
    if ls != [] {
      ShownOneLines(ls[1..]);
      ShownOneLine(ls[0]);
    }
  }

  /** Reading a dumped document gives back its lines. */
  lemma DumpReads(ls: seq<Line>)
    requires AllPrintable(ls) && ls != []
    ensures ReadLines(Split(LineFeeds(Dump(ls)))) == Some(ls + [Blank])
  {
    ReadShownLines(ls);
    ShownOneLines(ls);
    var xs := ShowLines(ls);
    forall i | 0 <= i < |xs| ensures '\n' !in xs[i] && '\r' !in xs[i] {
      assert OneLine(xs[i]);
    }
    JoinNoCr(xs);
    LineFeedsSame(Dump(ls));
    SplitJoined(xs);
  }

  // ------------------------------------------------------------------ tables

  /** What has been read so far, and the table that key/value lines go to. */
  datatype Reading = Reading(doc: Doc, table: Option<string>)

  /** One line; a key or table defined twice is refused. */
  function Absorb(r: Reading, l: Line): Option<Reading> {
    match l
    case Blank => Some(r)
    case Header(name) =>
      if Has(r.doc, name) then None else Some(Reading(Put(r.doc, name, Table([])), Some(name)))
    case Pair(key, v) =>
      if r.table.None? then
        if Has(r.doc, key) then None else Some(r.(doc := Put(r.doc, key, Plain(v))))
      else
        var t := Get(r.doc, r.table.value);
        if t.None? || t.value.Plain? || Has(t.value.entries, key) then None
        else Some(r.(doc := Put(r.doc, r.table.value, Table(Put(t.value.entries, key, v)))))
  }

  function AbsorbAll(r: Reading, ls: seq<Line>): Option<Reading>
    decreases |ls|
  {
    if ls == [] then Some(r)
    else var r1 := Absorb(r, ls[0]); if r1.None? then None else AbsorbAll(r1.value, ls[1..])
  }

  /** The document a text defines, or `None` when it is not of the subset. */
  function Loads(text: string): Option<Doc> {
    var ls := ReadLines(Split(LineFeeds(text)));
    if ls.None? then None
    else var r := AbsorbAll(Reading([], None), ls.value); if r.None? then None else Some(r.value.doc)
  }

  datatype Section = Section(name: string, entries: Dict<string, Leaf>)

  function Pairs(entries: Dict<string, Leaf>): seq<Line> {
    if entries == [] then [] else [Pair(entries[0].0, entries[0].1)] + Pairs(entries[1..])
  }

  function SectionLines(s: Section): seq<Line> { [Blank, Header(s.name)] + Pairs(s.entries) }

  function AllSectionLines(secs: seq<Section>): seq<Line> {
    if secs == [] then [] else SectionLines(secs[0]) + AllSectionLines(secs[1..])
  }

  function Plains(entries: Dict<string, Leaf>): Doc {
    if entries == [] then [] else [(entries[0].0, Plain(entries[0].1))] + Plains(entries[1..])
  }

  function Tables(secs: seq<Section>): Doc {
    if secs == [] then [] else [(secs[0].name, Table(secs[0].entries))] + Tables(secs[1..])
  }

  ghost predicate SoundSections(secs: seq<Section>) {
    forall i :: 0 <= i < |secs| ==> DistinctKeys(secs[i].entries)
  }

  lemma {:induction false} AbsorbConcat(r: Reading, a: seq<Line>, b: seq<Line>)
    requires AbsorbAll(r, a).Some?
    ensures AbsorbAll(r, a + b) == AbsorbAll(AbsorbAll(r, a).value, b)
    decreases |a|
  {
    if a == [] {
      assert a + b == b;
    } else {
      assert (a + b)[1..] == a[1..] + b;
      AbsorbConcat(Absorb(r, a[0]).value, a[1..], b);
    }
  }

  lemma PutLast<K, V>(d: Dict<K, V>, k: K, v: V, w: V)
    requires !Has(d, k)
    ensures Put(d + [(k, v)], k, w) == d + [(k, w)]
    ensures Get(d + [(k, v)], k) == Some(v)
  {
    GetConcat(d, [(k, v)], k);
    if d != [] {
      assert (d + [(k, v)])[1..] == d[1..] + [(k, v)];
      PutLast(d[1..], k, v, w);
    }
  }

  /** The key/value lines of a table append its entries. */
  lemma {:induction false} AbsorbEntries(d: Doc, name: string, done: Dict<string, Leaf>, more: Dict<string, Leaf>)
    requires !Has(d, name) && DistinctKeys(done + more)
    ensures AbsorbAll(Reading(d + [(name, Table(done))], Some(name)), Pairs(more))
            == Some(Reading(d + [(name, Table(done + more))], Some(name)))
    decreases |more|
  {
    var r := Reading(d + [(name, Table(done))], Some(name));
    if more == [] {
      assert done + more == done;
    } else {
      var (k, v) := more[0];
      var next := done + [(k, v)];
      HasConcat(done, more, 0);
      PutAppends(done, k, v);
      PutLast(d, name, Table(done), Table(next));
      assert next + more[1..] == done + more;
      AbsorbEntries(d, name, next, more[1..]);
      assert Pairs(more)[1..] == Pairs(more[1..]);
      assert Absorb(r, Pairs(more)[0]) == Some(Reading(d + [(name, Table(next))], Some(name)));
      hide Absorb, DistinctKeys;
    }
  }

  lemma AbsorbSection(r: Reading, s: Section)
    requires !Has(r.doc, s.name) && DistinctKeys(s.entries)
    ensures AbsorbAll(r, SectionLines(s)) == Some(Reading(r.doc + [(s.name, Table(s.entries))], Some(s.name)))
  {
    PutAppends(r.doc, s.name, Table([]));
    assert [] + s.entries == s.entries;
    AbsorbEntries(r.doc, s.name, [], s.entries);
    var r1 := Reading(r.doc + [(s.name, Table([]))], Some(s.name));
    assert Absorb(r, Blank) == Some(r) && Absorb(r, Header(s.name)) == Some(r1);
    assert SectionLines(s)[1..] == [Header(s.name)] + Pairs(s.entries);
    assert SectionLines(s)[1..][1..] == Pairs(s.entries);
    hide Absorb, Pairs, DistinctKeys, Has;
  }

  lemma HasConcat<K, V>(a: Dict<K, V>, b: Dict<K, V>, i: nat)
    requires i < |b| && DistinctKeys(a + b)
    ensures !Has(a, b[i].0)
  {
    assert (a + b)[|a| + i] == b[i];
    forall j | 0 <= j < |a| ensures a[j].0 != b[i].0 {
      assert (a + b)[j] == a[j];
    }
    GetIn(a, b[i].0);
  }

  lemma {:induction false} AbsorbSections(r: Reading, secs: seq<Section>)
    requires DistinctKeys(r.doc + Tables(secs)) && SoundSections(secs)
    ensures AbsorbAll(r, AllSectionLines(secs)).Some?
    ensures AbsorbAll(r, AllSectionLines(secs)).value.doc == r.doc + Tables(secs)
    decreases |secs|
  {
    if secs == [] {
      assert r.doc + [] == r.doc;
    } else {
      var s := secs[0];
      HasConcat(r.doc, Tables(secs), 0);
      AbsorbSection(r, s);
      var r1 := Reading(r.doc + [(s.name, Table(s.entries))], Some(s.name));
      assert r1.doc + Tables(secs[1..]) == r.doc + Tables(secs);
      AbsorbSections(r1, secs[1..]);
      AbsorbConcat(r, SectionLines(s), AllSectionLines(secs[1..]));
    }
  }

  lemma {:induction false} AbsorbTop(d: Doc, more: Dict<string, Leaf>)
    requires DistinctKeys(d + Plains(more))
    ensures AbsorbAll(Reading(d, None), Pairs(more)) == Some(Reading(d + Plains(more), None))
    decreases |more|
  {
    if more == [] {
      assert d + [] == d;
    } else {
      var (k, v) := more[0];
      HasConcat(d, Plains(more), 0);
      PutAppends(d, k, Plain(v));
      assert (d + [(k, Plain(v))]) + Plains(more[1..]) == d + Plains(more);
      AbsorbTop(d + [(k, Plain(v))], more[1..]);
      assert Pairs(more)[1..] == Pairs(more[1..]);
    }
  }

  function DocOf(top: Dict<string, Leaf>, secs: seq<Section>): Doc { Plains(top) + Tables(secs) }

  function LinesOf(top: Dict<string, Leaf>, secs: seq<Section>): seq<Line> { Pairs(top) + AllSectionLines(secs) }

  lemma BlankLast(r: Reading, ls: seq<Line>)
    requires AbsorbAll(r, ls).Some?
    ensures AbsorbAll(r, ls + [Blank]) == AbsorbAll(r, ls)
  {
    AbsorbConcat(r, ls, [Blank]);
    assert AbsorbAll(AbsorbAll(r, ls).value, [Blank][1..]) == AbsorbAll(r, ls);
  }

  /** Loading a dumped document gives back its top keys and tables, in order. */
  lemma LoadsDump(top: Dict<string, Leaf>, secs: seq<Section>)
    requires DistinctKeys(DocOf(top, secs)) && SoundSections(secs)
    requires AllPrintable(LinesOf(top, secs)) && LinesOf(top, secs) != []
    ensures Loads(Dump(LinesOf(top, secs))) == Some(DocOf(top, secs))
  {
    var start := Reading([], None);
    assert [] + Plains(top) == Plains(top);
    TopDistinct(top, secs);
    AbsorbTop([], top);
    AbsorbSections(Reading(Plains(top), None), secs);
    AbsorbConcat(start, Pairs(top), AllSectionLines(secs));
    BlankLast(start, LinesOf(top, secs));
    DumpReads(LinesOf(top, secs));
    hide Dump, ReadLines, Split, LineFeeds, AbsorbAll;
  }

  lemma TopDistinct(top: Dict<string, Leaf>, secs: seq<Section>)
    requires DistinctKeys(DocOf(top, secs))
    ensures DistinctKeys(Plains(top))
  {
    var d := DocOf(top, secs);
    assert forall i :: 0 <= i < |Plains(top)| ==> d[i] == Plains(top)[i];
  }
}
