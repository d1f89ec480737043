/** The walker of `app/proto.py` that makes a tree of a configuration message. */
module ConfigTree {
  import opened Common
  import opened Utf8
  import opened Proto

  datatype Entry = Leaf(key: int, v: Value) | Sub(key: int, items: seq<Entry>)

  /** `walk` of `decode_config_message`: a value whose bytes spell a non-empty message becomes that message. */
  function Tree(raw: seq<byte>): seq<Entry>
    decreases |raw|, 1, 0
  {
    if raw == [] then []
    else NestedIsShorter(raw); TreeItems(DecodeMessage(raw), |raw|)
  }

  function TreeItems(d: Dict<int, Value>, bound: nat): seq<Entry>
    requires ShorterThan(d, bound)
    decreases bound, 0, |d|
  {
    if d == [] then []
    else
      var nested := if d[0].1.Int? then [] else Tree(Inner(d[0].1));
      [if nested != [] then Sub(d[0].0, nested) else Leaf(d[0].0, d[0].1)] + TreeItems(d[1..], bound)
  }

  function Height(items: seq<Entry>): nat
    decreases items, 0
  {
    if items == [] then 0 else Max(1 + Below(items[0]), Height(items[1..]))
  }

  function Below(n: Entry): nat
    decreases n, 1
  {
    if n.Leaf? then 0 else Height(n.items)
  }

  lemma {:induction false} TreeItemsHeight(d: Dict<int, Value>, bound: nat)
    requires ShorterThan(d, bound)
    ensures Height(TreeItems(d, bound)) <= bound
    ensures |TreeItems(d, bound)| == |d| && forall i :: 0 <= i < |d| ==> TreeItems(d, bound)[i].key == d[i].0
    decreases bound, 0, |d|
  {
    if d != [] {
      assert ShorterThan(d[1..], bound);
      TreeItemsHeight(d[1..], bound);
      if !d[0].1.Int? {
        TreeHeight(Inner(d[0].1));
      }
      assert TreeItems(d, bound)[1..] == TreeItems(d[1..], bound);
    }
  }

  /** Recursion goes no deeper than the message is long, and the top level keeps the keys and their order. */
  lemma {:induction false} TreeHeight(raw: seq<byte>)
    ensures Height(Tree(raw)) <= |raw|
    ensures raw != [] ==>
              && |Tree(raw)| == |DecodeMessage(raw)|
              && forall i :: 0 <= i < |Tree(raw)| ==> Tree(raw)[i].key == DecodeMessage(raw)[i].0
    decreases |raw|, 1, 0
  {
    if raw != [] {
      NestedIsShorter(raw);
      TreeItemsHeight(DecodeMessage(raw), |raw|);
    }
  }

  // ------------------------------------------------------------------ what a body is taken for

  lemma {:induction false} PutNonEmpty(d: Dict<int, Value>, k: int, v: Value)
    ensures Put(d, k, v) != []
  {
  }

  lemma {:induction false} CollapseNonEmpty(fields: seq<Field>, d: Dict<int, Value>)
    ensures Collapse(fields, d) == [] <==> fields == [] && d == []
    decreases |fields|
  {
    hide Put, FieldValue;
    if fields != [] {
      PutNonEmpty(d, fields[0].number, FieldValue(fields[0]));
      CollapseNonEmpty(fields[1..], Put(d, fields[0].number, FieldValue(fields[0])));
    }
  }

  /** The wire types the reader knows: varint, eight bytes, delimited, four bytes. */
  predicate Tagged(b: seq<byte>) { b != [] && b[0] % 8 in {0, 1, 2, 5} }

  lemma VarintLow(b: seq<byte>)
    requires b != []
    ensures Varint(b).0 % 8 == b[0] % 8
  {
    if b[0] >= 128 {
      var rest := Varint(b[1..]).0;
      assert Varint(b).0 == b[0] % 128 + 128 * rest;
      hide Varint;
      assert (b[0] % 128 + 128 * rest) % 8 == b[0] % 128 % 8;
    }
  }

  lemma NextIff(b: seq<byte>)
    requires b != []
    ensures NextField(b).Item? <==> Tagged(b)
  {
    VarintLow(b);
    hide Varint, Take, Skip;
  }

  /** A body decodes to some field exactly when the low three bits of its first byte are a known wire type. */
  lemma TaggedIff(b: seq<byte>)
    ensures DecodeMessage(b) != [] <==> Tagged(b)
  {
    hide NextField, Collapse, Tagged;
    CollapseNonEmpty(IterFields(b), []);
    if b == [] {
      assert !Tagged(b) by { NothingTagged(); }
    } else {
      NextIff(b);
    }
  }

  lemma NothingTagged()
    ensures !Tagged([])
  {
  }

  /**
   * The tree of every byte string: its entries are the decoded fields in order; an integer, or a body that does not
   * start with a known wire type, is a leaf with exactly the decoded value, and any other body the tree of its bytes.
   */
  lemma TreeMeans(raw: seq<byte>)
    ensures |Tree(raw)| == |DecodeMessage(raw)|
    ensures forall i :: 0 <= i < |Tree(raw)| ==>
      var (k, v) := DecodeMessage(raw)[i];
      Tree(raw)[i] == if v.Int? || !Tagged(Inner(v)) then Leaf(k, v) else Sub(k, Tree(Inner(v)))
  {
    if raw == [] {
      assert DecodeMessage(raw) == [];
    } else {
      NestedIsShorter(raw);
      hide DecodeMessage, Inner;
      TreeItemsMean(DecodeMessage(raw), |raw|);
    }
  }

  lemma TreeEmptyIff(raw: seq<byte>)
    ensures Tree(raw) == [] <==> !Tagged(raw)
  {
    TaggedIff(raw);
    if raw != [] {
      NestedIsShorter(raw);
      hide DecodeMessage;
      var d := DecodeMessage(raw);
      assert d != [] ==> |TreeItems(d, |raw|)| > 0;
    }
  }

  lemma {:induction false} TreeItemsMean(d: Dict<int, Value>, bound: nat)
    requires ShorterThan(d, bound)
    ensures var r := TreeItems(d, bound);
      && |r| == |d|
      && forall i :: 0 <= i < |d| ==>
           r[i] == if d[i].1.Int? || !Tagged(Inner(d[i].1)) then Leaf(d[i].0, d[i].1)
                   else Sub(d[i].0, Tree(Inner(d[i].1)))
    decreases |d|
  {
    hide Tree, Inner, Tagged;
    if d != [] {
      assert ShorterThan(d[1..], bound);
      TreeItemsMean(d[1..], bound);
      TreeEmptyIff(Inner(d[0].1));
      assert TreeItems(d, bound)[1..] == TreeItems(d[1..], bound);
    }
  }

  // ------------------------------------------------------------------ nested configurations

  /** A configuration: a field with a value, or a group of fields under one number. */
  datatype Node = One(key: nat, v: PyValue) | Group(key: nat, nodes: seq<Node>)

  function Items(nodes: seq<Node>): Dict<int, PyValue>
    decreases nodes
  {
    if nodes == [] then [] else [Item(nodes[0])] + Items(nodes[1..])
  }

  function Item(n: Node): (int, PyValue)
    decreases n
  {
    match n
    case One(k, v) => (k, v)
    case Group(k, nodes) => (k, BytesV(EncodeMessage(Items(nodes))))
  }

  /**
   * What the walker is for: the values as they are read, groups as subtrees; an empty group reads as the
   * empty text.
   */
  function Seen(nodes: seq<Node>): seq<Entry>
    decreases nodes
  {
    if nodes == [] then [] else SeenOne(nodes[0]) + Seen(nodes[1..])
  }

  function SeenOne(n: Node): seq<Entry>
    decreases n
  {
    match n
    case One(k, v) => if v.Absent? then [] else [Leaf(k, Reads(v).value)]
    case Group(k, nodes) => if Seen(nodes) == [] then [Leaf(k, Text(""))] else [Sub(k, Seen(nodes))]
  }

  /** Each level lists its fields by number and holds nothing that cannot be written. */
  ghost predicate Orderly(nodes: seq<Node>)
    decreases nodes
  {
    && (forall i, j :: 0 <= i < j < |nodes| ==> nodes[i].key < nodes[j].key)
    && (forall i :: 0 <= i < |nodes| ==>
          match nodes[i]
          case One(_, v) => (v.IntV? ==> v.n >= 0) && (v.FloatV? ==> |v.bits| == 4)
          case Group(_, inner) => Orderly(inner))
  }

  /** No text, no bytes and no float, at any level, starts with a known wire type. */
  ghost predicate Untagged(nodes: seq<Node>)
    decreases nodes
  {
    forall i :: 0 <= i < |nodes| ==>
      match nodes[i]
      case One(_, v) => v.Absent? || v.IntV? || !Tagged(Inner(Reads(v).value))
      case Group(_, inner) => Untagged(inner)
  }

  lemma {:induction false} ItemsAt(nodes: seq<Node>)
    ensures |Items(nodes)| == |nodes| && forall i :: 0 <= i < |nodes| ==> Items(nodes)[i] == Item(nodes[i])
    decreases |nodes|
  {
    hide Item;
    if nodes != [] {
      ItemsAt(nodes[1..]);
    }
  }

  lemma NodeFits(nodes: seq<Node>, i: nat)
    requires Orderly(nodes) && i < |nodes|
    ensures var item := Item(nodes[i]);
      item.0 == nodes[i].key && Representable(item) && (item.1.FloatV? ==> |item.1.bits| == 4)
  {
    hide EncodeMessage, Items;
  }

  /** Encoding a level and decoding it gives its values back. */
  lemma LevelReads(nodes: seq<Node>)
    requires Orderly(nodes)
    ensures DecodeMessage(EncodeMessage(Items(nodes))) == ReadsAll(Items(nodes))
  {
    hide DecodeMessage, ReadsAll, Items, Item, SortByKey, EncodeItems;
    var items := Items(nodes);
    ItemsAt(nodes);
    forall i | 0 <= i < |nodes|
      ensures items[i].0 == nodes[i].key && Representable(items[i]) && (items[i].1.FloatV? ==> |items[i].1.bits| == 4)
    {
      NodeFits(nodes, i);
    }
    assert forall i, j :: 0 <= i < j < |nodes| ==> nodes[i].key < nodes[j].key;
    hide Orderly, Representable;
    assert SortedKeys(items) && DistinctKeys(items) && AllRepresentable(items);
    SortIs(items, items);
    MessageRoundTrip(items);
  }

  lemma InnerOfBytes(b: seq<byte>)
    ensures Inner(TextOrBytes(b)) == b
  {
    if Decode(b).Some? {
      EncodeDecode(b);
    }
  }

  lemma SeenOneLength(n: Node)
    ensures |SeenOne(n)| == if Reads(Item(n).1).None? then 0 else 1
  {
    hide Seen, Items, EncodeMessage;
  }

  lemma ReadsFirst(nodes: seq<Node>)
    requires nodes != []
    ensures var v, rest := Reads(Item(nodes[0]).1), ReadsAll(Items(nodes[1..]));
      ReadsAll(Items(nodes)) == (if v.None? then rest else [(nodes[0].key as int, v.value)] + rest)
  {
    assert Items(nodes)[0] == Item(nodes[0]) && Items(nodes)[1..] == Items(nodes[1..]);
    assert Item(nodes[0]).0 == nodes[0].key;
    hide Item, Reads;
  }

  lemma {:induction false} SeenLength(nodes: seq<Node>)
    ensures |Seen(nodes)| == |ReadsAll(Items(nodes))|
    decreases |nodes|
  {
    hide Items, ReadsAll, SeenOne, Item, Reads;
    if nodes == [] {
      assert ReadsAll(Items([])) == [] by { NothingRead(); }
    } else {
      ReadsFirst(nodes);
      SeenOneLength(nodes[0]);
      SeenLength(nodes[1..]);
    }
  }

  lemma NothingRead()
    ensures Items([]) == [] && ReadsAll([]) == [] && EncodeMessage([]) == []
  {
  }

  /** A group in which nothing is seen holds only absent values and is written as nothing. */
  lemma {:induction false} UnseenIsAbsent(nodes: seq<Node>)
    requires Seen(nodes) == []
    ensures forall i :: 0 <= i < |nodes| ==> nodes[i].One? && nodes[i].v.Absent?
    decreases |nodes|
  {
    if nodes != [] {
      assert SeenOne(nodes[0]) == [] && Seen(nodes[1..]) == [];
      assert nodes[0].One? && nodes[0].v.Absent?;
      UnseenIsAbsent(nodes[1..]);
    }
  }

  lemma {:induction false} AbsentWritesNothing(items: Dict<int, PyValue>)
    requires forall i :: 0 <= i < |items| ==> items[i].1.Absent?
    ensures EncodeItems(items) == []
    decreases |items|
  {
    if items != [] {
      AbsentWritesNothing(items[1..]);
    }
  }

  lemma UnseenLevel(nodes: seq<Node>)
    requires Orderly(nodes) && Seen(nodes) == []
    ensures EncodeMessage(Items(nodes)) == [] && Untagged(nodes)
  {
    UnseenIsAbsent(nodes);
    ItemsAt(nodes);
    var items := Items(nodes);
    assert forall i :: 0 <= i < |nodes| ==> Item(nodes[i]) == (nodes[i].key as int, Absent);
    hide Items, Item, SortByKey, Seen;
    SortIs(items, items);
    AbsentWritesNothing(items);
  }

  // ------------------------------------------------------------------ walking what was encoded

  /** The entry the walker makes of a decoded value. */
  function EntryOf(k: int, v: Value): Entry {
    if v.Int? || !Tagged(Inner(v)) then Leaf(k, v) else Sub(k, Tree(Inner(v)))
  }

  lemma {:induction false} WalkFirst(k: int, v: Value, d: Dict<int, Value>, bound: nat)
    requires ShorterThan([(k, v)] + d, bound)
    ensures ShorterThan(d, bound) && TreeItems([(k, v)] + d, bound) == [EntryOf(k, v)] + TreeItems(d, bound)
  {
    var all := [(k, v)] + d;
    assert all[0] == (k, v) && all[1..] == d;
    forall i | 0 <= i < |d| ensures Size(d[i].1) < bound {
      assert all[i + 1] == d[i];
    }
    TreeEmptyIff(Inner(v));
    hide Tree, Inner, Tagged;
  }

  ghost predicate UntaggedOne(n: Node) {
    match n
    case One(_, v) => v.Absent? || v.IntV? || !Tagged(Inner(Reads(v).value))
    case Group(_, inner) => Untagged(inner)
  }

  lemma UntaggedSplits(nodes: seq<Node>)
    requires nodes != []
    ensures Untagged(nodes) <==> UntaggedOne(nodes[0]) && Untagged(nodes[1..])
  {
    var rest := nodes[1..];
    assert Untagged(nodes) <==> forall i :: 0 <= i < |nodes| ==> UntaggedOne(nodes[i]);
    assert Untagged(rest) <==> forall i :: 0 <= i < |rest| ==> UntaggedOne(rest[i]);
    hide Untagged, UntaggedOne;
    assert forall i :: 0 <= i < |rest| ==> rest[i] == nodes[i + 1];
    assert forall i :: 0 < i < |nodes| ==> nodes[i] == rest[i - 1];
  }

  lemma OrderlySplits(nodes: seq<Node>)
    requires nodes != [] && Orderly(nodes)
    ensures Orderly(nodes[1..]) && (nodes[0].Group? ==> Orderly(nodes[0].nodes))
  {
  }

  lemma ValueIff(k: nat, v: PyValue)
    requires !v.Absent?
    ensures [EntryOf(k, Reads(v).value)] == SeenOne(One(k, v)) <==> UntaggedOne(One(k, v))
  {
    hide Tree, Inner, Tagged, Decode;
  }

  lemma {:induction false} GroupIff(k: nat, nodes: seq<Node>)
    requires Orderly(nodes)
    ensures [EntryOf(k, Reads(Item(Group(k, nodes)).1).value)] == SeenOne(Group(k, nodes)) <==> Untagged(nodes)
    decreases nodes, 2
  {
    var b := EncodeMessage(Items(nodes));
    InnerOfBytes(b);
    TreeEmptyIff(b);
    SeenLength(nodes);
    LevelReads(nodes);
    TaggedIff(b);
    if Seen(nodes) == [] {
      UnseenLevel(nodes);
      assert TextOrBytes([]) == Text("");
      hide Tree, Seen, Items, EncodeMessage, DecodeMessage, ReadsAll;
    } else {
      hide Tree, Seen, Items, EncodeMessage, DecodeMessage, ReadsAll, Inner, Untagged, Orderly;
      TreeRoundTripIff(nodes);
    }
  }

  lemma {:induction false} WalkIff(nodes: seq<Node>, bound: nat)
    requires Orderly(nodes) && ShorterThan(ReadsAll(Items(nodes)), bound)
    ensures TreeItems(ReadsAll(Items(nodes)), bound) == Seen(nodes) <==> Untagged(nodes)
    decreases nodes, 0
  {
    if nodes == [] {
      NothingRead();
    } else {
      var n, rest := nodes[0], nodes[1..];
      OrderlySplits(nodes);
      UntaggedSplits(nodes);
      ReadsFirst(nodes);
      SeenOneLength(n);
      assert Seen(nodes) == SeenOne(n) + Seen(rest);
      assert n.One? && n.v.Absent? ==> UntaggedOne(n) && SeenOne(n) == [] && [] + Seen(rest) == Seen(rest);
      assert Reads(Item(n).1).None? <==> n.One? && n.v.Absent?;
      assert n.One? ==> Item(n).1 == n.v && n == One(n.key, n.v);
      assert n.Group? ==> (UntaggedOne(n) <==> Untagged(n.nodes)) && n == Group(n.key, n.nodes);
      hide Orderly, Untagged, UntaggedOne, Seen, SeenOne, Items, ReadsAll, TreeItems, EntryOf, ShorterThan, Item, Reads;
      if n.One? && n.v.Absent? {
        WalkIff(rest, bound);
      } else {
        var k, v := n.key as int, Reads(Item(n).1).value;
        WalkFirst(k, v, ReadsAll(Items(rest)), bound);
        WalkIff(rest, bound);
        if n.One? {
          ValueIff(n.key, n.v);
        } else {
          GroupIff(n.key, n.nodes);
        }
        SameIff(EntryOf(k, v), TreeItems(ReadsAll(Items(rest)), bound), SeenOne(n), Seen(rest));
      }
    }
  }

  lemma SameIff(e: Entry, es: seq<Entry>, f: seq<Entry>, fs: seq<Entry>)
    requires |f| == 1
    ensures [e] + es == f + fs <==> [e] == f && es == fs
  {
    if [e] + es == f + fs {
      assert ([e] + es)[0] == e && (f + fs)[0] == f[0];
      assert ([e] + es)[1..] == es && (f + fs)[1..] == fs;
    }
  }

  /**
   * Walking an encoded configuration gives back all its numbers, texts and groups, exactly when no text, bytes or
   * float in it starts with a known wire type; such a one is taken for a message itself.
   */
  lemma {:induction false} TreeRoundTripIff(nodes: seq<Node>)
    requires Orderly(nodes)
    ensures Tree(EncodeMessage(Items(nodes))) == Seen(nodes) <==> Untagged(nodes)
    decreases nodes, 1
  {
    var raw := EncodeMessage(Items(nodes));
    LevelReads(nodes);
    SeenLength(nodes);
    if raw == [] {
      assert DecodeMessage(raw) == [];
      UnseenLevel(nodes);
    } else {
      NestedIsShorter(raw);
      hide DecodeMessage, EncodeMessage, Items, ReadsAll, Seen, Untagged, Orderly;
      WalkIff(nodes, |raw|);
    }
  }

  /** So a single text is read as it was written exactly when the low bits of its first byte are no known wire type. */
  lemma TextTakenIff(s: string, k: nat)
    ensures Tree(EncodeMessage(Items([One(k, TextV(s))]))) == [Leaf(k, Text(s))] <==> !Tagged(Encode(s))
  {
    var nodes := [One(k, TextV(s))];
    assert nodes[1..] == [];
    assert Seen(nodes) == SeenOne(nodes[0]) + Seen([]);
    assert Inner(Reads(TextV(s)).value) == Encode(s);
    assert Untagged(nodes) <==> !Tagged(Encode(s)) by {
      assert nodes[0] == One(k, TextV(s));
    }
    hide Tree, EncodeMessage, Items, Encode;
    TreeRoundTripIff(nodes);
  }
}
