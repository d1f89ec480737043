/**
 The protobuf wire codec of `app/proto.py`: varints, flat messages and the field iterator.
 The layout is that of the Protocol Buffers Encoding specification, sections
 "Base 128 Varints" and "Message Structure".
 */
module Proto {
  import opened Common
  import opened Utf8

  // ------------------------------------------------------------------ varints

  function EncodeVarint(v: int): (b: seq<byte>)
    ensures b != []
    decreases if v < 0 then 0 else v
  {
    if v > 127 then [v % 128 + 128] + EncodeVarint(v / 128) else [v % 128]
  }

  /**
   * The value and the number of bytes used by the varint at the start of `data`; a truncated one yields what
   * is there.
   */
  function Varint(data: seq<byte>): (r: (nat, nat))
    ensures r.1 <= |data|
    ensures data != [] ==> r.1 >= 1
  {
    if data == [] then (0, 0)
    else if data[0] < 128 then (data[0], 1)
    else var r := Varint(data[1..]); (data[0] - 128 + 128 * r.0, 1 + r.1)
  }

  method EncodeVarintLoop(value: int) returns (result: seq<byte>)
    ensures result == EncodeVarint(value)
  {
    var v := value;
    result := [];
    while v > 127
      invariant result + EncodeVarint(v) == EncodeVarint(value)
    {
      ghost var before := result;
      result := result + [v % 128 + 128];
      assert before + EncodeVarint(v) == result + EncodeVarint(v / 128);
      v := v / 128;
    }
    result := result + [v % 128];
  }

  lemma VarintUnfold(data: seq<byte>, k: nat)
    requires k < |data|
    ensures Varint(data[k..]) ==
            if data[k] < 128 then (data[k], 1)
            else (data[k] - 128 + 128 * Varint(data[k + 1..]).0, 1 + Varint(data[k + 1..]).1)
  {
    assert data[k..][1..] == data[k + 1..];
  }

  lemma ScaleStep(low: int, scale: int, digit: int, rest: int)
    requires 0 <= low < scale && 0 <= digit < 128
    ensures low + scale * (digit + 128 * rest) == low + digit * scale + (scale * 128) * rest
    ensures 0 <= low + digit * scale < scale * 128
  {
    DigitBelow(scale, digit);
    calc {
      scale * (digit + 128 * rest);
      scale * digit + scale * (128 * rest);
      digit * scale + (scale * 128) * rest;
    }
  }

  lemma DigitBelow(scale: int, digit: int)
    requires 0 < scale && 0 <= digit < 128
    ensures 0 <= digit * scale <= 127 * scale
  {
  }

  /** `result |= digit << shift` adds, because `result` stays below `1 << shift`; `scale` is `1 << shift`. */
  method DecodeVarintLoop(data: seq<byte>, start: nat) returns (result: nat, offset: nat)
    requires start <= |data|
    ensures result == Varint(data[start..]).0
    ensures offset == start + Varint(data[start..]).1
  {
    result, offset := 0, start;
    var scale := 1;
    while offset < |data|
      invariant start <= offset <= |data|
      invariant 0 <= result < scale
      invariant result + scale * Varint(data[offset..]).0 == Varint(data[start..]).0
      invariant offset + Varint(data[offset..]).1 == start + Varint(data[start..]).1
      decreases |data| - offset
    {
      var digit, more := data[offset] % 128, data[offset] >= 128;
      VarintUnfold(data, offset);
      ScaleStep(result, scale, digit, if more then Varint(data[offset + 1..]).0 else 0);
      result := result + digit * scale;
      offset := offset + 1;
      if !more {
        return;
      }
      scale := scale * 128;
    }
  }

  /** A varint is read back, with its length, from the front of any longer string. */
  lemma {:induction false} VarintRoundTrip(v: nat, rest: seq<byte>)
    ensures Varint(EncodeVarint(v) + rest) == (v, |EncodeVarint(v)|)
  {
    if v > 127 {
      VarintRoundTrip(v / 128, rest);
      assert (EncodeVarint(v) + rest)[1..] == EncodeVarint(v / 128) + rest;
    }
  }

  // ------------------------------------------------------------------ decoding

  /** A decoded field value. */
  datatype Value = Int(n: int) | Text(s: string) | Bytes(b: seq<byte>)

  datatype Payload = Num(n: nat) | Raw(b: seq<byte>)

  datatype Field = Field(number: nat, wire: nat, payload: Payload)

  /** Python's `b[:n]` and `b[n:]`, which clip. */
  function Skip(b: seq<byte>, n: nat): seq<byte> { if n <= |b| then b[n..] else [] }

  datatype Next = Stop | Item(field: Field, rest: seq<byte>)

  /** One pass of the iterator: every pass that goes on has consumed at least one byte. */
  function NextField(data: seq<byte>): (r: Next)
    requires data != []
    ensures r.Item? ==> |r.rest| < |data|
    ensures r.Item? && r.field.payload.Raw? ==> |r.field.payload.b| < |data|
  {
    var (tag, used) := Varint(data);
    var number, wire, rest := tag / 8, tag % 8, data[used..];
    if wire == 0 then
      var (v, n) := Varint(rest);
      Item(Field(number, wire, Num(v)), rest[n..])
    else if wire == 2 then
      var (length, n) := Varint(rest);
      Item(Field(number, wire, Raw(Take(rest[n..], length))), Skip(rest[n..], length))
    else if wire == 5 then Item(Field(number, wire, Raw(Take(rest, 4))), Skip(rest, 4))
    else if wire == 1 then Item(Field(number, wire, Raw(Take(rest, 8))), Skip(rest, 8))
    else Stop
  }

  function IterFields(data: seq<byte>): seq<Field>
    decreases |data|
  {
    if data == [] then []
    else match NextField(data)
      case Stop => []
      case Item(f, rest) => [f] + IterFields(rest)
  }

  function TextOrBytes(b: seq<byte>): Value {
    match Decode(b)
    case Some(s) => Text(s)
    case None => Bytes(b)
  }

  function FieldValue(f: Field): Value {
    match f.payload
    case Num(n) => Int(n)
    case Raw(b) => if f.wire == 2 then TextOrBytes(b) else Bytes(b)
  }

  /** The last-wins reading of a field list, each key at the place of its first occurrence. */
  function Collapse(fields: seq<Field>, d: Dict<int, Value>): Dict<int, Value> {
    if fields == [] then d
    else Collapse(fields[1..], Put(d, fields[0].number, FieldValue(fields[0])))
  }

  function DecodeMessage(data: seq<byte>): Dict<int, Value> { Collapse(IterFields(data), []) }

  lemma {:induction false} CollapseStep(data: seq<byte>, d: Dict<int, Value>)
    requires data != []
    ensures Collapse(IterFields(data), d) ==
            var next := NextField(data);
            if next.Stop? then d
            else Collapse(IterFields(next.rest), Put(d, next.field.number, FieldValue(next.field)))
  {
    if NextField(data).Item? {
      assert IterFields(data)[1..] == IterFields(NextField(data).rest);
    }
  }

  /** Position `i` holds the last field of this number. */
  ghost predicate LastOf(fields: seq<Field>, k: int, i: nat) {
    i < |fields| && fields[i].number == k && forall j :: i < j < |fields| ==> fields[j].number != k
  }

  lemma {:induction false} NoFieldOf(fields: seq<Field>, d: Dict<int, Value>, k: int)
    requires forall i :: 0 <= i < |fields| ==> fields[i].number != k
    ensures Get(Collapse(fields, d), k) == Get(d, k)
    decreases |fields|
  {
    hide FieldValue, Put, Get;
    if fields != [] {
      GetPut(d, fields[0].number, FieldValue(fields[0]), k);
      NoFieldOf(fields[1..], Put(d, fields[0].number, FieldValue(fields[0])), k);
    }
  }

  lemma {:induction false} LastFieldOf(fields: seq<Field>, d: Dict<int, Value>, k: int, i: nat)
    requires LastOf(fields, k, i)
    ensures Get(Collapse(fields, d), k) == Some(FieldValue(fields[i]))
    decreases |fields|
  {
    hide FieldValue, Put, Get;
    var rest, d' := fields[1..], Put(d, fields[0].number, FieldValue(fields[0]));
    if i > 0 {
      LastFieldOf(rest, d', k, i - 1);
    } else {
      GetPut(d, fields[0].number, FieldValue(fields[0]), k);
      NoFieldOf(rest, d', k);
    }
  }

  /** The last field of a number wins, and a number without a field has no value. */
  lemma LastWins(data: seq<byte>, k: int)
    ensures forall i: nat :: LastOf(IterFields(data), k, i) ==>
      Get(DecodeMessage(data), k) == Some(FieldValue(IterFields(data)[i]))
    ensures (forall i :: 0 <= i < |IterFields(data)| ==> IterFields(data)[i].number != k) ==>
      Get(DecodeMessage(data), k) == None
  {
    var fields := IterFields(data);
    hide IterFields, Collapse, FieldValue;
    forall i: nat | LastOf(fields, k, i) ensures Get(DecodeMessage(data), k) == Some(FieldValue(fields[i])) {
      LastFieldOf(fields, [], k, i);
    }
    if forall i :: 0 <= i < |fields| ==> fields[i].number != k {
      NoFieldOf(fields, [], k);
    }
  }

  lemma SkipSkip(data: seq<byte>, a: nat, b: nat)
    requires a <= |data|
    ensures Skip(data[a..], b) == Skip(data, a + b)
  {
  }

  /** One pass of the iterator in terms of absolute offsets: `mid` is where the tag ends. */
  lemma NextFieldAt(data: seq<byte>, start: nat, tag: nat, mid: nat)
    requires start < |data| && start <= mid <= |data| && Varint(data[start..]) == (tag, mid - start)
    ensures tag % 8 == 0 ==>
              var (v, n) := Varint(data[mid..]);
              NextField(data[start..]) == Item(Field(tag / 8, 0, Num(v)), Skip(data, mid + n))
    ensures tag % 8 == 2 ==>
              var (v, n) := Varint(data[mid..]);
              NextField(data[start..]) ==
              Item(Field(tag / 8, 2, Raw(Take(data[mid + n..], v))), Skip(data, mid + n + v))
    ensures tag % 8 == 5 ==>
              NextField(data[start..]) == Item(Field(tag / 8, 5, Raw(Take(data[mid..], 4))), Skip(data, mid + 4))
    ensures tag % 8 == 1 ==>
              NextField(data[start..]) == Item(Field(tag / 8, 1, Raw(Take(data[mid..], 8))), Skip(data, mid + 8))
    ensures tag % 8 !in {0, 1, 2, 5} ==> NextField(data[start..]).Stop?
  {
    hide Varint, Take;
    assert data[start..][mid - start..] == data[mid..];
    var (v, n) := Varint(data[mid..]);
    assert data[mid..][n..] == data[mid + n..];
    SkipSkip(data, mid + n, v);
  }

  function IterFrom(data: seq<byte>, offset: nat, d: Dict<int, Value>): Dict<int, Value> {
    Collapse(IterFields(Skip(data, offset)), d)
  }

  lemma {:induction false} IterFromStep(data: seq<byte>, offset: nat, d: Dict<int, Value>, f: Field, after: nat)
    requires offset < |data| && NextField(data[offset..]) == Item(f, Skip(data, after))
    ensures IterFrom(data, offset, d) == IterFrom(data, after, Put(d, f.number, FieldValue(f)))
  {
    CollapseStep(data[offset..], d);
  }

  lemma IterFromEnd(data: seq<byte>, offset: nat, d: Dict<int, Value>)
    ensures offset >= |data| ==> IterFrom(data, offset, d) == d
    ensures IterFrom(data, 0, d) == Collapse(IterFields(data), d)
  {
    assert Skip(data, 0) == data;
  }

  /** `decode_message` as its loop runs it: total on every byte string, and the last-wins reading of the iterator. */
  method DecodeMessageLoop(data: seq<byte>) returns (fields: Dict<int, Value>)
    ensures fields == Collapse(IterFields(data), [])
  {
    hide Varint, NextField, IterFields, Collapse, Put, Utf8.Decode;
    fields := [];
    var offset := 0;
    while offset < |data|
      invariant 0 <= offset
      invariant IterFrom(data, offset, fields) == IterFrom(data, 0, [])
      decreases |data| - offset
    {
      ghost var start, before := offset, fields;
      var tag;
      tag, offset := DecodeVarintLoop(data, offset);
      NextFieldAt(data, start, tag, offset);
      var number, wire := tag / 8, tag % 8;
      if wire == 0 {
        var value;
        value, offset := DecodeVarintLoop(data, offset);
        fields := Put(fields, number, Int(value));
        IterFromStep(data, start, before, Field(number, wire, Num(value)), offset);
      } else if wire == 2 {
        var length;
        length, offset := DecodeVarintLoop(data, offset);
        var raw := Take(data[offset..], length);
        fields := Put(fields, number, TextOrBytes(raw));
        offset := offset + length;
        IterFromStep(data, start, before, Field(number, wire, Raw(raw)), offset);
      } else if wire == 5 {
        var raw := Take(data[offset..], 4);
        fields := Put(fields, number, Bytes(raw));
        offset := offset + 4;
        IterFromStep(data, start, before, Field(number, wire, Raw(raw)), offset);
      } else if wire == 1 {
        var raw := Take(data[offset..], 8);
        fields := Put(fields, number, Bytes(raw));
        offset := offset + 8;
        IterFromStep(data, start, before, Field(number, wire, Raw(raw)), offset);
      } else {
        CollapseStep(data[start..], before);
        break;
      }
    }
    IterFromEnd(data, offset, fields);
    IterFromEnd(data, 0, []);
  }

  ghost predicate ShorterThan(d: Dict<int, Value>, bound: nat) {
    forall i :: 0 <= i < |d| ==> Size(d[i].1) < bound
  }

  /** The bytes a nested reading of the value starts from; an integer has none. */
  function Inner(v: Value): seq<byte> {
    match v
    case Int(_) => []
    case Text(s) => Encode(s)
    case Bytes(b) => b
  }

  function Size(v: Value): nat { |Inner(v)| }

  lemma {:induction false} CollapseShorter(data: seq<byte>, d: Dict<int, Value>, bound: nat)
    requires ShorterThan(d, bound) && |data| <= bound && bound > 0
    ensures ShorterThan(Collapse(IterFields(data), d), bound)
    decreases |data|
  {
    if data != [] {
      CollapseStep(data, d);
      var next := NextField(data);
      if next.Item? {
        FieldValueSize(next.field);
        PutShorter(d, next.field.number, FieldValue(next.field), bound);
        CollapseShorter(next.rest, Put(d, next.field.number, FieldValue(next.field)), bound);
      }
    }
  }

  lemma FieldValueSize(f: Field)
    ensures Size(FieldValue(f)) == if f.payload.Num? then 0 else |f.payload.b|
  {
    if f.payload.Raw? && Decode(f.payload.b).Some? { EncodeDecode(f.payload.b); }
  }

  lemma {:induction false} PutShorter(d: Dict<int, Value>, k: int, v: Value, bound: nat)
    requires ShorterThan(d, bound) && Size(v) < bound
    ensures ShorterThan(Put(d, k, v), bound)
  {
    if d != [] && d[0].0 != k {
      assert ShorterThan(d[1..], bound);
      PutShorter(d[1..], k, v, bound);
    }
  }

  /** Every value decoded from a message has strictly fewer bytes than the message. */
  lemma NestedIsShorter(data: seq<byte>)
    requires data != []
    ensures ShorterThan(DecodeMessage(data), |data|)
  {
    CollapseShorter(data, [], |data|);
  }

  // ------------------------------------------------------------------ encoding

  /** What `encode_message` accepts as a field value; a `Float32` is the four bytes `struct.pack` makes of it. */
  datatype PyValue = Absent | IntV(n: int) | FloatV(bits: seq<byte>) | TextV(s: string) | BytesV(b: seq<byte>)

  function Delimited(number: int, body: seq<byte>): seq<byte> {
    EncodeVarint(number * 8 + 2) + (EncodeVarint(|body|) + body)
  }

  function EncodeField(number: int, v: PyValue): seq<byte> {
    match v
    case Absent => []
    case IntV(n) => EncodeVarint(number * 8) + EncodeVarint(n)
    case FloatV(bits) => EncodeVarint(number * 8 + 5) + bits
    case TextV(s) => Delimited(number, Encode(s))
    case BytesV(b) => Delimited(number, b)
  }

  function EncodeItems(items: Dict<int, PyValue>): seq<byte> {
    if items == [] then [] else EncodeField(items[0].0, items[0].1) + EncodeItems(items[1..])
  }

  function InsertByKey(item: (int, PyValue), items: Dict<int, PyValue>): Dict<int, PyValue> {
    if items == [] || item.0 < items[0].0 then [item] + items
    else [items[0]] + InsertByKey(item, items[1..])
  }

  /** `sorted(fields.items())`; keys are distinct, so values are never compared. */
  function SortByKey(items: Dict<int, PyValue>): Dict<int, PyValue> {
    if items == [] then [] else InsertByKey(items[0], SortByKey(items[1..]))
  }

  function EncodeMessage(fields: Dict<int, PyValue>): seq<byte> { EncodeItems(SortByKey(fields)) }

  /** The value a reader gets for an encoded one: floats as their bytes, UTF-8 bytes as text, nothing for None. */
  function Reads(v: PyValue): Option<Value> {
    match v
    case Absent => None
    case IntV(n) => Some(Int(n))
    case FloatV(bits) => Some(Bytes(bits))
    case TextV(s) => Some(Text(s))
    case BytesV(b) => Some(TextOrBytes(b))
  }

  predicate Representable(item: (int, PyValue)) {
    item.1.Absent? || (item.0 >= 0 && (item.1.IntV? ==> item.1.n >= 0))
  }

  /** A Float32 packs to exactly four bytes. */
  ghost predicate Packed(d: Dict<int, PyValue>) {
    forall i :: 0 <= i < |d| && d[i].1.FloatV? ==> |d[i].1.bits| == 4
  }

  ghost predicate SortedKeys(d: Dict<int, PyValue>) {
    forall i, j :: 0 <= i < j < |d| ==> d[i].0 < d[j].0
  }

  /** The reader after a tag it was given: what is left is `body`. */
  lemma TagReads(number: nat, wire: nat, body: seq<byte>)
    requires wire < 8
    ensures var data := EncodeVarint(number * 8 + wire) + body;
            && data != []
            && Varint(data).0 / 8 == number && Varint(data).0 % 8 == wire
            && data[Varint(data).1..] == body
  {
    VarintRoundTrip(number * 8 + wire, body);
  }

  lemma IntFieldReads(number: nat, n: nat, rest: seq<byte>)
    ensures var data := EncodeField(number, IntV(n)) + rest;
            data != [] && NextField(data) == Item(Field(number, 0, Num(n)), rest)
  {
    hide Varint, EncodeVarint;
    var data := EncodeField(number, IntV(n)) + rest;
    assert data == EncodeVarint(number * 8 + 0) + (EncodeVarint(n) + rest);
    TagReads(number, 0, EncodeVarint(n) + rest);
    VarintRoundTrip(n, rest);
    assert (EncodeVarint(n) + rest)[|EncodeVarint(n)|..] == rest;
  }

  lemma FloatFieldReads(number: nat, bits: seq<byte>, rest: seq<byte>)
    requires |bits| == 4
    ensures var data := EncodeField(number, FloatV(bits)) + rest;
            data != [] && NextField(data) == Item(Field(number, 5, Raw(bits)), rest)
  {
    hide Varint, EncodeVarint;
    var data := EncodeField(number, FloatV(bits)) + rest;
    assert data == EncodeVarint(number * 8 + 5) + (bits + rest);
    TagReads(number, 5, bits + rest);
    assert Take(bits + rest, 4) == bits && Skip(bits + rest, 4) == rest;
  }

  lemma DelimitedFieldReads(number: nat, b: seq<byte>, rest: seq<byte>)
    ensures var data := Delimited(number, b) + rest;
            data != [] && NextField(data) == Item(Field(number, 2, Raw(b)), rest)
  {
    hide Varint, EncodeVarint;
    var data := Delimited(number, b) + rest;
    var body := EncodeVarint(|b|) + (b + rest);
    assert data == EncodeVarint(number * 8 + 2) + body;
    TagReads(number, 2, body);
    VarintRoundTrip(|b|, b + rest);
    assert body[|EncodeVarint(|b|)|..] == b + rest;
    assert Take(b + rest, |b|) == b && Skip(b + rest, |b|) == rest;
  }

  /** One encoded field is read back as itself, and the reader continues after it. */
  lemma FieldRoundTrip(number: int, v: PyValue, rest: seq<byte>)
    requires !v.Absent? && Representable((number, v)) && (v.FloatV? ==> |v.bits| == 4)
    ensures var data := EncodeField(number, v) + rest;
            && data != []
            && NextField(data).Item?
            && NextField(data).rest == rest
            && NextField(data).field.number == number
            && Some(FieldValue(NextField(data).field)) == Reads(v)
  {
    hide Varint, EncodeVarint, NextField, Utf8.Decode, Utf8.Encode;
    match v {
      case IntV(n) => IntFieldReads(number, n, rest);
      case FloatV(bits) => FloatFieldReads(number, bits, rest);
      case TextV(s) =>
        DecodeEncode(s);
        DelimitedFieldReads(number, Encode(s), rest);
      case BytesV(b) => DelimitedFieldReads(number, b, rest);
    }
  }

  /** The items a reader gets for `items`, in order. */
  function ReadsAll(items: Dict<int, PyValue>): Dict<int, Value> {
    if items == [] then []
    else match Reads(items[0].1)
      case None => ReadsAll(items[1..])
      case Some(v) => [(items[0].0, v)] + ReadsAll(items[1..])
  }

  ghost predicate AllRepresentable(items: Dict<int, PyValue>) {
    forall i :: 0 <= i < |items| ==> Representable(items[i])
  }

  ghost predicate Below(d: Dict<int, Value>, items: Dict<int, PyValue>) {
    forall i, j :: 0 <= i < |items| && 0 <= j < |d| ==> d[j].0 < items[i].0
  }

  lemma {:induction false} ItemsRoundTrip(items: Dict<int, PyValue>, d: Dict<int, Value>)
    requires SortedKeys(items) && Packed(items) && AllRepresentable(items) && Below(d, items)
    ensures Collapse(IterFields(EncodeItems(items)), d) == d + ReadsAll(items)
  {
    hide EncodeField, Reads, NextField, FieldValue, IterFields, Collapse, Put;
    if items == [] {
      CollapseNothing(d);
    } else {
      var k, v, rest := items[0].0, items[0].1, EncodeItems(items[1..]);
      assert Representable(items[0]);
      if v.Absent? {
        AbsentReads(k);
        assert EncodeField(k, v) + rest == rest;
        ItemsRoundTrip(items[1..], d);
      } else {
        FieldRoundTrip(k, v, rest);
        var data := EncodeField(k, v) + rest;
        CollapseStep(data, d);
        var value := FieldValue(NextField(data).field);
        GetIn(d, k);
        PutAppends(d, k, value);
        var d' := d + [(k, value)];
        ItemsRoundTrip(items[1..], d');
        assert d' + ReadsAll(items[1..]) == d + ([(k, value)] + ReadsAll(items[1..]));
      }
    }
  }

  lemma CollapseNothing(d: Dict<int, Value>)
    ensures Collapse(IterFields([]), d) == d
  {
  }

  lemma AbsentReads(k: int)
    ensures EncodeField(k, Absent) == [] && Reads(Absent).None?
  {
  }

  lemma ReadsCons(x: (int, PyValue), rest: Dict<int, PyValue>)
    requires !x.1.Absent?
    ensures ReadsAll([x] + rest) == [(x.0, Reads(x.1).value)] + ReadsAll(rest)
  {
    assert ([x] + rest)[1..] == rest;
  }

  lemma ReadsPair(x: (int, PyValue), y: (int, PyValue))
    requires !x.1.Absent? && !y.1.Absent?
    ensures ReadsAll([x, y]) == [(x.0, Reads(x.1).value), (y.0, Reads(y.1).value)]
  {
    ReadsCons(y, []);
    ReadsCons(x, [y]);
    assert [x] + [y] == [x, y] && [y] + [] == [y];
  }

  lemma {:induction false} ReadsConcat(a: Dict<int, PyValue>, b: Dict<int, PyValue>)
    ensures ReadsAll(a + b) == ReadsAll(a) + ReadsAll(b)
  {
    if a == [] {
      assert a + b == b;
    } else {
      assert (a + b)[1..] == a[1..] + b;
      ReadsConcat(a[1..], b);
    }
  }

  lemma {:induction false} EncodeConcat(a: Dict<int, PyValue>, b: Dict<int, PyValue>)
    ensures EncodeItems(a + b) == EncodeItems(a) + EncodeItems(b)
  {
    if a == [] {
      assert a + b == b;
    } else {
      assert (a + b)[1..] == a[1..] + b;
      EncodeConcat(a[1..], b);
    }
  }

  lemma OneField(k: int, v: PyValue)
    ensures EncodeItems([(k, v)]) == EncodeField(k, v)
  {
  }

  lemma EncodePair(x: (int, PyValue), y: (int, PyValue))
    ensures EncodeItems([x, y]) == EncodeField(x.0, x.1) + EncodeField(y.0, y.1)
  {
    EncodeConcat([x], [y]);
    OneField(x.0, x.1);
    OneField(y.0, y.1);
    assert [x] + [y] == [x, y];
  }

  // Sorting keeps the items.

  lemma {:induction false} InsertMembers(item: (int, PyValue), items: Dict<int, PyValue>)
    ensures forall x :: x in InsertByKey(item, items) <==> x == item || x in items
  {
    if items != [] && item.0 >= items[0].0 {
      InsertMembers(item, items[1..]);
      assert items == [items[0]] + items[1..];
    }
  }

  lemma {:induction false} InsertSorts(item: (int, PyValue), items: Dict<int, PyValue>)
    requires SortedKeys(items) && forall i :: 0 <= i < |items| ==> items[i].0 != item.0
    ensures SortedKeys(InsertByKey(item, items))
  {
    if items != [] && item.0 >= items[0].0 {
      InsertSorts(item, items[1..]);
      InsertMembers(item, items[1..]);
      var r := InsertByKey(item, items[1..]);
      forall i | 0 <= i < |r| ensures items[0].0 < r[i].0 {
        assert r[i] in r;
      }
    }
  }

  lemma {:induction false} SortSorts(items: Dict<int, PyValue>)
    requires DistinctKeys(items)
    ensures SortedKeys(SortByKey(items))
    ensures forall x :: x in SortByKey(items) <==> x in items
  {
    if items != [] {
      SortSorts(items[1..]);
      var r := SortByKey(items[1..]);
      forall i | 0 <= i < |r| ensures r[i].0 != items[0].0 {
        assert r[i] in items[1..];
      }
      InsertSorts(items[0], r);
      InsertMembers(items[0], r);
      assert items == [items[0]] + items[1..];
    }
  }

  lemma NoMoreEmpty(a: Dict<int, PyValue>, b: Dict<int, PyValue>)
    requires forall x :: x in a ==> x in b
    ensures a != [] ==> b != []
  {
    if a != [] { assert a[0] in b; }
  }

  lemma {:induction false} SortedUnique(a: Dict<int, PyValue>, b: Dict<int, PyValue>)
    requires SortedKeys(a) && SortedKeys(b) && forall x :: x in a <==> x in b
    ensures a == b
  {
    NoMoreEmpty(a, b);
    NoMoreEmpty(b, a);
    if a != [] {
      assert a[0] in b && b[0] in a;
      assert a[0] == b[0];
      assert a == [a[0]] + a[1..] && b == [b[0]] + b[1..];
      assert a[0] !in a[1..] && b[0] !in b[1..];
      forall x ensures x in a[1..] <==> x in b[1..] {
        assert x in a[1..] ==> x in a && x != a[0];
        assert x in b[1..] ==> x in b && x != b[0];
      }
      SortedUnique(a[1..], b[1..]);
    }
  }

  /** The sorted form is any strictly sorted list with the same items. */
  lemma SortIs(fields: Dict<int, PyValue>, items: Dict<int, PyValue>)
    requires DistinctKeys(fields) && SortedKeys(items) && forall x :: x in fields <==> x in items
    ensures SortByKey(fields) == items
  {
    SortSorts(fields);
    SortedUnique(SortByKey(fields), items);
  }

  lemma LookupCarries(a: Dict<int, PyValue>, b: Dict<int, PyValue>, k: int)
    requires DistinctKeys(b) && forall x :: x in a ==> x in b
    ensures Get(a, k).Some? ==> Get(b, k) == Get(a, k)
  {
    hide Get;
    GetIn(a, k);
    if Get(a, k).Some? {
      var item := (k, Get(a, k).value);
      assert item in b;
      var i :| 0 <= i < |b| && b[i] == item;
      GetAt(b, i);
    }
  }

  lemma SameLookup(a: Dict<int, PyValue>, b: Dict<int, PyValue>, k: int)
    requires DistinctKeys(a) && DistinctKeys(b) && forall x :: x in a <==> x in b
    ensures Get(a, k) == Get(b, k)
  {
    LookupCarries(a, b, k);
    LookupCarries(b, a, k);
  }

  ghost predicate NonNegative(d: Dict<int, Value>) {
    forall i :: 0 <= i < |d| ==> d[i].0 >= 0 && (d[i].1.Int? ==> d[i].1.n >= 0)
  }

  lemma {:induction false} CollapseNonNegative(fields: seq<Field>, d: Dict<int, Value>)
    requires NonNegative(d)
    ensures NonNegative(Collapse(fields, d))
  {
    if fields != [] {
      PutNonNegative(d, fields[0].number, FieldValue(fields[0]));
      CollapseNonNegative(fields[1..], Put(d, fields[0].number, FieldValue(fields[0])));
    }
  }

  lemma {:induction false} PutNonNegative(d: Dict<int, Value>, k: int, v: Value)
    requires NonNegative(d) && k >= 0 && (v.Int? ==> v.n >= 0)
    ensures NonNegative(Put(d, k, v))
  {
    if d != [] && d[0].0 != k {
      PutNonNegative(d[1..], k, v);
    }
  }

  lemma {:induction false} ReadsAllNonNegative(items: Dict<int, PyValue>)
    ensures NonNegative(ReadsAll(items)) <==> AllRepresentable(items)
  {
    if items != [] {
      ReadsAllNonNegative(items[1..]);
      assert AllRepresentable(items) <==> Representable(items[0]) && AllRepresentable(items[1..]) by {
        assert items == [items[0]] + items[1..];
      }
      var tail := ReadsAll(items[1..]);
      if !items[0].1.Absent? {
        var head := (items[0].0, Reads(items[0].1).value);
        assert ReadsAll(items) == [head] + tail;
        assert ReadsAll(items)[0] == head && ReadsAll(items)[1..] == tail;
        assert NonNegative(ReadsAll(items)) <==>
               NonNegative([head]) && NonNegative(tail);
      }
    }
  }

  /**
   `decode_message(encode_message(m))` is `m` in key order with None dropped, floats as their four
   bytes and UTF-8 bytes as text, for exactly the maps whose field numbers and integers are non-negative.
   */
  lemma MessageRoundTrip(fields: Dict<int, PyValue>)
    requires DistinctKeys(fields) && Packed(fields)
    ensures DecodeMessage(EncodeMessage(fields)) == ReadsAll(SortByKey(fields)) <==> AllRepresentable(fields)
  {
    var items := SortByKey(fields);
    SortSorts(fields);
    assert AllRepresentable(fields) <==> AllRepresentable(items) by {
      if AllRepresentable(fields) {
        forall i | 0 <= i < |items| ensures Representable(items[i]) { assert items[i] in fields; }
      }
      if AllRepresentable(items) {
        forall i | 0 <= i < |fields| ensures Representable(fields[i]) { assert fields[i] in items; }
      }
    }
    if AllRepresentable(fields) {
      forall i | 0 <= i < |items| && items[i].1.FloatV? ensures |items[i].1.bits| == 4 {
        assert items[i] in fields;
      }
      ItemsRoundTrip(items, []);
    } else {
      ReadsAllNonNegative(items);
      CollapseNonNegative(IterFields(EncodeItems(items)), []);
    }
  }

  lemma {:induction false} ReadsAllLookup(items: Dict<int, PyValue>, k: int)
    requires DistinctKeys(items)
    ensures Get(ReadsAll(items), k) ==
            if Has(items, k) then Reads(Get(items, k).value) else None
  {
    if items != [] {
      ReadsAllLookup(items[1..], k);
      GetIn(items[1..], k);
      if !items[0].1.Absent? {
        assert ReadsAll(items)[1..] == ReadsAll(items[1..]);
      }
    }
  }

  /** The same law read key by key, whatever the order of the map. */
  lemma MessageLookup(fields: Dict<int, PyValue>, k: int)
    requires DistinctKeys(fields) && Packed(fields) && AllRepresentable(fields)
    ensures Get(DecodeMessage(EncodeMessage(fields)), k) ==
            if Has(fields, k) then Reads(Get(fields, k).value) else None
  {
    hide SortByKey, EncodeItems, DecodeMessage, ReadsAll, Get, Reads;
    MessageRoundTrip(fields);
    SortSorts(fields);
    ReadsAllLookup(SortByKey(fields), k);
    SameLookup(SortByKey(fields), fields, k);
  }
}
