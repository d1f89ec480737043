/** The camera WebRTC message of `app/proto.py` and the search for the candidate in it. */
module ProtoWalk {
  import opened Common
  import opened Utf8
  import opened Proto

  // ------------------------------------------------------------------ camera WebRTC message

  /** `encode_camera_webrtc_message`; Err stands for its two ValueErrors. */
  function EncodeCamera(token: string, requestId: string, fingerprint: string, msgType: int,
                        sdp: string, candidate: string, mid: string): Result<seq<byte>, string>
  {
    if msgType !in {1, 2, 3, 4} then Err("unsupported outbound WebRTC message type")
    else if requestId == "" then Err("request_id must be a non-empty string")
    else Ok(EncodeMessage(CameraFields(token, requestId, fingerprint, msgType, Detail(sdp, candidate, mid))))
  }

  /** The tag-4 submessage, or None when neither an SDP nor a candidate is given. */
  function Detail(sdp: string, candidate: string, mid: string): Option<(string, string)> {
    if sdp != "" then Some((sdp, ""))
    else if candidate != "" then Some((candidate, mid))
    else None
  }

  function PairFields(p: (string, string)): Dict<int, PyValue> { [(1, TextV(p.0)), (2, TextV(p.1))] }

  /** The dictionary the source builds; field 4 is put last. */
  function CameraFields(token: string, requestId: string, fingerprint: string, msgType: int,
                        detail: Option<(string, string)>): Dict<int, PyValue>
  {
    [(1, TextV(token)), (2, TextV(requestId)), (3, TextV(fingerprint)), (5, IntV(msgType)), (7, IntV(1))]
    + if detail.Some? then [(4, BytesV(EncodeMessage(PairFields(detail.value))))] else []
  }

  datatype CameraMessage = CameraMessage(
    requestId: Value, clientId: Value, sessionId: Value, field4: Value, field4Fields: Dict<int, Value>,
    field5: Value, field6: Value, field7: Value, iceConfig: Value, field9: Value, raw: Dict<int, Value>)

  function GetOr(d: Dict<int, Value>, k: int, default: Value): Value {
    match Get(d, k) case Some(v) => v case None => default
  }

  /** The decoded submessage of the first field that is number 4 and length-delimited. */
  function FirstDetail(fields: seq<Field>): Dict<int, Value> {
    if fields == [] then []
    else if fields[0].number == 4 && fields[0].wire == 2 && fields[0].payload.Raw?
    then DecodeMessage(fields[0].payload.b)
    else FirstDetail(fields[1..])
  }

  function DecodeCamera(data: seq<byte>): CameraMessage {
    var f := DecodeMessage(data);
    CameraMessage(GetOr(f, 1, Text("")), GetOr(f, 2, Text("")), GetOr(f, 3, Text("")), GetOr(f, 4, Text("")),
                  FirstDetail(IterFields(data)),
                  GetOr(f, 5, Int(0)), GetOr(f, 6, Int(0)), GetOr(f, 7, Int(0)),
                  GetOr(f, 8, Bytes([])), GetOr(f, 9, Bytes([])), f)
  }

  lemma PairRoundTrip(p: (string, string))
    ensures DecodeMessage(EncodeMessage(PairFields(p))) == [(1, Text(p.0)), (2, Text(p.1))]
    ensures EncodeMessage(PairFields(p)) == EncodeField(1, TextV(p.0)) + EncodeField(2, TextV(p.1))
  {
    hide EncodeField, DecodeMessage, SortByKey, TextOrBytes;
    var f := PairFields(p);
    SortIs(f, f);
    assert f[1..] == [f[1]] && f[1..][1..] == [];
    assert ReadsAll(f[1..]) == [(2, Text(p.1))];
    assert EncodeItems(f[1..]) == EncodeField(2, TextV(p.1)) + EncodeItems([]);
    MessageRoundTrip(f);
  }

  /** What field 4 reads as: text when the submessage happens to be UTF-8, bytes otherwise. */
  function DetailValue(p: (string, string)): Value { TextOrBytes(EncodeMessage(PairFields(p))) }

  /** The dictionary a camera message decodes to, in wire order. */
  function CameraRaw(token: string, requestId: string, fingerprint: string, msgType: int,
                     detail: Option<(string, string)>): Dict<int, Value>
  {
    [(1, Text(token)), (2, Text(requestId)), (3, Text(fingerprint))]
    + (if detail.Some? then [(4, DetailValue(detail.value))] else [])
    + [(5, Int(msgType)), (7, Int(1))]
  }

  function CameraSorted(token: string, requestId: string, fingerprint: string, msgType: int,
                        detail: Option<(string, string)>): Dict<int, PyValue>
  {
    [(1, TextV(token)), (2, TextV(requestId)), (3, TextV(fingerprint))]
    + (if detail.Some? then [(4, BytesV(EncodeMessage(PairFields(detail.value))))] else [])
    + [(5, IntV(msgType)), (7, IntV(1))]
  }

  lemma CameraDecodes(token: string, requestId: string, fingerprint: string, msgType: nat,
                      detail: Option<(string, string)>)
    ensures DecodeMessage(EncodeMessage(CameraFields(token, requestId, fingerprint, msgType, detail)))
         == CameraRaw(token, requestId, fingerprint, msgType, detail)
    ensures EncodeMessage(CameraFields(token, requestId, fingerprint, msgType, detail))
         == EncodeItems(CameraSorted(token, requestId, fingerprint, msgType, detail))
  {
    hide EncodeItems, DecodeMessage, SortByKey, TextOrBytes;
    var f := CameraFields(token, requestId, fingerprint, msgType, detail);
    var items := CameraSorted(token, requestId, fingerprint, msgType, detail);
    forall x ensures x in f <==> x in items { }
    SortIs(f, items);
    MessageRoundTrip(f);
    CameraReads(token, requestId, fingerprint, msgType, detail);
  }

  lemma CameraReads(token: string, requestId: string, fingerprint: string, msgType: nat,
                    detail: Option<(string, string)>)
    ensures ReadsAll(CameraSorted(token, requestId, fingerprint, msgType, detail))
         == CameraRaw(token, requestId, fingerprint, msgType, detail)
  {
    hide ReadsAll, EncodeItems, TextOrBytes;
    var tail: Dict<int, PyValue> := [(5, IntV(msgType)), (7, IntV(1))];
    ReadsPair(tail[0], tail[1]);
    var rest := tail;
    if detail.Some? {
      var x := (4, BytesV(EncodeMessage(PairFields(detail.value))));
      ReadsCons(x, tail);
      rest := [x] + tail;
    }
    var a, b, c := (1, TextV(token)), (2, TextV(requestId)), (3, TextV(fingerprint));
    ReadsPair(a, b);
    ReadsCons(c, rest);
    ReadsConcat([a, b], [c] + rest);
    assert CameraSorted(token, requestId, fingerprint, msgType, detail) == [a, b] + ([c] + rest);
  }

  lemma {:induction false} FirstDetailSkips(items: Dict<int, PyValue>, tail: seq<byte>)
    requires Packed(items) && AllRepresentable(items)
    requires forall i :: 0 <= i < |items| ==> items[i].0 != 4
    ensures FirstDetail(IterFields(EncodeItems(items) + tail)) == FirstDetail(IterFields(tail))
  {
    hide EncodeField, NextField, Reads, FieldValue;
    if items == [] {
      assert EncodeItems(items) + tail == tail;
    } else {
      var k, v := items[0].0, items[0].1;
      var rest := EncodeItems(items[1..]) + tail;
      var data := EncodeItems(items) + tail;
      assert data == EncodeField(k, v) + rest;
      assert Representable(items[0]);
      FirstDetailSkips(items[1..], tail);
      if v.Absent? {
        AbsentReads(k);
        assert data == rest;
      } else {
        FieldRoundTrip(k, v, rest);
        assert IterFields(data)[1..] == IterFields(rest);
      }
    }
  }

  lemma DetailFound(token: string, requestId: string, fingerprint: string, msgType: nat,
                    detail: Option<(string, string)>)
    ensures var data := EncodeItems(CameraSorted(token, requestId, fingerprint, msgType, detail));
            FirstDetail(IterFields(data)) ==
            if detail.None? then [] else [(1, Text(detail.value.0)), (2, Text(detail.value.1))]
  {
    hide EncodeItems, EncodeMessage, NextField, DecodeMessage;
    var head: Dict<int, PyValue> := [(1, TextV(token)), (2, TextV(requestId)), (3, TextV(fingerprint))];
    var tail: Dict<int, PyValue> := [(5, IntV(msgType)), (7, IntV(1))];
    var items := CameraSorted(token, requestId, fingerprint, msgType, detail);
    if detail.None? {
      FirstDetailSkips(items, []);
      assert EncodeItems(items) + [] == EncodeItems(items);
    } else {
      var sub := EncodeMessage(PairFields(detail.value));
      var mine: Dict<int, PyValue> := [(4, BytesV(sub))];
      assert items == head + (mine + tail);
      EncodeConcat(head, mine + tail);
      EncodeConcat(mine, tail);
      FirstDetailSkips(head, EncodeItems(mine + tail));
      OneField(mine[0].0, mine[0].1);
      DelimitedFieldReads(4, sub, EncodeItems(tail));
      PairRoundTrip(detail.value);
    }
  }

  /**
   Decoding an encoded camera message gives back every part: the three strings, the type, the
   constant field 7 and, for all strings, the SDP or candidate pair of field 4.
   */
  lemma CameraRoundTrip(token: string, requestId: string, fingerprint: string, msgType: int,
                        sdp: string, candidate: string, mid: string)
    ensures EncodeCamera(token, requestId, fingerprint, msgType, sdp, candidate, mid).Ok? <==>
            1 <= msgType <= 4 && requestId != ""
    ensures var e := EncodeCamera(token, requestId, fingerprint, msgType, sdp, candidate, mid);
            && (e == Err("unsupported outbound WebRTC message type") <==> !(1 <= msgType <= 4))
            && (e == Err("request_id must be a non-empty string") <==> 1 <= msgType <= 4 && requestId == "")
    ensures var e := EncodeCamera(token, requestId, fingerprint, msgType, sdp, candidate, mid);
            e.Ok? ==>
              var m := DecodeCamera(e.value);
              && m.requestId == Text(token) && m.clientId == Text(requestId) && m.sessionId == Text(fingerprint)
              && m.field5 == Int(msgType) && m.field6 == Int(0) && m.field7 == Int(1)
              && m.iceConfig == Bytes([]) && m.field9 == Bytes([])
              && (sdp != "" ==> m.field4Fields == [(1, Text(sdp)), (2, Text(""))])
              && (sdp == "" && candidate != "" ==> m.field4Fields == [(1, Text(candidate)), (2, Text(mid))])
              && (sdp == "" && candidate == "" ==> m.field4Fields == [] && m.field4 == Text(""))
  {
    hide EncodeItems, EncodeMessage, IterFields, DecodeMessage, FirstDetail, TextOrBytes;
    var detail := Detail(sdp, candidate, mid);
    assert "unsupported outbound WebRTC message type"[0] != "request_id must be a non-empty string"[0];
    if 1 <= msgType <= 4 && requestId != "" {
      CameraDecodes(token, requestId, fingerprint, msgType, detail);
      DetailFound(token, requestId, fingerprint, msgType, detail);
      CameraRawLookup(token, requestId, fingerprint, msgType, detail);
    }
  }

  lemma CameraRawLookup(token: string, requestId: string, fingerprint: string, msgType: int,
                        detail: Option<(string, string)>)
    ensures var raw := CameraRaw(token, requestId, fingerprint, msgType, detail);
            && Get(raw, 1) == Some(Text(token)) && Get(raw, 2) == Some(Text(requestId))
            && Get(raw, 3) == Some(Text(fingerprint)) && Get(raw, 5) == Some(Int(msgType))
            && Get(raw, 7) == Some(Int(1))
            && Get(raw, 6) == None && Get(raw, 8) == None && Get(raw, 9) == None
            && (detail.None? ==> Get(raw, 4) == None)
  {
    hide TextOrBytes, Get;
    var raw := CameraRaw(token, requestId, fingerprint, msgType, detail);
    var n := |raw|;
    GetAt(raw, 0); GetAt(raw, 1); GetAt(raw, 2); GetAt(raw, n - 2); GetAt(raw, n - 1);
    GetIn(raw, 4); GetIn(raw, 6); GetIn(raw, 8); GetIn(raw, 9);
  }

  /** Position `i` holds the first field that is number 4 and length-delimited. */
  ghost predicate FirstFour(fields: seq<Field>, i: nat) {
    && i < |fields| && fields[i].number == 4 && fields[i].wire == 2 && fields[i].payload.Raw?
    && forall j :: 0 <= j < i ==> !(fields[j].number == 4 && fields[j].wire == 2 && fields[j].payload.Raw?)
  }

  lemma {:induction false} FirstDetailIs(fields: seq<Field>, i: nat)
    requires FirstFour(fields, i)
    ensures FirstDetail(fields) == DecodeMessage(fields[i].payload.b)
  {
    hide DecodeMessage;
    if i > 0 {
      FirstDetailIs(fields[1..], i - 1);
    }
  }

  /** Every byte string decodes to a message: each part is the value of its field, or what stands for an absent one. */
  lemma AnyCameraReads(data: seq<byte>)
    ensures var m, f := DecodeCamera(data), DecodeMessage(data);
      && m.raw == f
      && m.requestId == (if Has(f, 1) then Get(f, 1).value else Text(""))
      && m.clientId == (if Has(f, 2) then Get(f, 2).value else Text(""))
      && m.sessionId == (if Has(f, 3) then Get(f, 3).value else Text(""))
      && m.field4 == (if Has(f, 4) then Get(f, 4).value else Text(""))
      && m.field5 == (if Has(f, 5) then Get(f, 5).value else Int(0))
      && m.field6 == (if Has(f, 6) then Get(f, 6).value else Int(0))
      && m.field7 == (if Has(f, 7) then Get(f, 7).value else Int(0))
      && m.iceConfig == (if Has(f, 8) then Get(f, 8).value else Bytes([]))
      && m.field9 == (if Has(f, 9) then Get(f, 9).value else Bytes([]))
    ensures forall i: nat :: FirstFour(IterFields(data), i) ==>
      DecodeCamera(data).field4Fields == DecodeMessage(IterFields(data)[i].payload.b)
  {
    hide DecodeMessage, IterFields, FirstDetail, Get;
    forall i: nat | FirstFour(IterFields(data), i)
      ensures DecodeCamera(data).field4Fields == DecodeMessage(IterFields(data)[i].payload.b)
    {
      FirstDetailIs(IterFields(data), i);
    }
  }

  // ------------------------------------------------------------------ candidate search

  function StripAttribute(text: string): string { if "a=" <= text then text[2..] else text }

  function Normalize(text: string): string {
    var t := StripAttribute(text);
    if "candidate:" <= t then t else ""
  }

  /** `scan`: the candidate in a value or, up to eight levels down, in the message its bytes spell. */
  function Scan(v: Value, depth: nat): string
    requires depth <= 9
    decreases 9 - depth, 1, 0
  {
    if depth > 8 || v.Int? then ""
    else
      var found := Normalize(if v.Text? then v.s else DecodeReplace(v.b));
      if found != "" then found else ScanAll(DecodeMessage(Inner(v)), depth + 1)
  }

  function ScanAll(d: Dict<int, Value>, depth: nat): string
    requires depth <= 9
    decreases 9 - depth, 2, |d|
  {
    if d == [] then ""
    else
      var found := Scan(d[0].1, depth);
      if found != "" then found else ScanAll(d[1..], depth)
  }

  function FindCandidate(m: CameraMessage): string { ScanAll(m.raw, 0) }

  lemma ScanCons(k: int, v: Value, rest: Dict<int, Value>)
    ensures ScanAll([(k, v)] + rest, 0) == if Scan(v, 0) != "" then Scan(v, 0) else ScanAll(rest, 0)
  {
    assert ([(k, v)] + rest)[1..] == rest;
  }

  lemma PairStartsWithTag(p: (string, string))
    ensures var b := EncodeMessage(PairFields(p)); b != [] && b[0] == 10
  {
    hide EncodeMessage;
    PairRoundTrip(p);
  }

  lemma DetailIsNotText(p: (string, string))
    ensures var v := DetailValue(p);
            && !v.Int? && Inner(v) == EncodeMessage(PairFields(p))
            && Normalize(if v.Text? then v.s else DecodeReplace(v.b)) == ""
  {
    hide EncodeMessage, Utf8.Encode;
    PairStartsWithTag(p);
    var b := EncodeMessage(PairFields(p));
    if Decode(b).Some? {
      EncodeDecode(b);
      ReplaceAgrees(b);
    }
    assert DecodeReplace(b)[0] == 10 as char;
  }

  /** The first non-empty one. */
  function FirstOf(texts: seq<string>): string {
    if texts == [] then "" else if texts[0] != "" then texts[0] else FirstOf(texts[1..])
  }

  /** What the two parts of field 4 scan to, one level down. */
  function DetailScans(detail: Option<(string, string)>): seq<string> {
    if detail.None? then [] else [Scan(Text(detail.value.0), 1), Scan(Text(detail.value.1), 1)]
  }

  /** Scanning field 4 scans its two parts; a candidate comes out stripped of the attribute prefix. */
  lemma ScanDetail(p: (string, string))
    ensures Scan(DetailValue(p), 0) == FirstOf(DetailScans(Some(p)))
    ensures Normalize(p.0) != "" ==> Scan(DetailValue(p), 0) == StripAttribute(p.0)
  {
    hide DecodeMessage, EncodeMessage, TextOrBytes;
    DetailIsNotText(p);
    PairRoundTrip(p);
    var inner: Dict<int, Value> := [(1, Text(p.0)), (2, Text(p.1))];
    assert Normalize(p.0) != "" ==> Scan(Text(p.0), 1) == StripAttribute(p.0);
    assert Scan(DetailValue(p), 0) == ScanAll(inner, 1);
    hide Scan;
    assert inner[1..] == [(2, Text(p.1))] && inner[1..][1..] == [];
    var scans := DetailScans(Some(p));
    assert scans[1..][1..] == [];
    assert ScanAll(inner[1..], 1) == scans[1] && FirstOf(scans[1..]) == scans[1];
  }

  lemma RawIs(token: string, requestId: string, fingerprint: string, msgType: int, detail: Option<(string, string)>)
    ensures CameraRaw(token, requestId, fingerprint, msgType, detail) ==
            [(1, Text(token))] + ([(2, Text(requestId))] + ([(3, Text(fingerprint))] +
              ((if detail.None? then [] else [(4, DetailValue(detail.value))]) + [(5, Int(msgType)), (7, Int(1))])))
  {
    hide DetailValue;
  }

  /** The numbers at the end of a message scan to nothing. */
  lemma ScanEnd(msgType: int, detail: Option<(string, string)>)
    ensures ScanAll((if detail.None? then [] else [(4, DetailValue(detail.value))])
                    + [(5, Int(msgType)), (7, Int(1))], 0)
            == FirstOf(DetailScans(detail))
  {
    var end: Dict<int, Value> := [(5, Int(msgType)), (7, Int(1))];
    assert end[1..][1..] == [];
    assert ScanAll(end, 0) == "" by {
      assert ScanAll(end[1..], 0) == "";
    }
    if detail.None? {
      assert [] + end == end;
    } else {
      ScanDetail(detail.value);
      hide Scan, ScanAll, DetailValue;
      ScanCons(4, DetailValue(detail.value), end);
    }
  }

  /** Scanning a camera message's fields: the first three strings, then the two parts of the detail. */
  lemma ScanRaw(token: string, requestId: string, fingerprint: string, msgType: int, detail: Option<(string, string)>)
    ensures ScanAll(CameraRaw(token, requestId, fingerprint, msgType, detail), 0) ==
            FirstOf([Scan(Text(token), 0), Scan(Text(requestId), 0), Scan(Text(fingerprint), 0)] + DetailScans(detail))
  {
    hide Scan, ScanAll, CameraRaw, DetailValue;
    var a, b, c := (1, Text(token)), (2, Text(requestId)), (3, Text(fingerprint));
    var rest := (if detail.None? then [] else [(4, DetailValue(detail.value))]) + [(5, Int(msgType)), (7, Int(1))];
    ScanEnd(msgType, detail);
    RawIs(token, requestId, fingerprint, msgType, detail);
    ScanCons(3, Text(fingerprint), rest);
    ScanCons(2, Text(requestId), [c] + rest);
    ScanCons(1, Text(token), [b] + ([c] + rest));
    var t, r, f, more := Scan(Text(token), 0), Scan(Text(requestId), 0), Scan(Text(fingerprint), 0),
      DetailScans(detail);
    hide DetailScans;
    FirstThree(t, r, f, more);
  }

  /**
   The search returns what the first of token, request id, fingerprint and the two parts of field 4
   that scans to something holds; when the three scan to nothing and a candidate was sent, that is
   the candidate without its `a=`.
   */
  lemma CandidateFound(token: string, requestId: string, fingerprint: string, msgType: int,
                       sdp: string, candidate: string, mid: string)
    ensures var e := EncodeCamera(token, requestId, fingerprint, msgType, sdp, candidate, mid);
            var first := [Scan(Text(token), 0), Scan(Text(requestId), 0), Scan(Text(fingerprint), 0)];
            e.Ok? ==>
              && FindCandidate(DecodeCamera(e.value)) == FirstOf(first + DetailScans(Detail(sdp, candidate, mid)))
              && (sdp == "" && Normalize(candidate) != "" && first == ["", "", ""] ==>
                    FindCandidate(DecodeCamera(e.value)) == StripAttribute(candidate))
  {
    var detail := Detail(sdp, candidate, mid);
    if 1 <= msgType <= 4 && requestId != "" {
      hide Scan, ScanAll, CameraRaw, EncodeMessage, DecodeMessage, IterFields, FirstDetail, TextOrBytes;
      CameraDecodes(token, requestId, fingerprint, msgType, detail);
      ScanRaw(token, requestId, fingerprint, msgType, detail);
      if detail.Some? {
        ScanDetail(detail.value);
      }
      FirstThree("", "", "", DetailScans(detail));
      hide FirstOf, DetailScans;
    }
  }

  lemma FirstThree(a: string, b: string, c: string, more: seq<string>)
    ensures FirstOf([a, b, c] + more) ==
      if a != "" then a else if b != "" then b else if c != "" then c else FirstOf(more)
  {
    assert [a, b, c] + more == [a] + ([b] + ([c] + more));
    FirstCons(a, [b] + ([c] + more));
    FirstCons(b, [c] + more);
    FirstCons(c, more);
  }

  lemma FirstCons(a: string, more: seq<string>)
    ensures FirstOf([a] + more) == if a != "" then a else FirstOf(more)
  {
    assert ([a] + more)[1..] == more;
  }
}
