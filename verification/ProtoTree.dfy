/** The two recursive walkers of `app/proto.py`: the ICE configuration and the configuration tree. */
module ProtoTree {
  import opened Common
  import opened Utf8
  import opened Proto

  ghost predicate PayloadsBelow(fields: seq<Field>, bound: nat) {
    forall i :: 0 <= i < |fields| && fields[i].payload.Raw? ==> |fields[i].payload.b| < bound
  }

  /** Every field body the iterator yields is strictly shorter than what it was found in. */
  lemma {:induction false} IterShorter(data: seq<byte>, bound: nat)
    requires |data| <= bound
    ensures PayloadsBelow(IterFields(data), bound)
    decreases |data|
  {
    if data != [] && NextField(data).Item? {
      IterShorter(NextField(data).rest, bound);
    }
  }

  // ------------------------------------------------------------------ ICE configuration

  datatype IceServer = IceServer(id: Value, host: string, port: int, kind: int)

  datatype Ice = Ice(servers: seq<IceServer>, username: string, credential: string)

  function WithoutColons(s: string): string {
    if s == "" then "" else (if s[0] == ':' then "" else [s[0]]) + WithoutColons(s[1..])
  }

  /** `text.replace(':', '').isdigit()`; `isDigit` is Unicode's digit property. */
  predicate UsernameLike(text: string, isDigit: char -> bool) {
    && ':' in text
    && WithoutColons(text) != ""
    && forall i :: 0 <= i < |WithoutColons(text)| ==> isDigit(WithoutColons(text)[i])
  }

  predicate CredentialLike(text: string) {
    |text| >= 16 && text[|text| - 1] == '=' && ' ' !in text
  }

  function AsServer(d: Dict<int, Value>): Option<IceServer> {
    var host, port, kind := Get(d, 2), Get(d, 3), Get(d, 4);
    if host.Some? && host.value.Text? && port.Some? && port.value.Int? && kind.Some? && kind.value.Int? then
      Some(IceServer(match Get(d, 1) case Some(v) => v case None => Int(0),
                     host.value.s, port.value.n, kind.value.n))
    else None
  }

  /** `walk` over the fields of one blob; `bound` is the length of the blob. */
  function IceFields(fields: seq<Field>, bound: nat, st: Ice, isDigit: char -> bool): Ice
    requires PayloadsBelow(fields, bound)
    decreases bound, |fields|
  {
    if fields == [] then st
    else IceFields(fields[1..], bound, IceField(fields[0], bound, st, isDigit), isDigit)
  }

  function IceField(f: Field, bound: nat, st: Ice, isDigit: char -> bool): Ice
    requires f.payload.Raw? ==> |f.payload.b| < bound
    decreases bound, 0
  {
    if f.wire != 2 || f.payload.Num? then st
    else
      var b := f.payload.b;
      var text := match Decode(b) case Some(t) => t case None => "";
      if UsernameLike(text, isDigit) then st.(username := text)
      else if CredentialLike(text) then st.(credential := text)
      else match AsServer(DecodeMessage(b))
        case Some(server) => st.(servers := st.servers + [server])
        case None => IterShorter(b, |b|); IceFields(IterFields(b), |b|, st, isDigit)
  }

  function DecodeIce(data: seq<byte>, isDigit: char -> bool): Ice {
    IterShorter(data, |data|);
    IceFields(IterFields(data), |data|, Ice([], "", ""), isDigit)
  }

  // The layout the walker is for: {1: blob}, where blob repeats {1: element} and an element is a
  // server or a TURN block {1: server ..., 2: username, 3: credential}.

  datatype Server = Server(id: nat, host: string, port: nat, kind: nat)

  datatype Element = Plain(server: Server) | Turn(servers: seq<Server>, username: string, credential: string)

  function ServerItems(s: Server): Dict<int, PyValue> {
    [(1, IntV(s.id)), (2, TextV(s.host)), (3, IntV(s.port)), (4, IntV(s.kind))]
  }

  function ServerBytes(s: Server): seq<byte> { EncodeMessage(ServerItems(s)) }

  function ServerBlob(servers: seq<Server>): seq<byte> {
    if servers == [] then [] else Delimited(1, ServerBytes(servers[0])) + ServerBlob(servers[1..])
  }

  function ElementBytes(e: Element): seq<byte> {
    match e
    case Plain(s) => ServerBytes(s)
    case Turn(servers, username, credential) =>
      ServerBlob(servers) + (Delimited(2, Encode(username)) + (Delimited(3, Encode(credential)) + []))
  }

  function ElementBlob(es: seq<Element>): seq<byte> {
    if es == [] then [] else Delimited(1, ElementBytes(es[0])) + ElementBlob(es[1..])
  }

  function Served(s: Server): IceServer { IceServer(Int(s.id), s.host, s.port, s.kind) }

  function ServedAll(servers: seq<Server>): seq<IceServer> {
    if servers == [] then [] else [Served(servers[0])] + ServedAll(servers[1..])
  }

  /** What one element adds. */
  function Taken(st: Ice, e: Element): Ice {
    match e
    case Plain(s) => st.(servers := st.servers + [Served(s)])
    case Turn(servers, username, credential) => Ice(st.servers + ServedAll(servers), username, credential)
  }

  function TakenAll(st: Ice, es: seq<Element>): Ice
    decreases |es|
  {
    if es == [] then st else TakenAll(Taken(st, es[0]), es[1..])
  }

  /** Types 1 to 3 are STUN, TURN and TURNS. */
  ghost predicate Known(servers: seq<Server>) {
    forall i :: 0 <= i < |servers| ==> 1 <= servers[i].kind <= 3
  }

  /** Known server types, and in a TURN block a username and a credential that look like ones. */
  ghost predicate Proper(e: Element, isDigit: char -> bool) {
    match e
    case Plain(s) => 1 <= s.kind <= 3
    case Turn(servers, username, credential) =>
      Known(servers) && UsernameLike(username, isDigit) && CredentialLike(credential)
  }

  ghost predicate AllProper(es: seq<Element>, isDigit: char -> bool) {
    forall i :: 0 <= i < |es| ==> Proper(es[i], isDigit)
  }

  /** The text the walker makes of a body: empty when it is not UTF-8. */
  function TextOf(b: seq<byte>): string { match Decode(b) case Some(t) => t case None => "" }

  /** A body that does not itself look like a credential. */
  predicate Opaque(b: seq<byte>) { !CredentialLike(TextOf(b)) }

  /** Neither a control character nor the equals sign is a digit. */
  ghost predicate PlainDigits(isDigit: char -> bool) {
    (forall c: char :: c < ' ' ==> !isDigit(c)) && !isDigit('=')
  }

  // ------------------------------------------------------------------ one field

  lemma ServerRoundTrip(s: Server)
    ensures DecodeMessage(ServerBytes(s)) == [(1, Int(s.id)), (2, Text(s.host)), (3, Int(s.port)), (4, Int(s.kind))]
    ensures ServerBytes(s) == EncodeVarint(8) + (EncodeVarint(s.id) + (EncodeField(2, TextV(s.host))
                              + (EncodeField(3, IntV(s.port)) + (EncodeVarint(32) + EncodeVarint(s.kind)))))
  {
    hide DecodeMessage, SortByKey, EncodeItems, ReadsAll, EncodeVarint, Delimited;
    var f := ServerItems(s);
    SortIs(f, f);
    assert f == [f[0], f[1]] + [f[2], f[3]];
    ReadsPair(f[0], f[1]);
    ReadsPair(f[2], f[3]);
    ReadsConcat([f[0], f[1]], [f[2], f[3]]);
    EncodePair(f[0], f[1]);
    EncodePair(f[2], f[3]);
    EncodeConcat([f[0], f[1]], [f[2], f[3]]);
    MessageRoundTrip(f);
  }

  lemma ServerEnds(s: Server)
    requires 1 <= s.kind <= 3
    ensures var b := ServerBytes(s); b != [] && b[0] == 8 && b[|b| - 1] == s.kind
  {
    hide ServerBytes, EncodeField;
    ServerRoundTrip(s);
    assert EncodeVarint(8) == [8] && EncodeVarint(s.kind) == [s.kind];
  }

  lemma {:induction false} WithoutColonsKeepsFirst(s: string)
    requires s != "" && s[0] != ':'
    ensures WithoutColons(s) != "" && WithoutColons(s)[0] == s[0]
  {
  }

  lemma {:induction false} EncodeEnds(s: string)
    requires s != "" && s[|s| - 1] == '='
    ensures Encode(s) != [] && Encode(s)[|Encode(s)| - 1] == 61
  {
    if |s| > 1 { EncodeEnds(s[1..]); }
  }

  /** A body that starts with a control byte is no username, and if it does not end in `=` no credential. */
  lemma NotCredential(b: seq<byte>, isDigit: char -> bool)
    requires PlainDigits(isDigit)
    requires b != [] ==> b[0] < 32
    ensures !UsernameLike(TextOf(b), isDigit)
    ensures b == [] || b[|b| - 1] != 61 ==> Opaque(b)
  {
    hide Encode;
    if b != [] && Decode(b).Some? {
      var text := Decode(b).value;
      EncodeDecode(b);
      assert text[0] == b[0] as char;
      WithoutColonsKeepsFirst(text);
      if text[|text| - 1] == '=' {
        EncodeEnds(text);
      }
    }
  }

  lemma ServerFieldRead(s: Server, bound: nat, st: Ice, isDigit: char -> bool)
    requires PlainDigits(isDigit) && 1 <= s.kind <= 3 && |ServerBytes(s)| < bound
    ensures IceField(Field(1, 2, Raw(ServerBytes(s))), bound, st, isDigit) == Taken(st, Plain(s))
  {
    hide ServerBytes, DecodeMessage, Decode, UsernameLike, CredentialLike;
    ServerEnds(s);
    ServerRoundTrip(s);
    NotCredential(ServerBytes(s), isDigit);
    var d: Dict<int, Value> := [(1, Int(s.id)), (2, Text(s.host)), (3, Int(s.port)), (4, Int(s.kind))];
    GetAt(d, 0); GetAt(d, 1); GetAt(d, 2); GetAt(d, 3);
  }

  lemma {:induction false} WithoutColonsKeeps(s: string, i: nat)
    requires i < |s| && s[i] != ':'
    ensures s[i] in WithoutColons(s)
  {
    if i > 0 {
      WithoutColonsKeeps(s[1..], i - 1);
    }
  }

  lemma UsernameFieldRead(username: string, bound: nat, st: Ice, isDigit: char -> bool)
    requires UsernameLike(username, isDigit) && |Encode(username)| < bound
    ensures IceField(Field(2, 2, Raw(Encode(username))), bound, st, isDigit) == st.(username := username)
  {
    hide Encode, Decode, UsernameLike, CredentialLike, IceFields, IterFields, DecodeMessage, AsServer;
    DecodeEncode(username);
  }

  lemma CredentialFieldRead(credential: string, bound: nat, st: Ice, isDigit: char -> bool)
    requires PlainDigits(isDigit) && CredentialLike(credential) && |Encode(credential)| < bound
    ensures IceField(Field(3, 2, Raw(Encode(credential))), bound, st, isDigit) == st.(credential := credential)
  {
    hide Encode, Decode, UsernameLike, CredentialLike, IceFields, IterFields, DecodeMessage, AsServer;
    DecodeEncode(credential);
    CredentialIsNoUsername(credential, isDigit);
  }

  lemma CredentialIsNoUsername(credential: string, isDigit: char -> bool)
    requires PlainDigits(isDigit) && CredentialLike(credential)
    ensures !UsernameLike(credential, isDigit)
  {
    WithoutColonsKeeps(credential, |credential| - 1);
    var plain := WithoutColons(credential);
    hide WithoutColons;
    var i :| 0 <= i < |plain| && plain[i] == '=';
    assert !isDigit(plain[i]);
  }

  // ------------------------------------------------------------------ a list of servers, and a TURN block

  function ServerFields(servers: seq<Server>): seq<Field> {
    if servers == [] then [] else [Field(1, 2, Raw(ServerBytes(servers[0])))] + ServerFields(servers[1..])
  }

  lemma {:induction false} ServersIterate(servers: seq<Server>, rest: seq<byte>)
    ensures IterFields(ServerBlob(servers) + rest) == ServerFields(servers) + IterFields(rest)
  {
    hide ServerBytes, Delimited, NextField;
    if servers == [] {
      assert ServerBlob(servers) + rest == rest;
    } else {
      var b, tail := ServerBytes(servers[0]), ServerBlob(servers[1..]) + rest;
      assert ServerBlob(servers) + rest == Delimited(1, b) + tail;
      DelimitedFieldReads(1, b, tail);
      ServersIterate(servers[1..], rest);
    }
  }

  lemma IceFieldsStep(f: Field, fields: seq<Field>, bound: nat, st: Ice, isDigit: char -> bool)
    requires PayloadsBelow([f] + fields, bound)
    ensures PayloadsBelow(fields, bound) && (f.payload.Raw? ==> |f.payload.b| < bound)
    ensures IceFields([f] + fields, bound, st, isDigit) ==
      IceFields(fields, bound, IceField(f, bound, st, isDigit), isDigit)
  {
    var all := [f] + fields;
    assert all[0] == f && all[1..] == fields;
    forall i | 0 <= i < |fields| && fields[i].payload.Raw? ensures |fields[i].payload.b| < bound {
      assert all[i + 1] == fields[i];
    }
  }

  lemma {:induction false} ServersRead(servers: seq<Server>, more: seq<Field>, bound: nat, st: Ice,
                                       isDigit: char -> bool)
    requires PlainDigits(isDigit) && Known(servers) && PayloadsBelow(ServerFields(servers) + more, bound)
    ensures PayloadsBelow(more, bound)
    ensures IceFields(ServerFields(servers) + more, bound, st, isDigit)
         == IceFields(more, bound, st.(servers := st.servers + ServedAll(servers)), isDigit)
    decreases |servers|
  {
    hide ServerBytes, IceField, IceFields, PayloadsBelow;
    if servers == [] {
      assert ServerFields(servers) + more == more;
      assert st.servers + ServedAll(servers) == st.servers;
    } else {
      var s, f := servers[0], Field(1, 2, Raw(ServerBytes(servers[0])));
      var rest := ServerFields(servers[1..]) + more;
      Assoc([f], ServerFields(servers[1..]), more);
      Assoc(st.servers, [Served(s)], ServedAll(servers[1..]));
      assert ServerFields(servers) + more == [f] + rest;
      assert ServedAll(servers) == [Served(s)] + ServedAll(servers[1..]);
      hide ServerFields, ServedAll, Served;
      IceFieldsStep(f, rest, bound, st, isDigit);
      ServerFieldRead(s, bound, st, isDigit);
      var st' := st.(servers := st.servers + [Served(s)]);
      ServersRead(servers[1..], more, bound, st', isDigit);
    }
  }

  /** The fields of a TURN block: its servers, the username and the credential. */
  lemma TurnIterates(e: Element)
    requires e.Turn?
    ensures IterFields(ElementBytes(e)) == ServerFields(e.servers)
            + ([Field(2, 2, Raw(Encode(e.username)))] + ([Field(3, 2, Raw(Encode(e.credential)))] + []))
  {
    hide ServerBlob, ServerFields, Delimited, NextField, Encode;
    var u, c := Encode(e.username), Encode(e.credential);
    ServersIterate(e.servers, Delimited(2, u) + (Delimited(3, c) + []));
    DelimitedFieldReads(2, u, Delimited(3, c) + []);
    DelimitedFieldReads(3, c, []);
    assert IterFields([]) == [];
  }

  lemma TurnFieldsRead(e: Element, bound: nat, st: Ice, isDigit: char -> bool)
    requires PlainDigits(isDigit) && e.Turn? && Proper(e, isDigit) && |ElementBytes(e)| <= bound
    ensures PayloadsBelow(IterFields(ElementBytes(e)), bound)
    ensures IceFields(IterFields(ElementBytes(e)), bound, st, isDigit) == Taken(st, e)
  {
    IterShorter(ElementBytes(e), bound);
    TurnIterates(e);
    hide ElementBytes, IterFields, ServerFields, IceField, Encode, UsernameLike, CredentialLike, ServedAll,
      PayloadsBelow;
    var fu, fc := Field(2, 2, Raw(Encode(e.username))), Field(3, 2, Raw(Encode(e.credential)));
    var st1 := st.(servers := st.servers + ServedAll(e.servers));
    ServersRead(e.servers, [fu] + ([fc] + []), bound, st, isDigit);
    IceFieldsStep(fu, [fc] + [], bound, st1, isDigit);
    UsernameFieldRead(e.username, bound, st1, isDigit);
    var st2 := st1.(username := e.username);
    IceFieldsStep(fc, [], bound, st2, isDigit);
    CredentialFieldRead(e.credential, bound, st2, isDigit);
  }

  // ------------------------------------------------------------------ bodies that are no server

  ghost predicate KeysBelowFour(d: Dict<int, Value>) { forall i :: 0 <= i < |d| ==> d[i].0 < 4 }

  ghost predicate NumbersBelowFour(fields: seq<Field>) { forall i :: 0 <= i < |fields| ==> fields[i].number < 4 }

  lemma {:induction false} PutBelowFour(d: Dict<int, Value>, k: int, v: Value)
    requires KeysBelowFour(d) && k < 4
    ensures KeysBelowFour(Put(d, k, v))
  {
    if d != [] && d[0].0 != k {
      PutBelowFour(d[1..], k, v);
    }
  }

  lemma {:induction false} CollapseBelowFour(fields: seq<Field>, d: Dict<int, Value>)
    requires KeysBelowFour(d) && NumbersBelowFour(fields)
    ensures KeysBelowFour(Collapse(fields, d))
    decreases |fields|
  {
    hide Put, FieldValue;
    if fields != [] {
      PutBelowFour(d, fields[0].number, FieldValue(fields[0]));
      CollapseBelowFour(fields[1..], Put(d, fields[0].number, FieldValue(fields[0])));
    }
  }

  /** A body whose fields are all numbered below four is no server. */
  lemma NoServer(b: seq<byte>)
    requires NumbersBelowFour(IterFields(b))
    ensures AsServer(DecodeMessage(b)).None?
  {
    CollapseBelowFour(IterFields(b), []);
    GetIn(DecodeMessage(b), 4);
  }

  lemma {:induction false} ServersBelowFour(servers: seq<Server>)
    ensures NumbersBelowFour(ServerFields(servers))
  {
    if servers != [] {
      ServersBelowFour(servers[1..]);
    }
  }

  lemma BelowFourConcat(a: seq<Field>, b: seq<Field>)
    requires NumbersBelowFour(a) && NumbersBelowFour(b)
    ensures NumbersBelowFour(a + b)
  {
  }

  /** The first byte of a TURN block is a tag, which is a control character. */
  lemma TurnStarts(e: Element)
    requires e.Turn?
    ensures ElementBytes(e) != [] && ElementBytes(e)[0] < 32
  {
    hide ServerBytes, Encode;
    assert EncodeVarint(1 * 8 + 2) == [10] && EncodeVarint(2 * 8 + 2) == [18];
  }

  lemma TurnIsNoServer(e: Element)
    requires e.Turn?
    ensures AsServer(DecodeMessage(ElementBytes(e))).None?
  {
    hide ElementBytes, IterFields, ServerFields, Encode, AsServer, DecodeMessage;
    TurnIterates(e);
    ServersBelowFour(e.servers);
    BelowFourConcat(ServerFields(e.servers),
                    [Field(2, 2, Raw(Encode(e.username)))] + ([Field(3, 2, Raw(Encode(e.credential)))] + []));
    NoServer(ElementBytes(e));
  }

  /**
   * A TURN block is taken apart exactly when its own bytes do not look like a credential; else they are taken
   * for one.
   */
  lemma TurnReadIff(e: Element, bound: nat, st: Ice, isDigit: char -> bool)
    requires PlainDigits(isDigit) && e.Turn? && Proper(e, isDigit) && |ElementBytes(e)| < bound
    ensures IceField(Field(1, 2, Raw(ElementBytes(e))), bound, st, isDigit) == Taken(st, e) <==> Opaque(ElementBytes(e))
    ensures !Opaque(ElementBytes(e)) ==>
      IceField(Field(1, 2, Raw(ElementBytes(e))), bound, st, isDigit) == st.(credential := TextOf(ElementBytes(e)))
  {
    var b := ElementBytes(e);
    TurnStarts(e);
    NotCredential(b, isDigit);
    TurnIsNoServer(e);
    TurnFieldsRead(e, |b|, st, isDigit);
    TurnLonger(e);
    hide ElementBytes, IterFields, IceFields, DecodeMessage, AsServer, UsernameLike, CredentialLike, Decode, Encode;
    assert TextOf(b) == match Decode(b) case Some(t) => t case None => "";
    if !Opaque(b) {
      assert IceField(Field(1, 2, Raw(b)), bound, st, isDigit) == st.(credential := TextOf(b));
    }
  }

  /** The block is longer than its credential, so its text is another one. */
  lemma TurnLonger(e: Element)
    requires e.Turn? && e.credential != ""
    ensures |TextOf(ElementBytes(e))| > 0 ==> |Encode(TextOf(ElementBytes(e)))| > |Encode(e.credential)|
    ensures TextOf(ElementBytes(e)) != e.credential
  {
    hide ServerBlob, Encode;
    var b := ElementBytes(e);
    assert |b| > |Encode(e.credential)|;
    if Decode(b).Some? {
      EncodeDecode(b);
    }
  }

  // ------------------------------------------------------------------ the whole configuration

  function ElementFields(es: seq<Element>): seq<Field> {
    if es == [] then [] else [Field(1, 2, Raw(ElementBytes(es[0])))] + ElementFields(es[1..])
  }

  /** A TURN block whose own bytes look like a credential. */
  predicate Misread(e: Element) { e.Turn? && !Opaque(ElementBytes(e)) }

  /** What the walker makes of one element. */
  function Walked(st: Ice, e: Element): Ice {
    if Misread(e) then st.(credential := TextOf(ElementBytes(e))) else Taken(st, e)
  }

  function WalkedAll(st: Ice, es: seq<Element>): Ice
    decreases |es|
  {
    if es == [] then st else WalkedAll(Walked(st, es[0]), es[1..])
  }

  lemma {:induction false} ElementsIterate(es: seq<Element>)
    ensures IterFields(ElementBlob(es)) == ElementFields(es) && NumbersBelowFour(ElementFields(es))
  {
    hide ElementBytes, Delimited, NextField;
    if es != [] {
      DelimitedFieldReads(1, ElementBytes(es[0]), ElementBlob(es[1..]));
      ElementsIterate(es[1..]);
    }
  }

  lemma ElementRead(e: Element, bound: nat, st: Ice, isDigit: char -> bool)
    requires PlainDigits(isDigit) && Proper(e, isDigit) && |ElementBytes(e)| < bound
    ensures IceField(Field(1, 2, Raw(ElementBytes(e))), bound, st, isDigit) == Walked(st, e)
  {
    assert e.Plain? ==> ElementBytes(e) == ServerBytes(e.server) && e == Plain(e.server);
    hide ElementBytes, ServerBytes, IceField, Opaque, Proper, Taken, TextOf;
    if e.Plain? {
      ProperPlain(e, isDigit);
      ServerFieldRead(e.server, bound, st, isDigit);
    } else {
      TurnReadIff(e, bound, st, isDigit);
    }
  }

  /** The walker makes of a list of elements what it makes of each in turn. */
  lemma {:induction false} ElementsRead(es: seq<Element>, bound: nat, st: Ice, isDigit: char -> bool)
    requires PlainDigits(isDigit) && AllProper(es, isDigit) && PayloadsBelow(ElementFields(es), bound)
    ensures IceFields(ElementFields(es), bound, st, isDigit) == WalkedAll(st, es)
    decreases |es|
  {
    if es != [] {
      var e, f, rest := es[0], Field(1, 2, Raw(ElementBytes(es[0]))), ElementFields(es[1..]);
      assert ElementFields(es) == [f] + rest;
      assert Proper(e, isDigit);
      hide ElementBytes, IceField, IceFields, PayloadsBelow, Proper, Walked;
      IceFieldsStep(f, rest, bound, st, isDigit);
      ElementRead(e, bound, st, isDigit);
      ElementsRead(es[1..], bound, Walked(st, e), isDigit);
    }
  }

  lemma ProperPlain(e: Element, isDigit: char -> bool)
    requires e.Plain? && Proper(e, isDigit)
    ensures 1 <= e.server.kind <= 3
  {
  }

  /** The credential read last is shorter than the list it was found in. */
  lemma {:induction false} CredentialShorter(st: Ice, es: seq<Element>)
    ensures TakenAll(st, es).credential == st.credential || |Encode(TakenAll(st, es).credential)| < |ElementBlob(es)|
    decreases |es|
  {
    hide ServerBytes, ServerBlob, Encode;
    if es != [] {
      CredentialShorter(Taken(st, es[0]), es[1..]);
    }
  }

  lemma BlobStarts(es: seq<Element>)
    requires es != []
    ensures ElementBlob(es) != [] && ElementBlob(es)[0] == 10
  {
    hide ElementBytes;
    assert EncodeVarint(1 * 8 + 2) == [10];
  }

  /** What the walker makes of the outer field: the elements, or a credential when the list itself looks like one. */
  lemma BlobField(es: seq<Element>, bound: nat, isDigit: char -> bool)
    requires PlainDigits(isDigit) && AllProper(es, isDigit) && |ElementBlob(es)| < bound
    ensures var b, none := ElementBlob(es), Ice([], "", "");
            IceField(Field(1, 2, Raw(b)), bound, none, isDigit)
            == if Opaque(b) then WalkedAll(none, es) else none.(credential := TextOf(b))
  {
    var b := ElementBlob(es);
    if es != [] {
      BlobStarts(es);
    }
    NotCredential(b, isDigit);
    ElementsIterate(es);
    NoServer(b);
    IterShorter(b, |b|);
    ElementsRead(es, |b|, Ice([], "", ""), isDigit);
    hide ElementBlob, ElementFields, IterFields, IceFields, DecodeMessage, AsServer, UsernameLike, CredentialLike,
      Decode, WalkedAll;
    assert TextOf(b) == match Decode(b) case Some(t) => t case None => "";
  }

  lemma OuterField(b: seq<byte>, isDigit: char -> bool)
    ensures DecodeIce(Delimited(1, b), isDigit) ==
      IceField(Field(1, 2, Raw(b)), |Delimited(1, b)|, Ice([], "", ""), isDigit)
  {
    var data, f := Delimited(1, b), Field(1, 2, Raw(b));
    hide Delimited, NextField, IceField;
    DelimitedFieldReads(1, b, []);
    assert data + [] == data;
    IterShorter(data, |data|);
    assert IterFields(data) == [f] + [];
    IceFieldsStep(f, [], |data|, Ice([], "", ""), isDigit);
  }

  // -- what the walker loses to misread blocks

  function Servers(e: Element): seq<IceServer> {
    if e.Plain? then [Served(e.server)] else ServedAll(e.servers)
  }

  /** The servers of a list, and those that are left when misread blocks lose theirs. */
  function AllServers(es: seq<Element>): seq<IceServer> {
    if es == [] then [] else Servers(es[0]) + AllServers(es[1..])
  }

  function ReadServers(es: seq<Element>): seq<IceServer> {
    if es == [] then [] else (if Misread(es[0]) then [] else Servers(es[0])) + ReadServers(es[1..])
  }

  lemma {:induction false} TakenServers(st: Ice, es: seq<Element>)
    ensures TakenAll(st, es).servers == st.servers + AllServers(es)
    decreases |es|
  {
    hide Served, ServedAll;
    if es != [] {
      TakenServers(Taken(st, es[0]), es[1..]);
      Assoc(st.servers, Servers(es[0]), AllServers(es[1..]));
    }
  }

  lemma {:induction false} WalkedServers(st: Ice, es: seq<Element>)
    ensures WalkedAll(st, es).servers == st.servers + ReadServers(es)
    decreases |es|
  {
    hide Served, ServedAll, Misread, TextOf, ElementBytes;
    if es != [] {
      WalkedServers(Walked(st, es[0]), es[1..]);
      Assoc(st.servers, if Misread(es[0]) then [] else Servers(es[0]), ReadServers(es[1..]));
      assert st.servers + [] == st.servers;
    }
  }

  /** A misread block costs nothing when it has no servers. */
  ghost predicate NoServersLost(es: seq<Element>) {
    forall i :: 0 <= i < |es| && Misread(es[i]) ==> es[i].servers == []
  }

  lemma {:induction false} ReadServersIff(es: seq<Element>)
    ensures |ReadServers(es)| <= |AllServers(es)|
    ensures |ReadServers(es)| == |AllServers(es)| <==> NoServersLost(es)
    ensures NoServersLost(es) ==> ReadServers(es) == AllServers(es)
  {
    hide Misread;
    if es != [] {
      var e, rest := es[0], es[1..];
      assert es == [e] + rest;
      MisreadIsTurn(e);
      assert NoServersLost(es) <==> (Misread(e) ==> e.servers == []) && NoServersLost(rest) by {
        assert forall i :: 0 <= i < |rest| ==> rest[i] == es[i + 1];
      }
      hide NoServersLost;
      ReadServersIff(rest);
    }
  }

  lemma MisreadIsTurn(e: Element)
    ensures Misread(e) ==> e.Turn? && (Servers(e) == [] <==> e.servers == [])
  {
    hide Opaque;
  }

  function LastTurn(es: seq<Element>): (r: Option<Element>)
    ensures r.Some? ==> r.value.Turn? && r.value in es
  {
    if es == [] then None
    else if LastTurn(es[1..]).Some? then LastTurn(es[1..])
    else if es[0].Turn? then Some(es[0]) else None
  }

  /** Username and credential come from the last TURN block; a misread one leaves its own text as the credential. */
  lemma {:induction false} LastTurnCounts(st: Ice, es: seq<Element>)
    ensures var t, r := LastTurn(es), TakenAll(st, es);
            if t.None? then r.username == st.username && r.credential == st.credential
            else r.username == t.value.username && r.credential == t.value.credential
    ensures var t, r := LastTurn(es), WalkedAll(st, es);
            if t.None? then r.username == st.username && r.credential == st.credential
            else if Misread(t.value) then r.credential == TextOf(ElementBytes(t.value))
            else r.username == t.value.username && r.credential == t.value.credential
    decreases |es|
  {
    hide Served, ServedAll, Opaque, TextOf, ElementBytes;
    if es != [] {
      LastTurnCounts(Taken(st, es[0]), es[1..]);
      LastTurnCounts(Walked(st, es[0]), es[1..]);
    }
  }

  /** Walking a list of elements gives back what it holds exactly when no misread block has servers or comes last. */
  lemma WalkedIsTakenIff(st: Ice, es: seq<Element>, isDigit: char -> bool)
    requires AllProper(es, isDigit)
    ensures WalkedAll(st, es) == TakenAll(st, es) <==>
            NoServersLost(es) && (LastTurn(es).Some? ==> !Misread(LastTurn(es).value))
  {
    TakenServers(st, es);
    WalkedServers(st, es);
    ReadServersIff(es);
    LastTurnCounts(st, es);
    var t := LastTurn(es);
    if t.Some? {
      assert CredentialLike(t.value.credential) by {
        var i :| 0 <= i < |es| && es[i] == t.value;
        assert Proper(es[i], isDigit);
      }
      TurnLonger(t.value);
    }
    hide WalkedAll, TakenAll, ReadServers, AllServers, LastTurn, NoServersLost, Misread, TextOf, ElementBytes;
  }

  /**
   * The walker reads back every server of an ICE configuration, in order, and the username and credential of its
   * last TURN block, exactly when the list of elements does not itself look like a credential, no TURN block
   * that does has servers, and the last TURN block does not.
   */
  lemma IceRoundTripIff(es: seq<Element>, isDigit: char -> bool)
    requires PlainDigits(isDigit) && AllProper(es, isDigit)
    ensures DecodeIce(Delimited(1, ElementBlob(es)), isDigit) == TakenAll(Ice([], "", ""), es) <==>
            && Opaque(ElementBlob(es))
            && NoServersLost(es)
            && (LastTurn(es).Some? ==> !Misread(LastTurn(es).value))
  {
    var b, none := ElementBlob(es), Ice([], "", "");
    OuterField(b, isDigit);
    assert |b| < |Delimited(1, b)|;
    WalkedIsTakenIff(none, es, isDigit);
    hide ElementBlob, IceField, DecodeIce, Delimited, TakenAll, WalkedAll, Encode, Decode, CredentialLike, LastTurn,
      NoServersLost, Misread;
    BlobField(es, |Delimited(1, b)|, isDigit);
    CredentialShorter(none, es);
    if !Opaque(b) {
      LooksLonger(b);
    }
  }

  lemma LooksLonger(b: seq<byte>)
    requires !Opaque(b)
    ensures TextOf(b) != "" && |Encode(TextOf(b))| == |b|
  {
    EncodeDecode(b);
  }

  /** A server message without a number is read as one with the number zero. */
  lemma UnnumberedServer(d: Dict<int, Value>, host: string, port: int, kind: int)
    requires Get(d, 1).None? && Get(d, 2) == Some(Text(host)) && Get(d, 3) == Some(Int(port))
      && Get(d, 4) == Some(Int(kind))
    ensures AsServer(d) == Some(IceServer(Int(0), host, port, kind))
  {
  }

  /** A list of plain servers never looks like a credential. */
  lemma {:induction false} PlainListOpaque(es: seq<Element>, isDigit: char -> bool)
    requires PlainDigits(isDigit) && AllProper(es, isDigit) && forall i :: 0 <= i < |es| ==> es[i].Plain?
    ensures Opaque(ElementBlob(es))
    ensures es != [] ==> ElementBlob(es)[|ElementBlob(es)| - 1] != 61
  {
    hide ServerBytes, Decode, CredentialLike;
    if es == [] {
      NotCredential([], isDigit);
    } else {
      assert Proper(es[0], isDigit);
      ServerEnds(es[0].server);
      PlainListOpaque(es[1..], isDigit);
      assert |es| == 1 ==> ElementBlob(es[1..]) == [];
      BlobStarts(es);
      NotCredential(ElementBlob(es), isDigit);
    }
  }

  ghost predicate Ascii(t: string) { forall i :: 0 <= i < |t| ==> t[i] < 128 as char }

  lemma {:induction false} AsciiBytes(t: string)
    requires Ascii(t)
    ensures |Encode(t)| == |t| && forall i :: 0 <= i < |t| ==> Encode(t)[i] == t[i] as int
  {
    if t != "" {
      AsciiBytes(t[1..]);
      assert EncodeChar(t[0]) == [t[0] as int];
    }
  }

  /** A body of ASCII text that looks like a credential. */
  lemma AsciiLooks(b: seq<byte>)
    requires |b| >= 16 && b[|b| - 1] == 61 && forall i :: 0 <= i < |b| ==> b[i] < 128 && b[i] != 32
    ensures !Opaque(b)
  {
    hide Encode, Decode;
    var text := seq(|b|, i requires 0 <= i < |b| => b[i] as char);
    AsciiBytes(text);
    assert Encode(text) == b;
    DecodeEncode(text);
    assert text[|text| - 1] == '=';
    assert ' ' !in text;
  }

  /** The bytes of a TURN block with short texts and no servers. */
  lemma ShortTurn(username: string, credential: string)
    requires |Encode(username)| < 128 && |Encode(credential)| < 128
    ensures ElementBytes(Turn([], username, credential)) ==
            [18, |Encode(username)|] + (Encode(username) + ([26, |Encode(credential)|] + Encode(credential)))
  {
    hide Encode;
    var u, c := Encode(username), Encode(credential);
    ShortDelimited(2, u);
    ShortDelimited(3, c);
    hide Delimited;
    assert ServerBlob([]) == [];
    var tail := [26, |c|] + c;
    assert tail + [] == tail;
    assert [] + (([18, |u|] + u) + tail) == ([18, |u|] + u) + tail;
    Assoc([18, |u|], u, tail);
  }

  lemma ShortDelimited(number: nat, b: seq<byte>)
    requires |b| < 128 && number < 15
    ensures Delimited(number, b) == [number * 8 + 2, |b|] + b
  {
    assert EncodeVarint(number * 8 + 2) == [number * 8 + 2];
    assert EncodeVarint(|b|) == [|b|];
  }

  /**
   * A TURN block of nothing but ASCII without a space, of lengths other than that of a space, is misread
   * whole as a credential.
   */
  lemma AsciiBlockMisread(username: string, credential: string)
    requires Ascii(username) && Ascii(credential) && ' ' !in username && ' ' !in credential
      && CredentialLike(credential)
    requires |username| < 128 && |credential| < 128 && |username| != 32 && |credential| != 32
    ensures !Opaque(ElementBytes(Turn([], username, credential)))
  {
    AsciiBytes(username);
    AsciiBytes(credential);
    ShortTurn(username, credential);
    var u, c, b := Encode(username), Encode(credential), ElementBytes(Turn([], username, credential));
    assert forall i :: 0 <= i < |u| ==> u[i] < 128 && u[i] != 32 by {
      assert forall i :: 0 <= i < |username| ==> username[i] in username;
    }
    assert forall i :: 0 <= i < |c| ==> c[i] < 128 && c[i] != 32 by {
      assert forall i :: 0 <= i < |credential| ==> credential[i] in credential;
    }
    assert b[|b| - 1] == c[|c| - 1] == 61;
    hide Encode, ElementBytes, Opaque, Ascii, CredentialLike;
    AsciiLooks(b);
  }

  /** So a list of such a block and a server does not look like a credential, and still is not read back. */
  lemma MisreadListLost(username: string, credential: string, s: Server, isDigit: char -> bool)
    requires PlainDigits(isDigit) && 1 <= s.kind <= 3 && UsernameLike(username, isDigit) && CredentialLike(credential)
    requires Ascii(username) && Ascii(credential) && ' ' !in username && ' ' !in credential
    requires |username| < 128 && |credential| < 128 && |username| != 32 && |credential| != 32
    ensures var es := [Turn([], username, credential), Plain(s)];
            && Opaque(ElementBlob(es))
            && DecodeIce(Delimited(1, ElementBlob(es)), isDigit) != TakenAll(Ice([], "", ""), es)
  {
    var es := [Turn([], username, credential), Plain(s)];
    hide ElementBlob, ElementBytes, ServerBytes, Opaque, DecodeIce, Delimited, TakenAll, UsernameLike, CredentialLike,
      Ascii;
    AsciiBlockMisread(username, credential);
    BlobStarts(es);
    ServerEnds(s);
    BlobEnds(es[0], s);
    NotCredential(ElementBlob(es), isDigit);
    assert LastTurn(es) == Some(es[0]) by {
      assert es[1..] == [Plain(s)] && LastTurn([Plain(s)][1..]) == None;
    }
    IceRoundTripIff(es, isDigit);
  }

  lemma BlobEnds(e: Element, s: Server)
    requires ServerBytes(s) != []
    ensures var b := ElementBlob([e, Plain(s)]); b != [] && b[|b| - 1] == ServerBytes(s)[|ServerBytes(s)| - 1]
  {
    assert [e, Plain(s)][1..] == [Plain(s)];
    assert ElementBytes(Plain(s)) == ServerBytes(s);
    assert ElementBlob([Plain(s)][1..]) == [];
    hide ElementBytes, ServerBytes;
    assert ElementBlob([Plain(s)]) == Delimited(1, ServerBytes(s)) + [];
  }
}
