/** UTF-8 as `str.encode` and `bytes.decode` apply it, strict and with replacement. */
module Utf8 {
  import opened Common

  type byte = b: int | 0 <= b < 256

  function EncodeChar(c: char): (b: seq<byte>)
    ensures 1 <= |b| <= 4
  {
    var n := c as int;
    if n < 0x80 then [n]
    else if n < 0x800 then [0xC0 + n / 64, 0x80 + n % 64]
    else if n < 0x10000 then [0xE0 + n / 64 / 64, 0x80 + n / 64 % 64, 0x80 + n % 64]
    else [0xF0 + n / 64 / 64 / 64, 0x80 + n / 64 / 64 % 64, 0x80 + n / 64 % 64, 0x80 + n % 64]
  }

  function Encode(s: string): seq<byte> {
    if s == [] then [] else EncodeChar(s[0]) + Encode(s[1..])
  }

  /** One decoder step: a character and the bytes it took, or the length of the maximal ill-formed subpart. */
  datatype Step = Good(c: char, n: nat) | Bad(n: nat)

  predicate Continuation(b: byte) { 0x80 <= b < 0xC0 }

  /** Whether `b1` may follow the lead byte `b0` of a three- or four-byte sequence. */
  predicate SecondOk(b0: byte, b1: byte) {
    && Continuation(b1)
    && (b0 == 0xE0 ==> 0xA0 <= b1)
    && (b0 == 0xED ==> b1 < 0xA0)
    && (b0 == 0xF0 ==> 0x90 <= b1)
    && (b0 == 0xF4 ==> b1 < 0x90)
  }

  /** The number whose leading part is `hi` and whose next six bits are those of the continuation byte `b`. */
  function Extend(hi: int, b: byte): int { hi * 64 + (b - 0x80) as int }

  function DecodeOne(b: seq<byte>): (r: Step)
    requires b != []
    ensures 1 <= r.n <= |b|
  {
    var b0 := b[0];
    if b0 < 0x80 then Good(b0 as char, 1)
    else if b0 < 0xC2 || b0 > 0xF4 then Bad(1)
    else if b0 < 0xE0 then
      if |b| < 2 || !Continuation(b[1]) then Bad(1)
      else Good(Extend(b0 - 0xC0, b[1]) as char, 2)
    else if |b| < 2 || !SecondOk(b0, b[1]) then Bad(1)
    else if |b| < 3 || !Continuation(b[2]) then Bad(2)
    else if b0 < 0xF0 then
      Good(Extend(Extend(b0 - 0xE0, b[1]), b[2]) as char, 3)
    else if |b| < 4 || !Continuation(b[3]) then Bad(3)
    else
      Good(Extend(Extend(Extend(b0 - 0xF0, b[1]), b[2]), b[3]) as char, 4)
  }

  /** Strict decoding; None is `UnicodeDecodeError`. */
  function Decode(b: seq<byte>): Option<string> {
    if b == [] then Some([])
    else match DecodeOne(b)
      case Bad(_) => None
      case Good(c, n) =>
        match Decode(b[n..])
        case None => None
        case Some(t) => Some([c] + t)
  }

  const REPLACEMENT: char := '\U{FFFD}'

  /** Decoding with the `replace` error handler. */
  function DecodeReplace(b: seq<byte>): string {
    if b == [] then []
    else
      var r := DecodeOne(b);
      [if r.Good? then r.c else REPLACEMENT] + DecodeReplace(b[r.n..])
  }

  lemma ExtendSplits(n: nat)
    ensures Extend(n / 64, 0x80 + n % 64) == n
  {
  }

  lemma ExtendInverts(hi: nat, b: byte)
    requires Continuation(b)
    ensures Extend(hi, b) / 64 == hi && 0x80 + Extend(hi, b) % 64 == b
  {
  }

  lemma DecodeOneOfEncoded(c: char, rest: seq<byte>)
    ensures DecodeOne(EncodeChar(c) + rest) == Good(c, |EncodeChar(c)|)
  {
    var n := c as int;
    ExtendSplits(n);
    ExtendSplits(n / 64);
    ExtendSplits(n / 64 / 64);
  }

  lemma EncodedOfDecodeOne(b: seq<byte>)
    requires b != [] && DecodeOne(b).Good?
    ensures EncodeChar(DecodeOne(b).c) == b[..DecodeOne(b).n]
  {
    var b0 := b[0];
    if 0xC2 <= b0 < 0xE0 {
      ExtendInverts(b0 - 0xC0, b[1]);
    } else if 0xE0 <= b0 < 0xF0 {
      ExtendInverts(b0 - 0xE0, b[1]);
      ExtendInverts(Extend(b0 - 0xE0, b[1]), b[2]);
    } else if 0xF0 <= b0 {
      ExtendInverts(b0 - 0xF0, b[1]);
      ExtendInverts(Extend(b0 - 0xF0, b[1]), b[2]);
      ExtendInverts(Extend(Extend(b0 - 0xF0, b[1]), b[2]), b[3]);
    }
  }

  /** Decoding what was encoded gives the text back. */
  lemma {:induction false} DecodeEncode(s: string)
    ensures Decode(Encode(s)) == Some(s)
  {
    if s != [] {
      DecodeOneOfEncoded(s[0], Encode(s[1..]));
      assert Encode(s)[|EncodeChar(s[0])|..] == Encode(s[1..]);
      DecodeEncode(s[1..]);
      assert s == [s[0]] + s[1..];
    }
  }

  lemma EncodeNothing()
    ensures Encode([]) == []
  {
  }

  lemma EncodeCons(c: char, t: string)
    ensures Encode([c] + t) == EncodeChar(c) + Encode(t)
  {
    assert ([c] + t)[1..] == t;
  }

  /** Strict decoding succeeds only on encodings, and loses nothing. */
  lemma {:induction false} EncodeDecode(b: seq<byte>)
    requires Decode(b).Some?
    ensures Encode(Decode(b).value) == b
  {
    hide DecodeOne, EncodeChar, Encode;
    if b == [] {
      EncodeNothing();
    } else {
      var n := DecodeOne(b).n;
      EncodeDecode(b[n..]);
      EncodedOfDecodeOne(b);
      EncodeCons(DecodeOne(b).c, Decode(b[n..]).value);
      assert b == b[..n] + b[n..];
    }
  }

  lemma {:induction false} ReplaceAgrees(b: seq<byte>)
    requires Decode(b).Some?
    ensures DecodeReplace(b) == Decode(b).value
  {
    if b != [] {
      ReplaceAgrees(b[DecodeOne(b).n..]);
    }
  }
}
