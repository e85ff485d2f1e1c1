/** UTF-8 as in RFC 3629: strings are sequences of Unicode scalar values, as the program's strings are. */
module Utf8 {
  import opened Basics

  type Byte = b: int | 0 <= b < 256

  predicate IsScalar(v: int) { 0 <= v < 0xD800 || 0xE000 <= v < 0x11_0000 }

  /** Section 3 of RFC 3629: one to four octets by the size of the scalar value. */
  function EncodeChar(c: char): (bytes: seq<Byte>)
    ensures 1 <= |bytes| <= 4
  {
    var v := c as int;
    if v < 0x80 then [v]
    else if v < 0x800 then [0xC0 + v / 64, 0x80 + v % 64]
    else if v < 0x1_0000 then [0xE0 + v / 64 / 64, 0x80 + v / 64 % 64, 0x80 + v % 64]
    else [0xF0 + v / 64 / 64 / 64, 0x80 + v / 64 / 64 % 64, 0x80 + v / 64 % 64, 0x80 + v % 64]
  }

  function Encode(s: string): seq<Byte> {
    if s == [] then [] else EncodeChar(s[0]) + Encode(s[1..])
  }

  predicate IsTail(b: Byte) { 0x80 <= b <= 0xBF }

  /** The second octet is narrowed after E0 and F0 (overlong), ED (surrogates) and F4 (beyond 10FFFF). */
  predicate SecondFits(first: Byte, second: Byte) {
    match first
    case 0xE0 => 0xA0 <= second <= 0xBF
    case 0xED => 0x80 <= second <= 0x9F
    case 0xF0 => 0x90 <= second <= 0xBF
    case 0xF4 => 0x80 <= second <= 0x8F
    case _ => IsTail(second)
  }

  /** Octets in the sequence that `first` opens, 0 when no sequence starts so. */
  function SequenceLength(first: Byte): nat {
    if first < 0x80 then 1
    else if 0xC2 <= first <= 0xDF then 2
    else if 0xE0 <= first <= 0xEF then 3
    else if 0xF0 <= first <= 0xF4 then 4
    else 0
  }

  /** Section 4 of RFC 3629: the syntax of one character. */
  predicate StartsWell(b: seq<Byte>) {
    && b != []
    && var n := SequenceLength(b[0]);
    && 0 < n <= |b|
    && (n >= 2 ==> SecondFits(b[0], b[1]))
    && (n >= 3 ==> IsTail(b[2]))
    && (n >= 4 ==> IsTail(b[3]))
  }

  function FirstScalar(b: seq<Byte>): (v: int)
    requires StartsWell(b)
    ensures IsScalar(v)
  {
    match SequenceLength(b[0])
    case 1 => b[0]
    case 2 => Join(b[0] - 0xC0, b[1])
    case 3 => Join(Join(b[0] - 0xE0, b[1]), b[2])
    case _ => Join(Join(Join(b[0] - 0xF0, b[1]), b[2]), b[3])
  }

  /** Append the six payload bits of a tail octet. */
  function Join(high: int, tail: int): int { high * 64 + (tail - 0x80) }

  lemma JoinSplits(high: int, tail: int)
    requires 0x80 <= tail <= 0xBF
    ensures Join(high, tail) / 64 == high && Join(high, tail) % 64 == tail - 0x80
  {
  }

  function Decode(b: seq<Byte>): Option<string> {
    if b == [] then Some([])
    else if !StartsWell(b) then None
    else
      match Decode(b[SequenceLength(b[0])..])
      case None => None
      case Some(rest) => Some([FirstScalar(b) as char] + rest)
  }

  lemma EncodedCharDecodes(c: char, rest: seq<Byte>)
    ensures var b := EncodeChar(c) + rest;
            StartsWell(b) && SequenceLength(b[0]) == |EncodeChar(c)| && FirstScalar(b) == c as int
  {
    var v := c as int;
    var b := EncodeChar(c) + rest;
    assert v == 64 * (v / 64) + v % 64;
    if v >= 0x800 { assert v / 64 == 64 * (v / 64 / 64) + v / 64 % 64; }
    if v >= 0x1_0000 { assert v / 64 / 64 == 64 * (v / 64 / 64 / 64) + v / 64 / 64 % 64; }
    assert b[0] == EncodeChar(c)[0];
    if v >= 0x80 { assert b[1] == EncodeChar(c)[1]; }
    if v >= 0x800 { assert b[2] == EncodeChar(c)[2]; }
    if v >= 0x1_0000 { assert b[3] == EncodeChar(c)[3]; }
  }

  lemma DecodedCharEncodes(b: seq<Byte>)
    requires StartsWell(b)
    ensures EncodeChar(FirstScalar(b) as char) == b[..SequenceLength(b[0])]
  {
    match SequenceLength(b[0])
    case 1 =>
    case 2 =>
      JoinSplits(b[0] - 0xC0, b[1]);
    case 3 =>
      var high := Join(b[0] - 0xE0, b[1]);
      JoinSplits(b[0] - 0xE0, b[1]);
      JoinSplits(high, b[2]);
    case _ =>
      var higher := Join(b[0] - 0xF0, b[1]);
      var high := Join(higher, b[2]);
      JoinSplits(b[0] - 0xF0, b[1]);
      JoinSplits(higher, b[2]);
      JoinSplits(high, b[3]);
  }

  /** Encoding then decoding gives the string back. */
  lemma {:induction false} DecodeEncode(s: string)
    ensures Decode(Encode(s)) == Some(s)
  {
    if s != [] {
      var head := EncodeChar(s[0]);
      EncodedCharDecodes(s[0], Encode(s[1..]));
      assert Encode(s)[|head|..] == Encode(s[1..]);
      DecodeEncode(s[1..]);
      assert [s[0]] + s[1..] == s;
    }
  }

  /** Only the encoding of a string decodes to it: no overlong or other second spelling is accepted. */
  lemma {:induction false} EncodeDecode(b: seq<Byte>)
    requires Decode(b).Some?
    ensures Encode(Decode(b).value) == b
  {
    if b != [] {
      var n := SequenceLength(b[0]);
      EncodeDecode(b[n..]);
      DecodedCharEncodes(b);
      var rest := Decode(b[n..]).value;
      var c := FirstScalar(b) as char;
      assert Decode(b).value == [c] + rest;
      assert ([c] + rest)[1..] == rest;
      assert b[..n] + b[n..] == b;
    }
  }

  /** An ASCII string is encoded octet by octet. */
  lemma {:induction false} EncodeAscii(s: string)
    requires forall i :: 0 <= i < |s| ==> s[i] as int < 0x80
    ensures |Encode(s)| == |s| && forall i :: 0 <= i < |s| ==> Encode(s)[i] == s[i] as int
  {
    if s != [] {
      EncodeAscii(s[1..]);
      assert Encode(s) == [s[0] as int] + Encode(s[1..]);
    }
  }

  /** An ASCII octet in an encoding is that character of the text. */
  lemma {:induction false} AsciiOctets(s: string, b: Byte)
    requires b < 0x80 && b in Encode(s)
    ensures b as char in s
  {
    var head := EncodeChar(s[0]);
    assert Encode(s) == head + Encode(s[1..]);
    if b in head {
      assert b == s[0] as int;
    } else {
      AsciiOctets(s[1..], b);
    }
  }
}
