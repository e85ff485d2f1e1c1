/** Parsing of `key=value&...` tag strings with percent-encoding (section 2.1 of RFC 3986). */
module Tagging {
  import opened Basics
  import opened Utf8
  import opened Text

  datatype Tag = Tag(key: string, value: string)

  datatype TagError = BadKey | BadValue

  const PERCENT: Byte := 0x25

  // ---- Decoding ----

  /** Value of a hexadecimal digit, 16 for any other octet. */
  function HexValue(b: Byte): (v: nat)
    ensures v <= 16
  {
    if 0x30 <= b <= 0x39 then b - 0x30
    else if 0x41 <= b <= 0x46 then b - 0x41 + 10
    else if 0x61 <= b <= 0x66 then b - 0x61 + 10
    else 16
  }

  predicate IsTriplet(b: seq<Byte>) {
    |b| >= 3 && b[0] == PERCENT && HexValue(b[1]) < 16 && HexValue(b[2]) < 16
  }

  /** A `%` that two hexadecimal digits do not follow stands for itself. */
  function PercentDecode(b: seq<Byte>): seq<Byte> {
    if b == [] then []
    else if IsTriplet(b) then [16 * HexValue(b[1]) + HexValue(b[2])] + PercentDecode(b[3..])
    else [b[0]] + PercentDecode(b[1..])
  }

  /** The decoded text, nothing when the octets are not UTF-8. */
  function DecodeSide(raw: string): Option<string> { Decode(PercentDecode(Encode(raw))) }

  // ---- Parsing ----

  /** `key=value` at the first `=`; no `=` means an empty value. */
  function ParsePair(pair: string): Result<Tag, TagError> {
    var n := IndexOf(pair, '=');
    match DecodeSide(pair[..n])
    case None => Err(BadKey)
    case Some(key) =>
      match DecodeSide(if n < |pair| then pair[n+1..] else "")
      case None => Err(BadValue)
      case Some(value) => Ok(Tag(key, value))
  }

  /** The tags of the first `k` pairs, or the first error among them. */
  function ParsePairs(pairs: seq<string>, k: nat): Result<seq<Tag>, TagError>
    requires k <= |pairs|
  {
    if k == 0 then Ok([])
    else
      match ParsePairs(pairs, k - 1)
      case Err(e) => Err(e)
      case Ok(tags) =>
        match ParsePair(pairs[k - 1])
        case Err(e) => Err(e)
        case Ok(tag) => Ok(tags + [tag])
  }

  function ParseSpec(s: string): Result<seq<Tag>, TagError> {
    if s == [] then Ok([]) else var pairs := Split(s, '&'); ParsePairs(pairs, |pairs|)
  }

  method ParseTaggingToTags(s: string) returns (r: Result<seq<Tag>, TagError>)
    ensures r == ParseSpec(s)
  {
    if s == [] {
      return Ok([]);
    }
    var tags: seq<Tag> := [];
    var pairs := Split(s, '&');
    for i := 0 to |pairs|
      invariant ParsePairs(pairs, i) == Ok(tags)
    {
      var pair := pairs[i];
      var n := IndexOf(pair, '=');
      var rawKey := pair[..n];
      var rawValue := if n < |pair| then pair[n+1..] else "";
      var key := DecodeSide(rawKey);
      if key.None? {
        FirstErrorStays(pairs, i + 1, |pairs|);
        return Err(BadKey);
      }
      var value := DecodeSide(rawValue);
      if value.None? {
        FirstErrorStays(pairs, i + 1, |pairs|);
        return Err(BadValue);
      }
      tags := tags + [Tag(key.value, value.value)];
    }
    r := Ok(tags);
  }

  lemma {:induction false} FirstErrorStays(pairs: seq<string>, m: nat, n: nat)
    requires m <= n <= |pairs| && ParsePairs(pairs, m).Err?
    ensures ParsePairs(pairs, n) == ParsePairs(pairs, m)
  {
    if m < n { FirstErrorStays(pairs, m, n - 1); }
  }

  // ---- Encoding ----

  function HexDigit(v: nat, upper: bool): (b: Byte)
    requires v < 16
    ensures HexValue(b) == v
  {
    if v < 10 then 0x30 + v else if upper then 0x41 + v - 10 else 0x61 + v - 10
  }

  /** Section 2.1 of RFC 3986: an octet as itself where `keep` allows, else as a `%` triplet. */
  function PercentEncode(b: seq<Byte>, keep: set<Byte>, upper: bool): seq<Byte> {
    if b == [] then []
    else (if b[0] in keep then [b[0]] else [PERCENT, HexDigit(b[0] / 16, upper), HexDigit(b[0] % 16, upper)])
         + PercentEncode(b[1..], keep, upper)
  }

  /** Octets an encoder may leave alone here: ASCII, and none of `%`, `&`, `=`. */
  ghost predicate Safe(keep: set<Byte>) {
    forall b :: b in keep ==> b < 0x80 && b != PERCENT && b != 0x26 && b != 0x3D
  }

  /** Section 2.3 of RFC 3986. */
  const UNRESERVED: set<Byte> :=
    set b: Byte | 0 <= b < 0x80 &&
      (0x41 <= b <= 0x5A || 0x61 <= b <= 0x7A || 0x30 <= b <= 0x39 || b == 0x2D || b == 0x2E || b == 0x5F || b == 0x7E)

  lemma UnreservedIsSafe()
    ensures Safe(UNRESERVED)
  {
  }

  predicate IsAscii(b: seq<Byte>) { forall i :: 0 <= i < |b| ==> b[i] < 0x80 }

  function AsText(b: seq<Byte>): (s: string)
    requires IsAscii(b)
    ensures |s| == |b| && forall i :: 0 <= i < |b| ==> s[i] == b[i] as char
  {
    seq(|b|, i requires 0 <= i < |b| => b[i] as char)
  }

  lemma {:induction false} EncodedIsPlain(b: seq<Byte>, keep: set<Byte>, upper: bool)
    requires Safe(keep)
    ensures var e := PercentEncode(b, keep, upper);
            IsAscii(e) && forall i :: 0 <= i < |e| ==> e[i] != 0x26 && e[i] != 0x3D
  {
    if b != [] { EncodedIsPlain(b[1..], keep, upper); }
  }

  lemma {:induction false} DecodeEncodePercent(b: seq<Byte>, keep: set<Byte>, upper: bool)
    requires Safe(keep)
    ensures PercentDecode(PercentEncode(b, keep, upper)) == b
  {
    if b != [] {
      var rest := PercentEncode(b[1..], keep, upper);
      DecodeEncodePercent(b[1..], keep, upper);
      var e := PercentEncode(b, keep, upper);
      if b[0] in keep {
        assert e == [b[0]] + rest && e[1..] == rest;
      } else {
        assert e == [PERCENT, HexDigit(b[0] / 16, upper), HexDigit(b[0] % 16, upper)] + rest && e[3..] == rest;
        assert 16 * (b[0] / 16) + b[0] % 16 == b[0];
      }
      assert [b[0]] + b[1..] == b;
    }
  }

  function EncodeSide(s: string, keep: set<Byte>, upper: bool): string
    requires Safe(keep)
  {
    EncodedIsPlain(Encode(s), keep, upper);
    AsText(PercentEncode(Encode(s), keep, upper))
  }

  /** Decoding a side undoes encoding it, and the encoding never holds a separator. */
  lemma SideRoundTrip(s: string, keep: set<Byte>, upper: bool)
    requires Safe(keep)
    ensures DecodeSide(EncodeSide(s, keep, upper)) == Some(s)
    ensures var e := EncodeSide(s, keep, upper); forall i :: 0 <= i < |e| ==> e[i] != '&' && e[i] != '='
  {
    var octets := PercentEncode(Encode(s), keep, upper);
    EncodedIsPlain(Encode(s), keep, upper);
    var text := AsText(octets);
    EncodeAscii(text);
    assert Encode(text) == octets;
    DecodeEncodePercent(Encode(s), keep, upper);
    DecodeEncode(s);
  }

  function EncodeTag(t: Tag, keep: set<Byte>, upper: bool): string
    requires Safe(keep)
  {
    EncodeSide(t.key, keep, upper) + "=" + EncodeSide(t.value, keep, upper)
  }

  lemma TagRoundTrip(t: Tag, keep: set<Byte>, upper: bool)
    requires Safe(keep)
    ensures ParsePair(EncodeTag(t, keep, upper)) == Ok(t)
    ensures var e := EncodeTag(t, keep, upper); e != [] && forall i :: 0 <= i < |e| ==> e[i] != '&'
  {
    var key, value := EncodeSide(t.key, keep, upper), EncodeSide(t.value, keep, upper);
    SideRoundTrip(t.key, keep, upper);
    SideRoundTrip(t.value, keep, upper);
    var pair := key + "=" + value;
    IndexOfUnique(pair, '=', |key|);
    assert pair[..|key|] == key && pair[|key|+1..] == value;
  }

  function EncodeTags(tags: seq<Tag>, keep: set<Byte>, upper: bool): string
    requires Safe(keep)
  {
    if tags == [] then ""
    else if |tags| == 1 then EncodeTag(tags[0], keep, upper)
    else EncodeTag(tags[0], keep, upper) + "&" + EncodeTags(tags[1..], keep, upper)
  }

  lemma {:induction false} SplitEncoded(tags: seq<Tag>, keep: set<Byte>, upper: bool)
    requires Safe(keep) && tags != []
    ensures EncodeTags(tags, keep, upper) != []
    ensures var parts := Split(EncodeTags(tags, keep, upper), '&');
            |parts| == |tags| && forall i :: 0 <= i < |tags| ==> parts[i] == EncodeTag(tags[i], keep, upper)
  {
    var head := EncodeTag(tags[0], keep, upper);
    TagRoundTrip(tags[0], keep, upper);
    if |tags| == 1 {
      SplitHead(head, "", '&');
    } else {
      SplitEncoded(tags[1..], keep, upper);
      SplitHead(head, EncodeTags(tags[1..], keep, upper), '&');
    }
  }

  lemma {:induction false} PairsParse(pairs: seq<string>, tags: seq<Tag>, k: nat)
    requires k <= |pairs| == |tags|
    requires forall i :: 0 <= i < |tags| ==> ParsePair(pairs[i]) == Ok(tags[i])
    ensures ParsePairs(pairs, k) == Ok(tags[..k])
  {
    if k > 0 {
      PairsParse(pairs, tags, k - 1);
      assert tags[..k] == tags[..k-1] + [tags[k-1]];
    }
  }

  /** Parsing an encoded tag list gives the list back, for every list, safe set and digit case. */
  lemma ParseUndoesEncoding(tags: seq<Tag>, keep: set<Byte>, upper: bool)
    requires Safe(keep)
    ensures ParseSpec(EncodeTags(tags, keep, upper)) == Ok(tags)
  {
    if tags != [] {
      SplitEncoded(tags, keep, upper);
      var pairs := Split(EncodeTags(tags, keep, upper), '&');
      forall i | 0 <= i < |tags| ensures ParsePair(pairs[i]) == Ok(tags[i]) { TagRoundTrip(tags[i], keep, upper); }
      PairsParse(pairs, tags, |pairs|);
      assert tags[..|tags|] == tags;
    }
  }

  /** The case the standard recommends: unreserved characters kept, upper-case digits. */
  lemma ParseUndoesStandardEncoding(tags: seq<Tag>)
    ensures Safe(UNRESERVED) && ParseSpec(EncodeTags(tags, UNRESERVED, true)) == Ok(tags)
  {
    UnreservedIsSafe();
    ParseUndoesEncoding(tags, UNRESERVED, true);
  }

  /** Text without a `%` decodes to itself, so a literal `=` or `+` in a value is kept. */
  lemma {:induction false} PlainDecodesToItself(b: seq<Byte>)
    requires PERCENT !in b
    ensures PercentDecode(b) == b
  {
    if b != [] {
      PlainDecodesToItself(b[1..]);
      assert [b[0]] + b[1..] == b;
    }
  }

  lemma PlainSideKept(s: string)
    requires PERCENT !in Encode(s)
    ensures DecodeSide(s) == Some(s)
  {
    PlainDecodesToItself(Encode(s));
    DecodeEncode(s);
  }

  // ---- What encoders need not produce ----

  /** A pair is cut at its first `=` and no later one; without any, the value is empty. */
  lemma PairCutAtFirstEquals(key: string, value: string)
    requires forall i :: 0 <= i < |key| ==> key[i] != '='
    ensures DecodeSide(key).Some? && DecodeSide(value).Some? ==>
              ParsePair(key + "=" + value) == Ok(Tag(DecodeSide(key).value, DecodeSide(value).value))
    ensures DecodeSide(key).Some? ==> ParsePair(key) == Ok(Tag(DecodeSide(key).value, ""))
    ensures DecodeSide(key).None? ==> ParsePair(key) == ParsePair(key + "=" + value) == Err(BadKey)
    ensures DecodeSide(key).Some? && DecodeSide(value).None? ==> ParsePair(key + "=" + value) == Err(BadValue)
  {
    var pair := key + "=" + value;
    IndexOfUnique(key, '=', |key|);
    IndexOfUnique(pair, '=', |key|);
    assert key[..|key|] == key && pair[..|key|] == key && pair[|key|+1..] == value;
    assert DecodeSide("") == Some("");
  }

  /** Octets that hold no well-formed triplet decode to themselves, stray `%` included. */
  lemma {:induction false} NoTripletDecodesToItself(b: seq<Byte>)
    requires forall i :: 0 <= i <= |b| ==> !IsTriplet(b[i..])
    ensures PercentDecode(b) == b
  {
    if b != [] {
      assert b[0..] == b;
      forall i | 0 <= i <= |b[1..]| ensures !IsTriplet(b[1..][i..]) { assert b[1..][i..] == b[i+1..]; }
      NoTripletDecodesToItself(b[1..]);
      assert [b[0]] + b[1..] == b;
    }
  }

  /** Such a side is kept as it is written. */
  lemma StrayPercentKept(s: string)
    requires forall i :: 0 <= i <= |Encode(s)| ==> !IsTriplet(Encode(s)[i..])
    ensures DecodeSide(s) == Some(s)
  {
    NoTripletDecodesToItself(Encode(s));
    DecodeEncode(s);
  }

  /** `%2F` and `%2f` both stand for a slash. */
  lemma TripletOfSlash(rest: seq<Byte>)
    ensures PercentDecode([0x25, 0x32, 0x46] + rest) == [0x2F] + PercentDecode(rest)
    ensures PercentDecode([0x25, 0x32, 0x66] + rest) == [0x2F] + PercentDecode(rest)
  {
    assert ([0x25, 0x32, 0x46] + rest)[3..] == rest;
    assert ([0x25, 0x32, 0x66] + rest)[3..] == rest;
  }
}
