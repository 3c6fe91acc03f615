/**
 UTF-8 as an encoder and a separately written decoder (RFC 3629, sections 3 and 4), and that the byte
 counts of the application are the lengths of what the encoder puts out.
 */
module Utf8 {
  import opened Common
  import opened Utf16

  type Byte = x: int | 0 <= x < 0x100

  /** The bits of a scalar value spread over one to four bytes. */
  function EncodeScalar(c: CodePoint): seq<Byte> {
    if c < 0x80 then [c]
    else if c < 0x800 then [0xC0 + c / 0x40, 0x80 + c % 0x40]
    else if c < 0x1_0000 then [0xE0 + c / 0x1000, 0x80 + c / 0x40 % 0x40, 0x80 + c % 0x40]
    else [0xF0 + c / 0x4_0000, 0x80 + c / 0x1000 % 0x40, 0x80 + c / 0x40 % 0x40, 0x80 + c % 0x40]
  }

  function EncodeScalars(cs: seq<CodePoint>): seq<Byte> {
    if cs == [] then [] else EncodeScalar(cs[0]) + EncodeScalars(cs[1..])
  }

  /** A lone surrogate has no encoding and is replaced. */
  function Sent(c: CodePoint): CodePoint {
    if IsScalar(c) then c else 0xFFFD
  }

  function SentPoints(s: Text): seq<CodePoint> {
    var cs := CodePoints(s);
    seq(|cs|, i requires 0 <= i < |cs| => Sent(cs[i]))
  }

  /** `new TextEncoder().encode(s)` */
  function EncodeText(s: Text): seq<Byte> {
    EncodeScalars(SentPoints(s))
  }

  // ---- The decoder. ----

  predicate IsTail(b: Byte) { 0x80 <= b <= 0xBF }

  /** What a byte carries below its marker. */
  function Bits(b: int, marker: int): int {
    b - marker
  }

  predicate HasTails(bytes: seq<Byte>, n: nat) {
    |bytes| > n && forall i :: 1 <= i <= n ==> IsTail(bytes[i])
  }

  /** The first character and how many bytes it takes; None for malformed, overlong and surrogate sequences. */
  function DecodeFirst(bytes: seq<Byte>): Option<(CodePoint, nat)> {
    if bytes == [] then None
    else if bytes[0] <= 0x7F then Some((bytes[0], 1))
    else if 0xC2 <= bytes[0] <= 0xDF && HasTails(bytes, 1) then
      Some((Bits(bytes[0], 0xC0) * 64 + Bits(bytes[1], 0x80), 2))
    else if 0xE0 <= bytes[0] <= 0xEF && HasTails(bytes, 2) then
      var c := Bits(bytes[0], 0xE0) * 4096 + Bits(bytes[1], 0x80) * 64 + Bits(bytes[2], 0x80);
      if c < 0x800 || 0xD800 <= c <= 0xDFFF then None else Some((c, 3))
    else if 0xF0 <= bytes[0] <= 0xF4 && HasTails(bytes, 3) then
      var c := Bits(bytes[0], 0xF0) * 262144 + Bits(bytes[1], 0x80) * 4096 + Bits(bytes[2], 0x80) * 64
               + Bits(bytes[3], 0x80);
      if c < 0x1_0000 || c > 0x10_FFFF then None else Some((c, 4))
    else None
  }

  function DecodeScalars(bytes: seq<Byte>): Option<seq<CodePoint>> {
    if bytes == [] then Some([])
    else
      var first := DecodeFirst(bytes);
      if first.None? || !(0 < first.value.1 <= |bytes|) then None
      else
        var rest := DecodeScalars(bytes[first.value.1..]);
        if rest.None? then None else Some([first.value.0] + rest.value)
  }

  // ---- The round trip. ----

  lemma SixBits(c: nat)
    ensures c == c / 0x40 * 64 + c % 0x40
    ensures c == c / 0x1000 * 4096 + c / 0x40 % 0x40 * 64 + c % 0x40
    ensures c == c / 0x4_0000 * 262144 + c / 0x1000 % 0x40 * 4096 + c / 0x40 % 0x40 * 64 + c % 0x40
  {
    var a, b := c / 0x40, c / 0x1000;
    assert a / 0x40 == b && b / 0x40 == c / 0x4_0000;
  }

  lemma DecodeFirstOfEncode(c: CodePoint, rest: seq<Byte>)
    requires IsScalar(c)
    ensures DecodeFirst(EncodeScalar(c) + rest) == Some((c, |EncodeScalar(c)|))
  {
    var bytes := EncodeScalar(c) + rest;
    SixBits(c);
    assert forall i :: 0 <= i < |EncodeScalar(c)| ==> bytes[i] == EncodeScalar(c)[i];
  }

  lemma {:induction false} DecodeOfEncode(cs: seq<CodePoint>)
    requires Scalars(cs)
    ensures DecodeScalars(EncodeScalars(cs)) == Some(cs)
  {
    if cs != [] {
      var head, tail := EncodeScalar(cs[0]), EncodeScalars(cs[1..]);
      DecodeFirstOfEncode(cs[0], tail);
      DecodeOfEncode(cs[1..]);
      assert (head + tail)[|head|..] == tail;
      assert cs == [cs[0]] + cs[1..];
    }
  }

  /** The decoder recovers every well-formed text from its bytes. */
  lemma DecodeOfEncodeText(s: Text)
    ensures DecodeScalars(EncodeText(s)) == Some(SentPoints(s))
    ensures WellFormed(s) ==> Encode(SentPoints(s)) == s
  {
    DecodeOfEncode(SentPoints(s));
    if WellFormed(s) {
      WellFormedByCodePoints(s);
      assert SentPoints(s) == CodePoints(s);
      EncodeOfCodePoints(s);
    }
  }

  // ---- The byte count. ----

  lemma {:induction false} SizesAreLengths(cs: seq<CodePoint>, sent: seq<CodePoint>)
    requires |sent| == |cs| && forall i :: 0 <= i < |cs| ==> sent[i] == Sent(cs[i])
    ensures TotalSize(cs) == |EncodeScalars(sent)|
  {
    if cs != [] {
      SizesAreLengths(cs[1..], sent[1..]);
    }
  }

  /** The byte count that every limit is checked against is the length of the encoding. */
  lemma Utf8LengthIsEncodedLength(s: Text)
    ensures Utf8Length(s) == |EncodeText(s)|
  {
    SizesAreLengths(CodePoints(s), SentPoints(s));
  }
}
