/**
 Strings as JavaScript has them: sequences of UTF-16 code units, which need not be well formed.
 The surrogate scan that guards file names is shown to accept exactly the encodings of scalar
 values (section 2 of RFC 2781), and lengths in units and in UTF-8 bytes (section 3 of RFC 3629)
 are compared.
 */
module Utf16 {
  type Unit = x: int | 0 <= x < 0x1_0000
  type Text = seq<Unit>
  type CodePoint = x: int | 0 <= x <= 0x10_FFFF

  /** An ASCII literal of the source. */
  function Ascii(s: string): Text
    requires forall i :: 0 <= i < |s| ==> s[i] as int < 0x80
  {
    seq(|s|, i requires 0 <= i < |s| => s[i] as int)
  }

  predicate IsHigh(u: int) { 0xD800 <= u <= 0xDBFF }
  predicate IsLow(u: int) { 0xDC00 <= u <= 0xDFFF }
  predicate IsScalar(c: CodePoint) { !IsHigh(c) && !IsLow(c) }

  predicate IsPair(s: Text) {
    |s| >= 2 && IsHigh(s[0]) && IsLow(s[1])
  }

  function PairValue(high: Unit, low: Unit): CodePoint
    requires IsHigh(high) && IsLow(low)
  {
    0x1_0000 + (high - 0xD800) * 0x400 + (low - 0xDC00)
  }

  /** What iterating over the string yields: a lone surrogate comes out as itself. */
  function CodePoints(s: Text): seq<CodePoint> {
    if s == [] then []
    else if IsPair(s) then [PairValue(s[0], s[1])] + CodePoints(s[2..])
    else [s[0]] + CodePoints(s[1..])
  }

  function EncodePoint(c: CodePoint): Text {
    if c < 0x1_0000 then [c]
    else [0xD800 + (c - 0x1_0000) / 0x400, 0xDC00 + (c - 0x1_0000) % 0x400]
  }

  function Encode(cs: seq<CodePoint>): Text {
    if cs == [] then [] else EncodePoint(cs[0]) + Encode(cs[1..])
  }

  predicate Scalars(cs: seq<CodePoint>) {
    forall i :: 0 <= i < |cs| ==> IsScalar(cs[i])
  }

  /** The text is the encoding of some sequence of Unicode scalar values. */
  ghost predicate WellFormed(s: Text) {
    exists cs: seq<CodePoint> :: Scalars(cs) && Encode(cs) == s
  }

  lemma PairRoundTrip(c: CodePoint)
    requires c >= 0x1_0000
    ensures IsPair(EncodePoint(c)) && PairValue(EncodePoint(c)[0], EncodePoint(c)[1]) == c
  {
  }

  lemma PairEncodes(high: Unit, low: Unit)
    requires IsHigh(high) && IsLow(low)
    ensures EncodePoint(PairValue(high, low)) == [high, low]
  {
  }

  lemma {:induction false} EncodeOfCodePoints(s: Text)
    ensures Encode(CodePoints(s)) == s
  {
    if s == [] {
    } else if IsPair(s) {
      EncodeOfCodePoints(s[2..]);
      PairEncodes(s[0], s[1]);
      assert CodePoints(s)[1..] == CodePoints(s[2..]);
      assert s == [s[0], s[1]] + s[2..];
    } else {
      EncodeOfCodePoints(s[1..]);
      assert CodePoints(s)[1..] == CodePoints(s[1..]);
      assert s == [s[0]] + s[1..];
    }
  }

  /** Decoding inverts encoding, so the scalar values of a well-formed text are unique. */
  lemma {:induction false} CodePointsOfEncode(cs: seq<CodePoint>)
    requires Scalars(cs)
    ensures CodePoints(Encode(cs)) == cs
  {
    if cs != [] {
      CodePointsOfEncode(cs[1..]);
      var tail := Encode(cs[1..]);
      assert cs == [cs[0]] + cs[1..];
      if cs[0] < 0x1_0000 {
        assert ([cs[0]] + tail)[1..] == tail;
      } else {
        PairRoundTrip(cs[0]);
        assert (EncodePoint(cs[0]) + tail)[2..] == tail;
      }
    }
  }

  lemma WellFormedByCodePoints(s: Text)
    ensures WellFormed(s) <==> Scalars(CodePoints(s))
  {
    EncodeOfCodePoints(s);
    if WellFormed(s) {
      var cs: seq<CodePoint> :| Scalars(cs) && Encode(cs) == s;
      CodePointsOfEncode(cs);
    }
  }

  // ---- The scan. ----

  lemma ScanStep(s: Text)
    requires s != []
    ensures IsPair(s) ==> (WellFormed(s) <==> WellFormed(s[2..]))
    ensures !IsPair(s) && IsScalar(s[0]) ==> (WellFormed(s) <==> WellFormed(s[1..]))
    ensures !IsPair(s) && !IsScalar(s[0]) ==> !WellFormed(s)
  {
    WellFormedByCodePoints(s);
    if IsPair(s) {
      WellFormedByCodePoints(s[2..]);
      ScalarsOfCons(PairValue(s[0], s[1]), CodePoints(s[2..]));
    } else {
      WellFormedByCodePoints(s[1..]);
      ScalarsOfCons(s[0], CodePoints(s[1..]));
    }
  }

  lemma ScalarsOfCons(c: CodePoint, cs: seq<CodePoint>)
    ensures Scalars([c] + cs) <==> IsScalar(c) && Scalars(cs)
  {
    assert ([c] + cs)[0] == c && ([c] + cs)[1..] == cs;
    if Scalars([c] + cs) {
      forall i | 0 <= i < |cs| ensures IsScalar(cs[i]) {
        assert ([c] + cs)[i + 1] == cs[i];
      }
    }
  }

  /** The index loop the form and the response parser share. */
  method HasUnpairedSurrogate(value: Text) returns (unpaired: bool)
    ensures unpaired <==> !WellFormed(value)
  {
    var index := 0;
    WellFormedByCodePoints([]);
    assert value[0..] == value;
    while index < |value|
      invariant 0 <= index <= |value|
      invariant WellFormed(value) <==> WellFormed(value[index..])
    {
      var codeUnit: int := value[index];
      ScanStep(value[index..]);
      if 0xD800 <= codeUnit <= 0xDBFF {
        if index + 1 >= |value| {
          return true;
        }
        var following: int := value[index + 1];
        if following < 0xDC00 || following > 0xDFFF {
          return true;
        }
        assert value[index..][2..] == value[index + 2..];
        index := index + 1;
      } else if 0xDC00 <= codeUnit <= 0xDFFF {
        return true;
      } else {
        assert value[index..][1..] == value[index + 1..];
      }
      index := index + 1;
    }
    assert value[index..] == [];
    return false;
  }

  // ---- Length in UTF-8. ----

  function Utf8Size(c: CodePoint): nat {
    if c < 0x80 then 1 else if c < 0x800 then 2 else if c < 0x1_0000 then 3 else 4
  }

  function TotalSize(cs: seq<CodePoint>): nat {
    if cs == [] then 0 else Utf8Size(cs[0]) + TotalSize(cs[1..])
  }

  /** `TextEncoder.encode(s).byteLength`; a lone surrogate is sent as U+FFFD, which takes three bytes too. */
  function Utf8Length(s: Text): nat {
    TotalSize(CodePoints(s))
  }

  lemma {:induction false} UnitsAndBytes(s: Text)
    ensures |s| <= Utf8Length(s) <= 3 * |s|
  {
    if s == [] {
    } else if IsPair(s) {
      UnitsAndBytes(s[2..]);
      assert CodePoints(s)[1..] == CodePoints(s[2..]);
    } else {
      UnitsAndBytes(s[1..]);
      assert CodePoints(s)[1..] == CodePoints(s[1..]);
    }
  }

  // ---- White space. ----

  /** The units `trim` strips. */
  predicate IsWhite(u: int) {
    || 0x09 <= u <= 0x0D || u == 0x20 || u == 0xA0 || u == 0x1680 || 0x2000 <= u <= 0x200A
    || u in {0x2028, 0x2029, 0x202F, 0x205F, 0x3000, 0xFEFF}
  }

  function TrimStart(s: Text): (r: Text)
    ensures |r| <= |s|
    ensures r == s <==> s == [] || !IsWhite(s[0])
  {
    if s != [] && IsWhite(s[0]) then TrimStart(s[1..]) else s
  }

  function TrimEnd(s: Text): (r: Text)
    ensures |r| <= |s|
    ensures r == s <==> s == [] || !IsWhite(s[|s| - 1])
  {
    if s != [] && IsWhite(s[|s| - 1]) then TrimEnd(s[..|s| - 1]) else s
  }

  /** `s.trim()`. */
  function Trim(s: Text): Text {
    TrimEnd(TrimStart(s))
  }

  lemma TrimmedExactly(s: Text)
    ensures Trim(s) == s <==> s == [] || (!IsWhite(s[0]) && !IsWhite(s[|s| - 1]))
  {
    assert |Trim(s)| <= |TrimStart(s)| <= |s|;
  }

  /** White space and line terminators of ECMA-262, sections 12.2 and 12.3, one by one. */
  lemma WhiteSpaceExactly(u: int)
    ensures IsWhite(u) <==>
            u in {9, 10, 11, 12, 13, 32, 160, 5760, 8192, 8193, 8194, 8195, 8196, 8197, 8198, 8199, 8200, 8201, 8202,
                  8232, 8233, 8239, 8287, 12288, 65279}
  {
  }
}
