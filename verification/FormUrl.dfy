/**
 The application/x-www-form-urlencoded parser and serializer (section 5 of the WHATWG URL Standard)
 on byte strings, and the proof that parsing undoes serializing.
 */
module FormUrl {
  import opened Utf16

  datatype Pair = Pair(name: Text, value: Text)

  const AMPERSAND: Unit := 0x26
  const EQUALS: Unit := 0x3D
  const PERCENT: Unit := 0x25
  const PLUS: Unit := 0x2B
  const BLANK: Unit := 0x20

  predicate IsAlnum(u: int) {
    0x30 <= u <= 0x39 || 0x41 <= u <= 0x5A || 0x61 <= u <= 0x7A
  }

  predicate KeptAsIs(u: int) {
    IsAlnum(u) || u in {0x2A, 0x2D, 0x2E, 0x5F}
  }

  predicate Bytes(s: Text) {
    forall i :: 0 <= i < |s| ==> s[i] < 256
  }

  function UpperHex(d: nat): Unit
    requires d < 16
  {
    if d < 10 then 0x30 + d else 0x41 + (d - 10)
  }

  function HexOf(u: Unit): (d: int)
    ensures -1 <= d < 16
  {
    var n: int := u;
    if 0x30 <= n <= 0x39 then n - 0x30
    else if 0x41 <= n <= 0x46 then n - 0x41 + 10
    else if 0x61 <= n <= 0x66 then n - 0x61 + 10
    else -1
  }

  function EncodeByte(b: Unit): Text
    requires b < 256
  {
    if b == BLANK then [PLUS]
    else if KeptAsIs(b) then [b]
    else [PERCENT, UpperHex(b / 16), UpperHex(b % 16)]
  }

  function Encoded(s: Text): Text
    requires Bytes(s)
  {
    if s == [] then [] else EncodeByte(s[0]) + Encoded(s[1..])
  }

  function Decoded(s: Text): Text {
    if s == [] then []
    else if s[0] == PLUS then [BLANK] + Decoded(s[1..])
    else if s[0] == PERCENT && |s| >= 3 && HexOf(s[1]) >= 0 && HexOf(s[2]) >= 0
    then [HexOf(s[1]) * 16 + HexOf(s[2])] + Decoded(s[3..])
    else [s[0]] + Decoded(s[1..])
  }

  /** The text before the first separator; all of it if there is none. */
  function Before(s: Text, sep: Unit): (r: Text)
    ensures |r| <= |s| && sep !in r
    ensures |r| < |s| ==> s[|r|] == sep
  {
    if s == [] || s[0] == sep then [] else [s[0]] + Before(s[1..], sep)
  }

  /** The text after the first separator; none of it if there is none. */
  function After(s: Text, sep: Unit): (r: Text)
    ensures s != [] ==> |r| < |s|
  {
    var n := |Before(s, sep)|;
    if n < |s| then s[n + 1..] else []
  }

  function ParsePair(piece: Text): Pair {
    Pair(Decoded(Before(piece, EQUALS)), Decoded(After(piece, EQUALS)))
  }

  function ParseForm(q: Text): seq<Pair>
    decreases |q|
  {
    if q == [] then []
    else
      var piece := Before(q, AMPERSAND);
      (if piece == [] then [] else [ParsePair(piece)]) + ParseForm(After(q, AMPERSAND))
  }

  function SerializePair(p: Pair): Text
    requires Bytes(p.name) && Bytes(p.value)
  {
    Encoded(p.name) + ([EQUALS] + Encoded(p.value))
  }

  predicate AllBytes(pairs: seq<Pair>) {
    forall i :: 0 <= i < |pairs| ==> Bytes(pairs[i].name) && Bytes(pairs[i].value)
  }

  function Serialize(pairs: seq<Pair>): Text
    requires AllBytes(pairs)
  {
    if pairs == [] then []
    else if |pairs| == 1 then SerializePair(pairs[0])
    else SerializePair(pairs[0]) + ([AMPERSAND] + Serialize(pairs[1..]))
  }

  // ---- Round trip. ----

  lemma DecodeByte(b: Unit, rest: Text)
    requires b < 256
    ensures Decoded(EncodeByte(b) + rest) == [b] + Decoded(rest)
  {
    var t := EncodeByte(b) + rest;
    if b == BLANK || KeptAsIs(b) {
      assert t[1..] == rest;
    } else {
      assert t[3..] == rest;
      assert HexOf(UpperHex(b / 16)) == b / 16 && HexOf(UpperHex(b % 16)) == b % 16;
      assert b == b / 16 * 16 + b % 16;
    }
  }

  lemma {:induction false} DecodedOfEncoded(s: Text)
    requires Bytes(s)
    ensures Decoded(Encoded(s)) == s
  {
    if s != [] {
      DecodedOfEncoded(s[1..]);
      DecodeByte(s[0], Encoded(s[1..]));
      assert s == [s[0]] + s[1..];
    }
  }

  lemma {:induction false} EncodedIsFree(s: Text)
    requires Bytes(s)
    ensures AMPERSAND !in Encoded(s) && EQUALS !in Encoded(s)
  {
    if s != [] {
      EncodedIsFree(s[1..]);
      assert AMPERSAND !in EncodeByte(s[0]) && EQUALS !in EncodeByte(s[0]);
    }
  }

  lemma {:induction false} SplitAt(a: Text, sep: Unit, b: Text)
    requires sep !in a
    ensures Before(a + ([sep] + b), sep) == a && After(a + ([sep] + b), sep) == b
  {
    var t := a + ([sep] + b);
    if a == [] {
      assert t[1..] == b;
    } else {
      assert t[1..] == a[1..] + ([sep] + b);
      SplitAt(a[1..], sep, b);
      assert a == [a[0]] + a[1..];
      assert t[|a| + 1..] == b;
    }
  }

  lemma {:induction false} NothingToSplit(a: Text, sep: Unit)
    requires sep !in a
    ensures Before(a, sep) == a && After(a, sep) == []
  {
    if a != [] {
      NothingToSplit(a[1..], sep);
      assert a == [a[0]] + a[1..];
    }
  }

  lemma PairRoundTrips(p: Pair)
    requires Bytes(p.name) && Bytes(p.value)
    ensures ParsePair(SerializePair(p)) == p
    ensures SerializePair(p) != [] && AMPERSAND !in SerializePair(p)
  {
    EncodedIsFree(p.name);
    EncodedIsFree(p.value);
    SplitAt(Encoded(p.name), EQUALS, Encoded(p.value));
    DecodedOfEncoded(p.name);
    DecodedOfEncoded(p.value);
  }

  lemma FirstPiece(piece: Text, rest: Text)
    requires piece != [] && AMPERSAND !in piece
    ensures ParseForm(piece) == [ParsePair(piece)]
    ensures ParseForm(piece + ([AMPERSAND] + rest)) == [ParsePair(piece)] + ParseForm(rest)
  {
    NothingToSplit(piece, AMPERSAND);
    SplitAt(piece, AMPERSAND, rest);
  }

  /** Parsing a serialized list of pairs gives the list back. */
  lemma {:induction false} FormRoundTrips(pairs: seq<Pair>)
    requires AllBytes(pairs)
    ensures ParseForm(Serialize(pairs)) == pairs
  {
    if pairs != [] {
      PairRoundTrips(pairs[0]);
      FormRoundTrips(pairs[1..]);
      FirstPiece(SerializePair(pairs[0]), Serialize(pairs[1..]));
      assert pairs == [pairs[0]] + pairs[1..];
    }
  }

  /** Text made of characters that need no encoding is serialized as it stands. */
  lemma {:induction false} PlainIsUnchanged(s: Text)
    requires forall i :: 0 <= i < |s| ==> KeptAsIs(s[i])
    ensures Bytes(s) && Encoded(s) == s
  {
    if s != [] {
      PlainIsUnchanged(s[1..]);
      assert s == [s[0]] + s[1..];
    }
  }

  // ---- What is encoded. ----

  /** The characters the URL Standard's form serializer leaves alone. */
  predicate StandsForItself(c: char) {
    '0' <= c <= '9' || 'A' <= c <= 'Z' || 'a' <= c <= 'z' || c in "*-._"
  }

  /** A byte is written as itself, a space as a plus sign, and all else as a percent sign and two upper-case digits. */
  lemma EncodedByteExactly(b: Unit)
    requires b < 256
    ensures var e := EncodeByte(b);
            && (e == [b] <==> StandsForItself(b as char))
            && (|e| == 1 && e != [b] <==> b as char == ' ') && (b as char == ' ' ==> e[0] as char == '+')
            && (|e| != 1 ==>
                  && |e| == 3 && e[0] as char == '%' && HexOf(e[1]) * 16 + HexOf(e[2]) == b
                  && !('a' <= e[1] as char <= 'f') && !('a' <= e[2] as char <= 'f'))
  {
  }
}
