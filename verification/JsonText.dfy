/**
 JSON text as UTF-16 code units: printing as `JSON.stringify` does, and a parser that follows
 RFC 8259 (section 2 for white space, 4 for objects, 5 for arrays, 7 for strings) and, of the
 numbers of section 6, the integers.
 */
module JsonText {
  import opened Common
  import opened Decimal
  import opened Utf16

  /** Objects keep their members in insertion order, as JavaScript objects do. */
  datatype Json =
    | Null
    | Bool(b: bool)
    | Number(n: int)
    | String(s: Text)
    | Array(items: seq<Json>)
    | Object(members: seq<Member>)

  datatype Member = Member(key: Text, value: Json)

  const QUOTE: Unit := 0x22
  const COMMA: Unit := 0x2C
  const MINUS: Unit := 0x2D
  const COLON: Unit := 0x3A
  const LBRACKET: Unit := 0x5B
  const BACKSLASH: Unit := 0x5C
  const RBRACKET: Unit := 0x5D
  const LBRACE: Unit := 0x7B
  const RBRACE: Unit := 0x7D
  const LOWER_F: Unit := 0x66
  const LOWER_N: Unit := 0x6E
  const LOWER_T: Unit := 0x74
  const LOWER_U: Unit := 0x75

  const NULL_TEXT: Text := [0x6E, 0x75, 0x6C, 0x6C]
  const TRUE_TEXT: Text := [0x74, 0x72, 0x75, 0x65]
  const FALSE_TEXT: Text := [0x66, 0x61, 0x6C, 0x73, 0x65]

  // ---- Printing. ----

  function HexDigit(d: nat): Unit
    requires d < 16
  {
    if d < 10 then ZERO + d else 0x61 + (d - 10)
  }

  function UnicodeEscape(u: Unit): Text {
    [BACKSLASH, LOWER_U, HexDigit(u / 4096), HexDigit(u / 256 % 16), HexDigit(u / 16 % 16), HexDigit(u % 16)]
  }

  /** One code unit that is not half of a surrogate pair. */
  function EscapeUnit(u: Unit): Text {
    if u == QUOTE then [BACKSLASH, QUOTE]
    else if u == BACKSLASH then [BACKSLASH, BACKSLASH]
    else if u == 0x08 then [BACKSLASH, 0x62]
    else if u == 0x0C then [BACKSLASH, 0x66]
    else if u == 0x0A then [BACKSLASH, 0x6E]
    else if u == 0x0D then [BACKSLASH, 0x72]
    else if u == 0x09 then [BACKSLASH, 0x74]
    else if u < 0x20 || IsHigh(u) || IsLow(u) then UnicodeEscape(u)
    else [u]
  }

  function Escape(s: Text): Text {
    if s == [] then []
    else if |s| > 1 && IsHigh(s[0]) && IsLow(s[1]) then [s[0], s[1]] + Escape(s[2..])
    else EscapeUnit(s[0]) + Escape(s[1..])
  }

  function Quote(s: Text): Text {
    [QUOTE] + Escape(s) + [QUOTE]
  }

  function PrintInt(n: int): Text {
    if n < 0 then [MINUS] + PrintNat(-n) else PrintNat(n)
  }

  function Stringify(v: Json): Text
    decreases v, 1
  {
    match v
    case Null => NULL_TEXT
    case Bool(b) => if b then TRUE_TEXT else FALSE_TEXT
    case Number(n) => PrintInt(n)
    case String(s) => Quote(s)
    case Array(items) => [LBRACKET] + StringifyItems(items) + [RBRACKET]
    case Object(members) => [LBRACE] + StringifyMembers(members) + [RBRACE]
  }

  function StringifyItems(items: seq<Json>): Text
    decreases items, 0
  {
    if items == [] then []
    else if |items| == 1 then Stringify(items[0])
    else Stringify(items[0]) + [COMMA] + StringifyItems(items[1..])
  }

  function StringifyMember(m: Member): Text
    decreases m, 0
  {
    Quote(m.key) + [COLON] + Stringify(m.value)
  }

  function StringifyMembers(members: seq<Member>): Text
    decreases members, 0
  {
    if members == [] then []
    else if |members| == 1 then StringifyMember(members[0])
    else StringifyMember(members[0]) + [COMMA] + StringifyMembers(members[1..])
  }

  // ---- Parsing. ----

  /** What was read, and the text after it. */
  datatype Read<+T> = Read(value: T, rest: Text)

  function SkipSpace(t: Text): (r: Text)
    ensures |r| <= |t|
  {
    if t != [] && t[0] in {0x20, 0x09, 0x0A, 0x0D} then SkipSpace(t[1..]) else t
  }

  function HexValue(u: Unit): Option<nat> {
    var d: int := u;
    if 0x30 <= d <= 0x39 then Some(d - 0x30)
    else if 0x61 <= d <= 0x66 then Some(d - 0x61 + 10)
    else if 0x41 <= d <= 0x46 then Some(d - 0x41 + 10)
    else None
  }

  function ParseHex4(t: Text): Option<Unit> {
    if |t| < 4 then None
    else
      var a, b, c, d := HexValue(t[0]), HexValue(t[1]), HexValue(t[2]), HexValue(t[3]);
      if a.None? || b.None? || c.None? || d.None? then None
      else if a.value < 16 && b.value < 16 && c.value < 16 && d.value < 16
      then Some(a.value * 4096 + b.value * 256 + c.value * 16 + d.value)
      else None
  }

  function ShortEscape(u: Unit): Option<Unit> {
    if u in {QUOTE, BACKSLASH, 0x2F} then Some(u)
    else if u == 0x62 then Some(0x08)
    else if u == 0x66 then Some(0x0C)
    else if u == 0x6E then Some(0x0A)
    else if u == 0x72 then Some(0x0D)
    else if u == 0x74 then Some(0x09)
    else None
  }

  /** The units of a string, from just after its opening quote to just after its closing one. */
  function ParseUnits(t: Text): (r: Option<Read<Text>>)
    ensures r.Some? ==> |r.value.rest| < |t|
  {
    if t == [] || (t[0] < 0x20 && t[0] != QUOTE) then None
    else if t[0] == QUOTE then Some(Read([], t[1..]))
    else if t[0] != BACKSLASH then Prefix(t[0], ParseUnits(t[1..]))
    else if |t| < 2 then None
    else if t[1] == LOWER_U then
      var u := ParseHex4(t[2..]);
      if u.None? then None else Prefix(u.value, ParseUnits(t[6..]))
    else
      var u := ShortEscape(t[1]);
      if u.None? then None else Prefix(u.value, ParseUnits(t[2..]))
  }

  function Prefix(u: Unit, r: Option<Read<Text>>): (p: Option<Read<Text>>)
    ensures p.Some? <==> r.Some?
    ensures p.Some? ==> p.value.rest == r.value.rest
  {
    if r.None? then None else Some(Read([u] + r.value.value, r.value.rest))
  }

  function ParseNat(t: Text): (r: Option<Read<nat>>)
    ensures r.Some? ==> |r.value.rest| < |t|
  {
    var n := Digits(t);
    if n == 0 || (n > 1 && t[0] == ZERO) then None else Some(Read(DigitsValue(t[..n]), t[n..]))
  }

  /** The units after the first are these. */
  predicate Follows(t: Text, a: Unit, b: Unit, c: Unit) {
    |t| >= 4 && t[1] == a && t[2] == b && t[3] == c
  }

  function ParseValue(t: Text): (r: Option<Read<Json>>)
    ensures r.Some? ==> |r.value.rest| < |t|
    decreases |t|, 1
  {
    if t == [] then None
    else if t[0] == LOWER_N then if Follows(t, 0x75, 0x6C, 0x6C) then Some(Read(Null, t[4..])) else None
    else if t[0] == LOWER_T then if Follows(t, 0x72, 0x75, 0x65) then Some(Read(Bool(true), t[4..])) else None
    else if t[0] == LOWER_F then
      if Follows(t, 0x61, 0x6C, 0x73) && |t| >= 5 && t[4] == 0x65 then Some(Read(Bool(false), t[5..])) else None
    else if t[0] == QUOTE then
      var s := ParseUnits(t[1..]);
      if s.None? then None else Some(Read(String(s.value.value), s.value.rest))
    else if t[0] == LBRACKET then
      var inner := SkipSpace(t[1..]);
      if inner != [] && inner[0] == RBRACKET then Some(Read(Array([]), inner[1..]))
      else
        var items := ParseItems(inner);
        if items.None? then None else Some(Read(Array(items.value.value), items.value.rest))
    else if t[0] == LBRACE then
      var inner := SkipSpace(t[1..]);
      if inner != [] && inner[0] == RBRACE then Some(Read(Object([]), inner[1..]))
      else
        var members := ParseMembers(inner);
        if members.None? then None else Some(Read(Object(members.value.value), members.value.rest))
    else if t[0] == MINUS then
      var n := ParseNat(t[1..]);
      if n.None? then None else Some(Read(Number(0 - n.value.value), n.value.rest))
    else
      var n := ParseNat(t);
      if n.None? then None else Some(Read(Number(n.value.value), n.value.rest))
  }

  /** A non-empty list of items and the closing bracket. */
  function ParseItems(t: Text): (r: Option<Read<seq<Json>>>)
    ensures r.Some? ==> |r.value.rest| < |t|
    decreases |t|, 2
  {
    var first := ParseValue(t);
    if first.None? then None
    else
      var after := SkipSpace(first.value.rest);
      if after == [] then None
      else if after[0] == RBRACKET then Some(Read([first.value.value], after[1..]))
      else if after[0] != COMMA then None
      else
        var others := ParseItems(SkipSpace(after[1..]));
        if others.None? then None else Some(Read([first.value.value] + others.value.value, others.value.rest))
  }

  function ParseMember(t: Text): (r: Option<Read<Member>>)
    ensures r.Some? ==> |r.value.rest| < |t|
    decreases |t|, 1
  {
    if t == [] || t[0] != QUOTE then None
    else
      var key := ParseUnits(t[1..]);
      if key.None? then None
      else
        var colon := SkipSpace(key.value.rest);
        if colon == [] || colon[0] != COLON then None
        else
          var value := ParseValue(SkipSpace(colon[1..]));
          if value.None? then None else Some(Read(Member(key.value.value, value.value.value), value.value.rest))
  }

  /** A non-empty list of members and the closing brace. */
  function ParseMembers(t: Text): (r: Option<Read<seq<Member>>>)
    ensures r.Some? ==> |r.value.rest| < |t|
    decreases |t|, 2
  {
    var first := ParseMember(t);
    if first.None? then None
    else
      var after := SkipSpace(first.value.rest);
      if after == [] then None
      else if after[0] == RBRACE then Some(Read([first.value.value], after[1..]))
      else if after[0] != COMMA then None
      else
        var others := ParseMembers(SkipSpace(after[1..]));
        if others.None? then None else Some(Read([first.value.value] + others.value.value, others.value.rest))
  }

  function Parse(t: Text): Option<Json> {
    var r := ParseValue(SkipSpace(t));
    if r.Some? && SkipSpace(r.value.rest) == [] then Some(r.value.value) else None
  }

  // ---- Parsing what was printed. ----

  lemma HexRoundTrip(d: nat)
    requires d < 16
    ensures HexValue(HexDigit(d)) == Some(d)
  {
  }

  lemma NibblesOfUnit(u: Unit)
    ensures u / 4096 < 16
    ensures u / 4096 * 4096 + u / 256 % 16 * 256 + u / 16 % 16 * 16 + u % 16 == u
  {
    var a: int := u / 16;
    var b: int := u / 256;
    assert a / 16 == b && b / 16 == u / 4096;
  }

  lemma ParseHexOfEscape(u: Unit, t: Text)
    requires |t| >= 4
    requires t[0] == HexDigit(u / 4096) && t[1] == HexDigit(u / 256 % 16)
    requires t[2] == HexDigit(u / 16 % 16) && t[3] == HexDigit(u % 16)
    ensures ParseHex4(t) == Some(u)
  {
    HexRoundTrip(u / 4096);
    HexRoundTrip(u / 256 % 16);
    HexRoundTrip(u / 16 % 16);
    HexRoundTrip(u % 16);
    NibblesOfUnit(u);
  }

  lemma ParseUnitsOfUnicodeEscape(u: Unit, t: Text)
    requires |t| >= 6 && t[..6] == UnicodeEscape(u)
    ensures ParseUnits(t) == Prefix(u, ParseUnits(t[6..]))
  {
    var e := UnicodeEscape(u);
    assert t[0] == e[0] && t[1] == e[1] && t[2] == e[2] && t[3] == e[3] && t[4] == e[4] && t[5] == e[5];
    var hex := t[2..];
    assert hex[0] == t[2] && hex[1] == t[3] && hex[2] == t[4] && hex[3] == t[5];
    ParseHexOfEscape(u, hex);
  }

  lemma ParseUnitsOfShortEscape(letter: Unit, u: Unit, t: Text)
    requires letter != LOWER_U && ShortEscape(letter) == Some(u)
    requires |t| >= 2 && t[0] == BACKSLASH && t[1] == letter
    ensures ParseUnits(t) == Prefix(u, ParseUnits(t[2..]))
  {
  }

  lemma ParseUnitsOfEscapeUnit(u: Unit, rest: Text)
    ensures ParseUnits(EscapeUnit(u) + rest) == Prefix(u, ParseUnits(rest))
  {
    var t := EscapeUnit(u) + rest;
    if |EscapeUnit(u)| == 6 {
      assert t[..6] == UnicodeEscape(u) && t[6..] == rest;
      ParseUnitsOfUnicodeEscape(u, t);
    } else if |EscapeUnit(u)| == 2 {
      assert t[2..] == rest;
      ParseUnitsOfShortEscape(EscapeUnit(u)[1], u, t);
    } else {
      assert t == [u] + rest;
      ParseUnitsOfPlain(u, rest);
    }
  }

  lemma HeadAndTail<T>(s: seq<T>)
    requires s != []
    ensures s == [s[0]] + s[1..]
  {
  }

  lemma Regroup(a: Text, b: Text, c: Text)
    ensures a + b + c == a + (b + c)
  {
  }

  lemma ParseUnitsOfPlain(u: Unit, t: Text)
    requires u >= 0x20 && u != QUOTE && u != BACKSLASH
    ensures ParseUnits([u] + t) == Prefix(u, ParseUnits(t))
  {
    assert ([u] + t)[1..] == t;
  }

  lemma ParseUnitsOfPair(high: Unit, low: Unit, t: Text)
    requires IsHigh(high) && IsLow(low)
    ensures ParseUnits([high, low] + t) == Prefix(high, Prefix(low, ParseUnits(t)))
  {
    assert [high, low] + t == [high] + ([low] + t);
    ParseUnitsOfPlain(high, [low] + t);
    ParseUnitsOfPlain(low, t);
  }

  lemma {:induction false} ParseUnitsOfEscape(s: Text, rest: Text)
    ensures ParseUnits(Escape(s) + ([QUOTE] + rest)) == Some(Read(s, rest))
  {
    var close := [QUOTE] + rest;
    if s == [] {
      assert Escape(s) + close == close;
      assert close[1..] == rest;
    } else if |s| > 1 && IsHigh(s[0]) && IsLow(s[1]) {
      ParseUnitsOfEscape(s[2..], rest);
      ParseUnitsOfPair(s[0], s[1], Escape(s[2..]) + close);
      Regroup([s[0], s[1]], Escape(s[2..]), close);
      assert s == [s[0]] + ([s[1]] + s[2..]);
    } else {
      ParseUnitsOfEscape(s[1..], rest);
      ParseUnitsOfEscapeUnit(s[0], Escape(s[1..]) + close);
      Regroup(EscapeUnit(s[0]), Escape(s[1..]), close);
      assert s == [s[0]] + s[1..];
    }
  }

  lemma ParseNatOfPrint(n: nat, rest: Text)
    requires rest == [] || !IsDigit(rest[0])
    ensures ParseNat(PrintNat(n) + rest) == Some(Read(n, rest))
  {
    PrintNatDigits(n);
    DigitsOfPrefix(PrintNat(n), rest);
    var t := PrintNat(n) + rest;
    assert t[..|PrintNat(n)|] == PrintNat(n) && t[|PrintNat(n)|..] == rest;
  }

  /** A printed value is followed by the end, a separator or a closing bracket. */
  predicate Delimited(rest: Text) {
    rest == [] || rest[0] in {COMMA, RBRACKET, RBRACE}
  }

  lemma ParseStringOfQuote(s: Text, rest: Text)
    ensures |Quote(s)| > 0 && Quote(s)[0] == QUOTE
    ensures ParseUnits((Quote(s) + rest)[1..]) == Some(Read(s, rest))
  {
    ParseUnitsOfEscape(s, rest);
    assert (Quote(s) + rest)[1..] == Escape(s) + ([QUOTE] + rest);
  }

  /** The first unit of printed text is never a space or a closing bracket. */
  lemma StringifyStart(v: Json, rest: Text)
    ensures |Stringify(v)| > 0 && Stringify(v)[0] !in {0x20, 0x09, 0x0A, 0x0D, RBRACKET, RBRACE}
    ensures SkipSpace(Stringify(v) + rest) == Stringify(v) + rest
  {
    if v.Number? {
      PrintNatDigits(if v.n < 0 then -v.n else v.n);
    }
  }

  lemma NoSpace(t: Text)
    requires t == [] || t[0] !in {0x20, 0x09, 0x0A, 0x0D}
    ensures SkipSpace(t) == t
  {
  }

  lemma ParseDigits(n: nat, rest: Text)
    requires Delimited(rest)
    ensures ParseValue(PrintNat(n) + rest) == Some(Read(Number(n), rest))
  {
    PrintNatDigits(n);
    ParseNatOfPrint(n, rest);
    var t := PrintNat(n) + rest;
    assert IsDigit(t[0]);
  }

  lemma ParseNegative(n: nat, rest: Text)
    requires Delimited(rest)
    ensures ParseValue([MINUS] + PrintNat(n) + rest) == Some(Read(Number(0 - n), rest))
  {
    ParseNatOfPrint(n, rest);
    Regroup([MINUS], PrintNat(n), rest);
    ParseMinus(PrintNat(n) + rest, n, rest);
  }

  lemma ParseMinus(digits: Text, n: nat, rest: Text)
    requires ParseNat(digits) == Some(Read(n, rest))
    ensures ParseValue([MINUS] + digits) == Some(Read(Number(0 - n), rest))
  {
    var t := [MINUS] + digits;
    assert t[1..] == digits;
  }

  lemma ParseLiterals(rest: Text)
    ensures ParseValue(NULL_TEXT + rest) == Some(Read(Null, rest))
    ensures ParseValue(TRUE_TEXT + rest) == Some(Read(Bool(true), rest))
    ensures ParseValue(FALSE_TEXT + rest) == Some(Read(Bool(false), rest))
  {
    assert (NULL_TEXT + rest)[4..] == rest;
    assert (TRUE_TEXT + rest)[4..] == rest;
    assert (FALSE_TEXT + rest)[5..] == rest;
  }

  lemma ParseQuoted(s: Text, rest: Text)
    ensures ParseValue(Quote(s) + rest) == Some(Read(String(s), rest))
  {
    ParseStringOfQuote(s, rest);
    var t := Quote(s) + rest;
    assert t[0] == QUOTE;
  }

  lemma ParseBracketed(t: Text, inner: Text)
    requires t == [LBRACKET] + inner
    requires inner != [] && SkipSpace(inner) == inner
    ensures inner[0] == RBRACKET ==> ParseValue(t) == Some(Read(Array([]), inner[1..]))
    ensures inner[0] != RBRACKET && ParseItems(inner).Some? ==>
              ParseValue(t) == Some(Read(Array(ParseItems(inner).value.value), ParseItems(inner).value.rest))
  {
    assert t[1..] == inner;
  }

  lemma ParseBraced(t: Text, inner: Text)
    requires t == [LBRACE] + inner
    requires inner != [] && SkipSpace(inner) == inner
    ensures inner[0] == RBRACE ==> ParseValue(t) == Some(Read(Object([]), inner[1..]))
    ensures inner[0] != RBRACE && ParseMembers(inner).Some? ==>
              ParseValue(t) == Some(Read(Object(ParseMembers(inner).value.value), ParseMembers(inner).value.rest))
  {
    assert t[1..] == inner;
  }

  lemma ParseLastItem(t: Text, v: Json, rest: Text)
    requires ParseValue(t) == Some(Read(v, [RBRACKET] + rest))
    ensures ParseItems(t) == Some(Read([v], rest))
  {
    NoSpace([RBRACKET] + rest);
    assert ([RBRACKET] + rest)[1..] == rest;
  }

  lemma ParseNextItem(t: Text, v: Json, others: Text, vs: seq<Json>, rest: Text)
    requires ParseValue(t) == Some(Read(v, [COMMA] + others))
    requires SkipSpace(others) == others && ParseItems(others) == Some(Read(vs, rest))
    ensures ParseItems(t) == Some(Read([v] + vs, rest))
  {
    NoSpace([COMMA] + others);
    assert ([COMMA] + others)[1..] == others;
  }

  lemma ParseLastMember(t: Text, m: Member, rest: Text)
    requires ParseMember(t) == Some(Read(m, [RBRACE] + rest))
    ensures ParseMembers(t) == Some(Read([m], rest))
  {
    NoSpace([RBRACE] + rest);
    assert ([RBRACE] + rest)[1..] == rest;
  }

  lemma ParseNextMember(t: Text, m: Member, others: Text, ms: seq<Member>, rest: Text)
    requires ParseMember(t) == Some(Read(m, [COMMA] + others))
    requires SkipSpace(others) == others && ParseMembers(others) == Some(Read(ms, rest))
    ensures ParseMembers(t) == Some(Read([m] + ms, rest))
  {
    NoSpace([COMMA] + others);
    assert ([COMMA] + others)[1..] == others;
  }

  lemma ParseKeyAndValue(t: Text, key: Text, body: Text, v: Json, rest: Text)
    requires t != [] && t[0] == QUOTE
    requires ParseUnits(t[1..]) == Some(Read(key, [COLON] + body))
    requires SkipSpace(body) == body && ParseValue(body) == Some(Read(v, rest))
    ensures ParseMember(t) == Some(Read(Member(key, v), rest))
  {
    NoSpace([COLON] + body);
    assert ([COLON] + body)[1..] == body;
  }

  /** Every printed value, followed by any delimiter, parses back to itself and leaves the rest. */
  lemma {:induction false} ParseOfStringify(v: Json, rest: Text)
    requires Delimited(rest)
    ensures ParseValue(Stringify(v) + rest) == Some(Read(v, rest))
    decreases v, 1
  {
    match v
    case Null => ParseLiterals(rest);
    case Bool(b) => ParseLiterals(rest);
    case Number(n) => if n < 0 { ParseNegative(0 - n, rest); } else { ParseDigits(n, rest); }
    case String(s) => ParseQuoted(s, rest);
    case Array(items) => ParseOfArray(items, rest);
    case Object(members) => ParseOfObject(members, rest);
  }

  lemma {:induction false} ParseOfArray(items: seq<Json>, rest: Text)
    ensures ParseValue([LBRACKET] + StringifyItems(items) + [RBRACKET] + rest) == Some(Read(Array(items), rest))
    decreases items, 1
  {
    var inner := StringifyItems(items) + ([RBRACKET] + rest);
    var t := [LBRACKET] + StringifyItems(items) + [RBRACKET] + rest;
    assert t == [LBRACKET] + inner;
    if items == [] {
      assert inner == [RBRACKET] + rest && inner[1..] == rest;
      NoSpace(inner);
    } else {
      ItemsStart(items, [RBRACKET] + rest);
      ParseOfItems(items, rest);
    }
    ParseBracketed(t, inner);
  }

  lemma ItemsStart(items: seq<Json>, rest: Text)
    requires items != []
    ensures |StringifyItems(items)| > 0 && StringifyItems(items)[0] != RBRACKET
    ensures SkipSpace(StringifyItems(items) + rest) == StringifyItems(items) + rest
  {
    StringifyStart(items[0], []);
    NoSpace(StringifyItems(items) + rest);
  }

  lemma ItemsSplit(items: seq<Json>, tail: Text)
    requires |items| > 1
    ensures StringifyItems(items) + tail == Stringify(items[0]) + ([COMMA] + (StringifyItems(items[1..]) + tail))
  {
    Regroup(Stringify(items[0]) + [COMMA], StringifyItems(items[1..]), tail);
    Regroup(Stringify(items[0]), [COMMA], StringifyItems(items[1..]) + tail);
  }

  lemma ItemStep(t: Text, first: Text, v: Json, others: Text, vs: seq<Json>, all: seq<Json>, rest: Text)
    requires t == first + ([COMMA] + others) && all == [v] + vs
    requires ParseValue(first + ([COMMA] + others)) == Some(Read(v, [COMMA] + others))
    requires SkipSpace(others) == others && ParseItems(others) == Some(Read(vs, rest))
    ensures ParseItems(t) == Some(Read(all, rest))
  {
    ParseNextItem(t, v, others, vs, rest);
  }

  lemma {:induction false} ParseOfItems(items: seq<Json>, rest: Text)
    requires items != []
    ensures ParseItems(StringifyItems(items) + ([RBRACKET] + rest)) == Some(Read(items, rest))
    decreases items, 0
  {
    if |items| == 1 {
      ParseOfStringify(items[0], [RBRACKET] + rest);
      ParseLastItem(StringifyItems(items) + ([RBRACKET] + rest), items[0], rest);
      assert items == [items[0]];
    } else {
      var others := StringifyItems(items[1..]) + ([RBRACKET] + rest);
      ParseOfStringify(items[0], [COMMA] + others);
      ParseOfItems(items[1..], rest);
      ItemsStart(items[1..], [RBRACKET] + rest);
      ItemsSplit(items, [RBRACKET] + rest);
      HeadAndTail(items);
      ItemStep(StringifyItems(items) + ([RBRACKET] + rest), Stringify(items[0]), items[0], others,
               items[1..], items, rest);
    }
  }

  lemma {:induction false} ParseOfMember(m: Member, rest: Text)
    requires Delimited(rest)
    ensures ParseMember(StringifyMember(m) + rest) == Some(Read(m, rest))
    decreases m, 0
  {
    var body := Stringify(m.value) + rest;
    ParseStringOfQuote(m.key, [COLON] + body);
    var t := Quote(m.key) + ([COLON] + body);
    assert StringifyMember(m) + rest == t;
    StringifyStart(m.value, rest);
    ParseOfStringify(m.value, rest);
    ParseKeyAndValue(t, m.key, body, m.value, rest);
  }

  lemma {:induction false} ParseOfObject(members: seq<Member>, rest: Text)
    ensures ParseValue([LBRACE] + StringifyMembers(members) + [RBRACE] + rest) == Some(Read(Object(members), rest))
    decreases members, 1
  {
    var inner := StringifyMembers(members) + ([RBRACE] + rest);
    var t := [LBRACE] + StringifyMembers(members) + [RBRACE] + rest;
    assert t == [LBRACE] + inner;
    if members == [] {
      assert inner == [RBRACE] + rest && inner[1..] == rest;
      NoSpace(inner);
    } else {
      MembersStart(members, [RBRACE] + rest);
      ParseOfMembers(members, rest);
    }
    ParseBraced(t, inner);
  }

  lemma MembersStart(members: seq<Member>, rest: Text)
    requires members != []
    ensures |StringifyMembers(members)| > 0 && StringifyMembers(members)[0] == QUOTE
    ensures SkipSpace(StringifyMembers(members) + rest) == StringifyMembers(members) + rest
  {
    assert StringifyMember(members[0])[0] == QUOTE;
    NoSpace(StringifyMembers(members) + rest);
  }

  lemma MembersSplit(members: seq<Member>, tail: Text)
    requires |members| > 1
    ensures StringifyMembers(members) + tail ==
            StringifyMember(members[0]) + ([COMMA] + (StringifyMembers(members[1..]) + tail))
  {
    Regroup(StringifyMember(members[0]) + [COMMA], StringifyMembers(members[1..]), tail);
    Regroup(StringifyMember(members[0]), [COMMA], StringifyMembers(members[1..]) + tail);
  }

  lemma MemberStep(t: Text, first: Text, v: Member, others: Text, vs: seq<Member>, all: seq<Member>, rest: Text)
    requires t == first + ([COMMA] + others) && all == [v] + vs
    requires ParseMember(first + ([COMMA] + others)) == Some(Read(v, [COMMA] + others))
    requires SkipSpace(others) == others && ParseMembers(others) == Some(Read(vs, rest))
    ensures ParseMembers(t) == Some(Read(all, rest))
  {
    ParseNextMember(t, v, others, vs, rest);
  }

  lemma {:induction false} ParseOfMembers(members: seq<Member>, rest: Text)
    requires members != []
    ensures ParseMembers(StringifyMembers(members) + ([RBRACE] + rest)) == Some(Read(members, rest))
    decreases members, 0
  {
    if |members| == 1 {
      ParseOfMember(members[0], [RBRACE] + rest);
      ParseLastMember(StringifyMembers(members) + ([RBRACE] + rest), members[0], rest);
      assert members == [members[0]];
    } else {
      var others := StringifyMembers(members[1..]) + ([RBRACE] + rest);
      ParseOfMember(members[0], [COMMA] + others);
      ParseOfMembers(members[1..], rest);
      MembersStart(members[1..], [RBRACE] + rest);
      MembersSplit(members, [RBRACE] + rest);
      HeadAndTail(members);
      MemberStep(StringifyMembers(members) + ([RBRACE] + rest), StringifyMember(members[0]), members[0], others,
                 members[1..], members, rest);
    }
  }

  /** The parser is a left inverse of the printer. */
  lemma ParseInvertsStringify(v: Json)
    ensures Parse(Stringify(v)) == Some(v)
  {
    assert Stringify(v) + [] == Stringify(v);
    StringifyStart(v, []);
    ParseOfStringify(v, []);
  }
}
