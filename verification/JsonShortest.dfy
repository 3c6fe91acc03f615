/**
 Which of the many texts of a value `JSON.stringify` prints: it escapes nothing that may stand as it
 is, no text of the value is shorter, and its hexadecimal digits are lower case.
 */
module JsonShortest {
  import opened Common
  import opened Decimal
  import opened Utf16
  import opened JsonText

  // ---- Strings. ----

  /** Units that RFC 8259, section 7, does not let stand for themselves. */
  predicate MustEscape(u: Unit) {
    u == QUOTE || u == BACKSLASH || u < 0x20
  }

  /** The fewest units that can stand for one, in a text without lone surrogates. */
  function Cost(u: Unit): nat {
    if u in {QUOTE, BACKSLASH, 0x08, 0x09, 0x0A, 0x0C, 0x0D} then 2 else if u < 0x20 then 6 else 1
  }

  function TotalCost(s: Text): nat {
    if s == [] then 0 else Cost(s[0]) + TotalCost(s[1..])
  }

  lemma {:induction false} EscapeCosts(s: Text)
    requires WellFormed(s)
    ensures |Escape(s)| == TotalCost(s)
  {
    if s != [] {
      ScanStep(s);
      if IsPair(s) {
        EscapeCosts(s[2..]);
        assert s[1..][1..] == s[2..];
        assert TotalCost(s[1..]) == Cost(s[1]) + TotalCost(s[2..]);
      } else {
        EscapeCosts(s[1..]);
      }
    }
  }

  predicate IsPlain(s: Text) {
    forall i :: 0 <= i < |s| ==> !MustEscape(s[i])
  }

  lemma EscapedUnitGrows(u: Unit)
    ensures |EscapeUnit(u)| >= 1
    ensures |EscapeUnit(u)| == 1 <==> !MustEscape(u) && IsScalar(u)
    ensures |EscapeUnit(u)| == 1 ==> EscapeUnit(u) == [u]
  {
  }

  lemma PlainTail(s: Text, n: nat)
    requires n <= |s|
    ensures IsPlain(s) <==> IsPlain(s[..n]) && IsPlain(s[n..])
  {
    assert s == s[..n] + s[n..];
  }

  lemma {:induction false} EscapeKeepsExactly(s: Text)
    ensures |Escape(s)| >= |s|
    ensures |Escape(s)| == |s| <==> IsPlain(s) && WellFormed(s)
    ensures |Escape(s)| == |s| ==> Escape(s) == s
  {
    if s == [] {
      WellFormedByCodePoints(s);
    } else {
      ScanStep(s);
      if IsPair(s) {
        EscapeKeepsExactly(s[2..]);
        PlainTail(s, 2);
        assert s == [s[0], s[1]] + s[2..];
      } else {
        EscapeKeepsExactly(s[1..]);
        PlainTail(s, 1);
        EscapedUnitGrows(s[0]);
        assert s == [s[0]] + s[1..];
      }
    }
  }

  /** A string stands as it is exactly if it has nothing that must be escaped and no lone surrogate. */
  lemma StandsAsItIsExactly(s: Text)
    ensures Escape(s) == s <==> IsPlain(s) && WellFormed(s)
  {
    EscapeKeepsExactly(s);
  }

  predicate IsUpperHex(u: Unit) { 0x41 <= u <= 0x46 }

  predicate NoUpperHex(s: Text) {
    forall i :: 0 <= i < |s| ==> !IsUpperHex(s[i])
  }

  lemma DigitIsLower(d: nat)
    requires d < 16
    ensures !IsUpperHex(HexDigit(d))
  {
  }

  lemma UnitAddsNoUpperHex(u: Unit)
    requires !IsUpperHex(u)
    ensures NoUpperHex(EscapeUnit(u))
  {
    DigitIsLower(u / 4096);
    DigitIsLower(u / 256 % 16);
    DigitIsLower(u / 16 % 16);
    DigitIsLower(u % 16);
  }

  /** The digits of escapes are lower case: escaping brings in no letter from A to F. */
  lemma {:induction false} EscapeAddsNoUpperHex(s: Text)
    requires NoUpperHex(s)
    ensures NoUpperHex(Escape(s))
  {
    if s != [] {
      if IsPair(s) {
        EscapeAddsNoUpperHex(s[2..]);
      } else {
        UnitAddsNoUpperHex(s[0]);
        EscapeAddsNoUpperHex(s[1..]);
      }
    }
  }

  /** A string literal, read from after its opening quote, is at least as long as what it stands for costs. */
  lemma {:induction false} LiteralCosts(t: Text)
    requires ParseUnits(t).Some?
    ensures var r := ParseUnits(t).value; TotalCost(r.value) + 1 + |r.rest| <= |t|
  {
    var r := ParseUnits(t).value;
    if t[0] == QUOTE {
    } else if t[0] != BACKSLASH {
      LiteralCosts(t[1..]);
      assert r.value[1..] == ParseUnits(t[1..]).value.value;
    } else if t[1] == LOWER_U {
      LiteralCosts(t[6..]);
      assert r.value[1..] == ParseUnits(t[6..]).value.value;
    } else {
      LiteralCosts(t[2..]);
      assert r.value[1..] == ParseUnits(t[2..]).value.value;
    }
  }

  lemma LiteralIsNotShorter(t: Text)
    requires ParseUnits(t).Some? && WellFormed(ParseUnits(t).value.value)
    ensures var r := ParseUnits(t).value; |Quote(r.value)| + |r.rest| <= |t| + 1
  {
    LiteralCosts(t);
    EscapeCosts(ParseUnits(t).value.value);
  }

  // ---- Numbers. ----

  lemma NumeralIsNotShorter(t: Text)
    requires ParseNat(t).Some?
    ensures var r := ParseNat(t).value; |PrintNat(r.value)| + |r.rest| == |t|
  {
    PrintOfDigitsValue(t[..Digits(t)]);
  }

  // ---- Values. ----

  /** No string in the value has a lone surrogate. */
  ghost predicate Sound(v: Json)
    decreases v, 1
  {
    match v
    case String(s) => WellFormed(s)
    case Array(items) => SoundItems(items)
    case Object(members) => SoundMembers(members)
    case _ => true
  }

  ghost predicate SoundItems(items: seq<Json>)
    decreases items, 0
  {
    items != [] ==> Sound(items[0]) && SoundItems(items[1..])
  }

  ghost predicate SoundMembers(members: seq<Member>)
    decreases members, 0
  {
    members != [] ==> SoundMember(members[0]) && SoundMembers(members[1..])
  }

  ghost predicate SoundMember(m: Member)
    decreases m, 0
  {
    WellFormed(m.key) && Sound(m.value)
  }

  lemma {:induction false} ValueIsNotShorter(t: Text)
    requires ParseValue(t).Some? && Sound(ParseValue(t).value.value)
    ensures var r := ParseValue(t).value; |Stringify(r.value)| + |r.rest| <= |t|
    decreases |t|, 1
  {
    if t[0] in {LOWER_N, LOWER_T, LOWER_F} {
    } else if t[0] == QUOTE {
      LiteralIsNotShorter(t[1..]);
    } else if t[0] == LBRACKET {
      var inner := SkipSpace(t[1..]);
      if !(inner != [] && inner[0] == RBRACKET) {
        ItemsAreNotShorter(inner);
      }
    } else if t[0] == LBRACE {
      var inner := SkipSpace(t[1..]);
      if !(inner != [] && inner[0] == RBRACE) {
        MembersAreNotShorter(inner);
      }
    } else if t[0] == MINUS {
      NumeralIsNotShorter(t[1..]);
      NegativeIsNotShorter(ParseNat(t[1..]).value.value);
    } else {
      NumeralIsNotShorter(t);
    }
  }

  lemma NegativeIsNotShorter(n: nat)
    ensures |PrintInt(0 - n)| <= 1 + |PrintNat(n)|
  {
  }

  lemma {:induction false} ItemsAreNotShorter(t: Text)
    requires ParseItems(t).Some? && SoundItems(ParseItems(t).value.value)
    ensures var r := ParseItems(t).value; |StringifyItems(r.value)| + 1 + |r.rest| <= |t|
    decreases |t|, 2
  {
    var items, first := ParseItems(t).value.value, ParseValue(t).value;
    assert items[0] == first.value;
    ValueIsNotShorter(t);
    var after := SkipSpace(first.rest);
    if after[0] == COMMA {
      var others := SkipSpace(after[1..]);
      assert items[1..] == ParseItems(others).value.value;
      ItemsAreNotShorter(others);
    }
  }

  lemma {:induction false} MemberIsNotShorter(t: Text)
    requires ParseMember(t).Some? && SoundMember(ParseMember(t).value.value)
    ensures var r := ParseMember(t).value; |StringifyMember(r.value)| + |r.rest| <= |t|
    decreases |t|, 1
  {
    LiteralIsNotShorter(t[1..]);
    var colon := SkipSpace(ParseUnits(t[1..]).value.rest);
    ValueIsNotShorter(SkipSpace(colon[1..]));
  }

  lemma {:induction false} MembersAreNotShorter(t: Text)
    requires ParseMembers(t).Some? && SoundMembers(ParseMembers(t).value.value)
    ensures var r := ParseMembers(t).value; |StringifyMembers(r.value)| + 1 + |r.rest| <= |t|
    decreases |t|, 2
  {
    var members, first := ParseMembers(t).value.value, ParseMember(t).value;
    assert members[0] == first.value;
    MemberIsNotShorter(t);
    var after := SkipSpace(first.rest);
    if after[0] == COMMA {
      var others := SkipSpace(after[1..]);
      assert members[1..] == ParseMembers(others).value.value;
      MembersAreNotShorter(others);
    }
  }

  /** No text that parses to a value without lone surrogates is shorter than what is printed for it. */
  lemma NoTextIsShorter(t: Text, v: Json)
    requires Parse(t) == Some(v) && Sound(v)
    ensures |Stringify(v)| <= |t|
  {
    ValueIsNotShorter(SkipSpace(t));
  }
}
