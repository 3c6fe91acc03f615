/**
 The display file name of a crawler request: what the form lets through and what the parser of the
 server's responses accepts. Unicode normalisation is a parameter.
 */
module FileNames {
  import opened Utf16

  const DOT: Unit := 0x2E
  const SPACE: Unit := 0x20
  const MAX_FILE_NAME_BYTES := 255

  function Upper(u: Unit): Unit {
    if 0x61 <= u <= 0x7A then u - 0x20 else u
  }

  function UpperAll(s: Text): Text {
    seq(|s|, i requires 0 <= i < |s| => Upper(s[i]))
  }

  /** `toLowerCase().endsWith(".pdf")`; no other character lowers to one of these letters. */
  predicate EndsWithPdf(s: Text) {
    |s| >= 4 && UpperAll(s[|s| - 4..]) == Ascii(".PDF")
  }

  /** Path separators, wildcards and control characters. */
  predicate IsForbidden(u: int) {
    || u in {0x3C, 0x3E, 0x3A, 0x22, 0x2F, 0x5C, 0x7C, 0x3F, 0x2A}
    || 0 <= u <= 0x1F || 0x7F <= u <= 0x9F || u in {0x2028, 0x2029}
  }

  predicate IsBidiControl(u: int) {
    u in {0x061C, 0x200E, 0x200F} || 0x202A <= u <= 0x202E || 0x2066 <= u <= 0x2069
  }

  predicate CleanUnits(s: Text) {
    forall i :: 0 <= i < |s| ==> !IsForbidden(s[i]) && !IsBidiControl(s[i])
  }

  function BeforeDot(s: Text): Text {
    if s == [] || s[0] == DOT then [] else [s[0]] + BeforeDot(s[1..])
  }

  /** Without trailing spaces and dots. */
  function Stripped(s: Text): Text {
    if s != [] && s[|s| - 1] in {SPACE, DOT} then Stripped(s[..|s| - 1]) else s
  }

  /** A name Windows reserves, whatever its extension. */
  predicate IsReserved(s: Text) {
    var first := UpperAll(Stripped(BeforeDot(s)));
    || first in {Ascii("CON"), Ascii("PRN"), Ascii("AUX"), Ascii("NUL")}
    || (|first| == 4 && first[..3] in {Ascii("COM"), Ascii("LPT")} && 0x31 <= first[3] <= 0x39)
  }

  type Normalizer = Text -> Text

  /** What is assumed of NFC, at one text: it is idempotent and keeps well-formed text well formed. */
  ghost predicate NormalizesAt(nfc: Normalizer, s: Text) {
    nfc(nfc(s)) == nfc(s) && (WellFormed(s) ==> WellFormed(nfc(s)))
  }

  ghost predicate AcceptedByForm(nfc: Normalizer, name: Text) {
    && WellFormed(name)
    && var n := nfc(name);
       && n != [] && n == Trim(n) && EndsWithPdf(n)
       && CleanUnits(n) && !IsReserved(n) && Utf8Length(n) <= MAX_FILE_NAME_BYTES
  }

  ghost predicate AcceptedByParser(nfc: Normalizer, value: Text) {
    && 0 < |value| <= 255
    && WellFormed(value)
    && nfc(value) == value
    && value != [DOT] && value != [DOT, DOT]
    && value[|value| - 1] != DOT && value[|value| - 1] != SPACE
    && EndsWithPdf(value)
    && CleanUnits(value) && Utf8Length(value) <= MAX_FILE_NAME_BYTES
    && !IsReserved(value)
  }

  /** The file name part of the form's validation. */
  method FormAccepts(nfc: Normalizer, displayFileName: Text) returns (ok: bool)
    ensures ok <==> AcceptedByForm(nfc, displayFileName)
  {
    var unpaired := HasUnpairedSurrogate(displayFileName);
    if unpaired {
      return false;
    }
    var normalizedName := nfc(displayFileName);
    return !(normalizedName == []
             || normalizedName != Trim(normalizedName)
             || !EndsWithPdf(normalizedName)
             || !CleanUnits(normalizedName)
             || IsReserved(normalizedName)
             || Utf8Length(normalizedName) > MAX_FILE_NAME_BYTES);
  }

  /** The response parser; it throws where this says no. */
  method ParserAccepts(nfc: Normalizer, value: Text) returns (ok: bool)
    ensures ok <==> AcceptedByParser(nfc, value)
  {
    if |value| == 0 || |value| > 255 {
      return false;
    }
    var unpaired := HasUnpairedSurrogate(value);
    if unpaired
       || nfc(value) != value
       || value == [DOT]
       || value == [DOT, DOT]
       || value[|value| - 1] == DOT
       || value[|value| - 1] == SPACE
       || !EndsWithPdf(value)
       || !CleanUnits(value)
       || Utf8Length(value) > MAX_FILE_NAME_BYTES {
      return false;
    }
    return !IsReserved(value);
  }

  lemma PdfNameEnds(s: Text)
    requires EndsWithPdf(s)
    ensures |s| >= 4 && s[|s| - 1] in {0x46, 0x66}
  {
    assert UpperAll(s[|s| - 4..])[3] == Ascii(".PDF")[3];
    assert s[|s| - 4..][3] == s[|s| - 1];
  }

  /**
   The form accepts a name exactly when the name is well-formed UTF-16 and its normal form is one
   the parser accepts that does not start with white space.
   */
  lemma FormAgreesWithParser(nfc: Normalizer, name: Text)
    requires NormalizesAt(nfc, name)
    ensures AcceptedByForm(nfc, name) <==>
            WellFormed(name) && AcceptedByParser(nfc, nfc(name)) && !IsWhite(nfc(name)[0])
  {
    var n := nfc(name);
    TrimmedExactly(n);
    UnitsAndBytes(n);
    if EndsWithPdf(n) {
      PdfNameEnds(n);
    }
  }

  /** Whatever the form lets through, the parser accepts in normal form. */
  lemma AcceptedNamesParse(nfc: Normalizer, name: Text)
    requires NormalizesAt(nfc, name) && AcceptedByForm(nfc, name)
    ensures AcceptedByParser(nfc, nfc(name))
  {
    FormAgreesWithParser(nfc, name);
  }

  const SPACED_NAME: Text := Ascii(" a.pdf")

  lemma SpacedNameUnits()
    ensures SPACED_NAME == [0x20, 0x61, 0x2E, 0x70, 0x64, 0x66]
  {
  }

  lemma SpacedNameFirst(s: Text)
    requires |s| == 6 && s[0] == 0x20 && s[1] == 0x61 && s[2] == 0x2E
    ensures BeforeDot(s) == [0x20, 0x61]
  {
    assert BeforeDot(s[1..][1..]) == [];
    assert BeforeDot(s[1..]) == [0x61];
  }

  lemma SpacedNameIsFree(s: Text)
    requires BeforeDot(s) == [0x20, 0x61]
    ensures !IsReserved(s)
  {
    assert Stripped([0x20, 0x61]) == [0x20, 0x61];
    assert |UpperAll([0x20, 0x61])| == 2;
    assert |Ascii("CON")| == |Ascii("PRN")| == |Ascii("AUX")| == |Ascii("NUL")| == 3;
  }

  lemma SpacedNameEnds(s: Text)
    requires s == [0x20, 0x61, 0x2E, 0x70, 0x64, 0x66]
    ensures EndsWithPdf(s) && CleanUnits(s)
  {
    assert s[2..] == [0x2E, 0x70, 0x64, 0x66];
    assert UpperAll(s[2..]) == Ascii(".PDF");
  }

  lemma SpacedNameParses(nfc: Normalizer, s: Text)
    requires s == [0x20, 0x61, 0x2E, 0x70, 0x64, 0x66] && nfc(s) == s
    ensures AcceptedByParser(nfc, s) && Trim(s) != s
  {
    AsciiPoints(s);
    WellFormedByCodePoints(s);
    SpacedNameFirst(s);
    SpacedNameIsFree(s);
    SpacedNameEnds(s);
    UnitsAndBytes(s);
    TrimmedExactly(s);
  }

  /** The converse fails: the parser accepts a leading space, the form does not. */
  lemma ParserAcceptsMore(nfc: Normalizer)
    requires nfc(SPACED_NAME) == SPACED_NAME
    ensures AcceptedByParser(nfc, SPACED_NAME) && !AcceptedByForm(nfc, SPACED_NAME)
  {
    SpacedNameUnits();
    SpacedNameParses(nfc, SPACED_NAME);
  }

  lemma {:induction false} AsciiPoints(s: Text)
    requires forall i :: 0 <= i < |s| ==> s[i] < 0x80
    ensures CodePoints(s) == s
  {
    if s != [] {
      AsciiPoints(s[1..]);
      assert s == [s[0]] + s[1..];
    }
  }

  // ---- The tables, in characters. ----

  /** Controls, and the characters Windows and POSIX file names do not have. */
  lemma ForbiddenExactly(u: Unit)
    ensures IsForbidden(u) <==>
            || (u < 0x80 && u as char in "<>:\"/\\|?*")
            || u < 0x20 || 0x7F <= u < 0xA0 || u == 0x2028 || u == 0x2029
  {
  }

  predicate IsNumbered(name: Text, d: int) {
    1 <= d <= 9 && (name == Ascii("COM") + [0x30 + d] || name == Ascii("LPT") + [0x30 + d])
  }

  ghost predicate IsDevice(c: Text) {
    var name := UpperAll(c);
    || name == Ascii("CON") || name == Ascii("PRN") || name == Ascii("AUX") || name == Ascii("NUL")
    || exists d :: IsNumbered(name, d)
  }

  predicate AllSpaces(s: Text) {
    forall i :: 0 <= i < |s| ==> s[i] == SPACE
  }

  /** The name is that of a device in any case, then any spaces, then nothing or a dot and anything. */
  ghost predicate NamesDevice(s: Text, c: Text, pad: Text, ext: Text) {
    s == c + pad + ext && IsDevice(c) && AllSpaces(pad) && (ext != [] ==> ext[0] == DOT)
  }

  lemma {:induction false} BeforeDotIs(s: Text)
    ensures BeforeDot(s) <= s && DOT !in BeforeDot(s)
    ensures BeforeDot(s) != s ==> s[|BeforeDot(s)|] == DOT
  {
    if s != [] && s[0] != DOT {
      BeforeDotIs(s[1..]);
    }
  }

  lemma {:induction false} BeforeDotOf(front: Text, ext: Text)
    requires DOT !in front && (ext != [] ==> ext[0] == DOT)
    ensures BeforeDot(front + ext) == front
  {
    if front != [] {
      BeforeDotOf(front[1..], ext);
      assert (front + ext)[1..] == front[1..] + ext;
    } else {
      assert front + ext == ext;
    }
  }

  lemma {:induction false} StrippedIs(s: Text)
    requires DOT !in s
    ensures Stripped(s) <= s && AllSpaces(s[|Stripped(s)|..])
  {
    if s != [] && s[|s| - 1] in {SPACE, DOT} {
      StrippedIs(s[..|s| - 1]);
    }
  }

  lemma {:induction false} StrippedOf(c: Text, pad: Text)
    requires AllSpaces(pad) && c != [] && c[|c| - 1] != SPACE && c[|c| - 1] != DOT
    ensures Stripped(c + pad) == c
    decreases |pad|
  {
    if pad == [] {
      assert c + pad == c;
    } else {
      StrippedOf(c, pad[..|pad| - 1]);
      assert (c + pad)[..|c + pad| - 1] == c + pad[..|pad| - 1];
    }
  }

  lemma NumberedIsRange(name: Text)
    ensures (exists d :: IsNumbered(name, d)) <==>
            |name| == 4 && name[..3] in {Ascii("COM"), Ascii("LPT")} && 0x31 <= name[3] <= 0x39
  {
    if d :| IsNumbered(name, d) {
      assert name[..3] == Ascii("COM") || name[..3] == Ascii("LPT");
    }
    if |name| == 4 && name[..3] in {Ascii("COM"), Ascii("LPT")} && 0x31 <= name[3] <= 0x39 {
      assert name == name[..3] + [name[3]];
      var d: int := name[3];
      assert IsNumbered(name, d - 0x30);
    }
  }

  lemma ReservedIsDevice(s: Text)
    ensures IsReserved(s) <==> IsDevice(Stripped(BeforeDot(s)))
  {
    NumberedIsRange(UpperAll(Stripped(BeforeDot(s))));
  }

  lemma DeviceUnits(c: Text)
    requires IsDevice(c)
    ensures c != [] && DOT !in c && SPACE !in c
  {
    var name := UpperAll(c);
    assert forall i :: 0 <= i < |c| ==> name[i] == Upper(c[i]);
    assert forall i :: 0 <= i < |name| ==> name[i] >= 0x30;
  }

  /** A name is reserved exactly if it is that of a device, whatever follows it after a dot. */
  lemma ReservedExactly(s: Text)
    ensures IsReserved(s) <==> exists c, pad, ext :: NamesDevice(s, c, pad, ext)
  {
    ReservedIsDevice(s);
    BeforeDotIs(s);
    var stem := BeforeDot(s);
    if IsReserved(s) {
      StrippedIs(stem);
      var c := Stripped(stem);
      assert s == c + stem[|c|..] + s[|stem|..];
      assert NamesDevice(s, c, stem[|c|..], s[|stem|..]);
    }
    if c, pad, ext :| NamesDevice(s, c, pad, ext) {
      DeviceUnits(c);
      BeforeDotOf(c + pad, ext);
      StrippedOf(c, pad);
    }
  }

  /** A file name ends in `.pdf` in any case. */
  lemma EndsWithPdfExactly(s: Text)
    requires |s| >= 4 && forall i :: |s| - 4 <= i < |s| ==> s[i] < 0x80
    ensures EndsWithPdf(s) <==>
            && s[|s| - 4] as char == '.' && s[|s| - 3] as char in "pP" && s[|s| - 2] as char in "dD"
            && s[|s| - 1] as char in "fF"
  {
    var tail := s[|s| - 4..];
    var upper := UpperAll(tail);
    assert tail[0] == s[|s| - 4] && tail[1] == s[|s| - 3] && tail[2] == s[|s| - 2] && tail[3] == s[|s| - 1];
    assert upper[0] == Upper(tail[0]) && upper[1] == Upper(tail[1]);
    assert upper[2] == Upper(tail[2]) && upper[3] == Upper(tail[3]);
    assert Ascii(".PDF") == [0x2E, 0x50, 0x44, 0x46];
    assert upper == [upper[0], upper[1], upper[2], upper[3]];
  }

  /** The twelve marks of the Unicode Bidirectional Algorithm (UAX #9), one by one. */
  lemma BidiControlExactly(u: int)
    ensures IsBidiControl(u) <==>
            u in {0x061C, 0x200E, 0x200F, 0x202A, 0x202B, 0x202C, 0x202D, 0x202E, 0x2066, 0x2067, 0x2068, 0x2069}
  {
  }
}
