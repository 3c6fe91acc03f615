/**
 The validator of what the text extractor prints on its standard output. The loop that keeps three
 running values accepts exactly the results that meet a declarative contract.
 */
module ExtractionProtocol {
  import opened Common
  import opened Decimal
  import opened Paragraphs
  import opened Utf16

  /** A parsed JSON value; a numeral too large for a double parses to an infinity. */
  datatype Wire =
    | Null
    | Bool(b: bool)
    | Num(x: real)
    | Infinite
    | Str(s: Text)
    | Arr(items: seq<Wire>)
    | Obj(fields: map<string, Wire>)

  datatype Limits = Limits(maxPageCount: int, maxTextBytes: int, maxChunkCount: int, maxChunkBytes: int)

  /** Unicode tables: NFC, the categories Cc, Cf, Zl and Zp together, and the category Zs. */
  datatype Unicode = Unicode(nfc: Text -> Text, formatting: CodePoint -> bool, spaceSeparator: CodePoint -> bool)

  datatype Chunk = Chunk(sequence: nat, pageNumber: nat, paragraphId: Text, text: Text)
  datatype Outcome = Extracted | NoText

  datatype Extraction = Extraction(
    outcome: Outcome, engineVersion: Text, pageCount: nat, chunkCount: nat, textBytes: nat, chunks: seq<Chunk>)

  const MAX_SAFE_INTEGER := 0x1F_FFFF_FFFF_FFFF
  const POPPLER: Text := Ascii("poppler")
  const EXTRACTED: Text := Ascii("extracted")
  const NO_TEXT: Text := Ascii("no_text")
  const INTERNAL_KEYS := {"outcome", "engine", "engineVersion", "pageCount", "chunkCount", "textBytes", "chunks"}
  const WIRE_KEYS := INTERNAL_KEYS + {"schemaVersion"}
  const CHUNK_KEYS := {"sequence", "pageNumber", "paragraphId", "text"}

  // ---- Pure checks. A failed check throws, always with the same code; here it gives None. ----

  lemma {:induction false} SubsetOfSameSize<T>(a: set<T>, b: set<T>)
    requires a <= b && |a| == |b|
    ensures a == b
  {
    if x :| x in b && x !in a {
      assert a <= b - {x};
      SmallerSubset(a, b - {x});
    }
  }

  lemma {:induction false} SmallerSubset<T>(a: set<T>, b: set<T>)
    requires a <= b
    ensures |a| <= |b|
  {
    if x :| x in a {
      SmallerSubset(a - {x}, b - {x});
    }
  }

  /** As many own keys as expected, and every expected one among them. */
  predicate ExactKeys(fields: map<string, Wire>, keys: set<string>)
    ensures ExactKeys(fields, keys) <==> fields.Keys == keys
  {
    if |fields.Keys| == |keys| && forall key :: key in keys ==> key in fields then
      SubsetOfSameSize(keys, fields.Keys);
      true
    else false
  }

  predicate IsInteger(value: Wire, n: int) {
    value == Num(n as real) && -MAX_SAFE_INTEGER <= n <= MAX_SAFE_INTEGER
  }

  function BoundedInteger(value: Wire, minimum: int, maximum: int): (r: Option<int>)
    ensures r.Some? <==> exists n :: IsInteger(value, n) && minimum <= n <= maximum
    ensures r.Some? ==> IsInteger(value, r.value)
  {
    if value.Num? && value.x.Floor as real == value.x && -MAX_SAFE_INTEGER <= value.x.Floor <= MAX_SAFE_INTEGER
       && minimum <= value.x.Floor <= maximum
    then
      assert IsInteger(value, value.x.Floor);
      Some(value.x.Floor)
    else None
  }

  predicate IsAlphanumeric(u: Unit) {
    0x30 <= u <= 0x39 || 0x41 <= u <= 0x5A || 0x61 <= u <= 0x7A
  }

  predicate IsIdentifier(t: Text, maximum: nat) {
    && 0 < |t| <= maximum
    && IsAlphanumeric(t[0])
    && forall i :: 0 < i < |t| ==> IsAlphanumeric(t[i]) || t[i] in {0x2E, 0x5F, 0x3A, 0x2B, 0x2D}
  }

  // ---- Text. ----

  /** One of the 66 noncharacters. */
  ghost predicate Noncharacter(c: CodePoint) {
    0xFDD0 <= c <= 0xFDEF
    || exists plane :: 0 <= plane <= 16 && (c == plane * 0x1_0000 + 0xFFFE || c == plane * 0x1_0000 + 0xFFFF)
  }

  ghost predicate Unsafe(u: Unicode, c: CodePoint) {
    !IsScalar(c) || u.formatting(c) || Noncharacter(c)
  }

  lemma PlaneEnds(c: CodePoint)
    ensures c % 0x1_0000 == 0xFFFE || c % 0x1_0000 == 0xFFFF <==>
            exists plane :: 0 <= plane <= 16 && (c == plane * 0x1_0000 + 0xFFFE || c == plane * 0x1_0000 + 0xFFFF)
  {
    var plane := c / 0x1_0000;
    assert c == plane * 0x1_0000 + c % 0x1_0000;
  }

  method HasUnsafeUnicode(u: Unicode, value: Text) returns (unsafe: bool)
    ensures unsafe <==> exists c :: c in CodePoints(value) && Unsafe(u, c)
  {
    var points := CodePoints(value);
    if exists i :: 0 <= i < |points| && (!IsScalar(points[i]) || u.formatting(points[i])) {
      var i :| 0 <= i < |points| && (!IsScalar(points[i]) || u.formatting(points[i]));
      assert points[i] in points && Unsafe(u, points[i]);
      return true;
    }
    for i := 0 to |points|
      invariant forall j :: 0 <= j < i ==> !Noncharacter(points[j])
    {
      var point := points[i];
      PlaneEnds(point);
      if (0xFDD0 <= point <= 0xFDEF) || point % 0x1_0000 == 0xFFFE || point % 0x1_0000 == 0xFFFF {
        assert point in points && Unsafe(u, point);
        return true;
      }
    }
    return false;
  }

  function RemoveSpaces(s: Text): Text {
    if s == [] then [] else (if s[0] == 0x20 then [] else [s[0]]) + RemoveSpaces(s[1..])
  }

  /** In well-formed text, taking the spaces out joins no surrogates: exactly the other characters stay. */
  lemma {:induction false} RemovingSpaces(s: Text, c: CodePoint)
    requires Scalars(CodePoints(s))
    ensures c in CodePoints(RemoveSpaces(s)) <==> c in CodePoints(s) && c != 0x20
  {
    if s == [] {
    } else if IsPair(s) {
      var rest := RemoveSpaces(s[2..]);
      assert s[1..][1..] == s[2..];
      assert RemoveSpaces(s[1..]) == [s[1]] + rest;
      assert RemoveSpaces(s) == [s[0], s[1]] + rest;
      assert RemoveSpaces(s)[2..] == rest;
      ScalarsOfCons(PairValue(s[0], s[1]), CodePoints(s[2..]));
      RemovingSpaces(s[2..], c);
    } else {
      ScalarsOfCons(s[0], CodePoints(s[1..]));
      RemovingSpaces(s[1..], c);
      assert CodePoints(s) == [s[0]] + CodePoints(s[1..]);
      assert c in CodePoints(s) <==> c == s[0] || c in CodePoints(s[1..]);
      if s[0] == 0x20 {
        assert RemoveSpaces(s) == RemoveSpaces(s[1..]);
      } else {
        var r := RemoveSpaces(s);
        assert r[1..] == RemoveSpaces(s[1..]);
        assert CodePoints(r) == [s[0]] + CodePoints(RemoveSpaces(s[1..]));
        assert c in CodePoints(r) <==> c == s[0] || c in CodePoints(RemoveSpaces(s[1..]));
      }
    }
  }

  /** Stored text: trimmed, normal, of visible scalar values, with single ordinary spaces only. */
  ghost predicate CleanText(u: Unicode, limits: Limits, text: Text) {
    && text != [] && !IsWhite(text[0]) && !IsWhite(text[|text| - 1])
    && u.nfc(text) == text
    && WellFormed(text)
    && (forall c :: c in CodePoints(text) ==> !u.formatting(c) && !Noncharacter(c))
    && (forall c :: c in CodePoints(text) && u.spaceSeparator(c) ==> c == 0x20)
    && (forall i :: 0 <= i < |text| - 1 ==> text[i] != 0x20 || text[i + 1] != 0x20)
    && Utf8Length(text) <= limits.maxChunkBytes
  }

  lemma NoUnsafePoint(u: Unicode, text: Text)
    ensures (forall c :: c in CodePoints(text) ==> !Unsafe(u, c)) <==>
            WellFormed(text) && forall c :: c in CodePoints(text) ==> !u.formatting(c) && !Noncharacter(c)
  {
    WellFormedByCodePoints(text);
    if forall c :: c in CodePoints(text) ==> !Unsafe(u, c) {
      forall i | 0 <= i < |CodePoints(text)| ensures IsScalar(CodePoints(text)[i]) {
        assert CodePoints(text)[i] in CodePoints(text);
      }
    }
  }

  method AcceptsText(u: Unicode, limits: Limits, text: Text) returns (ok: bool)
    ensures ok <==> CleanText(u, limits, text)
  {
    TrimmedExactly(text);
    if |text| == 0 || text != Trim(text) || text != u.nfc(text) {
      return false;
    }
    var unsafe := HasUnsafeUnicode(u, text);
    NoUnsafePoint(u, text);
    if unsafe {
      return false;
    }
    WellFormedByCodePoints(text);
    forall c: CodePoint
      ensures c in CodePoints(RemoveSpaces(text)) <==> c in CodePoints(text) && c != 0x20
    {
      RemovingSpaces(text, c);
    }
    if exists c :: c in CodePoints(RemoveSpaces(text)) && u.spaceSeparator(c) {
      return false;
    }
    if exists i :: 0 <= i < |text| - 1 && text[i] == 0x20 && text[i + 1] == 0x20 {
      return false;
    }
    return Utf8Length(text) <= limits.maxChunkBytes;
  }

  // ---- Chunks. ----

  /** The value is the wire form of the chunk, whose parts are each admissible on their own. */
  ghost predicate ChunkWire(u: Unicode, limits: Limits, value: Wire, c: Chunk) {
    && value.Obj? && value.fields.Keys == CHUNK_KEYS
    && value.fields["sequence"] == Num(c.sequence as real)
    && value.fields["pageNumber"] == Num(c.pageNumber as real)
    && value.fields["paragraphId"] == Str(c.paragraphId)
    && value.fields["text"] == Str(c.text)
    && 1 <= c.pageNumber <= limits.maxPageCount && c.pageNumber <= MAX_SAFE_INTEGER
    && CleanText(u, limits, c.text)
  }

  /** The identifier names the chunk's page and some paragraph. */
  predicate Located(c: Chunk) {
    && c.pageNumber >= 1
    && MatchParagraphId(c.paragraphId).Some?
    && MatchParagraphId(c.paragraphId).value.0 == c.pageNumber
  }

  ghost predicate ChunkMeets(u: Unicode, limits: Limits, value: Wire, sequence: nat, c: Chunk) {
    ChunkWire(u, limits, value, c) && c.sequence == sequence && Located(c) && |c.paragraphId| <= 64
  }

  method ValidateChunk(u: Unicode, limits: Limits, value: Wire, sequence: nat) returns (r: Option<Chunk>)
    ensures r.Some? ==> ChunkMeets(u, limits, value, sequence, r.value)
    ensures r.None? ==> Rejected(u, limits, value, sequence)
  {
    if !value.Obj? || !ExactKeys(value.fields, CHUNK_KEYS) {
      return None;
    }
    var chunk := value.fields;
    if chunk["sequence"] != Num(sequence as real) {
      return None;
    }
    var pageNumber := BoundedInteger(chunk["pageNumber"], 1, limits.maxPageCount);
    if pageNumber.None? {
      return None;
    }
    var paragraphId := if chunk["paragraphId"].Str? then chunk["paragraphId"].s else [];
    var groups := MatchParagraphId(paragraphId);
    // `Number` is exact on every numeral it maps to a safe integer.
    if groups.None? || groups.value.0 != pageNumber.value || |paragraphId| > 64 {
      return None;
    }
    var text := if chunk["text"].Str? then chunk["text"].s else [];
    var ok := AcceptsText(u, limits, text);
    if !ok {
      return None;
    }
    return Some(Chunk(sequence, pageNumber.value, paragraphId, text));
  }

  ghost predicate AllMeet(u: Unicode, limits: Limits, items: seq<Wire>, chunks: seq<Chunk>) {
    |chunks| == |items| && forall i :: 0 <= i < |items| ==> ChunkMeets(u, limits, items[i], i, chunks[i])
  }

  ghost predicate SomeRejected(u: Unicode, limits: Limits, items: seq<Wire>) {
    exists i :: 0 <= i < |items| && Rejected(u, limits, items[i], i)
  }

  ghost predicate Rejected(u: Unicode, limits: Limits, item: Wire, sequence: nat) {
    forall c :: !ChunkMeets(u, limits, item, sequence, c)
  }

  method ValidateChunks(u: Unicode, limits: Limits, items: seq<Wire>) returns (r: Option<seq<Chunk>>)
    ensures r.Some? ==> AllMeet(u, limits, items, r.value)
    ensures r.None? ==> SomeRejected(u, limits, items)
  {
    var chunks := [];
    for i := 0 to |items|
      invariant |chunks| == i
      invariant forall j :: 0 <= j < i ==> ChunkMeets(u, limits, items[j], j, chunks[j])
    {
      var chunk := ValidateChunk(u, limits, items[i], i);
      if chunk.None? {
        return None;
      }
      chunks := chunks + [chunk.value];
    }
    return Some(chunks);
  }

  // ---- Order and totals. ----

  function Pages(chunks: seq<Chunk>): seq<nat> {
    seq(|chunks|, i requires 0 <= i < |chunks| => chunks[i].pageNumber)
  }

  function ParagraphOf(c: Chunk): nat {
    if MatchParagraphId(c.paragraphId).Some? then MatchParagraphId(c.paragraphId).value.1 else 0
  }

  function Numbers(chunks: seq<Chunk>): seq<nat> {
    seq(|chunks|, i requires 0 <= i < |chunks| => ParagraphOf(chunks[i]))
  }

  /** Some gapless numbering of the pages is the one the identifiers spell out. */
  ghost predicate Numbered(chunks: seq<Chunk>) {
    exists numbers :: Gapless(Pages(chunks), numbers) && Spelled(chunks, numbers)
  }

  predicate Spelled(chunks: seq<Chunk>, numbers: seq<nat>) {
    && |numbers| == |chunks|
    && forall i :: 0 <= i < |chunks| ==>
         chunks[i].paragraphId == ParagraphIdText(chunks[i].pageNumber, numbers[i])
  }

  function Sizes(chunks: seq<Chunk>): seq<nat> {
    seq(|chunks|, i requires 0 <= i < |chunks| => Utf8Length(chunks[i].text))
  }

  function Sum(sizes: seq<nat>): nat {
    if sizes == [] then 0 else Sum(sizes[..|sizes| - 1]) + sizes[|sizes| - 1]
  }

  lemma IdsSpellNumbers(chunks: seq<Chunk>, numbers: seq<nat>)
    requires forall i :: 0 <= i < |chunks| ==> chunks[i].pageNumber >= 1
    requires Gapless(Pages(chunks), numbers) && Spelled(chunks, numbers)
    ensures numbers == Numbers(chunks)
    ensures forall i :: 0 <= i < |chunks| ==> Located(chunks[i])
  {
    forall i | 0 <= i < |chunks| ensures numbers[i] == Numbers(chunks)[i] && Located(chunks[i]) {
      assert |Pages(chunks)| == |chunks|;
      MatchedExactly(chunks[i].paragraphId, chunks[i].pageNumber, numbers[i]);
    }
  }

  lemma GaplessMeansNumbered(chunks: seq<Chunk>)
    requires forall i :: 0 <= i < |chunks| ==> Located(chunks[i])
    ensures Gapless(Pages(chunks), Numbers(chunks)) <==> Numbered(chunks)
  {
    forall i | 0 <= i < |chunks|
      ensures chunks[i].paragraphId == ParagraphIdText(chunks[i].pageNumber, Numbers(chunks)[i])
    {
      TextOfMatch(chunks[i].paragraphId);
    }
    assert Spelled(chunks, Numbers(chunks));
    if Numbered(chunks) {
      var numbers :| Gapless(Pages(chunks), numbers) && Spelled(chunks, numbers);
      IdsSpellNumbers(chunks, numbers);
    }
  }

  /**
   The loop with its three running values, over the page, paragraph number and byte length of each
   chunk; None where it throws.
   */
  method CheckOrder(pages: seq<nat>, numbers: seq<nat>, sizes: seq<nat>) returns (r: Option<nat>)
    requires |pages| == |numbers| == |sizes| <= MAX_SAFE_INTEGER
    requires forall i :: 0 <= i < |pages| ==> pages[i] >= 1
    ensures r.Some? <==> Gapless(pages, numbers)
    ensures r.Some? ==> r.value == Sum(sizes)
  {
    NeighbourTestDecides(pages, numbers);
    var calculatedBytes: nat, previousPage: nat, previousParagraph: nat := 0, 0, 0;
    for i := 0 to |pages|
      invariant previousPage == if i == 0 then 0 else pages[i - 1]
      invariant previousParagraph == if i == 0 then 0 else numbers[i - 1]
      invariant forall j :: 0 <= j < i ==> StepOk(pages, numbers, j)
      invariant calculatedBytes == Sum(sizes[..i])
    {
      assert sizes[..i + 1][..i] == sizes[..i];
      if pages[i] < previousPage {
        assert !StepOk(pages, numbers, i);
        return None;
      }
      if numbers[i] > MAX_SAFE_INTEGER {
        if Stepwise(pages, numbers) {
          StepwiseStartsAtOne(pages, numbers, i);
        }
        return None;
      }
      if pages[i] != previousPage {
        if numbers[i] != 1 {
          assert !StepOk(pages, numbers, i);
          return None;
        }
        previousParagraph := 0;
      }
      if numbers[i] != previousParagraph && numbers[i] != previousParagraph + 1 {
        assert !StepOk(pages, numbers, i);
        return None;
      }
      assert StepOk(pages, numbers, i);
      previousPage := pages[i];
      previousParagraph := numbers[i];
      calculatedBytes := calculatedBytes + sizes[i];
    }
    assert sizes[..|pages|] == sizes;
    return Some(calculatedBytes);
  }

  // ---- The whole result. ----

  function OutcomeText(o: Outcome): Text {
    if o == Extracted then EXTRACTED else NO_TEXT
  }

  /** The value has exactly the expected fields, and all but the chunks are those of the result. */
  ghost predicate HeaderWire(limits: Limits, value: Wire, e: Extraction) {
    && value.Obj?
    && (if "schemaVersion" in value.fields
        then value.fields.Keys == WIRE_KEYS && IsInteger(value.fields["schemaVersion"], 1)
        else value.fields.Keys == INTERNAL_KEYS)
    && value.fields["outcome"] == Str(OutcomeText(e.outcome))
    && value.fields["engine"] == Str(POPPLER)
    && value.fields["engineVersion"] == Str(e.engineVersion) && IsIdentifier(e.engineVersion, 128)
    && IsInteger(value.fields["pageCount"], e.pageCount) && 1 <= e.pageCount <= limits.maxPageCount
    && IsInteger(value.fields["chunkCount"], e.chunkCount) && e.chunkCount <= limits.maxChunkCount
    && IsInteger(value.fields["textBytes"], e.textBytes) && e.textBytes <= limits.maxTextBytes
    && value.fields["chunks"].Arr? && |value.fields["chunks"].items| == |e.chunks|
  }

  /** The declarative contract of an accepted value and the result it gives. */
  ghost predicate Meets(u: Unicode, limits: Limits, value: Wire, e: Extraction) {
    && HeaderWire(limits, value, e)
    && (forall i :: 0 <= i < |e.chunks| ==>
          ChunkWire(u, limits, value.fields["chunks"].items[i], e.chunks[i]) && e.chunks[i].sequence == i)
    && Numbered(e.chunks)
    && e.chunkCount == |e.chunks|
    && e.textBytes == Sum(Sizes(e.chunks))
    && (e.outcome == NoText <==> e.chunks == [])
  }

  datatype Header = Header(outcome: Outcome, pageCount: nat, chunkCount: nat, textBytes: nat,
                           engine: Text, items: seq<Wire>)

  /** The result agrees with the header and with the engine version, which is read last. */
  predicate Agrees(h: Header, value: Wire, e: Extraction) {
    && e.outcome == h.outcome && e.pageCount == h.pageCount
    && e.chunkCount == h.chunkCount && e.textBytes == h.textBytes
    && |e.chunks| == |h.items| && h.engine == POPPLER
    && value.Obj? && "engineVersion" in value.fields
    && value.fields["engineVersion"] == Str(e.engineVersion) && IsIdentifier(e.engineVersion, 128)
  }

  /** The header holds all the fields there are to check before the chunks. */
  ghost predicate Reads(limits: Limits, value: Wire, h: Header) {
    && value.Obj? && "engineVersion" in value.fields && "chunks" in value.fields
    && |h.items| == h.chunkCount <= MAX_SAFE_INTEGER
    && value.fields["chunks"] == Arr(h.items)
    && forall e :: HeaderWire(limits, value, e) <==> Agrees(h, value, e)
  }

  /** The checks up to the chunks. */
  method ReadHeader(limits: Limits, value: Wire) returns (r: Option<Header>)
    ensures r.Some? ==> Reads(limits, value, r.value)
    ensures r.None? ==> forall e :: HeaderWire(limits, value, e) ==> e.chunkCount != |e.chunks|
  {
    if !value.Obj? {
      return None;
    }
    var result := value.fields;
    var hasWireSchema := "schemaVersion" in result;
    if !ExactKeys(result, if hasWireSchema then WIRE_KEYS else INTERNAL_KEYS) {
      return None;
    }
    OutcomesDiffer();
    if (hasWireSchema && !IsInteger(result["schemaVersion"], 1))
       || (result["outcome"] != Str(EXTRACTED) && result["outcome"] != Str(NO_TEXT))
       || !result["chunks"].Arr? {
      return None;
    }
    var outcome := if result["outcome"] == Str(EXTRACTED) then Extracted else NoText;
    var pageCount := BoundedInteger(result["pageCount"], 1, limits.maxPageCount);
    var chunkCount := BoundedInteger(result["chunkCount"], 0, limits.maxChunkCount);
    var textBytes := BoundedInteger(result["textBytes"], 0, limits.maxTextBytes);
    if pageCount.None? || chunkCount.None? || textBytes.None? {
      return None;
    }
    PopplerIsIdentifier();
    if !result["engine"].Str? || !IsIdentifier(result["engine"].s, 64) {
      return None;
    }
    var items := result["chunks"].items;
    if chunkCount.value != |items| {
      return None;
    }
    return Some(Header(outcome, pageCount.value, chunkCount.value, textBytes.value, result["engine"].s, items));
  }

  lemma OutcomesDiffer()
    ensures EXTRACTED != NO_TEXT
  {
    assert |EXTRACTED| == 9 && |NO_TEXT| == 7;
  }

  lemma PopplerIsIdentifier()
    ensures IsIdentifier(POPPLER, 64)
  {
  }

  lemma ChunkWireDetermines(u: Unicode, limits: Limits, value: Wire, c: Chunk, d: Chunk)
    requires ChunkWire(u, limits, value, c) && ChunkWire(u, limits, value, d)
    ensures c == d
  {
  }

  lemma SafeIntegersPrintShort(n: nat)
    requires n <= MAX_SAFE_INTEGER
    ensures |PrintNat(n)| <= 16
  {
    assert Pow10(4) == 10_000;
    assert Pow10(8) == 1_0000_0000;
    assert Pow10(12) == 1_0000_0000_0000;
    assert Pow10(16) == 1_0000_0000_0000_0000;
    PrintNatLength(n, 16);
  }

  /** The length limit on identifiers never bites on a well-numbered result. */
  lemma ShortIds(chunks: seq<Chunk>)
    requires Numbered(chunks) && |chunks| <= MAX_SAFE_INTEGER
    requires forall i :: 0 <= i < |chunks| ==> 1 <= chunks[i].pageNumber <= MAX_SAFE_INTEGER
    ensures forall i :: 0 <= i < |chunks| ==> Located(chunks[i]) && |chunks[i].paragraphId| <= 64
  {
    var numbers :| Gapless(Pages(chunks), numbers) && Spelled(chunks, numbers);
    IdsSpellNumbers(chunks, numbers);
    NeighbourTestDecides(Pages(chunks), numbers);
    forall i | 0 <= i < |chunks| ensures |chunks[i].paragraphId| <= 64 {
      StepwiseStartsAtOne(Pages(chunks), numbers, i);
      SafeIntegersPrintShort(chunks[i].pageNumber);
      SafeIntegersPrintShort(numbers[i]);
    }
  }

  lemma MeetsGivesChunks(u: Unicode, limits: Limits, value: Wire, e: Extraction, i: nat)
    requires Meets(u, limits, value, e) && i < |e.chunks|
    ensures Located(e.chunks[i])
    ensures ChunkMeets(u, limits, value.fields["chunks"].items[i], i, e.chunks[i])
  {
    ShortIds(e.chunks);
  }

  lemma MeetsDeterminesChunks(u: Unicode, limits: Limits, value: Wire, e: Extraction, chunks: seq<Chunk>)
    requires Meets(u, limits, value, e) && |chunks| == |value.fields["chunks"].items|
    requires forall i :: 0 <= i < |chunks| ==> ChunkMeets(u, limits, value.fields["chunks"].items[i], i, chunks[i])
    ensures e.chunks == chunks
  {
    forall i | 0 <= i < |chunks| ensures e.chunks[i] == chunks[i] {
      ChunkWireDetermines(u, limits, value.fields["chunks"].items[i], e.chunks[i], chunks[i]);
    }
  }

  /** Every admissible text takes at least one byte, so a total of zero means no chunks. */
  lemma BytesOfNoChunks(chunks: seq<Chunk>)
    requires forall i :: 0 <= i < |chunks| ==> chunks[i].text != []
    ensures Sum(Sizes(chunks)) >= |chunks|
    ensures chunks == [] ==> Sum(Sizes(chunks)) == 0
  {
    forall i | 0 <= i < |chunks| ensures Sizes(chunks)[i] >= 1 {
      UnitsAndBytes(chunks[i].text);
    }
    SumOfPositive(Sizes(chunks));
  }

  lemma {:induction false} SumOfPositive(sizes: seq<nat>)
    requires forall i :: 0 <= i < |sizes| ==> sizes[i] >= 1
    ensures Sum(sizes) >= |sizes|
  {
    if sizes != [] {
      SumOfPositive(sizes[..|sizes| - 1]);
    }
  }

  ghost predicate Consistent(h: Header, chunks: seq<Chunk>) {
    && Gapless(Pages(chunks), Numbers(chunks))
    && h.textBytes == Sum(Sizes(chunks))
    && (h.outcome == NoText <==> chunks == [])
  }

  lemma ContractFixesChunks(u: Unicode, limits: Limits, value: Wire, h: Header, chunks: seq<Chunk>, e: Extraction)
    requires Reads(limits, value, h) && AllMeet(u, limits, h.items, chunks) && Meets(u, limits, value, e)
    ensures Agrees(h, value, e) && e.chunks == chunks && Consistent(h, chunks)
  {
    MeetsDeterminesChunks(u, limits, value, e, chunks);
    LocatedAll(u, limits, h.items, chunks);
    GaplessMeansNumbered(chunks);
  }

  lemma LocatedAll(u: Unicode, limits: Limits, items: seq<Wire>, chunks: seq<Chunk>)
    requires AllMeet(u, limits, items, chunks)
    ensures forall i :: 0 <= i < |chunks| ==> Located(chunks[i])
  {
    forall i | 0 <= i < |chunks| ensures Located(chunks[i]) {
      assert ChunkMeets(u, limits, items[i], i, chunks[i]);
    }
  }

  lemma ConsistentChunksMeet(u: Unicode, limits: Limits, value: Wire, h: Header, chunks: seq<Chunk>, e: Extraction)
    requires Reads(limits, value, h) && AllMeet(u, limits, h.items, chunks)
    requires Agrees(h, value, e) && e.chunks == chunks && Consistent(h, chunks)
    ensures Meets(u, limits, value, e)
  {
    LocatedAll(u, limits, h.items, chunks);
    GaplessMeansNumbered(chunks);
    forall i | 0 <= i < |chunks|
      ensures ChunkWire(u, limits, h.items[i], chunks[i]) && chunks[i].sequence == i
    {
      assert ChunkMeets(u, limits, h.items[i], i, chunks[i]);
    }
  }

  /** Once header and chunks are read, the contract comes down to what the code still tests. */
  lemma ContractAfterChunks(u: Unicode, limits: Limits, value: Wire, h: Header, chunks: seq<Chunk>, e: Extraction)
    requires Reads(limits, value, h) && AllMeet(u, limits, h.items, chunks)
    ensures Meets(u, limits, value, e) <==> Agrees(h, value, e) && e.chunks == chunks && Consistent(h, chunks)
  {
    if Meets(u, limits, value, e) {
      ContractFixesChunks(u, limits, value, h, chunks, e);
    } else if Agrees(h, value, e) && e.chunks == chunks && Consistent(h, chunks) {
      ConsistentChunksMeet(u, limits, value, h, chunks, e);
    }
  }

  ghost predicate NothingMeets(u: Unicode, limits: Limits, value: Wire) {
    forall e :: !Meets(u, limits, value, e)
  }

  lemma NoContractWithoutHeader(u: Unicode, limits: Limits, value: Wire)
    requires forall e :: HeaderWire(limits, value, e) ==> e.chunkCount != |e.chunks|
    ensures NothingMeets(u, limits, value)
  {
  }

  lemma NoContractWithoutChunks(u: Unicode, limits: Limits, value: Wire, h: Header)
    requires Reads(limits, value, h) && SomeRejected(u, limits, h.items)
    ensures NothingMeets(u, limits, value)
  {
    var i: nat :| i < |h.items| && Rejected(u, limits, h.items[i], i);
    forall e ensures !Meets(u, limits, value, e) {
      if Meets(u, limits, value, e) {
        MeetsGivesChunks(u, limits, value, e, i);
      }
    }
  }

  /** The loop and the comparisons after it. */
  method CheckTotals(h: Header, chunks: seq<Chunk>) returns (ok: bool)
    requires |chunks| == h.chunkCount <= MAX_SAFE_INTEGER
    requires forall i :: 0 <= i < |chunks| ==> chunks[i].pageNumber >= 1 && chunks[i].text != []
    ensures ok <==> Consistent(h, chunks) && h.engine == POPPLER
  {
    BytesOfNoChunks(chunks);
    var calculatedBytes := CheckOrder(Pages(chunks), Numbers(chunks), Sizes(chunks));
    if calculatedBytes.None? {
      return false;
    }
    return !(calculatedBytes.value != h.textBytes
             || h.engine != POPPLER
             || (h.outcome == NoText && (h.chunkCount != 0 || h.textBytes != 0))
             || (h.outcome == Extracted && (h.chunkCount < 1 || h.textBytes < 1)));
  }

  lemma EveryChunkIsUsable(u: Unicode, limits: Limits, items: seq<Wire>, chunks: seq<Chunk>)
    requires AllMeet(u, limits, items, chunks)
    ensures |chunks| == |items|
    ensures forall i :: 0 <= i < |chunks| ==> chunks[i].pageNumber >= 1 && chunks[i].text != []
  {
    forall i | 0 <= i < |chunks| ensures chunks[i].pageNumber >= 1 && chunks[i].text != [] {
      assert ChunkMeets(u, limits, items[i], i, chunks[i]);
    }
  }

  function Result(value: Wire, h: Header, chunks: seq<Chunk>): Option<Extraction>
    requires value.Obj? && "engineVersion" in value.fields
  {
    var version := value.fields["engineVersion"];
    if version.Str? && IsIdentifier(version.s, 128)
    then Some(Extraction(h.outcome, version.s, h.pageCount, h.chunkCount, h.textBytes, chunks))
    else None
  }

  /** Given the chunks, the code's remaining decision is the contract's. */
  lemma Decision(u: Unicode, limits: Limits, value: Wire, h: Header, chunks: seq<Chunk>)
    requires Reads(limits, value, h) && AllMeet(u, limits, h.items, chunks)
    ensures Consistent(h, chunks) && h.engine == POPPLER && Result(value, h, chunks).Some? ==>
              Meets(u, limits, value, Result(value, h, chunks).value)
    ensures (Consistent(h, chunks) && h.engine == POPPLER && Result(value, h, chunks).Some?)
            || NothingMeets(u, limits, value)
  {
    if Consistent(h, chunks) && h.engine == POPPLER && Result(value, h, chunks).Some? {
      ContractAfterChunks(u, limits, value, h, chunks, Result(value, h, chunks).value);
    } else {
      forall e ensures !Meets(u, limits, value, e) {
        ContractAfterChunks(u, limits, value, h, chunks, e);
      }
    }
  }

  method ValidateWithHeader(u: Unicode, limits: Limits, value: Wire, h: Header) returns (r: Option<Extraction>)
    requires Reads(limits, value, h)
    ensures if r.Some? then Meets(u, limits, value, r.value) else NothingMeets(u, limits, value)
  {
    var validated := ValidateChunks(u, limits, h.items);
    if validated.None? {
      NoContractWithoutChunks(u, limits, value, h);
      return None;
    }
    var chunks := validated.value;
    EveryChunkIsUsable(u, limits, h.items, chunks);
    Decision(u, limits, value, h, chunks);
    var ok := CheckTotals(h, chunks);
    return if ok then Result(value, h, chunks) else None;
  }

  /** A result is accepted exactly when it meets the contract, and then returned unchanged. */
  method ValidateExtractionResult(u: Unicode, limits: Limits, value: Wire) returns (r: Option<Extraction>)
    ensures r.Some? ==> Meets(u, limits, value, r.value)
    ensures r.None? ==> forall e :: !Meets(u, limits, value, e)
  {
    var header := ReadHeader(limits, value);
    if header.None? {
      NoContractWithoutHeader(u, limits, value);
      return None;
    }
    r := ValidateWithHeader(u, limits, value, header.value);
  }

  // ---- Identifiers, in characters. ----

  predicate IsIdentifierStart(c: char) {
    '0' <= c <= '9' || 'A' <= c <= 'Z' || 'a' <= c <= 'z'
  }

  /** An identifier begins with a letter or digit and goes on with these and the characters `._:+-`. */
  lemma IdentifierExactly(t: Text, maximum: nat)
    requires forall i :: 0 <= i < |t| ==> t[i] < 0x80
    ensures IsIdentifier(t, maximum) <==>
            && 0 < |t| <= maximum && IsIdentifierStart(t[0] as char)
            && forall i :: 0 <= i < |t| ==> IsIdentifierStart(t[i] as char) || t[i] as char in "._:+-"
  {
    assert forall i :: 0 <= i < |t| ==> (t[i] as char in "._:+-" <==> t[i] in {0x2E, 0x5F, 0x3A, 0x2B, 0x2D});
  }

  /** The safe integers end at two to the power of 53, less one. */
  lemma SafeIntegersExactly(n: int)
    ensures IsInteger(Num(n as real), n) <==> -9007199254740991 <= n <= 9007199254740991
  {
  }
}
