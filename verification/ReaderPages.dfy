/**
 How the Reader groups extracted chunks by page, and what the grouping is worth on lists the
 extraction validator accepts.
 */
module ReaderPages {
  import opened ExtractionProtocol
  import opened Paragraphs
  import opened Utf16

  datatype Group = Group(pageNumber: nat, chunks: seq<Chunk>)

  /** `grouped.set(page, [...(grouped.get(page) ?? []), chunk])` on a map that keeps insertion order. */
  function Put(groups: seq<Group>, c: Chunk): seq<Group> {
    if groups == [] then [Group(c.pageNumber, [c])]
    else if groups[0].pageNumber == c.pageNumber then [Group(c.pageNumber, groups[0].chunks + [c])] + groups[1..]
    else [groups[0]] + Put(groups[1..], c)
  }

  function Grouped(chunks: seq<Chunk>): seq<Group> {
    if chunks == [] then [] else Put(Grouped(chunks[..|chunks| - 1]), chunks[|chunks| - 1])
  }

  method ChunksByPage(chunks: seq<Chunk>) returns (groups: seq<Group>)
    ensures groups == Grouped(chunks)
  {
    groups := [];
    for i := 0 to |chunks|
      invariant groups == Grouped(chunks[..i])
    {
      assert chunks[..i + 1][..i] == chunks[..i];
      groups := Put(groups, chunks[i]);
    }
    assert chunks[..|chunks|] == chunks;
  }

  // ---- The grouping is a stable partition. ----

  /** The chunks of one page, in their order. */
  function OfPage(chunks: seq<Chunk>, page: nat): seq<Chunk> {
    if chunks == [] then []
    else
      OfPage(chunks[..|chunks| - 1], page)
      + if chunks[|chunks| - 1].pageNumber == page then [chunks[|chunks| - 1]] else []
  }

  ghost predicate HasPage(chunks: seq<Chunk>, page: nat) {
    exists i :: 0 <= i < |chunks| && chunks[i].pageNumber == page
  }

  /** Where a page first appears; the length of the list if it does not. */
  function FirstAt(chunks: seq<Chunk>, page: nat): (n: nat)
    ensures n <= |chunks|
    ensures n < |chunks| ==> chunks[n].pageNumber == page
    ensures forall i :: 0 <= i < n ==> chunks[i].pageNumber != page
  {
    if chunks == [] || chunks[0].pageNumber == page then 0 else 1 + FirstAt(chunks[1..], page)
  }

  ghost predicate Present(groups: seq<Group>, page: nat) {
    exists i :: 0 <= i < |groups| && groups[i].pageNumber == page
  }

  /** Every group holds all the chunks of its page in order, and there are some. */
  ghost predicate HoldPages(chunks: seq<Chunk>, groups: seq<Group>) {
    forall i :: 0 <= i < |groups| ==>
      groups[i].chunks == OfPage(chunks, groups[i].pageNumber) && HasPage(chunks, groups[i].pageNumber)
  }

  ghost predicate Cover(chunks: seq<Chunk>, groups: seq<Group>) {
    forall k :: 0 <= k < |chunks| ==> Present(groups, chunks[k].pageNumber)
  }

  predicate InFirstOrder(chunks: seq<Chunk>, groups: seq<Group>) {
    forall i, j :: 0 <= i < j < |groups| ==>
      FirstAt(chunks, groups[i].pageNumber) < FirstAt(chunks, groups[j].pageNumber)
  }

  /** One non-empty group per page, holding that page's chunks in order, pages in order of first appearance. */
  ghost predicate StablePartition(chunks: seq<Chunk>, groups: seq<Group>) {
    HoldPages(chunks, groups) && Cover(chunks, groups) && InFirstOrder(chunks, groups)
  }

  predicate PutsAt(groups: seq<Group>, c: Chunk, i: int) {
    && 0 <= i < |groups| && groups[i].pageNumber == c.pageNumber
    && Put(groups, c) == groups[i := Group(c.pageNumber, groups[i].chunks + [c])]
  }

  lemma {:induction false} PutAt(groups: seq<Group>, c: Chunk)
    ensures !Present(groups, c.pageNumber) ==> Put(groups, c) == groups + [Group(c.pageNumber, [c])]
    ensures Present(groups, c.pageNumber) ==> exists i :: PutsAt(groups, c, i)
  {
    if groups == [] {
    } else if groups[0].pageNumber == c.pageNumber {
      assert PutsAt(groups, c, 0);
    } else {
      var rest := groups[1..];
      PutAt(rest, c);
      if Present(rest, c.pageNumber) {
        var i :| PutsAt(rest, c, i);
        assert Put(groups, c) == groups[i + 1 := Group(c.pageNumber, groups[i + 1].chunks + [c])];
        assert PutsAt(groups, c, i + 1);
      } else {
        assert forall i :: 0 < i < |groups| ==> groups[i] == rest[i - 1];
      }
    }
  }

  lemma FirstAtOfLonger(chunks: seq<Chunk>, c: Chunk, page: nat)
    ensures FirstAt(chunks + [c], page) ==
            if HasPage(chunks, page) then FirstAt(chunks, page)
            else if c.pageNumber == page then |chunks| else |chunks| + 1
    ensures HasPage(chunks, page) <==> FirstAt(chunks, page) < |chunks|
    ensures HasPage(chunks + [c], page) <==> HasPage(chunks, page) || c.pageNumber == page
    ensures OfPage(chunks + [c], page) == OfPage(chunks, page) + if c.pageNumber == page then [c] else []
  {
    var longer := chunks + [c];
    assert longer[..|chunks|] == chunks;
    var n, m := FirstAt(longer, page), FirstAt(chunks, page);
    assert m < |chunks| ==> longer[m].pageNumber == page;
    assert forall i :: 0 <= i < |chunks| ==> longer[i] == chunks[i];
    assert longer[|chunks|] == c;
    if HasPage(longer, page) {
      var i :| 0 <= i < |longer| && longer[i].pageNumber == page;
      assert i < |chunks| ==> chunks[i].pageNumber == page;
    }
    if HasPage(chunks, page) {
      var i :| 0 <= i < |chunks| && chunks[i].pageNumber == page;
      assert longer[i].pageNumber == page;
    }
    assert c.pageNumber == page ==> longer[|chunks|].pageNumber == page;
  }

  lemma {:induction false} OfPageWithout(chunks: seq<Chunk>, page: nat)
    requires !HasPage(chunks, page)
    ensures OfPage(chunks, page) == []
  {
    if chunks != [] {
      var front := chunks[..|chunks| - 1];
      assert chunks == front + [chunks[|chunks| - 1]];
      FirstAtOfLonger(front, chunks[|chunks| - 1], page);
      OfPageWithout(front, page);
    }
  }

  lemma FirstAtOfPresent(chunks: seq<Chunk>, c: Chunk, page: nat)
    requires HasPage(chunks, page)
    ensures FirstAt(chunks + [c], page) == FirstAt(chunks, page) < |chunks|
    ensures HasPage(chunks + [c], page)
  {
    FirstAtOfLonger(chunks, c, page);
  }

  lemma OrderOfLonger(chunks: seq<Chunk>, groups: seq<Group>, c: Chunk)
    requires HoldPages(chunks, groups) && InFirstOrder(chunks, groups)
    ensures InFirstOrder(chunks + [c], groups)
    ensures forall i :: 0 <= i < |groups| ==> FirstAt(chunks + [c], groups[i].pageNumber) < |chunks|
  {
    forall i | 0 <= i < |groups|
      ensures FirstAt(chunks + [c], groups[i].pageNumber) == FirstAt(chunks, groups[i].pageNumber) < |chunks|
    {
      FirstAtOfPresent(chunks, c, groups[i].pageNumber);
    }
  }

  lemma CoverOfLonger(chunks: seq<Chunk>, groups: seq<Group>, after: seq<Group>, c: Chunk)
    requires Cover(chunks, groups) && Present(after, c.pageNumber)
    requires |groups| <= |after| && forall i :: 0 <= i < |groups| ==> after[i].pageNumber == groups[i].pageNumber
    ensures Cover(chunks + [c], after)
  {
    var longer := chunks + [c];
    forall m | 0 <= m < |longer| ensures Present(after, longer[m].pageNumber) {
      if m < |chunks| {
        assert longer[m] == chunks[m];
        SamePagesPresent(groups, after, chunks[m].pageNumber);
      }
    }
  }

  lemma OldPageHolds(chunks: seq<Chunk>, groups: seq<Group>, after: seq<Group>, c: Chunk, k: nat, i: nat)
    requires HoldPages(chunks, groups) && InFirstOrder(chunks, groups)
    requires k < |groups| && groups[k].pageNumber == c.pageNumber && i < |groups|
    requires after == groups[k := Group(c.pageNumber, groups[k].chunks + [c])]
    ensures after[i].chunks == OfPage(chunks + [c], after[i].pageNumber)
    ensures HasPage(chunks + [c], after[i].pageNumber)
  {
    FirstAtOfLonger(chunks, c, groups[i].pageNumber);
    assert i != k ==> groups[i].pageNumber != c.pageNumber;
  }

  lemma SamePagesPresent(groups: seq<Group>, after: seq<Group>, page: nat)
    requires |groups| <= |after| && forall i :: 0 <= i < |groups| ==> after[i].pageNumber == groups[i].pageNumber
    requires Present(groups, page)
    ensures Present(after, page)
  {
    var i :| 0 <= i < |groups| && groups[i].pageNumber == page;
    assert after[i].pageNumber == page;
  }

  /** The page already has a group, at k. */
  lemma OldPageExtends(chunks: seq<Chunk>, groups: seq<Group>, after: seq<Group>, c: Chunk, k: nat)
    requires HoldPages(chunks, groups) && InFirstOrder(chunks, groups)
    requires k < |groups| && groups[k].pageNumber == c.pageNumber
    requires after == groups[k := Group(c.pageNumber, groups[k].chunks + [c])]
    ensures HoldPages(chunks + [c], after) && InFirstOrder(chunks + [c], after)
    ensures Present(after, c.pageNumber)
  {
    forall i | 0 <= i < |after|
      ensures after[i].chunks == OfPage(chunks + [c], after[i].pageNumber)
      ensures HasPage(chunks + [c], after[i].pageNumber)
    {
      OldPageHolds(chunks, groups, after, c, k, i);
    }
    OrderOfLonger(chunks, groups, c);
    assert forall i :: 0 <= i < |groups| ==> after[i].pageNumber == groups[i].pageNumber;
    assert after[k].pageNumber == c.pageNumber;
  }

  lemma NewPageIsLast(chunks: seq<Chunk>, groups: seq<Group>, after: seq<Group>, c: Chunk)
    requires HoldPages(chunks, groups) && InFirstOrder(chunks, groups) && !HasPage(chunks, c.pageNumber)
    requires after == groups + [Group(c.pageNumber, [c])]
    ensures InFirstOrder(chunks + [c], after)
  {
    FirstAtOfLonger(chunks, c, c.pageNumber);
    OrderOfLonger(chunks, groups, c);
  }

  lemma NewPageExtends(chunks: seq<Chunk>, groups: seq<Group>, after: seq<Group>, c: Chunk)
    requires StablePartition(chunks, groups) && !Present(groups, c.pageNumber)
    requires after == groups + [Group(c.pageNumber, [c])]
    ensures HoldPages(chunks + [c], after) && InFirstOrder(chunks + [c], after)
  {
    assert !HasPage(chunks, c.pageNumber);
    NewPageIsLast(chunks, groups, after, c);
    OfPageWithout(chunks, c.pageNumber);
    FirstAtOfLonger(chunks, c, c.pageNumber);
    forall i | 0 <= i < |groups|
      ensures after[i].chunks == OfPage(chunks + [c], after[i].pageNumber)
      ensures HasPage(chunks + [c], after[i].pageNumber)
    {
      FirstAtOfLonger(chunks, c, groups[i].pageNumber);
    }
  }

  lemma PutKeepsPartition(chunks: seq<Chunk>, groups: seq<Group>, c: Chunk)
    requires StablePartition(chunks, groups)
    ensures StablePartition(chunks + [c], Put(groups, c))
  {
    var after := Put(groups, c);
    PutAt(groups, c);
    if Present(groups, c.pageNumber) {
      var k :| PutsAt(groups, c, k);
      OldPageExtends(chunks, groups, after, c, k);
    } else {
      NewPageExtends(chunks, groups, after, c);
      assert after[|groups|].pageNumber == c.pageNumber;
    }
    CoverOfLonger(chunks, groups, after, c);
  }

  lemma {:induction false} GroupedIsStablePartition(chunks: seq<Chunk>)
    ensures StablePartition(chunks, Grouped(chunks))
  {
    if chunks != [] {
      var front, c := chunks[..|chunks| - 1], chunks[|chunks| - 1];
      GroupedIsStablePartition(front);
      PutKeepsPartition(front, Grouped(front), c);
      assert chunks == front + [c];
    }
  }

  // ---- On accepted lists the groups are the pages of the document, in order. ----

  function Concat(groups: seq<Group>): seq<Chunk> {
    if groups == [] then [] else Concat(groups[..|groups| - 1]) + groups[|groups| - 1].chunks
  }

  predicate PagesAscend(chunks: seq<Chunk>) {
    forall i, j :: 0 <= i < j < |chunks| ==> chunks[i].pageNumber <= chunks[j].pageNumber
  }

  predicate StrictlyAscending(groups: seq<Group>) {
    forall i, j :: 0 <= i < j < |groups| ==> groups[i].pageNumber < groups[j].pageNumber
  }

  lemma PutAtEnd(groups: seq<Group>, c: Chunk)
    requires StrictlyAscending(groups)
    requires groups != [] ==> groups[|groups| - 1].pageNumber <= c.pageNumber
    ensures Put(groups, c) ==
            if groups != [] && groups[|groups| - 1].pageNumber == c.pageNumber
            then groups[..|groups| - 1] + [Group(c.pageNumber, groups[|groups| - 1].chunks + [c])]
            else groups + [Group(c.pageNumber, [c])]
  {
    PutAt(groups, c);
  }

  lemma PutConcatenates(groups: seq<Group>, c: Chunk)
    requires StrictlyAscending(groups)
    requires groups != [] ==> groups[|groups| - 1].pageNumber <= c.pageNumber
    ensures Concat(Put(groups, c)) == Concat(groups) + [c]
    ensures StrictlyAscending(Put(groups, c))
    ensures Put(groups, c) != [] && Put(groups, c)[|Put(groups, c)| - 1].pageNumber == c.pageNumber
  {
    var after := Put(groups, c);
    PutAtEnd(groups, c);
    if groups != [] && groups[|groups| - 1].pageNumber == c.pageNumber {
      assert after[..|after| - 1] == groups[..|groups| - 1];
    } else {
      assert after[..|after| - 1] == groups;
    }
  }

  lemma GroupedOfLonger(front: seq<Chunk>, c: Chunk)
    ensures Grouped(front + [c]) == Put(Grouped(front), c)
  {
    assert (front + [c])[..|front|] == front;
  }

  lemma {:induction false} AscendingPagesConcatenate(chunks: seq<Chunk>)
    requires PagesAscend(chunks)
    ensures Concat(Grouped(chunks)) == chunks
    ensures StrictlyAscending(Grouped(chunks))
    ensures Grouped(chunks) == [] <==> chunks == []
    ensures chunks != [] ==>
              Grouped(chunks)[|Grouped(chunks)| - 1].pageNumber == chunks[|chunks| - 1].pageNumber
  {
    if chunks != [] {
      var front, c := chunks[..|chunks| - 1], chunks[|chunks| - 1];
      assert chunks == front + [c];
      assert PagesAscend(front) && (front != [] ==> front[|front| - 1].pageNumber <= c.pageNumber);
      AscendingPagesConcatenate(front);
      GroupedOfLonger(front, c);
      PutConcatenates(Grouped(front), c);
    }
  }

  lemma GroupPagesAreChunkPages(chunks: seq<Chunk>, i: nat)
    requires i < |Grouped(chunks)|
    ensures HasPage(chunks, Grouped(chunks)[i].pageNumber)
  {
    GroupedIsStablePartition(chunks);
  }

  lemma AcceptedPagesAscend(u: Unicode, limits: Limits, value: Wire, e: Extraction)
    requires Meets(u, limits, value, e)
    ensures PagesAscend(e.chunks)
    ensures forall i :: 0 <= i < |e.chunks| ==> 1 <= e.chunks[i].pageNumber <= limits.maxPageCount
  {
    var numbers :| Gapless(Pages(e.chunks), numbers) && Spelled(e.chunks, numbers);
    forall i, j | 0 <= i < j < |e.chunks| ensures e.chunks[i].pageNumber <= e.chunks[j].pageNumber {
      assert Pages(e.chunks)[i] <= Pages(e.chunks)[j];
    }
    forall i | 0 <= i < |e.chunks| ensures 1 <= e.chunks[i].pageNumber <= limits.maxPageCount {
      assert ChunkWire(u, limits, value.fields["chunks"].items[i], e.chunks[i]);
    }
  }

  /** Chunks of an accepted result: the groups give back the list, with pages strictly increasing. */
  lemma AcceptedChunksGroupByPage(u: Unicode, limits: Limits, value: Wire, e: Extraction)
    requires Meets(u, limits, value, e)
    ensures Concat(Grouped(e.chunks)) == e.chunks
    ensures StrictlyAscending(Grouped(e.chunks))
    ensures forall i :: 0 <= i < |Grouped(e.chunks)| ==> 1 <= Grouped(e.chunks)[i].pageNumber <= limits.maxPageCount
  {
    AcceptedPagesAscend(u, limits, value, e);
    AscendingPagesConcatenate(e.chunks);
    var groups := Grouped(e.chunks);
    forall i | 0 <= i < |groups| ensures 1 <= groups[i].pageNumber <= limits.maxPageCount {
      GroupPagesAreChunkPages(e.chunks, i);
    }
  }

  /** On each page of an accepted result the identifiers run through paragraphs 1 to k, none missing. */
  lemma AcceptedPageIsComplete(u: Unicode, limits: Limits, value: Wire, e: Extraction, i: nat)
    requires Meets(u, limits, value, e) && i < |e.chunks|
    ensures exists k: nat ::
              1 <= k <= |e.chunks|
              && HoldsOneTo(Pages(e.chunks), Numbers(e.chunks), e.chunks[i].pageNumber, k)
  {
    var numbers :| Gapless(Pages(e.chunks), numbers) && Spelled(e.chunks, numbers);
    forall j | 0 <= j < |e.chunks| ensures e.chunks[j].pageNumber >= 1 {
      assert ChunkWire(u, limits, value.fields["chunks"].items[j], e.chunks[j]);
    }
    IdsSpellNumbers(e.chunks, numbers);
    assert Pages(e.chunks)[i] == e.chunks[i].pageNumber;
    PageHoldsOneToK(Pages(e.chunks), numbers, i);
  }

  /**
   The validator bounds page numbers by its own limit, never by the result's page count. All pages
   are within the page count exactly when the last chunk's page is.
   */
  lemma PagesWithinCountExactly(u: Unicode, limits: Limits, value: Wire, e: Extraction)
    requires Meets(u, limits, value, e)
    ensures (forall i :: 0 <= i < |e.chunks| ==> e.chunks[i].pageNumber <= e.pageCount) <==>
            (e.chunks == [] || e.chunks[|e.chunks| - 1].pageNumber <= e.pageCount)
  {
    AcceptedPagesAscend(u, limits, value, e);
  }

  // A one-page result with a chunk on page 2.
  const STRAY := Chunk(0, 2, ParagraphIdText(2, 1), [0x61])
  const STRAY_WIRE := Obj(map["sequence" := Num(0.0), "pageNumber" := Num(2.0),
                              "paragraphId" := Str(STRAY.paragraphId), "text" := Str(STRAY.text)])
  const STRAY_RESULT := Extraction(Extracted, Ascii("24"), 1, 1, 1, [STRAY])
  const STRAY_VALUE := Obj(map["outcome" := Str(EXTRACTED), "engine" := Str(POPPLER),
                               "engineVersion" := Str(STRAY_RESULT.engineVersion), "pageCount" := Num(1.0),
                               "chunkCount" := Num(1.0), "textBytes" := Num(1.0), "chunks" := Arr([STRAY_WIRE])])

  lemma StrayHeader(limits: Limits)
    requires limits == Limits(2, 10, 10, 10)
    ensures HeaderWire(limits, STRAY_VALUE, STRAY_RESULT)
  {
    assert STRAY_VALUE.fields.Keys == INTERNAL_KEYS;
    assert "schemaVersion" !in STRAY_VALUE.fields;
  }

  lemma StrayChunk(u: Unicode, limits: Limits)
    requires u.nfc([0x61]) == [0x61] && !u.formatting(0x61) && !u.spaceSeparator(0x61)
    requires limits == Limits(2, 10, 10, 10)
    ensures ChunkWire(u, limits, STRAY_WIRE, STRAY)
    ensures Sum(Sizes([STRAY])) == 1
  {
    OneLetterIsClean(u, limits);
    assert STRAY_WIRE.fields.Keys == CHUNK_KEYS;
    assert Sizes([STRAY]) == [1] && [1][..0] == [];
    assert Sum([1]) == Sum([1][..0]) + 1;
  }

  lemma StrayIsNumbered()
    ensures Numbered([STRAY])
  {
    assert Pages([STRAY]) == [2];
    assert OnPage([2], [1], 2, 1) by { assert [2][0] == 2 && [1][0] == 1; }
    assert Gapless([2], [1]) && Spelled([STRAY], [1]);
  }

  /** It is accepted wherever two pages are allowed. */
  lemma PageBeyondCountIsAccepted(u: Unicode, limits: Limits)
    requires u.nfc([0x61]) == [0x61] && !u.formatting(0x61) && !u.spaceSeparator(0x61)
    requires limits == Limits(2, 10, 10, 10)
    ensures Meets(u, limits, STRAY_VALUE, STRAY_RESULT)
    ensures STRAY_RESULT.chunks == [STRAY] && STRAY.pageNumber > STRAY_RESULT.pageCount
  {
    StrayHeader(limits);
    StrayChunk(u, limits);
    StrayIsNumbered();
  }

  lemma OneLetterIsClean(u: Unicode, limits: Limits)
    requires u.nfc([0x61]) == [0x61] && !u.formatting(0x61) && !u.spaceSeparator(0x61)
    requires limits.maxChunkBytes >= 1
    ensures CleanText(u, limits, [0x61]) && Utf8Length([0x61]) == 1
  {
    assert CodePoints([0x61]) == [0x61] + CodePoints([0x61][1..]) == [0x61];
    WellFormedByCodePoints([0x61]);
    PlaneEnds(0x61);
  }
}
