/** Attachment records, loaded pages, and the flattened list that the register shows. */
module Attachments {
  import opened Common

  datatype ImportStatus =
    | Queued | Downloading | Quarantined | Validating | Extracting
    | Ready | Attention | Failed | Cancelled

  datatype ImportRecord = ImportRecord(status: ImportStatus, sourceVersion: string, providerMd5: string)

  datatype Attachment = Attachment(
    id: string,
    providerMd5: Option<string>,
    sourceVersion: string,
    latestImport: Option<ImportRecord>)

  datatype Filter = Filter(libraryId: string, showUnavailable: bool)

  // `filter` is provenance the browser does not store: the filter under which the page was fetched.
  datatype Page = Page(
    after: Option<string>,
    attachments: seq<Attachment>,
    nextCursor: Option<string>,
    filter: Filter)

  predicate ImportIsCurrent(a: Attachment) {
    && a.latestImport.Some?
    && a.providerMd5.Some?
    && a.latestImport.value.sourceVersion == a.sourceVersion
    && a.latestImport.value.providerMd5 == a.providerMd5.value
  }

  predicate HasActiveImport(a: Attachment) {
    && ImportIsCurrent(a)
    && a.latestImport.value.status in {Queued, Downloading, Quarantined, Validating, Extracting}
  }

  predicate HasId(xs: seq<Attachment>, id: string) {
    exists k :: 0 <= k < |xs| && xs[k].id == id
  }

  // ---- The flattening: every page in order, each identity once, at its first occurrence. ----

  function AllAttachments(pages: seq<Page>): seq<Attachment> {
    if pages == [] then []
    else AllAttachments(pages[..|pages| - 1]) + pages[|pages| - 1].attachments
  }

  function FirstOccurrences(xs: seq<Attachment>): seq<Attachment> {
    if xs == [] then []
    else
      var before := xs[..|xs| - 1];
      var x := xs[|xs| - 1];
      if HasId(before, x.id) then FirstOccurrences(before) else FirstOccurrences(before) + [x]
  }

  function Flatten(pages: seq<Page>): seq<Attachment> {
    FirstOccurrences(AllAttachments(pages))
  }

  predicate IsFirst(xs: seq<Attachment>, i: int)
    requires 0 <= i < |xs|
  {
    forall j :: 0 <= j < i ==> xs[j].id != xs[i].id
  }

  /** The positions of first occurrences, in order. */
  function FirstPositions(xs: seq<Attachment>): (ps: seq<nat>)
    ensures forall k :: 0 <= k < |ps| ==> ps[k] < |xs|
    ensures forall j, k :: 0 <= j < k < |ps| ==> ps[j] < ps[k]
    ensures forall i :: 0 <= i < |xs| ==> (i in ps <==> IsFirst(xs, i))
  {
    if xs == [] then []
    else
      var before := xs[..|xs| - 1];
      var ps := FirstPositions(before);
      assert forall i :: 0 <= i < |before| ==> (IsFirst(before, i) <==> IsFirst(xs, i));
      if HasId(before, xs[|xs| - 1].id) then ps else ps + [|before|]
  }

  /** The flattened list is exactly the subsequence standing at the first occurrences. */
  lemma {:induction false} FirstOccurrencesArePositions(xs: seq<Attachment>)
    ensures |FirstOccurrences(xs)| == |FirstPositions(xs)|
    ensures forall k :: 0 <= k < |FirstPositions(xs)| ==> FirstOccurrences(xs)[k] == xs[FirstPositions(xs)[k]]
  {
    if xs != [] {
      FirstOccurrencesArePositions(xs[..|xs| - 1]);
    }
  }

  /** No identity twice, and none lost. */
  lemma FlattenHasEachIdOnce(pages: seq<Page>)
    ensures forall j, k :: 0 <= j < k < |Flatten(pages)| ==> Flatten(pages)[j].id != Flatten(pages)[k].id
    ensures forall id :: HasId(AllAttachments(pages), id) <==> HasId(Flatten(pages), id)
  {
    var xs := AllAttachments(pages);
    FirstOccurrencesArePositions(xs);
    var ps := FirstPositions(xs);
    forall j, k | 0 <= j < k < |ps|
      ensures Flatten(pages)[j].id != Flatten(pages)[k].id
    {
      assert ps[k] in ps && IsFirst(xs, ps[k]);
    }
    forall id
      ensures HasId(xs, id) <==> HasId(Flatten(pages), id)
    {
      if HasId(xs, id) {
        var i := LeastIndex(xs, id);
        assert i in ps;
        var k :| 0 <= k < |ps| && ps[k] == i;
        assert Flatten(pages)[k].id == id;
      }
    }
  }

  function LeastIndex(xs: seq<Attachment>, id: string): (i: nat)
    requires HasId(xs, id)
    ensures i < |xs| && xs[i].id == id && IsFirst(xs, i)
  {
    if xs[0].id == id then 0
    else
      assert HasId(xs[1..], id) by {
        var k :| 0 <= k < |xs| && xs[k].id == id;
        assert xs[1..][k - 1].id == id;
      }
      var i := LeastIndex(xs[1..], id);
      assert forall j :: 0 < j < i + 1 ==> xs[j] == xs[1..][j - 1];
      i + 1
  }

  function Ids(xs: seq<Attachment>): set<string> {
    set k | 0 <= k < |xs| :: xs[k].id
  }

  /** The loops of the source: one pass over the pages with a set of seen identities. */
  method FlattenPages(pages: seq<Page>) returns (flat: seq<Attachment>)
    ensures flat == Flatten(pages)
  {
    var seen: set<string> := {};
    flat := [];
    for i := 0 to |pages|
      invariant flat == Flatten(pages[..i])
      invariant seen == Ids(AllAttachments(pages[..i]))
    {
      var kept;
      kept, seen := KeepUnseen(pages[i], seen, AllAttachments(pages[..i]));
      flat := flat + kept;
      assert pages[..i + 1][..i] == pages[..i];
    }
    assert pages[..|pages|] == pages;
  }

  /** One page's share of the list, after the attachments `before` of the earlier pages. */
  method KeepUnseen(page: Page, seenBefore: set<string>, ghost before: seq<Attachment>)
    returns (kept: seq<Attachment>, seen: set<string>)
    requires seenBefore == Ids(before)
    ensures FirstOccurrences(before + page.attachments) == FirstOccurrences(before) + kept
    ensures seen == Ids(before + page.attachments)
  {
    kept, seen := [], seenBefore;
    ghost var visited := before;
    assert before + page.attachments[..0] == before;
    for j := 0 to |page.attachments|
      invariant visited == before + page.attachments[..j]
      invariant FirstOccurrences(visited) == FirstOccurrences(before) + kept
      invariant seen == Ids(visited)
    {
      var attachment := page.attachments[j];
      FirstOccurrencesSnoc(visited, attachment);
      if attachment.id !in seen {
        seen := seen + {attachment.id};
        kept := kept + [attachment];
      }
      visited := visited + [attachment];
    }
    assert page.attachments[..|page.attachments|] == page.attachments;
  }

  lemma FirstOccurrencesSnoc(xs: seq<Attachment>, x: Attachment)
    ensures FirstOccurrences(xs + [x]) == if x.id in Ids(xs) then FirstOccurrences(xs) else FirstOccurrences(xs) + [x]
    ensures Ids(xs + [x]) == Ids(xs) + {x.id}
  {
    assert (xs + [x])[..|xs|] == xs;
    assert HasId(xs, x.id) <==> x.id in Ids(xs);
    assert forall id :: id in Ids(xs) ==> id in Ids(xs + [x]) by {
      forall id | id in Ids(xs)
        ensures id in Ids(xs + [x])
      {
        var k :| 0 <= k < |xs| && xs[k].id == id;
        assert (xs + [x])[k].id == id;
      }
    }
    assert (xs + [x])[|xs|] == x;
  }

  // ---- Identity-preserving updates. ----

  ghost predicate KeepsIds(f: Attachment -> Attachment) {
    forall a :: f(a).id == a.id
  }

  function MapList(f: Attachment -> Attachment, xs: seq<Attachment>): seq<Attachment> {
    seq(|xs|, i requires 0 <= i < |xs| => f(xs[i]))
  }

  function MapPages(f: Attachment -> Attachment, pages: seq<Page>): seq<Page> {
    seq(|pages|, i requires 0 <= i < |pages| => pages[i].(attachments := MapList(f, pages[i].attachments)))
  }

  lemma {:induction false} FirstOccurrencesOfMap(f: Attachment -> Attachment, xs: seq<Attachment>)
    requires KeepsIds(f)
    ensures FirstOccurrences(MapList(f, xs)) == MapList(f, FirstOccurrences(xs))
  {
    if xs != [] {
      var before := xs[..|xs| - 1];
      var x := xs[|xs| - 1];
      FirstOccurrencesOfMap(f, before);
      assert MapList(f, xs)[..|xs| - 1] == MapList(f, before);
      assert HasId(before, x.id) <==> HasId(MapList(f, before), x.id) by {
        if HasId(before, x.id) {
          var k :| 0 <= k < |before| && before[k].id == x.id;
          assert MapList(f, before)[k].id == x.id;
        }
      }
      if !HasId(before, x.id) {
        assert FirstOccurrences(xs) == FirstOccurrences(before) + [x];
        assert MapList(f, FirstOccurrences(before) + [x]) == MapList(f, FirstOccurrences(before)) + [f(x)];
      }
    }
  }

  lemma {:induction false} AllAttachmentsOfMap(f: Attachment -> Attachment, pages: seq<Page>)
    ensures AllAttachments(MapPages(f, pages)) == MapList(f, AllAttachments(pages))
  {
    if pages != [] {
      var before := pages[..|pages| - 1];
      AllAttachmentsOfMap(f, before);
      assert MapPages(f, pages)[..|pages| - 1] == MapPages(f, before);
      assert MapList(f, AllAttachments(before) + pages[|pages| - 1].attachments)
          == MapList(f, AllAttachments(before)) + MapList(f, pages[|pages| - 1].attachments);
    }
  }

  /** Updating the list and the pages separately keeps the list the flattening of the pages. */
  lemma MapCommutesWithFlatten(f: Attachment -> Attachment, pages: seq<Page>)
    requires KeepsIds(f)
    ensures Flatten(MapPages(f, pages)) == MapList(f, Flatten(pages))
  {
    AllAttachmentsOfMap(f, pages);
    FirstOccurrencesOfMap(f, AllAttachments(pages));
  }

  /** The update an import acknowledgement makes to one record. */
  function Acknowledge(id: string, record: ImportRecord): (f: Attachment -> Attachment)
    ensures KeepsIds(f)
  {
    (a: Attachment) => if a.id == id then a.(latestImport := Some(record)) else a
  }
}
