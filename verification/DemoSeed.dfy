/** The workspace the demo starts from, and that it is consistent. */
module DemoSeed {
  import opened Common
  import opened DemoWorkspace
  import opened DemoInvariant

  const CHEN := "chen-2024-laminography"
  const OKAFOR := "okafor-2023-primal-dual"
  const SILVA := "silva-2022-artifact-aware"
  const BAUER := "bauer-2021-planar-electronics"
  const KIM := "kim-2020-tsv-synchrotron"
  const PATEL := "patel-2024-uncertainty-ct"

  const DEFECT := "note-defect-recovery"
  const ORIENTATION := "note-orientation-boundary"
  const SPECIFICITY := "note-specificity-question"
  const THROUGHPUT := "note-throughput-scope"

  const PACKAGING := "collection-advanced-packaging"
  const INSPECTION := "collection-inspection-methods"
  const REVIEW := "collection-literature-review"

  const UPLOAD_ENTRY := "inbox-demo-upload-patel-2024"
  const ZOTERO_ENTRY := "inbox-demo-zotero-chen-2024"
  const CRAWLER_ENTRY := "inbox-demo-crawler-silva-2022"

  const UPLOAD_PREVIEW := "PaperPilot PDF upload preview (demo only)"
  const ZOTERO_PREVIEW := "PaperPilot Zotero import preview (demo only)"
  const CRAWLER_PREVIEW := "PaperPilot Crawler capture preview (demo only)"

  const PACKAGING_PROJECT := "project-demo-advanced-packaging"
  const REVIEW_PROJECT := "project-demo-reconstruction-review"

  const SEEDED_NOTES := [
    Note(DEFECT, CHEN, OtherKind, true, [PACKAGING, REVIEW]),
    Note(ORIENTATION, CHEN, OtherKind, true, [INSPECTION, REVIEW]),
    Note(SPECIFICITY, CHEN, OpenQuestion, true, [REVIEW]),
    Note(THROUGHPUT, CHEN, OtherKind, true, [PACKAGING])]

  const SEEDED_COLLECTIONS := [
    Collection(PACKAGING, "Advanced Packaging", [CHEN, KIM], [DEFECT, THROUGHPUT], 2, 2),
    Collection(INSPECTION, "Inspection Methods", [CHEN, SILVA, BAUER, PATEL], [ORIENTATION], 1, 1),
    Collection(REVIEW, "Literature Review \U{2014} Draft", [CHEN, OKAFOR, BAUER],
               [DEFECT, ORIENTATION, SPECIFICITY], 2, 3)]

  const SEEDED_PROJECTS := [
    Project(PACKAGING_PROJECT, [CHEN, KIM], [DEFECT, THROUGHPUT], [PACKAGING]),
    Project(REVIEW_PROJECT, [CHEN, OKAFOR, BAUER], [DEFECT, ORIENTATION, SPECIFICITY], [REVIEW])]

  const SEEDED_ENTRIES := [
    InboxEntry(UPLOAD_ENTRY, UPLOAD_PREVIEW, "demo:upload:" + PATEL, Paper(PATEL, ""), AwaitingReview, None, None),
    InboxEntry(ZOTERO_ENTRY, ZOTERO_PREVIEW, "demo:zotero:" + CHEN, Paper(CHEN, ""), PossibleDuplicate,
               Some(CHEN), None),
    InboxEntry(CRAWLER_ENTRY, CRAWLER_PREVIEW, "demo:crawler:" + SILVA, Paper(SILVA, ""), AwaitingReview, None, None)]

  /** Papers of the two projects, in the order of the seed papers; titles are not modelled. */
  const SEEDED_IMPORTS := [Paper(CHEN, ""), Paper(OKAFOR, ""), Paper(BAUER, ""), Paper(KIM, "")]

  const SEED := Workspace(SEEDED_IMPORTS, SEEDED_ENTRIES, SEEDED_PROJECTS, SEEDED_NOTES, SEEDED_COLLECTIONS)

  // ---- The identifiers differ. ----

  lemma NotesDiffer()
    ensures DistinctIds([DEFECT, ORIENTATION, SPECIFICITY, THROUGHPUT])
  {
    assert DEFECT[5] == 'd' && ORIENTATION[5] == 'o' && SPECIFICITY[5] == 's' && THROUGHPUT[5] == 't';
  }

  lemma CollectionsDiffer()
    ensures DistinctIds([PACKAGING, INSPECTION, REVIEW])
  {
    assert PACKAGING[11] == 'a' && INSPECTION[11] == 'i' && REVIEW[11] == 'l';
  }

  lemma PapersDiffer()
    ensures DistinctIds([CHEN, OKAFOR, SILVA, BAUER, KIM, PATEL])
  {
    assert CHEN[0] == 'c' && OKAFOR[0] == 'o' && SILVA[0] == 's' && BAUER[0] == 'b' && KIM[0] == 'k' && PATEL[0] == 'p';
  }

  lemma EntriesDiffer()
    ensures DistinctIds([UPLOAD_ENTRY, ZOTERO_ENTRY, CRAWLER_ENTRY])
    ensures DistinctIds([UPLOAD_PREVIEW, ZOTERO_PREVIEW, CRAWLER_PREVIEW])
  {
    assert UPLOAD_ENTRY[11] == 'u' && ZOTERO_ENTRY[11] == 'z' && CRAWLER_ENTRY[11] == 'c';
    assert UPLOAD_PREVIEW[11] == 'P' && ZOTERO_PREVIEW[11] == 'Z' && CRAWLER_PREVIEW[11] == 'C';
  }

  lemma ProjectsDiffer()
    ensures PACKAGING_PROJECT != REVIEW_PROJECT
  {
    assert PACKAGING_PROJECT[13] == 'a' && REVIEW_PROJECT[13] == 'r';
  }

  // ---- The parts of the invariant, for any different identifiers in these places. ----

  function NotesOf(d: Id, o: Id, s: Id, t: Id, paper: Id, p: Id, i: Id, r: Id): seq<Note> {
    [Note(d, paper, OtherKind, true, [p, r]), Note(o, paper, OtherKind, true, [i, r]),
     Note(s, paper, OpenQuestion, true, [r]), Note(t, paper, OtherKind, true, [p])]
  }

  predicate CollectionsOf(cs: seq<Collection>, d: Id, o: Id, s: Id, t: Id, p: Id, i: Id, r: Id) {
    && |cs| == 3 && cs[0].id == p && cs[1].id == i && cs[2].id == r
    && cs[0].noteIds == [d, t] && cs[1].noteIds == [o] && cs[2].noteIds == [d, o, s]
    && cs[0].evidenceClaimCount == 2 && cs[0].openQuestionCount == 2
    && cs[1].evidenceClaimCount == 1 && cs[1].openQuestionCount == 1
    && cs[2].evidenceClaimCount == 2 && cs[2].openQuestionCount == 3
  }

  lemma FilingsOfFour(notes: seq<Note>, cid: Id, which: Which)
    requires |notes| == 4
    ensures Filings(notes, cid, which) ==
            (if CountsIn(notes[0], cid, which) then 1 else 0) + (if CountsIn(notes[1], cid, which) then 1 else 0)
            + (if CountsIn(notes[2], cid, which) then 1 else 0) + (if CountsIn(notes[3], cid, which) then 1 else 0)
  {
    assert notes[3..][1..] == [] && notes[2..][1..] == notes[3..] && notes[1..][1..] == notes[2..];
    assert Filings(notes[3..], cid, which) ==
           (if CountsIn(notes[3], cid, which) then 1 else 0) + Filings([], cid, which);
    assert Filings(notes[2..], cid, which) ==
           (if CountsIn(notes[2], cid, which) then 1 else 0) + Filings(notes[3..], cid, which);
    assert Filings(notes[1..], cid, which) ==
           (if CountsIn(notes[1], cid, which) then 1 else 0) + Filings(notes[2..], cid, which);
  }

  lemma SeedIsCounted(cs: seq<Collection>, d: Id, o: Id, s: Id, t: Id, paper: Id, p: Id, i: Id, r: Id)
    requires CollectionsOf(cs, d, o, s, t, p, i, r) && p != i && p != r && i != r
    ensures Counted(map[], NotesOf(d, o, s, t, paper, p, i, r), cs)
  {
    var notes := NotesOf(d, o, s, t, paper, p, i, r);
    forall j | 0 <= j < 3
      ensures cs[j].evidenceClaimCount == Filings(notes, cs[j].id, Claims)
      ensures cs[j].openQuestionCount == Filings(notes, cs[j].id, Questions)
    {
      FilingsOfFour(notes, cs[j].id, Claims);
      FilingsOfFour(notes, cs[j].id, Questions);
    }
  }

  lemma SeedIsTwoWay(cs: seq<Collection>, d: Id, o: Id, s: Id, t: Id, paper: Id, p: Id, i: Id, r: Id)
    requires CollectionsOf(cs, d, o, s, t, p, i, r) && p != i && p != r && i != r
    requires d != o && d != s && d != t && o != s && o != t && s != t
    ensures TwoWay(NotesOf(d, o, s, t, paper, p, i, r), cs)
    ensures NotesKnown(NotesOf(d, o, s, t, paper, p, i, r), cs)
    ensures DistinctIds(NoteIds(NotesOf(d, o, s, t, paper, p, i, r))) && DistinctIds(CollectionIds(cs))
  {
    var notes := NotesOf(d, o, s, t, paper, p, i, r);
    assert NoteIds(notes) == [d, o, s, t];
  }

  lemma SeedNotesConcernPapers(projects: seq<Project>, d: Id, o: Id, s: Id, t: Id, paper: Id, p: Id, i: Id, r: Id)
    requires |projects| == 2
    requires projects[0].evidenceNoteIds == [d, t] && projects[1].evidenceNoteIds == [d, o, s]
    requires paper in projects[0].paperIds && paper in projects[1].paperIds
    requires d != o && d != s && d != t && o != s
    ensures ProjectNotes(projects, NotesOf(d, o, s, t, paper, p, i, r))
  {
    var notes := NotesOf(d, o, s, t, paper, p, i, r);
    assert notes[0].id == d && notes[1].id == o && notes[2].id == s && notes[3].id == t;
    forall k | 0 <= k < 2 ensures ProjectNotesAt(projects[k], notes) {
    }
  }

  lemma SeedPapersAreImported(lib: Library, c: Id, o: Id, b: Id, k: Id, projects: seq<Project>, imported: seq<Paper>)
    requires c != o && c != b && c != k && o != b
    requires |projects| == 2 && projects[0].paperIds == [c, k] && projects[1].paperIds == [c, o, b]
    requires imported == [Paper(c, ""), Paper(o, ""), Paper(b, ""), Paper(k, "")]
    ensures ProjectPapers(lib, projects, imported)
  {
    assert imported[0].id == c && imported[1].id == o && imported[2].id == b && imported[3].id == k;
  }

  lemma SeedIsShelved(lib: Library, projects: seq<Project>, cs: seq<Collection>, p: Id, i: Id, r: Id)
    requires |projects| == 2 && projects[0].id != projects[1].id
    requires projects[0].collectionIds == [p] && projects[1].collectionIds == [r]
    requires |cs| == 3 && cs[0].id == p && cs[1].id == i && cs[2].id == r && p != i && p != r && i != r
    ensures Shelved(lib, projects, cs)
  {
    assert CollectionIds(cs) == [p, i, r];
  }

  lemma SeedInboxIsUnique(entries: seq<InboxEntry>, a: Id, b: Id, c: Id, x: string, y: string, z: string)
    requires |entries| == 3 && entries[0].id == a && entries[1].id == b && entries[2].id == c
    requires entries[0].provider == x && entries[1].provider == y && entries[2].provider == z
    requires DistinctIds([a, b, c]) && DistinctIds([x, y, z])
    ensures InboxUnique(entries)
  {
    assert EntryIds(entries) == [a, b, c];
    assert [x, y, z][0] != [x, y, z][1] && [x, y, z][0] != [x, y, z][2] && [x, y, z][1] != [x, y, z][2];
  }

  lemma SeedListsPapersOnce()
    ensures PapersOnce(SEEDED_COLLECTIONS)
  {
    PapersDiffer();
    var ids := [CHEN, OKAFOR, SILVA, BAUER, KIM, PATEL];
    assert ids[0] != ids[4];
    assert ids[0] != ids[2] && ids[0] != ids[3] && ids[0] != ids[5] && ids[2] != ids[3] && ids[2] != ids[5]
           && ids[3] != ids[5];
    assert ids[0] != ids[1] && ids[1] != ids[3];
  }

  lemma Differ4(a: Id, b: Id, c: Id, d: Id)
    requires DistinctIds([a, b, c, d])
    ensures a != b && a != c && a != d && b != c && b != d && c != d
  {
    var ids := [a, b, c, d];
    assert ids[0] != ids[1] && ids[0] != ids[2] && ids[0] != ids[3] && ids[1] != ids[2] && ids[1] != ids[3]
           && ids[2] != ids[3];
  }

  lemma Differ3(a: Id, b: Id, c: Id)
    requires DistinctIds([a, b, c])
    ensures a != b && a != c && b != c
  {
    var ids := [a, b, c];
    assert ids[0] != ids[1] && ids[0] != ids[2] && ids[1] != ids[2];
  }

  lemma SeedIsIndexed()
    ensures Indexed(map[], SEEDED_NOTES, SEEDED_COLLECTIONS)
  {
    NotesDiffer();
    Differ4(DEFECT, ORIENTATION, SPECIFICITY, THROUGHPUT);
    CollectionsDiffer();
    Differ3(PACKAGING, INSPECTION, REVIEW);
    SeedIsCounted(SEEDED_COLLECTIONS, DEFECT, ORIENTATION, SPECIFICITY, THROUGHPUT, CHEN, PACKAGING,
        INSPECTION, REVIEW);
    SeedIsTwoWay(SEEDED_COLLECTIONS, DEFECT, ORIENTATION, SPECIFICITY, THROUGHPUT, CHEN, PACKAGING, INSPECTION, REVIEW);
  }

  lemma SeedProjectsAreConsistent(lib: Library)
    ensures ProjectNotes(SEEDED_PROJECTS, SEEDED_NOTES)
    ensures ProjectPapers(lib, SEEDED_PROJECTS, SEEDED_IMPORTS)
    ensures Shelved(lib, SEEDED_PROJECTS, SEEDED_COLLECTIONS)
  {
    NotesDiffer();
    Differ4(DEFECT, ORIENTATION, SPECIFICITY, THROUGHPUT);
    CollectionsDiffer();
    Differ3(PACKAGING, INSPECTION, REVIEW);
    ProjectsDiffer();
    PapersDiffer();
    assert [CHEN, OKAFOR, SILVA, BAUER, KIM, PATEL][0] == CHEN;
    SeedNotesConcernPapers(SEEDED_PROJECTS, DEFECT, ORIENTATION, SPECIFICITY, THROUGHPUT, CHEN, PACKAGING,
        INSPECTION, REVIEW);
    ImportsDiffer();
    SeedPapersAreImported(lib, CHEN, OKAFOR, BAUER, KIM, SEEDED_PROJECTS, SEEDED_IMPORTS);
    SeedIsShelved(lib, SEEDED_PROJECTS, SEEDED_COLLECTIONS, PACKAGING, INSPECTION, REVIEW);
  }

  lemma ImportsDiffer()
    ensures CHEN != OKAFOR && CHEN != BAUER && CHEN != KIM && OKAFOR != BAUER
  {
    PapersDiffer();
    var ids := [CHEN, OKAFOR, SILVA, BAUER, KIM, PATEL];
    assert ids[0] != ids[1] && ids[0] != ids[3] && ids[0] != ids[4] && ids[1] != ids[3];
  }

  /** The seed is consistent, and its counters are exactly the counts of its notes. */
  lemma SeedIsConsistent(lib: Library)
    ensures Inv(lib, map[], SEED)
  {
    SeedIsIndexed();
    SeedProjectsAreConsistent(lib);
    SeedListsPapersOnce();
    EntriesDiffer();
    SeedInboxIsUnique(SEEDED_ENTRIES, UPLOAD_ENTRY, ZOTERO_ENTRY, CRAWLER_ENTRY,
                      UPLOAD_PREVIEW, ZOTERO_PREVIEW, CRAWLER_PREVIEW);
  }
}
