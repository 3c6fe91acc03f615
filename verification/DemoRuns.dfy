/** Runs of demo commands, and what stale or repeated commands do. */
module DemoRuns {
  import opened Common
  import opened DemoWorkspace
  import opened DemoInvariant
  import opened DemoSeed

  datatype Command =
    | ImportPaper(hit: Hit, destination: Option<Id>, freshId: Id)
    | FileFromInbox(entryId: Id, projectId: Id)
    | AddProject(freshId: Id)
    | AddCollection(active: Project, name: string, freshId: Id)
    | CollectPaper(collectionId: Id, paperId: Id)
    | AddNote(note: Note)
    | FileNote(noteId: Id, collectionId: Id)

  /** Identifiers made by the application are fresh, and a collection is created in a rendered project. */
  predicate Enabled(base: Base, w: Workspace, c: Command) {
    match c
    case ImportPaper(_, _, freshId) => freshId !in EntryIds(w.inboxEntries)
    case AddProject(freshId) => freshId !in ProjectIds(w.projects)
    case AddCollection(active, _, freshId) => active in w.projects && FreshCollection(base, w, freshId)
    case AddNote(note) => FreshNote(w.notes, note.id)
    case _ => true
  }

  function Apply(lib: Library, w: Workspace, c: Command): Workspace {
    match c
    case ImportPaper(hit, destination, freshId) => CommitImport(lib, w, w, hit, destination, freshId)
    case FileFromInbox(entryId, projectId) => FileInboxEntry(lib, w, w, entryId, projectId)
    case AddProject(freshId) => CreateProject(w, freshId)
    case AddCollection(active, name, freshId) => CreateCollection(lib, w, w, active, name, freshId)
    case CollectPaper(collectionId, paperId) => AddPaperToCollection(lib, w, w, collectionId, paperId)
    case AddNote(note) => AddEvidenceNote(w, note)
    case FileNote(noteId, collectionId) => FileNoteInCollection(w, w, noteId, collectionId)
  }

  lemma ImportKeepsInv(lib: Library, base: Base, w: Workspace, hit: Hit, destination: Option<Id>, freshId: Id)
    requires Inv(lib, base, w) && freshId !in EntryIds(w.inboxEntries)
    ensures Inv(lib, base, CommitImport(lib, w, w, hit, destination, freshId))
  {
    ImportKeepsInbox(lib, w, hit, destination, freshId);
    if destination.Some? {
      var canonical := CanonicalPaper(lib, w, hit.paper);
      WithPaperKeepsPapers(lib, w.projects, w.importedPapers, destination.value, canonical);
      WithPaperKeepsNotes(w.projects, w.notes, destination.value, canonical.id);
      WithPaperKeepsShelves(lib, w.projects, w.collections, destination.value, canonical.id);
    }
  }

  lemma FileFromInboxKeepsInv(lib: Library, base: Base, w: Workspace, entryId: Id, projectId: Id)
    requires Inv(lib, base, w)
    ensures Inv(lib, base, FileInboxEntry(lib, w, w, entryId, projectId))
  {
    var entry := EntryById(w.inboxEntries, entryId);
    if entry.Some? && HasProject(w.projects, projectId) {
      var canonical := CanonicalPaper(lib, w, entry.value.paper);
      MarkingKeepsInbox(w.inboxEntries, entryId, projectId);
      WithPaperKeepsPapers(lib, w.projects, w.importedPapers, projectId, canonical);
      WithPaperKeepsNotes(w.projects, w.notes, projectId, canonical.id);
      WithPaperKeepsShelves(lib, w.projects, w.collections, projectId, canonical.id);
    }
  }

  lemma AddProjectKeepsInv(lib: Library, base: Base, w: Workspace, freshId: Id)
    requires Inv(lib, base, w) && freshId !in ProjectIds(w.projects)
    ensures Inv(lib, base, CreateProject(w, freshId))
  {
    var t := CreateProject(w, freshId);
    assert ProjectIds(t.projects) == [freshId] + ProjectIds(w.projects);
    forall k | 0 <= k < |t.projects|
      ensures ProjectNotesAt(t.projects[k], t.notes) && NamesDiffer(lib, t.projects[k], t.collections)
    {
      if k > 0 {
        assert t.projects[k] == w.projects[k - 1];
        assert ProjectNotesAt(w.projects[k - 1], w.notes) && NamesDiffer(lib, w.projects[k - 1], w.collections);
      }
    }
  }

  lemma AddCollectionKeepsInv(lib: Library, base: Base, w: Workspace, active: Project, name: string, freshId: Id)
    requires Inv(lib, base, w) && active in w.projects && FreshCollection(base, w, freshId)
    ensures Inv(lib, base, CreateCollection(lib, w, w, active, name, freshId))
  {
    if !NameTaken(lib, w, active, name) {
      var t := CreateCollection(lib, w, w, active, name, freshId);
      NewCollectionKeepsIndexed(base, w, name, freshId);
      NewCollectionKeepsShelves(lib, w, active, name, freshId);
      forall k | 0 <= k < |t.projects| ensures ProjectNotesAt(t.projects[k], t.notes) {
        assert ProjectNotesAt(w.projects[k], w.notes);
      }
    }
  }

  lemma CollectPaperKeepsInv(lib: Library, base: Base, w: Workspace, collectionId: Id, paperId: Id)
    requires Inv(lib, base, w)
    ensures Inv(lib, base, AddPaperToCollection(lib, w, w, collectionId, paperId))
  {
    var t := AddPaperToCollection(lib, w, w, collectionId, paperId);
    AddPaperKeepsIndexed(lib, base, w, collectionId, paperId);
    AddPaperListsOnce(lib, w, collectionId, paperId);
    SameNamesKeepShelves(lib, w.projects, w.projects, w.collections, t.collections);
  }

  lemma SameNamesKeepShelves(lib: Library, projects: seq<Project>, after: seq<Project>,
                             cs: seq<Collection>, ds: seq<Collection>)
    requires Shelved(lib, projects, cs) && |projects| == |after| && |cs| == |ds|
    requires forall i :: 0 <= i < |cs| ==> ds[i].id == cs[i].id && ds[i].name == cs[i].name
    requires forall k :: 0 <= k < |after| ==>
               after[k].id == projects[k].id && after[k].collectionIds == projects[k].collectionIds
    ensures Shelved(lib, after, ds)
  {
    assert CollectionIds(ds) == CollectionIds(cs) && ProjectIds(after) == ProjectIds(projects);
    forall k | 0 <= k < |after| ensures NamesDiffer(lib, after[k], ds) {
      assert NamesDiffer(lib, projects[k], cs);
    }
  }

  lemma AddNoteKeepsInv(lib: Library, base: Base, w: Workspace, note: Note)
    requires Inv(lib, base, w) && FreshNote(w.notes, note.id)
    ensures Inv(lib, base, AddEvidenceNote(w, note))
  {
    var t := AddEvidenceNote(w, note);
    AddNoteKeepsIndexed(base, w, note);
    AddNoteKeepsProjects(lib, w, note);
    SameNamesKeepShelves(lib, w.projects, t.projects, w.collections, t.collections);
  }

  lemma FileNoteKeepsInv(lib: Library, base: Base, w: Workspace, noteId: Id, collectionId: Id)
    requires Inv(lib, base, w)
    ensures Inv(lib, base, FileNoteInCollection(w, w, noteId, collectionId))
  {
    var t := FileNoteInCollection(w, w, noteId, collectionId);
    FileNoteKeepsIndexed(base, w, noteId, collectionId);
    FileNoteKeepsProjects(w, noteId, collectionId);
    SameNamesKeepShelves(lib, w.projects, t.projects, w.collections, t.collections);
  }

  lemma ApplyKeepsInv(lib: Library, base: Base, w: Workspace, c: Command)
    requires Inv(lib, base, w) && Enabled(base, w, c)
    ensures Inv(lib, base, Apply(lib, w, c))
  {
    match c
    case ImportPaper(hit, destination, freshId) => ImportKeepsInv(lib, base, w, hit, destination, freshId);
    case FileFromInbox(entryId, projectId) => FileFromInboxKeepsInv(lib, base, w, entryId, projectId);
    case AddProject(freshId) => AddProjectKeepsInv(lib, base, w, freshId);
    case AddCollection(active, name, freshId) => AddCollectionKeepsInv(lib, base, w, active, name, freshId);
    case CollectPaper(collectionId, paperId) => CollectPaperKeepsInv(lib, base, w, collectionId, paperId);
    case AddNote(note) => AddNoteKeepsInv(lib, base, w, note);
    case FileNote(noteId, collectionId) => FileNoteKeepsInv(lib, base, w, noteId, collectionId);
  }

  predicate CommandAt(lib: Library, base: Base, ws: seq<Workspace>, cs: seq<Command>, i: nat)
    requires |ws| == |cs| + 1 && i < |cs|
  {
    Enabled(base, ws[i], cs[i]) && ws[i + 1] == Apply(lib, ws[i], cs[i])
  }

  ghost predicate IsRun(lib: Library, base: Base, ws: seq<Workspace>, cs: seq<Command>) {
    |ws| == |cs| + 1 && forall i :: 0 <= i < |cs| ==> CommandAt(lib, base, ws, cs, i)
  }

  /** A run from a consistent workspace stays consistent. */
  lemma {:induction false} RunKeepsInv(lib: Library, base: Base, ws: seq<Workspace>, cs: seq<Command>, i: nat)
    requires IsRun(lib, base, ws, cs) && i < |ws| && Inv(lib, base, ws[0])
    ensures Inv(lib, base, ws[i])
  {
    if i > 0 {
      RunKeepsInv(lib, base, ws, cs, i - 1);
      assert CommandAt(lib, base, ws, cs, i - 1);
      ApplyKeepsInv(lib, base, ws[i - 1], cs[i - 1]);
    }
  }

  /** Every workspace that commands lead to from the seed is consistent. */
  lemma EveryRunKeepsInv(lib: Library, ws: seq<Workspace>, cs: seq<Command>, i: nat)
    requires IsRun(lib, map[], ws, cs) && ws[0] == SEED && i < |ws|
    ensures Inv(lib, map[], ws[i])
  {
    SeedIsConsistent(lib);
    RunKeepsInv(lib, map[], ws, cs, i);
  }

  /** In every such workspace all project papers can be shown. */
  lemma ProjectPapersResolve(lib: Library, ws: seq<Workspace>, cs: seq<Command>, i: nat, k: nat, id: Id)
    requires IsRun(lib, map[], ws, cs) && ws[0] == SEED && i < |ws|
    requires k < |ws[i].projects| && id in ws[i].projects[k].paperIds
    ensures Resolvable(lib, ws[i], id)
  {
    EveryRunKeepsInv(lib, ws, cs, i);
  }

  // ---- Guards look at what is rendered. ----

  /** The rendered workspace lets the note be filed; the current one has the same note and collection. */
  ghost predicate LetsFile(seen: Workspace, w: Workspace, noteId: Id, cid: Id) {
    && NoteById(seen.notes, noteId).Some? && CollectionById(seen.collections, cid).Some?
    && cid !in NoteById(seen.notes, noteId).value.collectionIds
    && NoteById(w.notes, noteId).Some? && CollectionById(w.collections, cid).Some?
    && NoteById(w.notes, noteId).value.kind == NoteById(seen.notes, noteId).value.kind
    && NoteById(w.notes, noteId).value.hasQuestion == NoteById(seen.notes, noteId).value.hasQuestion
  }

  predicate CountedAt(base: Base, notes: seq<Note>, c: Collection) {
    && c.evidenceClaimCount == BaseOf(base, c.id).0 + Filings(notes, c.id, Claims)
    && c.openQuestionCount == BaseOf(base, c.id).1 + Filings(notes, c.id, Questions)
  }

  lemma FirstFilingCounts(base: Base, seen: Workspace, w: Workspace, noteId: Id, cid: Id, j: nat)
    requires Indexed(base, w.notes, w.collections) && LetsFile(seen, w, noteId, cid) && j < |w.collections|
    requires cid !in NoteById(w.notes, noteId).value.collectionIds
    ensures var t := FileNoteInCollection(seen, w, noteId, cid); CountedAt(base, t.notes, t.collections[j])
  {
    var t := FileNoteInCollection(seen, w, noteId, cid);
    var k := FileNoteIndex(w, noteId, cid);
    FilingsAfter(w.notes, t.notes, k, cid, w.collections[j].id, Claims);
    FilingsAfter(w.notes, t.notes, k, cid, w.collections[j].id, Questions);
  }

  lemma SecondFilingCounts(base: Base, seen: Workspace, w: Workspace, noteId: Id, cid: Id, j: nat)
    requires Indexed(base, w.notes, w.collections) && LetsFile(seen, w, noteId, cid) && j < |w.collections|
    requires cid in NoteById(w.notes, noteId).value.collectionIds
    ensures var t := FileNoteInCollection(seen, w, noteId, cid);
            var note := NoteById(w.notes, noteId).value;
            CountedAt(base, t.notes, t.collections[j]) <==>
            w.collections[j].id != cid || (note.kind == OpenQuestion && !note.hasQuestion)
  {
    var t := FileNoteInCollection(seen, w, noteId, cid);
    var k := FileNoteIndex(w, noteId, cid);
    RefilingCountsTheSame(w.notes, t.notes, k, cid, w.collections[j].id, Claims);
    RefilingCountsTheSame(w.notes, t.notes, k, cid, w.collections[j].id, Questions);
  }

  /**
   Filing a note on the strength of an older rendering keeps the counters right exactly when the
   current note is not yet filed there, or counts towards neither counter.
   */
  lemma StaleFilingExactly(base: Base, seen: Workspace, w: Workspace, noteId: Id, cid: Id)
    requires Indexed(base, w.notes, w.collections) && LetsFile(seen, w, noteId, cid)
    ensures var t := FileNoteInCollection(seen, w, noteId, cid);
            var note := NoteById(w.notes, noteId).value;
            (forall j :: 0 <= j < |t.collections| ==> CountedAt(base, t.notes, t.collections[j])) <==>
            (cid !in note.collectionIds || (note.kind == OpenQuestion && !note.hasQuestion))
  {
    var t := FileNoteInCollection(seen, w, noteId, cid);
    if cid !in NoteById(w.notes, noteId).value.collectionIds {
      forall j | 0 <= j < |t.collections| ensures CountedAt(base, t.notes, t.collections[j]) {
        FirstFilingCounts(base, seen, w, noteId, cid, j);
      }
    } else {
      forall j | 0 <= j < |t.collections|
        ensures var note := NoteById(w.notes, noteId).value;
                CountedAt(base, t.notes, t.collections[j]) <==>
                w.collections[j].id != cid || (note.kind == OpenQuestion && !note.hasQuestion)
      {
        SecondFilingCounts(base, seen, w, noteId, cid, j);
      }
      var m: nat :| m < |w.collections| && w.collections[m].id == cid;
      assert CountedAt(base, t.notes, t.collections[m]) <==> (NoteById(w.notes, noteId).value.kind == OpenQuestion
                                                             && !NoteById(w.notes, noteId).value.hasQuestion);
    }
  }

  lemma {:induction false} RefilingCountsTheSame(notes: seq<Note>, after: seq<Note>, k: nat, cid: Id,
                                                 other: Id, which: Which)
    requires k < |notes| && |after| == |notes| && cid in notes[k].collectionIds
    requires after[k] == notes[k].(collectionIds := notes[k].collectionIds + [cid])
    requires forall i :: 0 <= i < |notes| && i != k ==> after[i] == notes[i]
    ensures Filings(after, other, which) == Filings(notes, other, which)
  {
    if k == 0 {
      assert after[1..] == notes[1..];
    } else {
      RefilingCountsTheSame(notes[1..], after[1..], k - 1, cid, other, which);
    }
  }

  const ONE_NOTE :=
    Workspace([], [], [], [Note("n", "p", OtherKind, false, [])], [Collection("c", "c", [], [], 0, 0)])

  lemma OneNoteIsIndexed()
    ensures Indexed(map[], ONE_NOTE.notes, ONE_NOTE.collections)
  {
    assert NoteIds(ONE_NOTE.notes) == ["n"] && CollectionIds(ONE_NOTE.collections) == ["c"];
    assert Filings(ONE_NOTE.notes, "c", Claims) == 0 && Filings(ONE_NOTE.notes, "c", Questions) == 0;
  }

  /** Two filings of one note, both decided on the rendering before the first: the claim counts twice. */
  lemma TwoFilingsOfOneRendering()
    ensures var once := FileNoteInCollection(ONE_NOTE, ONE_NOTE, "n", "c");
            var twice := FileNoteInCollection(ONE_NOTE, once, "n", "c");
            && Indexed(map[], once.notes, once.collections) && LetsFile(ONE_NOTE, once, "n", "c")
            && twice.collections[0].noteIds == ["n"] && twice.collections[0].evidenceClaimCount == 2
  {
    OneNoteIsIndexed();
    FileNoteKeepsIndexed(map[], ONE_NOTE, "n", "c");
  }

  /** Every rendered Inbox entry is still there, as an entry of the same record. */
  ghost predicate InboxGrew(seen: Workspace, w: Workspace) {
    forall i :: 0 <= i < |seen.inboxEntries| ==>
      exists j :: 0 <= j < |w.inboxEntries| && SameRecord(seen.inboxEntries[i], w.inboxEntries[j])
  }

  predicate SameRecord(a: InboxEntry, b: InboxEntry) {
    a.id == b.id && a.provider == b.provider && a.sourceId == b.sourceId
  }

  /**
   An import decided on an older rendering keeps one Inbox entry for each record exactly when the
   rendering already showed the record's entry or there still is none.
   */
  lemma StaleImportExactly(lib: Library, seen: Workspace, w: Workspace, hit: Hit, destination: Option<Id>, freshId: Id)
    requires InboxUnique(w.inboxEntries) && InboxGrew(seen, w) && freshId !in EntryIds(w.inboxEntries)
    ensures InboxUnique(CommitImport(lib, seen, w, hit, destination, freshId).inboxEntries) <==>
            FindEntry(seen.inboxEntries, hit.provider, hit.sourceId).Some?
            || FindEntry(w.inboxEntries, hit.provider, hit.sourceId).None?
  {
    var shown := FindEntry(seen.inboxEntries, hit.provider, hit.sourceId);
    var next := NextEntry(lib, seen, hit, destination, freshId);
    if shown.Some? {
      var i :| 0 <= i < |seen.inboxEntries| && seen.inboxEntries[i] == shown.value;
      var j :| 0 <= j < |w.inboxEntries| && SameRecord(seen.inboxEntries[i], w.inboxEntries[j]);
      ReplacingKeepsInbox(w.inboxEntries, w.inboxEntries[j], next);
    } else {
      var after := [next] + w.inboxEntries;
      assert EntryIds(after) == [freshId] + EntryIds(w.inboxEntries);
      var current := FindEntry(w.inboxEntries, hit.provider, hit.sourceId);
      if current.Some? {
        var j :| 0 <= j < |w.inboxEntries| && w.inboxEntries[j] == current.value;
        assert after[j + 1] == current.value && after[0] == next;
      }
    }
  }

  /** Listing a paper on the strength of an older rendering lists it once exactly when it is not yet listed. */
  lemma StaleListingExactly(lib: Library, seen: Workspace, w: Workspace, cid: Id, paperId: Id)
    requires DistinctIds(CollectionIds(w.collections)) && PapersOnce(w.collections)
    requires Resolvable(lib, seen, paperId) && CollectionById(seen.collections, cid).Some?
    requires paperId !in CollectionById(seen.collections, cid).value.paperIds
    requires CollectionById(w.collections, cid).Some?
    ensures PapersOnce(AddPaperToCollection(lib, seen, w, cid, paperId).collections) <==>
            paperId !in CollectionById(w.collections, cid).value.paperIds
  {
    var t := AddPaperToCollection(lib, seen, w, cid, paperId);
    var found := CollectionById(w.collections, cid).value;
    var m :| 0 <= m < |w.collections| && w.collections[m] == found;
    assert t.collections[m].paperIds == found.paperIds + [paperId];
    if paperId in found.paperIds {
      var k :| 0 <= k < |found.paperIds| && found.paperIds[k] == paperId;
      assert t.collections[m].paperIds[k] == t.collections[m].paperIds[|found.paperIds|];
    } else {
      forall j | 0 <= j < |t.collections| ensures DistinctIds(t.collections[j].paperIds) {
        if w.collections[j].id == cid {
          assert CollectionIds(w.collections)[j] == CollectionIds(w.collections)[m];
        }
      }
    }
  }

  /** Creating a project adds it to the current workspace exactly when the rendering was up to date. */
  lemma StaleProjectExactly(seen: Workspace, w: Workspace, freshId: Id)
    ensures CreateProject(seen, freshId) == w.(projects := [Project(freshId, [], [], [])] + w.projects) <==> seen == w
  {
    var p := [Project(freshId, [], [], [])];
    if CreateProject(seen, freshId) == w.(projects := p + w.projects) {
      assert (p + seen.projects)[1..] == seen.projects && (p + w.projects)[1..] == w.projects;
    }
  }
}
