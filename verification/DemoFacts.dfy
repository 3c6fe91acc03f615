/** What a workspace says, fact by fact; that commands only add facts; and what a stale project loses. */
module DemoFacts {
  import opened Common
  import opened DemoWorkspace
  import opened DemoInvariant
  import opened DemoRuns

  datatype Fact =
    | Entry(id: Id)
    | Import(paperId: Id)
    | ProjectMade(id: Id)
    | ProjectPaper(id: Id, paperId: Id)
    | CollectionMade(id: Id)
    | Listing(id: Id, paperId: Id)
    | NoteMade(id: Id)
    | Filing(noteId: Id, id: Id)
    | NoteListing(id: Id, noteId: Id)
    | Shelf(id: Id, collectionId: Id)
    | Evidence(id: Id, noteId: Id)

  ghost predicate Holds(w: Workspace, f: Fact) {
    match f
    case Entry(id) => exists i :: 0 <= i < |w.inboxEntries| && w.inboxEntries[i].id == id
    case Import(paperId) => HasPaper(w.importedPapers, paperId)
    case ProjectMade(id) => HasProject(w.projects, id)
    case ProjectPaper(id, paperId) =>
      exists i :: 0 <= i < |w.projects| && w.projects[i].id == id && paperId in w.projects[i].paperIds
    case CollectionMade(id) => exists i :: 0 <= i < |w.collections| && w.collections[i].id == id
    case Listing(id, paperId) =>
      exists i :: 0 <= i < |w.collections| && w.collections[i].id == id && paperId in w.collections[i].paperIds
    case NoteMade(id) => exists i :: 0 <= i < |w.notes| && w.notes[i].id == id
    case Filing(noteId, id) =>
      exists i :: 0 <= i < |w.notes| && w.notes[i].id == noteId && id in w.notes[i].collectionIds
    case NoteListing(id, noteId) =>
      exists i :: 0 <= i < |w.collections| && w.collections[i].id == id && noteId in w.collections[i].noteIds
    case Shelf(id, collectionId) =>
      exists i :: 0 <= i < |w.projects| && w.projects[i].id == id && collectionId in w.projects[i].collectionIds
    case Evidence(id, noteId) =>
      exists i :: 0 <= i < |w.projects| && w.projects[i].id == id && noteId in w.projects[i].evidenceNoteIds
  }

  lemma ImportAddsFacts(lib: Library, w: Workspace, hit: Hit, destination: Option<Id>, freshId: Id, f: Fact)
    requires Holds(w, f)
    ensures Holds(CommitImport(lib, w, w, hit, destination, freshId), f)
  {
    var t := CommitImport(lib, w, w, hit, destination, freshId);
    match f
    case Entry(id) =>
      var i :| 0 <= i < |w.inboxEntries| && w.inboxEntries[i].id == id;
      assert FindEntry(w.inboxEntries, hit.provider, hit.sourceId).Some? ==> t.inboxEntries[i].id == id;
      assert FindEntry(w.inboxEntries, hit.provider, hit.sourceId).None? ==> t.inboxEntries[i + 1].id == id;
    case Import(paperId) => ImportedHas(w.importedPapers, CanonicalPaper(lib, w, hit.paper), paperId);
    case ProjectMade(id) =>
      var i :| 0 <= i < |w.projects| && w.projects[i].id == id;
      assert t.projects[i].id == id;
    case ProjectPaper(id, paperId) =>
      var i :| 0 <= i < |w.projects| && w.projects[i].id == id && paperId in w.projects[i].paperIds;
      assert t.projects[i].id == id && paperId in t.projects[i].paperIds;
    case Shelf(id, collectionId) =>
      var i :| 0 <= i < |w.projects| && w.projects[i].id == id && collectionId in w.projects[i].collectionIds;
      assert t.projects[i].id == id && collectionId in t.projects[i].collectionIds;
    case Evidence(id, noteId) =>
      var i :| 0 <= i < |w.projects| && w.projects[i].id == id && noteId in w.projects[i].evidenceNoteIds;
      assert t.projects[i].id == id && noteId in t.projects[i].evidenceNoteIds;
    case _ =>
  }

  lemma FilingAddsFacts(lib: Library, w: Workspace, entryId: Id, projectId: Id, f: Fact)
    requires Holds(w, f)
    ensures Holds(FileInboxEntry(lib, w, w, entryId, projectId), f)
  {
    var t, entry := FileInboxEntry(lib, w, w, entryId, projectId), EntryById(w.inboxEntries, entryId);
    match f
    case Entry(id) =>
      var i :| 0 <= i < |w.inboxEntries| && w.inboxEntries[i].id == id;
      assert t.inboxEntries[i].id == id;
    case Import(paperId) =>
      if entry.Some? {
        ImportedHas(w.importedPapers, CanonicalPaper(lib, w, entry.value.paper), paperId);
      }
    case ProjectMade(id) =>
      var i :| 0 <= i < |w.projects| && w.projects[i].id == id;
      assert t.projects[i].id == id;
    case ProjectPaper(id, paperId) =>
      var i :| 0 <= i < |w.projects| && w.projects[i].id == id && paperId in w.projects[i].paperIds;
      assert t.projects[i].id == id && paperId in t.projects[i].paperIds;
    case Shelf(id, collectionId) =>
      var i :| 0 <= i < |w.projects| && w.projects[i].id == id && collectionId in w.projects[i].collectionIds;
      assert t.projects[i].id == id && collectionId in t.projects[i].collectionIds;
    case Evidence(id, noteId) =>
      var i :| 0 <= i < |w.projects| && w.projects[i].id == id && noteId in w.projects[i].evidenceNoteIds;
      assert t.projects[i].id == id && noteId in t.projects[i].evidenceNoteIds;
    case _ =>
  }

  lemma ShiftingAddsFacts(w: Workspace, t: Workspace, d: nat, e: nat, g: nat, f: Fact)
    requires Holds(w, f) && Shifted(w, t, d, e, g)
    ensures Holds(t, f)
  {
    match f
    case ProjectMade(id) =>
      var i :| 0 <= i < |w.projects| && w.projects[i].id == id;
      assert t.projects[i + d].id == id;
    case ProjectPaper(id, paperId) =>
      var i :| 0 <= i < |w.projects| && w.projects[i].id == id && paperId in w.projects[i].paperIds;
      assert t.projects[i + d].id == id;
    case CollectionMade(id) =>
      var i :| 0 <= i < |w.collections| && w.collections[i].id == id;
      assert t.collections[i + e].id == id;
    case Listing(id, paperId) =>
      var i :| 0 <= i < |w.collections| && w.collections[i].id == id && paperId in w.collections[i].paperIds;
      assert t.collections[i + e].id == id;
    case NoteMade(id) =>
      var i :| 0 <= i < |w.notes| && w.notes[i].id == id;
      assert t.notes[i + g].id == id;
    case Filing(noteId, id) =>
      var i :| 0 <= i < |w.notes| && w.notes[i].id == noteId && id in w.notes[i].collectionIds;
      assert t.notes[i + g].id == noteId;
    case NoteListing(id, noteId) =>
      var i :| 0 <= i < |w.collections| && w.collections[i].id == id && noteId in w.collections[i].noteIds;
      assert t.collections[i + e].id == id;
    case Shelf(id, collectionId) =>
      var i :| 0 <= i < |w.projects| && w.projects[i].id == id && collectionId in w.projects[i].collectionIds;
      assert t.projects[i + d].id == id;
    case Evidence(id, noteId) =>
      var i :| 0 <= i < |w.projects| && w.projects[i].id == id && noteId in w.projects[i].evidenceNoteIds;
      assert t.projects[i + d].id == id;
    case _ =>
  }

  predicate Within(ids: seq<Id>, more: seq<Id>) {
    forall id :: id in ids ==> id in more
  }

  /** Behind so many new elements the lists are the old ones, each element at least what it was. */
  ghost predicate Shifted(w: Workspace, t: Workspace, d: nat, e: nat, g: nat) {
    && t.importedPapers == w.importedPapers && t.inboxEntries == w.inboxEntries
    && |t.projects| == |w.projects| + d && |t.collections| == |w.collections| + e && |t.notes| == |w.notes| + g
    && (forall i :: 0 <= i < |w.projects| ==>
          && t.projects[i + d].id == w.projects[i].id && t.projects[i + d].paperIds == w.projects[i].paperIds
          && Within(w.projects[i].evidenceNoteIds, t.projects[i + d].evidenceNoteIds)
          && Within(w.projects[i].collectionIds, t.projects[i + d].collectionIds))
    && (forall i :: 0 <= i < |w.collections| ==>
          && t.collections[i + e].id == w.collections[i].id
          && Within(w.collections[i].paperIds, t.collections[i + e].paperIds)
          && Within(w.collections[i].noteIds, t.collections[i + e].noteIds))
    && (forall i :: 0 <= i < |w.notes| ==>
          t.notes[i + g].id == w.notes[i].id && Within(w.notes[i].collectionIds, t.notes[i + g].collectionIds))
  }

  lemma NothingShifts(w: Workspace)
    ensures Shifted(w, w, 0, 0, 0)
  {
  }

  lemma CollectionInFrontShifts(w: Workspace, c: Collection, projectId: Id)
    ensures Shifted(w, w.(collections := [c] + w.collections, projects := WithCollection(w.projects, projectId, c.id)),
                    0, 1, 0)
  {
  }

  lemma NewCollectionShifts(lib: Library, w: Workspace, active: Project, name: string, freshId: Id)
    ensures var t := CreateCollection(lib, w, w, active, name, freshId);
            Shifted(w, t, 0, if NameTaken(lib, w, active, name) then 0 else 1, 0)
  {
    NothingShifts(w);
    CollectionInFrontShifts(w, Collection(freshId, name, [], [], 0, 0), active.id);
  }

  lemma ListingShifts(lib: Library, w: Workspace, collectionId: Id, paperId: Id)
    ensures Shifted(w, AddPaperToCollection(lib, w, w, collectionId, paperId), 0, 0, 0)
  {
  }

  lemma NewNoteShifts(w: Workspace, note: Note)
    ensures Shifted(w, AddEvidenceNote(w, note), 0, 0, 1)
  {
  }

  lemma FilingShifts(w: Workspace, noteId: Id, collectionId: Id)
    ensures Shifted(w, FileNoteInCollection(w, w, noteId, collectionId), 0, 0, 0)
  {
  }

  lemma NewProjectShifts(w: Workspace, freshId: Id)
    ensures Shifted(w, CreateProject(w, freshId), 1, 0, 0)
  {
  }

  /** A command takes no fact away. */
  lemma CommandsAddFacts(lib: Library, w: Workspace, c: Command, f: Fact)
    requires Holds(w, f)
    ensures Holds(Apply(lib, w, c), f)
  {
    var t := Apply(lib, w, c);
    match c
    case ImportPaper(hit, destination, freshId) => ImportAddsFacts(lib, w, hit, destination, freshId, f);
    case FileFromInbox(entryId, projectId) => FilingAddsFacts(lib, w, entryId, projectId, f);
    case AddProject(freshId) =>
      NewProjectShifts(w, freshId);
      ShiftingAddsFacts(w, t, 1, 0, 0, f);
    case AddCollection(active, name, freshId) =>
      NewCollectionShifts(lib, w, active, name, freshId);
      ShiftingAddsFacts(w, t, 0, if NameTaken(lib, w, active, name) then 0 else 1, 0, f);
    case CollectPaper(collectionId, paperId) =>
      ListingShifts(lib, w, collectionId, paperId);
      ShiftingAddsFacts(w, t, 0, 0, 0, f);
    case AddNote(note) =>
      NewNoteShifts(w, note);
      ShiftingAddsFacts(w, t, 0, 0, 1, f);
    case FileNote(noteId, collectionId) =>
      FilingShifts(w, noteId, collectionId);
      ShiftingAddsFacts(w, t, 0, 0, 0, f);
  }

  lemma {:induction false} FactsStay(lib: Library, base: Base, ws: seq<Workspace>, cs: seq<Command>, i: nat, k: nat,
                                     f: Fact)
    requires IsRun(lib, base, ws, cs) && i <= k < |ws| && Holds(ws[i], f)
    ensures Holds(ws[k], f)
    decreases k
  {
    if i < k {
      FactsStay(lib, base, ws, cs, i, k - 1, f);
      assert CommandAt(lib, base, ws, cs, k - 1);
      CommandsAddFacts(lib, ws[k - 1], cs[k - 1], f);
    }
  }

  // ---- A project created on an older rendering. ----

  /** The new workspace says what the rendered one said, and that the project exists. */
  lemma StaleProjectSays(seen: Workspace, freshId: Id, f: Fact)
    ensures Holds(CreateProject(seen, freshId), f) <==> Holds(seen, f) || f == ProjectMade(freshId)
  {
    var t := CreateProject(seen, freshId);
    if Holds(seen, f) {
      NewProjectShifts(seen, freshId);
      ShiftingAddsFacts(seen, t, 1, 0, 0, f);
    }
    assert t.projects[0].id == freshId;
  }

  /**
   Whatever a command committed between the rendering and the click has added, and would have lasted,
   is lost.
   */
  lemma StaleProjectLosesEveryCommand(lib: Library, base: Base, ws: seq<Workspace>, cs: seq<Command>, k: nat,
                                      freshId: Id, f: Fact)
    requires IsRun(lib, base, ws, cs) && k < |cs| && f != ProjectMade(freshId)
    requires Holds(ws[k + 1], f) && !Holds(ws[k], f)
    ensures Holds(ws[|cs|], f) && !Holds(CreateProject(ws[0], freshId), f)
  {
    FactsStay(lib, base, ws, cs, k + 1, |cs|, f);
    if Holds(ws[0], f) {
      FactsStay(lib, base, ws, cs, 0, k, f);
    }
    StaleProjectSays(ws[0], freshId, f);
  }
}
