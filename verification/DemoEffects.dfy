/**
 What each demo command does, told without its definition: exactly which facts it adds, and what
 becomes of the Inbox entry it is about.
 */
module DemoEffects {
  import opened Common
  import opened DemoWorkspace
  import opened DemoInvariant
  import opened DemoRuns
  import opened DemoFacts

  // ---- The facts a command adds. ----

  /** The paper that stands for another: what the duplicate finder finds among seeds and imports, if anything. */
  predicate StandsFor(lib: Library, w: Workspace, paper: Paper, id: Id) {
    var found := lib.duplicate(paper, lib.papers + w.importedPapers);
    id == if found.Some? then found.value.id else paper.id
  }

  predicate HasEntry(w: Workspace, provider: string, sourceId: string) {
    exists i ::
      0 <= i < |w.inboxEntries|
      && w.inboxEntries[i].provider == provider && w.inboxEntries[i].sourceId == sourceId
  }

  ghost predicate ImportAdds(lib: Library, w: Workspace, hit: Hit, destination: Option<Id>, freshId: Id, f: Fact) {
    match f
    case Entry(id) => id == freshId && !HasEntry(w, hit.provider, hit.sourceId)
    case Import(paperId) => destination.Some? && StandsFor(lib, w, hit.paper, paperId)
    case ProjectPaper(id, paperId) =>
      destination == Some(id) && HasProject(w.projects, id) && StandsFor(lib, w, hit.paper, paperId)
    case _ => false
  }

  lemma FoundIsThere(entries: seq<InboxEntry>, provider: string, sourceId: string)
    ensures FindEntry(entries, provider, sourceId).Some? <==>
            exists i :: 0 <= i < |entries| && entries[i].provider == provider && entries[i].sourceId == sourceId
  {
  }

  lemma WithPaperSays(projects: seq<Project>, projectId: Id, paperId: Id, id: Id, other: Id)
    ensures var after := WithPaper(projects, projectId, paperId);
            (exists i :: 0 <= i < |after| && after[i].id == id && other in after[i].paperIds) <==>
            || (exists i :: 0 <= i < |projects| && projects[i].id == id && other in projects[i].paperIds)
            || (id == projectId && other == paperId && HasProject(projects, id))
  {
    var after := WithPaper(projects, projectId, paperId);
    if i :| 0 <= i < |projects| && projects[i].id == id && other in projects[i].paperIds {
      assert after[i].id == id && other in after[i].paperIds;
    }
    if id == projectId && other == paperId && HasProject(projects, id) {
      var i :| 0 <= i < |projects| && projects[i].id == id;
      assert after[i].id == id && other in after[i].paperIds;
    }
  }

  /**
   An import adds an Inbox entry for a new record, and with a destination the canonical paper to imports
   and project.
   */
  lemma ImportSays(lib: Library, w: Workspace, hit: Hit, destination: Option<Id>, freshId: Id, f: Fact)
    ensures Holds(CommitImport(lib, w, w, hit, destination, freshId), f) <==>
            Holds(w, f) || ImportAdds(lib, w, hit, destination, freshId, f)
  {
    var t := CommitImport(lib, w, w, hit, destination, freshId);
    if Holds(w, f) {
      ImportAddsFacts(lib, w, hit, destination, freshId, f);
    }
    match f
    case Entry(id) =>
      FoundIsThere(w.inboxEntries, hit.provider, hit.sourceId);
      ImportedEntryIds(lib, w, hit, destination, freshId, id);
    case Import(paperId) => ImportedHas(w.importedPapers, CanonicalPaper(lib, w, hit.paper), paperId);
    case ProjectPaper(id, paperId) =>
      if destination.Some? {
        WithPaperSays(w.projects, destination.value, CanonicalPaper(lib, w, hit.paper).id, id, paperId);
      }
    case _ =>
  }

  lemma ImportedEntryIds(lib: Library, w: Workspace, hit: Hit, destination: Option<Id>, freshId: Id, id: Id)
    ensures var t := CommitImport(lib, w, w, hit, destination, freshId);
            Holds(t, Entry(id)) <==>
            Holds(w, Entry(id)) || (id == freshId && FindEntry(w.inboxEntries, hit.provider, hit.sourceId).None?)
  {
    var t := CommitImport(lib, w, w, hit, destination, freshId);
    var found := FindEntry(w.inboxEntries, hit.provider, hit.sourceId);
    if found.None? {
      assert t.inboxEntries[0].id == freshId;
    }
    if Holds(w, Entry(id)) {
      ImportAddsFacts(lib, w, hit, destination, freshId, Entry(id));
    }
  }

  ghost predicate FilingAdds(lib: Library, w: Workspace, entryId: Id, projectId: Id, f: Fact) {
    var entry := EntryById(w.inboxEntries, entryId);
    && entry.Some? && HasProject(w.projects, projectId)
    && match f
       case Import(paperId) => StandsFor(lib, w, entry.value.paper, paperId)
       case ProjectPaper(id, paperId) => id == projectId && StandsFor(lib, w, entry.value.paper, paperId)
       case _ => false
  }

  /** Filing an entry adds the canonical paper to imports and project. */
  lemma FilingSays(lib: Library, w: Workspace, entryId: Id, projectId: Id, f: Fact)
    ensures Holds(FileInboxEntry(lib, w, w, entryId, projectId), f) <==>
            Holds(w, f) || FilingAdds(lib, w, entryId, projectId, f)
  {
    var entry := EntryById(w.inboxEntries, entryId);
    if Holds(w, f) {
      FilingAddsFacts(lib, w, entryId, projectId, f);
    }
    if entry.Some? {
      var canonical := CanonicalPaper(lib, w, entry.value.paper);
      match f
      case Import(paperId) => ImportedHas(w.importedPapers, canonical, paperId);
      case ProjectPaper(id, paperId) => WithPaperSays(w.projects, projectId, canonical.id, id, paperId);
      case _ =>
    }
  }

  ghost predicate NewCollectionAdds(lib: Library, w: Workspace, active: Project, name: string, freshId: Id, f: Fact) {
    && (forall i :: 0 <= i < |w.collections| && w.collections[i].id in active.collectionIds ==>
          lib.nameKey(w.collections[i].name) != lib.nameKey(name))
    && (f == CollectionMade(freshId) || (f == Shelf(active.id, freshId) && HasProject(w.projects, active.id)))
  }

  /** A new collection is added to the list and to its project, unless the project has one of the name. */
  lemma NewCollectionSays(lib: Library, w: Workspace, active: Project, name: string, freshId: Id, f: Fact)
    ensures Holds(CreateCollection(lib, w, w, active, name, freshId), f) <==>
            Holds(w, f) || NewCollectionAdds(lib, w, active, name, freshId, f)
  {
    var t := CreateCollection(lib, w, w, active, name, freshId);
    if Holds(w, f) {
      CommandsAddFacts(lib, w, AddCollection(active, name, freshId), f);
    }
    if NewCollectionAdds(lib, w, active, name, freshId, f) {
      assert t.collections[0].id == freshId;
      if HasProject(w.projects, active.id) {
        var i :| 0 <= i < |w.projects| && w.projects[i].id == active.id;
        assert t.projects[i].id == active.id && freshId in t.projects[i].collectionIds;
      }
    }
  }

  ghost predicate ListingAdds(lib: Library, w: Workspace, collectionId: Id, paperId: Id, f: Fact) {
    f == Listing(collectionId, paperId) && Resolvable(lib, w, paperId) && Holds(w, CollectionMade(collectionId))
  }

  /** Listing adds a paper that can be shown to the one collection. */
  lemma ListingSays(lib: Library, w: Workspace, collectionId: Id, paperId: Id, f: Fact)
    requires DistinctIds(CollectionIds(w.collections))
    ensures Holds(AddPaperToCollection(lib, w, w, collectionId, paperId), f) <==>
            Holds(w, f) || ListingAdds(lib, w, collectionId, paperId, f)
  {
    var t, found := AddPaperToCollection(lib, w, w, collectionId, paperId), CollectionById(w.collections, collectionId);
    if Holds(w, f) {
      CommandsAddFacts(lib, w, CollectPaper(collectionId, paperId), f);
    }
    if ListingAdds(lib, w, collectionId, paperId, f) {
      var i :| 0 <= i < |w.collections| && w.collections[i] == found.value;
      assert t.collections[i].id == collectionId && paperId in t.collections[i].paperIds;
    }
  }

  ghost predicate NewNoteAdds(w: Workspace, note: Note, f: Fact) {
    match f
    case NoteMade(id) => id == note.id
    case Filing(noteId, id) => noteId == note.id && id in note.collectionIds
    case NoteListing(id, noteId) => noteId == note.id && id in note.collectionIds && Holds(w, CollectionMade(id))
    case Evidence(id, noteId) => noteId == note.id && Holds(w, ProjectPaper(id, note.paperId))
    case _ => false
  }

  /** A new note is added to the notes, to the collections it names, and to every project with its paper. */
  lemma NewNoteSays(lib: Library, w: Workspace, note: Note, f: Fact)
    ensures Holds(AddEvidenceNote(w, note), f) <==> Holds(w, f) || NewNoteAdds(w, note, f)
  {
    var t := AddEvidenceNote(w, note);
    if Holds(w, f) {
      CommandsAddFacts(lib, w, AddNote(note), f);
    }
    if NewNoteAdds(w, note, f) {
      assert t.notes[0] == note;
      if f.NoteListing? {
        var i :| 0 <= i < |w.collections| && w.collections[i].id == f.id;
        assert t.collections[i].id == f.id && note.id in t.collections[i].noteIds;
      } else if f.Evidence? {
        var i :| 0 <= i < |w.projects| && w.projects[i].id == f.id && note.paperId in w.projects[i].paperIds;
        assert t.projects[i].id == f.id && note.id in t.projects[i].evidenceNoteIds;
      }
    }
  }

  ghost predicate NoteFilingAdds(w: Workspace, noteId: Id, collectionId: Id, f: Fact) {
    && Holds(w, NoteMade(noteId)) && Holds(w, CollectionMade(collectionId))
    && (f == Filing(noteId, collectionId) || f == NoteListing(collectionId, noteId))
  }

  lemma NoteFilingIsSaid(w: Workspace, noteId: Id, collectionId: Id, f: Fact)
    requires TwoWay(w.notes, w.collections) && DistinctIds(NoteIds(w.notes))
    requires NoteFilingAdds(w, noteId, collectionId, f)
    ensures Holds(FileNoteInCollection(w, w, noteId, collectionId), f)
  {
    var t := FileNoteInCollection(w, w, noteId, collectionId);
    var k := FileNoteIndex(w, noteId, collectionId);
    var i :| 0 <= i < |w.collections| && w.collections[i].id == collectionId;
    assert t.notes[k].id == noteId && collectionId in t.notes[k].collectionIds;
    assert t.collections[i].id == collectionId && noteId in t.collections[i].noteIds;
  }

  lemma OnlyNoteFilingIsSaid(w: Workspace, noteId: Id, collectionId: Id, f: Fact)
    requires Holds(FileNoteInCollection(w, w, noteId, collectionId), f) && !Holds(w, f)
    ensures NoteFilingAdds(w, noteId, collectionId, f)
  {
  }

  /** Filing a note adds the collection to the note and the note to the collection. */
  lemma NoteFilingSays(lib: Library, w: Workspace, noteId: Id, collectionId: Id, f: Fact)
    requires TwoWay(w.notes, w.collections) && DistinctIds(NoteIds(w.notes))
    ensures Holds(FileNoteInCollection(w, w, noteId, collectionId), f) <==>
            Holds(w, f) || NoteFilingAdds(w, noteId, collectionId, f)
  {
    if Holds(w, f) {
      CommandsAddFacts(lib, w, FileNote(noteId, collectionId), f);
    } else if NoteFilingAdds(w, noteId, collectionId, f) {
      NoteFilingIsSaid(w, noteId, collectionId, f);
    } else if Holds(FileNoteInCollection(w, w, noteId, collectionId), f) {
      OnlyNoteFilingIsSaid(w, noteId, collectionId, f);
    }
  }

  // ---- The Inbox entry. ----

  /** The entry's status: ready with a destination, else a possible duplicate if one is found, else to be reviewed. */
  predicate HasStatus(lib: Library, w: Workspace, hit: Hit, destination: Option<Id>, e: InboxEntry) {
    var found := lib.duplicate(hit.paper, lib.papers + w.importedPapers);
    && (e.status == ReadyEntry <==> destination.Some?)
    && (e.status == PossibleDuplicate <==> destination.None? && found.Some?)
    && (e.status == AwaitingReview <==> destination.None? && found.None?)
    && (e.duplicateOf.Some? <==> found.Some?) && (found.Some? ==> e.duplicateOf.value == found.value.id)
    && e.destination == destination && e.paper == hit.paper
  }

  /** After an import the record has one entry, with the paper and the status of this import; others are as before. */
  lemma ImportedEntryIs(lib: Library, w: Workspace, hit: Hit, destination: Option<Id>, freshId: Id, e: InboxEntry)
    requires InboxUnique(w.inboxEntries) && freshId !in EntryIds(w.inboxEntries)
    ensures var t := CommitImport(lib, w, w, hit, destination, freshId);
            e in t.inboxEntries <==>
            if e.provider == hit.provider && e.sourceId == hit.sourceId
            then HasStatus(lib, w, hit, destination, e) && e.id == IdOfRecord(w, hit, freshId)
            else e in w.inboxEntries
  {
    var t := CommitImport(lib, w, w, hit, destination, freshId);
    var found := FindEntry(w.inboxEntries, hit.provider, hit.sourceId);
    var next := NextEntry(lib, w, hit, destination, freshId);
    if found.Some? {
      var m :| 0 <= m < |w.inboxEntries| && w.inboxEntries[m] == found.value;
      assert t.inboxEntries[m] == next;
      OnlyTheRecordChanges(w.inboxEntries, m, next, e);
    } else {
      assert t.inboxEntries[0] == next;
      assert e in t.inboxEntries <==> e == next || e in w.inboxEntries;
    }
  }

  /** The entry keeps its identifier if the record had one. */
  function IdOfRecord(w: Workspace, hit: Hit, freshId: Id): Id {
    var found := FindEntry(w.inboxEntries, hit.provider, hit.sourceId);
    if found.Some? then found.value.id else freshId
  }

  lemma OnlyTheRecordChanges(entries: seq<InboxEntry>, m: nat, next: InboxEntry, e: InboxEntry)
    requires InboxUnique(entries) && m < |entries| && next.id == entries[m].id
    requires next.provider == entries[m].provider && next.sourceId == entries[m].sourceId
    ensures var after := Replaced(entries, next.id, next);
            e in after <==>
            if e.provider == next.provider && e.sourceId == next.sourceId then e == next else e in entries
  {
    var after := Replaced(entries, next.id, next);
    forall i | 0 <= i < |entries| ensures after[i] == if i == m then next else entries[i] {
      assert EntryIds(entries)[i] == EntryIds(entries)[m] ==> i == m;
    }
    if e in entries && (e.provider != next.provider || e.sourceId != next.sourceId) {
      var i :| 0 <= i < |entries| && entries[i] == e;
      assert after[i] == e;
    }
    assert after[m] == next;
  }

  /** Filing an entry makes it ready with its destination and leaves its paper and all other entries alone. */
  lemma FiledEntryIs(lib: Library, w: Workspace, entryId: Id, projectId: Id, i: nat)
    requires HasProject(w.projects, projectId) && EntryById(w.inboxEntries, entryId).Some? && i < |w.inboxEntries|
    ensures var before, t := w.inboxEntries[i], FileInboxEntry(lib, w, w, entryId, projectId);
            && |t.inboxEntries| == |w.inboxEntries|
            && var after := t.inboxEntries[i];
               if before.id == entryId
               then
                 && after.id == entryId && after.provider == before.provider && after.sourceId == before.sourceId
                 && after.paper == before.paper && after.duplicateOf == before.duplicateOf
                 && after.status == ReadyEntry && after.destination == Some(projectId)
               else after == before
  {
  }
}
