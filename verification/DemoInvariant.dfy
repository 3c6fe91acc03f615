/**
 What every command of the browser demo keeps, over any run of commands with fresh identifiers.
 */
module DemoInvariant {
  import opened Common
  import opened DemoWorkspace

  // ---- The parts of the invariant. ----

  predicate DistinctIds(ids: seq<Id>) {
    forall i, j :: 0 <= i < j < |ids| ==> ids[i] != ids[j]
  }

  function NoteIds(notes: seq<Note>): seq<Id> { seq(|notes|, i requires 0 <= i < |notes| => notes[i].id) }
  function CollectionIds(cs: seq<Collection>): seq<Id> { seq(|cs|, i requires 0 <= i < |cs| => cs[i].id) }
  function EntryIds(es: seq<InboxEntry>): seq<Id> { seq(|es|, i requires 0 <= i < |es| => es[i].id) }

  datatype Which = Claims | Questions

  /** Whether a note counts towards a collection's claim or question counter. */
  predicate CountsIn(n: Note, collectionId: Id, which: Which) {
    collectionId in n.collectionIds && (if which == Claims then n.kind != OpenQuestion else n.hasQuestion)
  }

  function Filings(notes: seq<Note>, collectionId: Id, which: Which): nat {
    if notes == [] then 0
    else (if CountsIn(notes[0], collectionId, which) then 1 else 0) + Filings(notes[1..], collectionId, which)
  }

  /** The counters the seed collections start with, over and above the seed notes. */
  type Base = map<Id, (nat, nat)>

  function BaseOf(base: Base, id: Id): (nat, nat) {
    if id in base then base[id] else (0, 0)
  }

  /** Note and collection membership agree in both directions. */
  ghost predicate TwoWay(notes: seq<Note>, cs: seq<Collection>) {
    forall i, j :: 0 <= i < |notes| && 0 <= j < |cs| ==>
      (cs[j].id in notes[i].collectionIds <==> notes[i].id in cs[j].noteIds)
  }

  ghost predicate NotesKnown(notes: seq<Note>, cs: seq<Collection>) {
    forall j :: 0 <= j < |cs| ==>
      DistinctIds(cs[j].noteIds) && forall id :: id in cs[j].noteIds ==> id in NoteIds(notes)
  }

  predicate Counted(base: Base, notes: seq<Note>, cs: seq<Collection>) {
    forall j :: 0 <= j < |cs| ==>
      && cs[j].evidenceClaimCount == BaseOf(base, cs[j].id).0 + Filings(notes, cs[j].id, Claims)
      && cs[j].openQuestionCount == BaseOf(base, cs[j].id).1 + Filings(notes, cs[j].id, Questions)
  }

  ghost predicate Indexed(base: Base, notes: seq<Note>, cs: seq<Collection>) {
    && DistinctIds(NoteIds(notes)) && DistinctIds(CollectionIds(cs))
    && TwoWay(notes, cs) && NotesKnown(notes, cs) && Counted(base, notes, cs)
  }

  /** A project's papers are listed once and are seeds or imports. */
  ghost predicate ProjectPapers(lib: Library, projects: seq<Project>, imported: seq<Paper>) {
    forall k :: 0 <= k < |projects| ==>
      && DistinctIds(projects[k].paperIds)
      && forall id :: id in projects[k].paperIds ==> HasPaper(lib.papers, id) || HasPaper(imported, id)
  }

  /** A project's notes are listed once, exist and concern its papers. */
  ghost predicate ProjectNotes(projects: seq<Project>, notes: seq<Note>) {
    forall k :: 0 <= k < |projects| ==> ProjectNotesAt(projects[k], notes)
  }

  ghost predicate ProjectNotesAt(p: Project, notes: seq<Note>) {
    && DistinctIds(p.evidenceNoteIds)
    && forall id :: id in p.evidenceNoteIds ==>
         exists i :: 0 <= i < |notes| && notes[i].id == id && notes[i].paperId in p.paperIds
  }

  function ProjectIds(ps: seq<Project>): seq<Id> { seq(|ps|, i requires 0 <= i < |ps| => ps[i].id) }

  /** A project's collections exist, and no two of them have the same name. */
  ghost predicate Shelved(lib: Library, projects: seq<Project>, cs: seq<Collection>) {
    && DistinctIds(ProjectIds(projects))
    && (forall k :: 0 <= k < |projects| ==> forall id :: id in projects[k].collectionIds ==> id in CollectionIds(cs))
    && (forall k :: 0 <= k < |projects| ==> NamesDiffer(lib, projects[k], cs))
  }

  predicate NamesDiffer(lib: Library, p: Project, cs: seq<Collection>) {
    forall i, j :: 0 <= i < j < |cs| ==>
      cs[i].id !in p.collectionIds || cs[j].id !in p.collectionIds || lib.nameKey(cs[i].name) != lib.nameKey(cs[j].name)
  }

  /** One Inbox entry for each provider and source. */
  predicate InboxUnique(entries: seq<InboxEntry>) {
    && DistinctIds(EntryIds(entries))
    && forall i, j :: 0 <= i < j < |entries| ==>
         entries[i].provider != entries[j].provider || entries[i].sourceId != entries[j].sourceId
  }

  /** A collection lists each paper once. */
  predicate PapersOnce(cs: seq<Collection>) {
    forall j :: 0 <= j < |cs| ==> DistinctIds(cs[j].paperIds)
  }

  ghost predicate Inv(lib: Library, base: Base, w: Workspace) {
    && Indexed(base, w.notes, w.collections)
    && ProjectPapers(lib, w.projects, w.importedPapers)
    && ProjectNotes(w.projects, w.notes)
    && Shelved(lib, w.projects, w.collections)
    && PapersOnce(w.collections)
    && InboxUnique(w.inboxEntries)
  }

  // ---- Notes and collections. ----

  lemma NoteIdsAt(notes: seq<Note>, id: Id)
    ensures id in NoteIds(notes) <==> exists i :: 0 <= i < |notes| && notes[i].id == id
  {
    if i :| 0 <= i < |notes| && notes[i].id == id {
      assert NoteIds(notes)[i] == id;
    }
  }

  predicate FreshNote(notes: seq<Note>, id: Id) {
    id !in NoteIds(notes)
  }

  lemma AddNoteKeepsTwoWay(base: Base, w: Workspace, note: Note)
    requires Indexed(base, w.notes, w.collections) && FreshNote(w.notes, note.id)
    ensures var t := AddEvidenceNote(w, note); TwoWay(t.notes, t.collections) && NotesKnown(t.notes, t.collections)
  {
    var t := AddEvidenceNote(w, note);
    forall id | id in NoteIds(w.notes) ensures id in NoteIds(t.notes) {
      NoteIdsAt(w.notes, id);
      var i :| 0 <= i < |w.notes| && w.notes[i].id == id;
      assert NoteIds(t.notes)[i + 1] == id;
    }
    assert NoteIds(t.notes)[0] == note.id;
    forall i, j | 0 <= i < |t.notes| && 0 <= j < |t.collections|
      ensures t.collections[j].id in t.notes[i].collectionIds <==> t.notes[i].id in t.collections[j].noteIds
    {
      assert note.id !in w.collections[j].noteIds;
      if i > 0 {
        assert t.notes[i] == w.notes[i - 1];
        assert NoteIds(w.notes)[i - 1] == w.notes[i - 1].id;
      }
    }
    forall j | 0 <= j < |t.collections|
      ensures DistinctIds(t.collections[j].noteIds)
      ensures forall id :: id in t.collections[j].noteIds ==> id in NoteIds(t.notes)
    {
      assert note.id !in w.collections[j].noteIds;
    }
  }

  lemma AddNoteKeepsCounts(base: Base, w: Workspace, note: Note)
    requires Counted(base, w.notes, w.collections)
    ensures var t := AddEvidenceNote(w, note); Counted(base, t.notes, t.collections)
  {
    var t := AddEvidenceNote(w, note);
    assert t.notes[1..] == w.notes;
  }

  lemma AddNoteKeepsIndexed(base: Base, w: Workspace, note: Note)
    requires Indexed(base, w.notes, w.collections) && FreshNote(w.notes, note.id)
    ensures var t := AddEvidenceNote(w, note); Indexed(base, t.notes, t.collections)
  {
    var t := AddEvidenceNote(w, note);
    AddNoteKeepsTwoWay(base, w, note);
    AddNoteKeepsCounts(base, w, note);
    assert NoteIds(t.notes) == [note.id] + NoteIds(w.notes);
    assert CollectionIds(t.collections) == CollectionIds(w.collections);
  }

  /** Filing one more note adds it to exactly the counts it belongs in. */
  lemma {:induction false} FilingsAfter(notes: seq<Note>, after: seq<Note>, k: nat, cid: Id, other: Id, which: Which)
    requires k < |notes| && |after| == |notes| && cid !in notes[k].collectionIds
    requires after[k] == notes[k].(collectionIds := notes[k].collectionIds + [cid])
    requires forall i :: 0 <= i < |notes| && i != k ==> after[i] == notes[i]
    ensures Filings(after, other, which) ==
            Filings(notes, other, which) + if other == cid && CountsIn(after[k], cid, which) then 1 else 0
  {
    if k == 0 {
      assert after[1..] == notes[1..];
      assert CountsIn(after[0], other, which) <==>
             CountsIn(notes[0], other, which) || (other == cid && CountsIn(after[0], cid, which));
    } else {
      FilingsAfter(notes[1..], after[1..], k - 1, cid, other, which);
    }
  }

  lemma UniqueNote(notes: seq<Note>, i: nat, j: nat)
    requires DistinctIds(NoteIds(notes)) && i < |notes| && j < |notes| && notes[i].id == notes[j].id
    ensures i == j
  {
    assert NoteIds(notes)[i] == NoteIds(notes)[j];
  }

  lemma FileNoteIndex(w: Workspace, noteId: Id, collectionId: Id) returns (k: nat)
    requires DistinctIds(NoteIds(w.notes)) && NoteById(w.notes, noteId).Some?
    ensures k < |w.notes| && w.notes[k] == NoteById(w.notes, noteId).value
    ensures forall i :: 0 <= i < |w.notes| ==> (w.notes[i].id == noteId <==> i == k)
  {
    k :| 0 <= k < |w.notes| && w.notes[k] == NoteById(w.notes, noteId).value;
    forall i | 0 <= i < |w.notes| ensures w.notes[i].id == noteId <==> i == k {
      if w.notes[i].id == noteId {
        UniqueNote(w.notes, i, k);
      }
    }
  }

  lemma FileNoteKeepsTwoWay(base: Base, w: Workspace, noteId: Id, cid: Id)
    requires Indexed(base, w.notes, w.collections)
    ensures var t := FileNoteInCollection(w, w, noteId, cid);
            TwoWay(t.notes, t.collections) && NotesKnown(t.notes, t.collections)
  {
    var t := FileNoteInCollection(w, w, noteId, cid);
    if t != w {
      var k := FileNoteIndex(w, noteId, cid);
      assert NoteIds(t.notes) == NoteIds(w.notes);
      assert NoteIds(w.notes)[k] == noteId;
      forall i, j | 0 <= i < |t.notes| && 0 <= j < |t.collections|
        ensures t.collections[j].id in t.notes[i].collectionIds <==> t.notes[i].id in t.collections[j].noteIds
      {
        assert w.collections[j].id in w.notes[i].collectionIds <==> w.notes[i].id in w.collections[j].noteIds;
      }
    }
  }

  lemma FileNoteKeepsCounts(base: Base, w: Workspace, noteId: Id, cid: Id)
    requires Indexed(base, w.notes, w.collections)
    ensures var t := FileNoteInCollection(w, w, noteId, cid); Counted(base, t.notes, t.collections)
  {
    var t := FileNoteInCollection(w, w, noteId, cid);
    if t != w {
      var k := FileNoteIndex(w, noteId, cid);
      forall j | 0 <= j < |t.collections|
        ensures t.collections[j].evidenceClaimCount ==
                BaseOf(base, t.collections[j].id).0 + Filings(t.notes, t.collections[j].id, Claims)
        ensures t.collections[j].openQuestionCount ==
                BaseOf(base, t.collections[j].id).1 + Filings(t.notes, t.collections[j].id, Questions)
      {
        FilingsAfter(w.notes, t.notes, k, cid, w.collections[j].id, Claims);
        FilingsAfter(w.notes, t.notes, k, cid, w.collections[j].id, Questions);
      }
    }
  }

  lemma FileNoteKeepsIndexed(base: Base, w: Workspace, noteId: Id, cid: Id)
    requires Indexed(base, w.notes, w.collections)
    ensures var t := FileNoteInCollection(w, w, noteId, cid); Indexed(base, t.notes, t.collections)
  {
    var t := FileNoteInCollection(w, w, noteId, cid);
    FileNoteKeepsTwoWay(base, w, noteId, cid);
    FileNoteKeepsCounts(base, w, noteId, cid);
    assert NoteIds(t.notes) == NoteIds(w.notes);
    assert CollectionIds(t.collections) == CollectionIds(w.collections);
  }

  lemma {:induction false} NoFilings(notes: seq<Note>, cid: Id, which: Which)
    requires forall i :: 0 <= i < |notes| ==> cid !in notes[i].collectionIds
    ensures Filings(notes, cid, which) == 0
  {
    if notes != [] {
      NoFilings(notes[1..], cid, which);
    }
  }

  /** The identifier is used by no collection, no note and no seed counter. */
  predicate FreshCollection(base: Base, w: Workspace, id: Id) {
    && id !in CollectionIds(w.collections) && id !in base
    && forall i :: 0 <= i < |w.notes| ==> id !in w.notes[i].collectionIds
  }

  lemma NewCollectionKeepsIndexed(base: Base, w: Workspace, name: string, id: Id)
    requires Indexed(base, w.notes, w.collections) && FreshCollection(base, w, id)
    ensures Indexed(base, w.notes, [Collection(id, name, [], [], 0, 0)] + w.collections)
  {
    var cs := [Collection(id, name, [], [], 0, 0)] + w.collections;
    NoFilings(w.notes, id, Claims);
    NoFilings(w.notes, id, Questions);
    assert CollectionIds(cs) == [id] + CollectionIds(w.collections);
    forall i, j | 0 <= i < |w.notes| && 0 <= j < |cs|
      ensures cs[j].id in w.notes[i].collectionIds <==> w.notes[i].id in cs[j].noteIds
    {
      assert j > 0 ==> cs[j] == w.collections[j - 1];
    }
  }

  lemma AddPaperKeepsIndexed(lib: Library, base: Base, w: Workspace, cid: Id, paperId: Id)
    requires Indexed(base, w.notes, w.collections)
    ensures var t := AddPaperToCollection(lib, w, w, cid, paperId);
            && Indexed(base, t.notes, t.collections)
            && t.projects == w.projects && |t.collections| == |w.collections|
            && forall i :: 0 <= i < |t.collections| ==>
                 t.collections[i].id == w.collections[i].id && t.collections[i].name == w.collections[i].name
  {
    var t := AddPaperToCollection(lib, w, w, cid, paperId);
    assert CollectionIds(t.collections) == CollectionIds(w.collections);
  }

  lemma AddPaperListsOnce(lib: Library, w: Workspace, cid: Id, paperId: Id)
    requires DistinctIds(CollectionIds(w.collections)) && PapersOnce(w.collections)
    ensures PapersOnce(AddPaperToCollection(lib, w, w, cid, paperId).collections)
  {
    var found := CollectionById(w.collections, cid);
    var t := AddPaperToCollection(lib, w, w, cid, paperId);
    if t != w {
      var m :| 0 <= m < |w.collections| && w.collections[m] == found.value;
      forall j | 0 <= j < |t.collections| ensures DistinctIds(t.collections[j].paperIds) {
        if w.collections[j].id == cid {
          assert CollectionIds(w.collections)[j] == CollectionIds(w.collections)[m];
        }
      }
    }
  }

  // ---- Projects. ----

  lemma ImportedHas(papers: seq<Paper>, paper: Paper, id: Id)
    ensures HasPaper(Imported(papers, paper), id) <==> HasPaper(papers, id) || id == paper.id
  {
    var after := Imported(papers, paper);
    if HasPaper(papers, id) {
      var i :| 0 <= i < |papers| && papers[i].id == id;
      assert after[i].id == id;
    }
    if !HasPaper(papers, paper.id) {
      assert after[|papers|].id == paper.id;
    }
  }

  lemma WithPaperKeepsPapers(lib: Library, projects: seq<Project>, imported: seq<Paper>, projectId: Id, paper: Paper)
    requires ProjectPapers(lib, projects, imported)
    ensures ProjectPapers(lib, WithPaper(projects, projectId, paper.id), Imported(imported, paper))
  {
    var after := WithPaper(projects, projectId, paper.id);
    forall k | 0 <= k < |after|
      ensures DistinctIds(after[k].paperIds)
      ensures forall id :: id in after[k].paperIds ==>
                HasPaper(lib.papers, id) || HasPaper(Imported(imported, paper), id)
    {
      forall id | id in after[k].paperIds ensures HasPaper(lib.papers, id) || HasPaper(Imported(imported, paper), id) {
        ImportedHas(imported, paper, id);
      }
    }
  }

  lemma WithPaperKeepsNotes(projects: seq<Project>, notes: seq<Note>, projectId: Id, paperId: Id)
    requires ProjectNotes(projects, notes)
    ensures ProjectNotes(WithPaper(projects, projectId, paperId), notes)
  {
    var after := WithPaper(projects, projectId, paperId);
    forall k | 0 <= k < |after| ensures ProjectNotesAt(after[k], notes) {
      assert ProjectNotesAt(projects[k], notes);
      forall id | id in after[k].evidenceNoteIds
        ensures exists i :: 0 <= i < |notes| && notes[i].id == id && notes[i].paperId in after[k].paperIds
      {
        var i :| 0 <= i < |notes| && notes[i].id == id && notes[i].paperId in projects[k].paperIds;
      }
    }
  }

  lemma WithPaperKeepsShelves(lib: Library, projects: seq<Project>, cs: seq<Collection>, projectId: Id, paperId: Id)
    requires Shelved(lib, projects, cs)
    ensures Shelved(lib, WithPaper(projects, projectId, paperId), cs)
  {
    assert ProjectIds(WithPaper(projects, projectId, paperId)) == ProjectIds(projects);
  }

  lemma AddNoteKeepsProjects(lib: Library, w: Workspace, note: Note)
    requires ProjectNotes(w.projects, w.notes) && FreshNote(w.notes, note.id)
    ensures var t := AddEvidenceNote(w, note); ProjectNotes(t.projects, t.notes)
  {
    var t := AddEvidenceNote(w, note);
    forall k | 0 <= k < |t.projects| ensures ProjectNotesAt(t.projects[k], t.notes) {
      assert ProjectNotesAt(w.projects[k], w.notes);
      forall id | id in t.projects[k].evidenceNoteIds
        ensures exists i :: 0 <= i < |t.notes| && t.notes[i].id == id && t.notes[i].paperId in t.projects[k].paperIds
      {
        if id in w.projects[k].evidenceNoteIds {
          var i :| 0 <= i < |w.notes| && w.notes[i].id == id && w.notes[i].paperId in w.projects[k].paperIds;
          assert t.notes[i + 1] == w.notes[i];
        } else {
          assert t.notes[0].id == id;
        }
      }
    }
  }

  lemma FileNoteKeepsProjects(w: Workspace, noteId: Id, cid: Id)
    requires ProjectNotes(w.projects, w.notes)
    ensures var t := FileNoteInCollection(w, w, noteId, cid); ProjectNotes(t.projects, t.notes)
  {
    var t := FileNoteInCollection(w, w, noteId, cid);
    forall k | 0 <= k < |t.projects| ensures ProjectNotesAt(t.projects[k], t.notes) {
      assert ProjectNotesAt(w.projects[k], w.notes);
      forall id | id in t.projects[k].evidenceNoteIds
        ensures exists i :: 0 <= i < |t.notes| && t.notes[i].id == id && t.notes[i].paperId in t.projects[k].paperIds
      {
        var i :| 0 <= i < |w.notes| && w.notes[i].id == id && w.notes[i].paperId in w.projects[k].paperIds;
        assert t.notes[i].id == id && t.notes[i].paperId == w.notes[i].paperId;
      }
    }
  }

  lemma NewCollectionKeepsShelves(lib: Library, w: Workspace, active: Project, name: string, id: Id)
    requires Shelved(lib, w.projects, w.collections) && active in w.projects
    requires id !in CollectionIds(w.collections) && !NameTaken(lib, w, active, name)
    ensures Shelved(lib, WithCollection(w.projects, active.id, id),
                    [Collection(id, name, [], [], 0, 0)] + w.collections)
  {
    var projects, cs := WithCollection(w.projects, active.id, id), [Collection(id, name, [], [], 0, 0)] + w.collections;
    assert ProjectIds(projects) == ProjectIds(w.projects);
    assert CollectionIds(cs) == [id] + CollectionIds(w.collections);
    forall k | 0 <= k < |projects| ensures NamesDiffer(lib, projects[k], cs) {
      assert NamesDiffer(lib, w.projects[k], w.collections);
      forall i, j | 0 <= i < j < |cs| && cs[i].id in projects[k].collectionIds && cs[j].id in projects[k].collectionIds
        ensures lib.nameKey(cs[i].name) != lib.nameKey(cs[j].name)
      {
        assert cs[j] == w.collections[j - 1] && CollectionIds(w.collections)[j - 1] == cs[j].id;
        if i == 0 {
          assert w.projects[k].id == active.id;
          SameProject(w.projects, k, active);
        } else {
          assert cs[i] == w.collections[i - 1] && CollectionIds(w.collections)[i - 1] == cs[i].id;
        }
      }
    }
  }

  lemma SameProject(projects: seq<Project>, k: nat, p: Project)
    requires DistinctIds(ProjectIds(projects)) && k < |projects| && p in projects && projects[k].id == p.id
    ensures projects[k] == p
  {
    var m :| 0 <= m < |projects| && projects[m] == p;
    assert ProjectIds(projects)[m] == ProjectIds(projects)[k];
  }

  // ---- The Inbox. ----

  lemma ReplacingKeepsInbox(entries: seq<InboxEntry>, existing: InboxEntry, next: InboxEntry)
    requires InboxUnique(entries) && existing in entries
    requires next.id == existing.id && next.provider == existing.provider && next.sourceId == existing.sourceId
    ensures InboxUnique(Replaced(entries, existing.id, next))
  {
    var after := Replaced(entries, existing.id, next);
    assert EntryIds(after) == EntryIds(entries);
    var m :| 0 <= m < |entries| && entries[m] == existing;
    forall i | 0 <= i < |entries|
      ensures after[i].provider == entries[i].provider && after[i].sourceId == entries[i].sourceId
    {
      if entries[i].id == existing.id {
        assert EntryIds(entries)[i] == EntryIds(entries)[m];
      }
    }
  }

  lemma ImportKeepsInbox(lib: Library, w: Workspace, hit: Hit, destination: Option<Id>, freshId: Id)
    requires InboxUnique(w.inboxEntries) && freshId !in EntryIds(w.inboxEntries)
    ensures InboxUnique(CommitImport(lib, w, w, hit, destination, freshId).inboxEntries)
  {
    var existing := FindEntry(w.inboxEntries, hit.provider, hit.sourceId);
    var next := NextEntry(lib, w, hit, destination, freshId);
    if existing.Some? {
      ReplacingKeepsInbox(w.inboxEntries, existing.value, next);
    } else {
      assert EntryIds([next] + w.inboxEntries) == [freshId] + EntryIds(w.inboxEntries);
    }
  }

  lemma MarkingKeepsInbox(entries: seq<InboxEntry>, id: Id, projectId: Id)
    requires InboxUnique(entries)
    ensures InboxUnique(MarkedReady(entries, id, projectId))
  {
    assert EntryIds(MarkedReady(entries, id, projectId)) == EntryIds(entries);
  }
}
