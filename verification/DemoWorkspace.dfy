/**
 The browser demo's workspace: one aggregate with two-way indexes and denormalised counters, changed
 by commands that look at the rendered workspace and then update the current one.
 */
module DemoWorkspace {
  import opened Common

  type Id = string

  datatype Paper = Paper(id: Id, title: string)
  datatype EntryStatus = ReadyEntry | PossibleDuplicate | AwaitingReview

  datatype InboxEntry = InboxEntry(id: Id, provider: string, sourceId: string, paper: Paper, status: EntryStatus,
                                   duplicateOf: Option<Id>, destination: Option<Id>)

  datatype NoteKind = OpenQuestion | OtherKind

  datatype Note = Note(id: Id, paperId: Id, kind: NoteKind, hasQuestion: bool, collectionIds: seq<Id>)

  datatype Collection = Collection(id: Id, name: string, paperIds: seq<Id>, noteIds: seq<Id>,
                                   evidenceClaimCount: nat, openQuestionCount: nat)

  datatype Project = Project(id: Id, paperIds: seq<Id>, evidenceNoteIds: seq<Id>, collectionIds: seq<Id>)

  datatype Workspace = Workspace(importedPapers: seq<Paper>, inboxEntries: seq<InboxEntry>, projects: seq<Project>,
                                 notes: seq<Note>, collections: seq<Collection>)

  /** A search result that is being imported. */
  datatype Hit = Hit(provider: string, sourceId: string, paper: Paper)

  /**
   What the commands take from elsewhere: the seed papers, the duplicate finder, and the form in
   which collection names are compared (trimmed, lower case).
   */
  datatype Library = Library(
    papers: seq<Paper>, duplicate: (Paper, seq<Paper>) -> Option<Paper>, nameKey: string -> string)

  // ---- Lookups. ----

  function FindEntry(entries: seq<InboxEntry>, provider: string, sourceId: string): (r: Option<InboxEntry>)
    ensures r.Some? ==> r.value in entries && r.value.provider == provider && r.value.sourceId == sourceId
    ensures r.None? ==>
              forall i :: 0 <= i < |entries| ==> entries[i].provider != provider || entries[i].sourceId != sourceId
  {
    if entries == [] then None
    else if entries[0].provider == provider && entries[0].sourceId == sourceId then Some(entries[0])
    else FindEntry(entries[1..], provider, sourceId)
  }

  function EntryById(entries: seq<InboxEntry>, id: Id): (r: Option<InboxEntry>)
    ensures r.Some? ==> r.value in entries && r.value.id == id
  {
    if entries == [] then None else if entries[0].id == id then Some(entries[0]) else EntryById(entries[1..], id)
  }

  function NoteById(notes: seq<Note>, id: Id): (r: Option<Note>)
    ensures r.Some? ==> r.value in notes && r.value.id == id
    ensures r.None? ==> forall i :: 0 <= i < |notes| ==> notes[i].id != id
  {
    if notes == [] then None else if notes[0].id == id then Some(notes[0]) else NoteById(notes[1..], id)
  }

  function CollectionById(collections: seq<Collection>, id: Id): (r: Option<Collection>)
    ensures r.Some? ==> r.value in collections && r.value.id == id
    ensures r.None? ==> forall i :: 0 <= i < |collections| ==> collections[i].id != id
  {
    if collections == [] then None
    else if collections[0].id == id then Some(collections[0]) else CollectionById(collections[1..], id)
  }

  predicate HasProject(projects: seq<Project>, id: Id) {
    exists i :: 0 <= i < |projects| && projects[i].id == id
  }

  predicate HasPaper(papers: seq<Paper>, id: Id) {
    exists i :: 0 <= i < |papers| && papers[i].id == id
  }

  /** The papers the application can show: seeds, imports and Inbox papers. */
  predicate Resolvable(lib: Library, w: Workspace, id: Id) {
    || HasPaper(lib.papers, id) || HasPaper(w.importedPapers, id)
    || exists i :: 0 <= i < |w.inboxEntries| && w.inboxEntries[i].paper.id == id
  }

  // ---- Updates of one element, applied to every element of a list. ----

  function Appended(ids: seq<Id>, id: Id): seq<Id> {
    if id in ids then ids else ids + [id]
  }

  function Prepended(ids: seq<Id>, id: Id): seq<Id> {
    if id in ids then ids else [id] + ids
  }

  function WithPaper(projects: seq<Project>, projectId: Id, paperId: Id): seq<Project> {
    seq(|projects|, i requires 0 <= i < |projects| =>
      if projects[i].id == projectId then projects[i].(paperIds := Appended(projects[i].paperIds, paperId))
      else projects[i])
  }

  function Imported(papers: seq<Paper>, paper: Paper): seq<Paper> {
    if HasPaper(papers, paper.id) then papers else papers + [paper]
  }

  function Replaced(entries: seq<InboxEntry>, id: Id, next: InboxEntry): seq<InboxEntry> {
    seq(|entries|, i requires 0 <= i < |entries| => if entries[i].id == id then next else entries[i])
  }

  function MarkedReady(entries: seq<InboxEntry>, id: Id, projectId: Id): seq<InboxEntry> {
    seq(|entries|, i requires 0 <= i < |entries| =>
      if entries[i].id == id then entries[i].(status := ReadyEntry, destination := Some(projectId)) else entries[i])
  }

  /** A collection with one more note filed in it. */
  function Filed(c: Collection, note: Note): Collection {
    c.(noteIds := Prepended(c.noteIds, note.id),
       evidenceClaimCount := if note.kind == OpenQuestion then c.evidenceClaimCount else c.evidenceClaimCount + 1,
       openQuestionCount := if note.hasQuestion then c.openQuestionCount + 1 else c.openQuestionCount)
  }

  // ---- Commands. `seen` is the rendered workspace, `w` the current one. ----

  function CanonicalPaper(lib: Library, seen: Workspace, paper: Paper): Paper {
    var d := lib.duplicate(paper, lib.papers + seen.importedPapers);
    if d.Some? then d.value else paper
  }

  function NextEntry(lib: Library, seen: Workspace, hit: Hit, destination: Option<Id>, freshId: Id): InboxEntry {
    var existing := FindEntry(seen.inboxEntries, hit.provider, hit.sourceId);
    var d := lib.duplicate(hit.paper, lib.papers + seen.importedPapers);
    InboxEntry(
      if existing.Some? then existing.value.id else freshId, hit.provider, hit.sourceId, hit.paper,
      if destination.Some? then ReadyEntry else if d.Some? then PossibleDuplicate else AwaitingReview,
      if d.Some? then Some(d.value.id) else None, destination)
  }

  function CommitImport(lib: Library, seen: Workspace, w: Workspace, hit: Hit, destination: Option<Id>,
                        freshId: Id): Workspace {
    var existing := FindEntry(seen.inboxEntries, hit.provider, hit.sourceId);
    var next := NextEntry(lib, seen, hit, destination, freshId);
    var canonical := CanonicalPaper(lib, seen, hit.paper);
    w.(importedPapers := if destination.Some? then Imported(w.importedPapers, canonical) else w.importedPapers,
       inboxEntries := if existing.Some? then Replaced(w.inboxEntries, existing.value.id, next)
                       else [next] + w.inboxEntries,
       projects := if destination.Some? then WithPaper(w.projects, destination.value, canonical.id) else w.projects)
  }

  function FileInboxEntry(lib: Library, seen: Workspace, w: Workspace, entryId: Id, projectId: Id): Workspace {
    var entry := EntryById(seen.inboxEntries, entryId);
    if entry.None? || !HasProject(seen.projects, projectId) then w
    else
      var canonical := CanonicalPaper(lib, seen, entry.value.paper);
      w.(importedPapers := Imported(w.importedPapers, canonical),
         inboxEntries := MarkedReady(w.inboxEntries, entryId, projectId),
         projects := WithPaper(w.projects, projectId, canonical.id))
  }

  /** This command replaces the whole workspace by an extension of the rendered one. */
  function CreateProject(seen: Workspace, freshId: Id): Workspace {
    seen.(projects := [Project(freshId, [], [], [])] + seen.projects)
  }

  predicate NameTaken(lib: Library, seen: Workspace, project: Project, name: string) {
    exists i :: 0 <= i < |seen.collections| && seen.collections[i].id in project.collectionIds
      && lib.nameKey(seen.collections[i].name) == lib.nameKey(name)
  }

  function WithCollection(projects: seq<Project>, projectId: Id, collectionId: Id): seq<Project> {
    seq(|projects|, i requires 0 <= i < |projects| =>
      if projects[i].id == projectId then projects[i].(collectionIds := [collectionId] + projects[i].collectionIds)
      else projects[i])
  }

  function CreateCollection(lib: Library, seen: Workspace, w: Workspace, active: Project, name: string,
                            freshId: Id): Workspace {
    if NameTaken(lib, seen, active, name) then w
    else w.(collections := [Collection(freshId, name, [], [], 0, 0)] + w.collections,
            projects := WithCollection(w.projects, active.id, freshId))
  }

  /** The collection with one more paper, if it is the one meant. */
  function Listed(c: Collection, collectionId: Id, paperId: Id): Collection {
    if c.id == collectionId then c.(paperIds := c.paperIds + [paperId]) else c
  }

  function AddPaperToCollection(lib: Library, seen: Workspace, w: Workspace, collectionId: Id, paperId: Id): Workspace {
    var collection := CollectionById(seen.collections, collectionId);
    if !Resolvable(lib, seen, paperId) || collection.None? || paperId in collection.value.paperIds then w
    else w.(collections := seq(|w.collections|, i requires 0 <= i < |w.collections| =>
      Listed(w.collections[i], collectionId, paperId)))
  }

  /** The collection, with the note if it is one of the note's. */
  function CollectionWith(c: Collection, note: Note): Collection {
    if c.id in note.collectionIds then Filed(c, note) else c
  }

  /** The project, with the note if it concerns one of the project's papers. */
  function ProjectWith(p: Project, note: Note): Project {
    if note.paperId in p.paperIds && note.id !in p.evidenceNoteIds
    then p.(evidenceNoteIds := [note.id] + p.evidenceNoteIds) else p
  }

  function AddEvidenceNote(w: Workspace, note: Note): Workspace {
    w.(notes := [note] + w.notes,
       collections := seq(|w.collections|,
                          i requires 0 <= i < |w.collections| => CollectionWith(w.collections[i], note)),
       projects := seq(|w.projects|, i requires 0 <= i < |w.projects| => ProjectWith(w.projects[i], note)))
  }

  /** The collection, with the note if it is the collection meant. */
  function FiledIn(c: Collection, note: Note, collectionId: Id): Collection {
    if c.id == collectionId then Filed(c, note) else c
  }

  /** The note, filed in one more collection if it is the one meant. */
  function NoteIn(n: Note, noteId: Id, collectionId: Id): Note {
    if n.id == noteId then n.(collectionIds := n.collectionIds + [collectionId]) else n
  }

  function FileNoteInCollection(seen: Workspace, w: Workspace, noteId: Id, collectionId: Id): Workspace {
    var note := NoteById(seen.notes, noteId);
    var collection := CollectionById(seen.collections, collectionId);
    if note.None? || collection.None? || collectionId in note.value.collectionIds then w
    else w.(
      notes := seq(|w.notes|, i requires 0 <= i < |w.notes| => NoteIn(w.notes[i], noteId, collectionId)),
      collections := seq(|w.collections|, i requires 0 <= i < |w.collections| =>
        FiledIn(w.collections[i], note.value, collectionId)))
  }

  // ---- The component that holds the workspace; each command runs on what is rendered. ----

  class DemoDesk {
    var workspace: Workspace

    constructor (seed: Workspace)
      ensures workspace == seed
    {
      workspace := seed;
    }

    method ImportHit(lib: Library, hit: Hit, destinationProjectId: Option<Id>, freshId: Id)
      modifies this
      ensures workspace == CommitImport(lib, old(workspace), old(workspace), hit, destinationProjectId, freshId)
    {
      var duplicate := lib.duplicate(hit.paper, lib.papers + workspace.importedPapers);
      var canonicalPaper := if duplicate.Some? then duplicate.value else hit.paper;
      var existingEntry := FindEntry(workspace.inboxEntries, hit.provider, hit.sourceId);
      var nextEntry := NextEntry(lib, workspace, hit, destinationProjectId, freshId);
      var inboxEntries := if existingEntry.Some?
        then Replaced(workspace.inboxEntries, existingEntry.value.id, nextEntry)
        else [nextEntry] + workspace.inboxEntries;
      workspace := workspace.(inboxEntries := inboxEntries);
      if destinationProjectId.Some? {
        workspace := workspace.(importedPapers := Imported(workspace.importedPapers, canonicalPaper));
        workspace := workspace.(
          projects := WithPaper(workspace.projects, destinationProjectId.value, canonicalPaper.id));
      }
    }

    method FileEntry(lib: Library, entryId: Id, projectId: Id)
      modifies this
      ensures workspace == FileInboxEntry(lib, old(workspace), old(workspace), entryId, projectId)
    {
      var entry := EntryById(workspace.inboxEntries, entryId);
      if entry.None? || !HasProject(workspace.projects, projectId) {
        return;
      }
      var duplicate := lib.duplicate(entry.value.paper, lib.papers + workspace.importedPapers);
      var canonicalPaper := if duplicate.Some? then duplicate.value else entry.value.paper;
      workspace := workspace.(
        importedPapers := Imported(workspace.importedPapers, canonicalPaper),
        inboxEntries := MarkedReady(workspace.inboxEntries, entryId, projectId),
        projects := WithPaper(workspace.projects, projectId, canonicalPaper.id));
    }

    method NewProject(freshId: Id)
      modifies this
      ensures workspace == CreateProject(old(workspace), freshId)
    {
      workspace := workspace.(projects := [Project(freshId, [], [], [])] + workspace.projects);
    }

    /** False where the name is taken and nothing changes. */
    method NewCollection(lib: Library, active: Project, name: string, freshId: Id) returns (ok: bool)
      modifies this
      ensures workspace == CreateCollection(lib, old(workspace), old(workspace), active, name, freshId)
      ensures ok <==> !NameTaken(lib, old(workspace), active, name)
    {
      for i := 0 to |workspace.collections|
        invariant workspace == old(workspace)
        invariant forall j :: 0 <= j < i ==>
                    workspace.collections[j].id !in active.collectionIds
                    || lib.nameKey(workspace.collections[j].name) != lib.nameKey(name)
      {
        if workspace.collections[i].id in active.collectionIds
           && lib.nameKey(workspace.collections[i].name) == lib.nameKey(name) {
          return false;
        }
      }
      workspace := workspace.(collections := [Collection(freshId, name, [], [], 0, 0)] + workspace.collections,
                              projects := WithCollection(workspace.projects, active.id, freshId));
      return true;
    }

    method CollectPaper(lib: Library, collectionId: Id, paperId: Id)
      modifies this
      ensures workspace == AddPaperToCollection(lib, old(workspace), old(workspace), collectionId, paperId)
    {
      var collection := CollectionById(workspace.collections, collectionId);
      if !Resolvable(lib, workspace, paperId) || collection.None? || paperId in collection.value.paperIds {
        return;
      }
      var collections := workspace.collections;
      for i := 0 to |collections|
        invariant workspace == old(workspace) && |collections| == |workspace.collections|
        invariant forall j :: 0 <= j < i ==> collections[j] == Listed(workspace.collections[j], collectionId, paperId)
        invariant forall j :: i <= j < |collections| ==> collections[j] == workspace.collections[j]
      {
        if collections[i].id == collectionId {
          collections := collections[i := Listed(collections[i], collectionId, paperId)];
        }
      }
      workspace := workspace.(collections := collections);
    }

    method SaveNote(note: Note)
      modifies this
      ensures workspace == AddEvidenceNote(old(workspace), note)
    {
      var collections := workspace.collections;
      for i := 0 to |collections|
        invariant workspace == old(workspace) && |collections| == |workspace.collections|
        invariant forall j :: 0 <= j < i ==> collections[j] == CollectionWith(workspace.collections[j], note)
        invariant forall j :: i <= j < |collections| ==> collections[j] == workspace.collections[j]
      {
        var c := collections[i];
        if c.id in note.collectionIds {
          if note.id !in c.noteIds {
            c := c.(noteIds := [note.id] + c.noteIds);
          }
          if note.kind != OpenQuestion {
            c := c.(evidenceClaimCount := c.evidenceClaimCount + 1);
          }
          if note.hasQuestion {
            c := c.(openQuestionCount := c.openQuestionCount + 1);
          }
          collections := collections[i := c];
        }
      }
      var projects := workspace.projects;
      for i := 0 to |projects|
        invariant workspace == old(workspace) && |projects| == |workspace.projects|
        invariant forall j :: 0 <= j < i ==> projects[j] == ProjectWith(workspace.projects[j], note)
        invariant forall j :: i <= j < |projects| ==> projects[j] == workspace.projects[j]
      {
        var p := projects[i];
        if note.paperId in p.paperIds && note.id !in p.evidenceNoteIds {
          projects := projects[i := p.(evidenceNoteIds := [note.id] + p.evidenceNoteIds)];
        }
      }
      workspace := workspace.(notes := [note] + workspace.notes, collections := collections, projects := projects);
    }

    method FileNote(noteId: Id, collectionId: Id)
      modifies this
      ensures workspace == FileNoteInCollection(old(workspace), old(workspace), noteId, collectionId)
    {
      var found := NoteById(workspace.notes, noteId);
      var collection := CollectionById(workspace.collections, collectionId);
      if found.None? || collection.None? || collectionId in found.value.collectionIds {
        return;
      }
      var note := found.value;
      var notes := workspace.notes;
      for i := 0 to |notes|
        invariant workspace == old(workspace) && |notes| == |workspace.notes|
        invariant forall j :: 0 <= j < i ==> notes[j] == NoteIn(workspace.notes[j], noteId, collectionId)
        invariant forall j :: i <= j < |notes| ==> notes[j] == workspace.notes[j]
      {
        if notes[i].id == noteId {
          notes := notes[i := notes[i].(collectionIds := notes[i].collectionIds + [collectionId])];
        }
      }
      var collections := workspace.collections;
      for i := 0 to |collections|
        invariant workspace == old(workspace) && |collections| == |workspace.collections|
        invariant forall j :: 0 <= j < i ==> collections[j] == FiledIn(workspace.collections[j], note, collectionId)
        invariant forall j :: i <= j < |collections| ==> collections[j] == workspace.collections[j]
      {
        var c := collections[i];
        if c.id == collectionId {
          if noteId !in c.noteIds {
            c := c.(noteIds := [noteId] + c.noteIds);
          }
          if note.kind != OpenQuestion {
            c := c.(evidenceClaimCount := c.evidenceClaimCount + 1);
          }
          if note.hasQuestion {
            c := c.(openQuestionCount := c.openQuestionCount + 1);
          }
          collections := collections[i := c];
        }
      }
      workspace := workspace.(notes := notes, collections := collections);
    }
  }
}
