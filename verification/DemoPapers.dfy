/**
 Whether the papers that collections list can be shown: exactly when an import takes one away, and
 that in the demo's own runs none does, because Discover names papers after their records.
 */
module DemoPapers {
  import opened Common
  import opened DemoWorkspace
  import opened DemoInvariant
  import opened DemoSeed
  import opened DemoRuns

  // ---- One import. ----

  /** Another Inbox entry than this one shows the paper. */
  predicate ShownByOther(entries: seq<InboxEntry>, entryId: Id, id: Id) {
    exists i :: 0 <= i < |entries| && entries[i].id != entryId && entries[i].paper.id == id
  }

  lemma EntryIsUnique(entries: seq<InboxEntry>, i: nat, entry: InboxEntry)
    requires DistinctIds(EntryIds(entries)) && i < |entries| && entry in entries && entries[i].id == entry.id
    ensures entries[i] == entry
  {
    var m :| 0 <= m < |entries| && entries[m] == entry;
    assert EntryIds(entries)[m] == EntryIds(entries)[i];
  }

  /** What is shown by the Inbox after an entry was replaced. */
  lemma ReplacedShows(entries: seq<InboxEntry>, entry: InboxEntry, next: InboxEntry, id: Id)
    requires DistinctIds(EntryIds(entries)) && entry in entries && next.id == entry.id
    ensures var after := Replaced(entries, entry.id, next);
            (exists i :: 0 <= i < |after| && after[i].paper.id == id) <==>
            next.paper.id == id || ShownByOther(entries, entry.id, id)
  {
    var after := Replaced(entries, entry.id, next);
    var m :| 0 <= m < |entries| && entries[m] == entry;
    assert after[m] == next;
    if ShownByOther(entries, entry.id, id) {
      var i :| 0 <= i < |entries| && entries[i].id != entry.id && entries[i].paper.id == id;
      assert after[i].paper.id == id;
    }
  }

  /** What keeps the paper showable when the record's entry is replaced. */
  predicate Spared(lib: Library, w: Workspace, hit: Hit, destination: Option<Id>, id: Id) {
    var entry := FindEntry(w.inboxEntries, hit.provider, hit.sourceId);
    || entry.None? || entry.value.paper.id != id || hit.paper.id == id
    || HasPaper(lib.papers, id) || HasPaper(w.importedPapers, id)
    || ShownByOther(w.inboxEntries, entry.value.id, id)
    || (destination.Some? && CanonicalPaper(lib, w, hit.paper).id == id)
  }

  /**
   An import leaves a paper showable exactly when the record has no entry yet, or its entry shows
   another paper, or the imported paper has the same identifier, or something else shows it.
   */
  lemma ImportSparesExactly(lib: Library, w: Workspace, hit: Hit, destination: Option<Id>, freshId: Id, id: Id)
    requires InboxUnique(w.inboxEntries) && Resolvable(lib, w, id)
    ensures Resolvable(lib, CommitImport(lib, w, w, hit, destination, freshId), id) <==>
            Spared(lib, w, hit, destination, id)
  {
    var t := CommitImport(lib, w, w, hit, destination, freshId);
    var entry := FindEntry(w.inboxEntries, hit.provider, hit.sourceId);
    ImportedHas(w.importedPapers, CanonicalPaper(lib, w, hit.paper), id);
    if entry.None? {
      if i :| 0 <= i < |w.inboxEntries| && w.inboxEntries[i].paper.id == id {
        assert t.inboxEntries[i + 1].paper.id == id;
      }
    } else {
      ReplacedShows(w.inboxEntries, entry.value, NextEntry(lib, w, hit, destination, freshId), id);
      if i :| 0 <= i < |w.inboxEntries| && w.inboxEntries[i].paper.id == id && entry.value.paper.id != id {
        if w.inboxEntries[i].id == entry.value.id {
          EntryIsUnique(w.inboxEntries, i, entry.value);
        }
        assert ShownByOther(w.inboxEntries, entry.value.id, id);
      }
    }
  }

  // ---- Whole runs. ----

  /** How the source of a search result names the paper of a record. */
  type Naming = (string, string) -> Id

  predicate EntriesAgree(idOf: Naming, entries: seq<InboxEntry>) {
    forall i :: 0 <= i < |entries| ==> entries[i].paper.id == idOf(entries[i].provider, entries[i].sourceId)
  }

  predicate Agrees(idOf: Naming, c: Command) {
    c.ImportPaper? ==> c.hit.paper.id == idOf(c.hit.provider, c.hit.sourceId)
  }

  /** Every paper that a collection lists can be shown. */
  ghost predicate Collected(lib: Library, w: Workspace) {
    forall j :: 0 <= j < |w.collections| ==> forall id :: id in w.collections[j].paperIds ==> Resolvable(lib, w, id)
  }

  lemma ApplyKeepsShown(lib: Library, base: Base, w: Workspace, c: Command, idOf: Naming, id: Id)
    requires InboxUnique(w.inboxEntries) && EntriesAgree(idOf, w.inboxEntries) && Agrees(idOf, c)
    requires Resolvable(lib, w, id)
    ensures Resolvable(lib, Apply(lib, w, c), id)
  {
    match c
    case ImportPaper(hit, destination, freshId) => ImportSparesExactly(lib, w, hit, destination, freshId, id);
    case FileFromInbox(entryId, projectId) => FilingKeepsShown(lib, w, entryId, projectId, id);
    case _ =>
  }

  lemma FilingKeepsShown(lib: Library, w: Workspace, entryId: Id, projectId: Id, id: Id)
    requires Resolvable(lib, w, id)
    ensures Resolvable(lib, FileInboxEntry(lib, w, w, entryId, projectId), id)
  {
    var t := FileInboxEntry(lib, w, w, entryId, projectId);
    var entry := EntryById(w.inboxEntries, entryId);
    if entry.Some? {
      ImportedHas(w.importedPapers, CanonicalPaper(lib, w, entry.value.paper), id);
    }
    if i :| 0 <= i < |w.inboxEntries| && w.inboxEntries[i].paper.id == id {
      assert t.inboxEntries[i].paper.id == id;
    }
  }

  lemma ApplyKeepsEntries(lib: Library, w: Workspace, c: Command, idOf: Naming)
    requires EntriesAgree(idOf, w.inboxEntries) && Agrees(idOf, c)
    ensures EntriesAgree(idOf, Apply(lib, w, c).inboxEntries)
  {
  }

  lemma ApplyKeepsCollected(lib: Library, base: Base, w: Workspace, c: Command, idOf: Naming)
    requires InboxUnique(w.inboxEntries) && EntriesAgree(idOf, w.inboxEntries) && Agrees(idOf, c)
    requires Collected(lib, w)
    ensures Collected(lib, Apply(lib, w, c))
  {
    var t := Apply(lib, w, c);
    forall j, id | 0 <= j < |t.collections| && id in t.collections[j].paperIds ensures Resolvable(lib, t, id) {
      ListedWas(lib, w, c, j, id);
      ApplyKeepsShown(lib, base, w, c, idOf, id);
    }
  }

  /** A command lists only papers that can be shown. */
  lemma ListedWas(lib: Library, w: Workspace, c: Command, j: nat, id: Id)
    requires Collected(lib, w) && j < |Apply(lib, w, c).collections|
    requires id in Apply(lib, w, c).collections[j].paperIds
    ensures Resolvable(lib, w, id)
  {
  }

  /** While every search result is named after its record, no command takes a listed paper away. */
  lemma {:induction false} RunKeepsCollected(lib: Library, base: Base, ws: seq<Workspace>, cs: seq<Command>, i: nat,
                                             idOf: Naming)
    requires IsRun(lib, base, ws, cs) && i < |ws| && Inv(lib, base, ws[0])
    requires forall k :: 0 <= k < |cs| ==> Agrees(idOf, cs[k])
    requires EntriesAgree(idOf, ws[0].inboxEntries) && Collected(lib, ws[0])
    ensures EntriesAgree(idOf, ws[i].inboxEntries) && Collected(lib, ws[i])
  {
    if i > 0 {
      RunKeepsCollected(lib, base, ws, cs, i - 1, idOf);
      RunKeepsInv(lib, base, ws, cs, i - 1);
      assert CommandAt(lib, base, ws, cs, i - 1);
      ApplyKeepsEntries(lib, ws[i - 1], cs[i - 1], idOf);
      ApplyKeepsCollected(lib, base, ws[i - 1], cs[i - 1], idOf);
    }
  }

  /** The seed papers are known to the application. */
  predicate KnowsSeed(lib: Library) {
    forall id :: id in {CHEN, OKAFOR, SILVA, BAUER, KIM, PATEL} ==> HasPaper(lib.papers, id)
  }

  lemma SeedIsCollected(lib: Library)
    requires KnowsSeed(lib)
    ensures Collected(lib, SEED)
  {
  }

  /** In every run from the seed whose search results are named after their records, collections show their papers. */
  lemma CollectedPapersResolve(lib: Library, ws: seq<Workspace>, cs: seq<Command>, i: nat, j: nat, id: Id, idOf: Naming)
    requires IsRun(lib, map[], ws, cs) && ws[0] == SEED && KnowsSeed(lib) && EntriesAgree(idOf, SEEDED_ENTRIES)
    requires forall k :: 0 <= k < |cs| ==> Agrees(idOf, cs[k])
    requires i < |ws| && j < |ws[i].collections| && id in ws[i].collections[j].paperIds
    ensures Resolvable(lib, ws[i], id)
  {
    SeedIsConsistent(lib);
    SeedIsCollected(lib);
    RunKeepsCollected(lib, map[], ws, cs, i, idOf);
  }

  // ---- The search results the demo shows. ----

  const OPENALEX := "OpenAlex"
  const DEMO_INDEX := "PaperPilot demo literature index"

  /** Without trailing slashes. */
  function WithoutSlashes(s: string): string {
    if s != [] && s[|s| - 1] == '/' then WithoutSlashes(s[..|s| - 1]) else s
  }

  function AfterLastSlash(s: string): string {
    if s == [] || s[|s| - 1] == '/' then [] else AfterLastSlash(s[..|s| - 1]) + [s[|s| - 1]]
  }

  /** The last part of the record's address that is not empty; the address itself where there is none. */
  function LastPart(sourceId: string): string {
    var parts := WithoutSlashes(sourceId);
    if parts == [] then sourceId else AfterLastSlash(parts)
  }

  /** What the discovery gateway makes of one work of the index. */
  function WorkHit(workId: string, title: string): Hit {
    Hit(OPENALEX, workId, Paper("openalex:" + LastPart(workId), title))
  }

  /** What the view makes of a bundled paper before the first search. */
  function BundledHit(paper: Paper): Hit {
    Hit(DEMO_INDEX, paper.id, paper)
  }

  predicate FromDiscover(c: Command) {
    c.ImportPaper? ==> c.hit == WorkHit(c.hit.sourceId, c.hit.paper.title) || c.hit == BundledHit(c.hit.paper)
  }

  /** The names behind these records and the seed's three Inbox entries. */
  function RecordName(provider: string, sourceId: string): Id {
    if provider == OPENALEX then "openalex:" + LastPart(sourceId)
    else if provider == DEMO_INDEX then sourceId
    else if provider == UPLOAD_PREVIEW then PATEL
    else if provider == ZOTERO_PREVIEW then CHEN
    else SILVA
  }

  lemma ProvidersDiffer()
    ensures OPENALEX != DEMO_INDEX
    ensures {OPENALEX, DEMO_INDEX} !! {UPLOAD_PREVIEW, ZOTERO_PREVIEW, CRAWLER_PREVIEW}
  {
    assert OPENALEX[0] == 'O' && DEMO_INDEX[0] == UPLOAD_PREVIEW[0] == ZOTERO_PREVIEW[0] == CRAWLER_PREVIEW[0] == 'P';
    assert DEMO_INDEX[11] == 'd';
    assert UPLOAD_PREVIEW[11] == 'P' && ZOTERO_PREVIEW[11] == 'Z' && CRAWLER_PREVIEW[11] == 'C';
  }

  lemma SeedEntriesAgree()
    ensures EntriesAgree(RecordName, SEEDED_ENTRIES)
  {
    EntriesDiffer();
    Differ3(UPLOAD_PREVIEW, ZOTERO_PREVIEW, CRAWLER_PREVIEW);
    ProvidersDiffer();
  }

  /** So in the demo every collection can show all its papers, at all times. */
  lemma EveryCollectedPaperResolves(lib: Library, ws: seq<Workspace>, cs: seq<Command>, i: nat, j: nat, id: Id)
    requires IsRun(lib, map[], ws, cs) && ws[0] == SEED && KnowsSeed(lib)
    requires forall k :: 0 <= k < |cs| ==> FromDiscover(cs[k])
    requires i < |ws| && j < |ws[i].collections| && id in ws[i].collections[j].paperIds
    ensures Resolvable(lib, ws[i], id)
  {
    SeedEntriesAgree();
    ProvidersDiffer();
    forall k | 0 <= k < |cs| ensures Agrees(RecordName, cs[k]) {
      assert FromDiscover(cs[k]);
    }
    CollectedPapersResolve(lib, ws, cs, i, j, id, RecordName);
  }

  // ---- Without names made from records. ----

  /**
   The naming is needed: from the seed, a record imported under one paper identifier, listed, and
   imported again under another leaves the collection with a paper that cannot be shown.
   */
  lemma RenamedRecordRun(lib: Library, provider: string, sourceId: string, first: Paper, second: Paper,
                         entryId: Id, otherId: Id) returns (ws: seq<Workspace>, cs: seq<Command>)
    requires first.id != second.id && !Resolvable(lib, SEED, first.id)
    requires FindEntry(SEEDED_ENTRIES, provider, sourceId).None?
    requires entryId != otherId && entryId !in EntryIds(SEEDED_ENTRIES) && otherId !in EntryIds(SEEDED_ENTRIES)
    ensures cs == [ImportPaper(Hit(provider, sourceId, first), None, entryId), CollectPaper(PACKAGING, first.id),
                   ImportPaper(Hit(provider, sourceId, second), None, otherId)]
    ensures IsRun(lib, map[], ws, cs) && ws[0] == SEED
    ensures |ws[3].collections| > 0 && first.id in ws[3].collections[0].paperIds && !Resolvable(lib, ws[3], first.id)
  {
    cs := [ImportPaper(Hit(provider, sourceId, first), None, entryId), CollectPaper(PACKAGING, first.id),
           ImportPaper(Hit(provider, sourceId, second), None, otherId)];
    var staged := Apply(lib, SEED, cs[0]);
    var listed := StagedIsListed(lib, staged, first, entryId);
    var again := Apply(lib, listed, cs[2]);
    ws := [SEED, staged, listed, again];
    var entry := staged.inboxEntries[0];
    assert staged.inboxEntries == [entry] + SEEDED_ENTRIES;
    assert EntryIds(staged.inboxEntries) == [entryId] + EntryIds(SEEDED_ENTRIES);
    assert FindEntry(listed.inboxEntries, provider, sourceId) == Some(entry);
    assert InboxUnique(listed.inboxEntries) by {
      SeedIsConsistent(lib);
      ImportKeepsInbox(lib, SEED, cs[0].hit, None, entryId);
    }
    assert !ShownByOther(listed.inboxEntries, entryId, first.id);
    ImportSparesExactly(lib, listed, cs[2].hit, None, otherId, first.id);
    forall i | 0 <= i < |cs| ensures CommandAt(lib, map[], ws, cs, i) {
    }
  }

  lemma StagedIsListed(lib: Library, staged: Workspace, first: Paper, entryId: Id) returns (listed: Workspace)
    requires !Resolvable(lib, SEED, first.id)
    requires staged.collections == SEEDED_COLLECTIONS
    requires staged.inboxEntries != [] && staged.inboxEntries[0].paper == first
    ensures listed == AddPaperToCollection(lib, staged, staged, PACKAGING, first.id)
    ensures listed == staged.(collections := listed.collections)
    ensures |listed.collections| > 0 && first.id in listed.collections[0].paperIds
  {
    assert SEEDED_IMPORTS[0].id == CHEN && SEEDED_IMPORTS[3].id == KIM;
    assert CollectionById(SEEDED_COLLECTIONS, PACKAGING) == Some(SEEDED_COLLECTIONS[0]);
    assert Resolvable(lib, staged, first.id);
    listed := AddPaperToCollection(lib, staged, staged, PACKAGING, first.id);
    assert listed.collections[0].paperIds == SEEDED_COLLECTIONS[0].paperIds + [first.id];
  }
}
