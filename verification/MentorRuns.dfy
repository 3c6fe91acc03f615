/**
 Runs of the mentor page with any number of freezes and stage calls waiting for a digest, and every
 other step free to happen meanwhile.
 */
module MentorRuns {
  import opened Common
  import opened MentorNote
  import opened MentorResponse

  datatype World = World(page: Page, hashing: seq<Range>, digesting: seq<Digesting>, staging: seq<Response>)

  datatype Event =
    | Load(file: PdfFile)
    | BeginFreeze(range: Range)
    | HashQuote(k: nat)
    | HashSource(k: nat)
    | ClearSource
    | ReadTool(aborted: bool, id: string)
    | StageTool(aborted: bool, input: Value)
    | CommitStage(k: nat, id: string)
    | SaveNote(takeaway: string)
    | DiscardNote

  function Without<T>(s: seq<T>, k: nat): seq<T>
    requires k < |s|
  {
    s[..k] + s[k + 1..]
  }

  predicate Enabled(w: World, e: Event) {
    match e
    case HashQuote(k) => k < |w.hashing| && w.page.file.Some?
    case HashSource(k) => k < |w.digesting| && w.page.file.Some?
    case CommitStage(k, _) => k < |w.staging|
    case _ => true
  }

  /** A stage call after its validation: it waits for the digest of its response, or has thrown. */
  function Staging(w: World, r: Result<Response, StageError>): World {
    if r.Err? then w else w.(staging := w.staging + [r.value])
  }

  function Step(h: Hashes, w: World, e: Event): World
    requires Enabled(w, e)
  {
    match e
    case Load(file) => w.(page := Loaded(w.page, file))
    case BeginFreeze(range) => if MayFreeze(w.page, range) then w.(hashing := w.hashing + [range]) else w
    case HashQuote(k) =>
      w.(hashing := Without(w.hashing, k),
         digesting := w.digesting + [QuoteHashed(h, w.page.file.value, w.hashing[k])])
    case HashSource(k) =>
      w.(digesting := Without(w.digesting, k), page := SourceHashed(h, w.page, w.digesting[k]))
    case ClearSource => w.(page := Cleared(w.page))
    case ReadTool(aborted, id) => w.(page := ReadSources(w.page, aborted, id))
    case StageTool(aborted, input) =>
      if aborted then w else Staging(w, ValidateProposal(h, w.page, input))
    case CommitStage(k, id) =>
      w.(staging := Without(w.staging, k), page := Staged(h, w.page, w.staging[k], id))
    case SaveNote(takeaway) => w.(page := NoteSaved(w.page, takeaway))
    case DiscardNote => w.(page := Discarded(w.page))
  }

  predicate StepAt(h: Hashes, ws: seq<World>, es: seq<Event>, i: nat)
    requires |ws| == |es| + 1 && i < |es|
  {
    Enabled(ws[i], es[i]) && ws[i + 1] == Step(h, ws[i], es[i])
  }

  ghost predicate IsRun(h: Hashes, ws: seq<World>, es: seq<Event>) {
    && |ws| == |es| + 1
    && ws[0].page.(saved := None) == Page(None, None, None, None, None)
    && ws[0].hashing == [] && ws[0].digesting == [] && ws[0].staging == []
    && forall i :: 0 <= i < |es| ==> StepAt(h, ws, es, i)
  }

  // ---- Receipts. ----

  predicate ReadNamesFrozen(p: Page) {
    p.read.Some? ==> p.frozen.Some? && p.read.value.sourceSetDigest == p.frozen.value.sourceSetDigest
  }

  predicate QuoteMatches(h: Hashes, p: Page) {
    p.frozen.Some? ==> p.frozen.value.quoteSha256 == h.text(p.frozen.value.exactText)
  }

  /** What holds of the material of every freeze under way. */
  predicate DigestingFits(h: Hashes, d: Digesting) {
    && d.quoteSha256 == h.text(d.range.text)
    && d.material.textStart == d.range.start && d.material.textEnd == d.range.end
    && d.material.quoteSha256 == d.quoteSha256
  }

  ghost predicate Inv(h: Hashes, w: World) {
    && ReadNamesFrozen(w.page) && QuoteMatches(h, w.page)
    && (forall i :: 0 <= i < |w.digesting| ==> DigestingFits(h, w.digesting[i]))
    && (w.hashing != [] || w.digesting != [] || w.page.frozen.Some? ==> w.page.file.Some?)
  }

  lemma StepKeepsInv(h: Hashes, w: World, e: Event)
    requires Enabled(w, e) && Inv(h, w)
    ensures Inv(h, Step(h, w, e))
  {
    match e
    case HashSource(k) =>
      var rest := Without(w.digesting, k);
      forall i | 0 <= i < |rest| ensures DigestingFits(h, rest[i]) {
        assert rest[i] == if i < k then w.digesting[i] else w.digesting[i + 1];
      }
    case _ =>
  }

  /** A read receipt always names the source frozen now, whose quote digest is that of its text. */
  lemma {:induction false} EveryRunKeepsInv(h: Hashes, ws: seq<World>, es: seq<Event>, i: nat)
    requires IsRun(h, ws, es) && i < |ws|
    ensures Inv(h, ws[i])
  {
    if i > 0 {
      EveryRunKeepsInv(h, ws, es, i - 1);
      assert StepAt(h, ws, es, i - 1);
      StepKeepsInv(h, ws[i - 1], es[i - 1]);
    }
  }

  // ---- Proposals. ----

  /** At step j a stage call passed validation with this response. */
  predicate ValidatedAt(h: Hashes, ws: seq<World>, es: seq<Event>, j: nat, r: Response)
    requires |ws| == |es| + 1 && j < |es|
  {
    es[j].StageTool? && !es[j].aborted && ValidateProposal(h, ws[j].page, es[j].input) == Ok(r)
  }

  ghost predicate Validated(h: Hashes, ws: seq<World>, es: seq<Event>, i: nat, r: Response)
    requires |ws| == |es| + 1 && i <= |es|
  {
    exists j :: 0 <= j < i && ValidatedAt(h, ws, es, j, r)
  }

  ghost predicate AllValidated(h: Hashes, ws: seq<World>, es: seq<Event>, i: nat, staging: seq<Response>)
    requires |ws| == |es| + 1 && i <= |es|
  {
    forall k :: 0 <= k < |staging| ==> Validated(h, ws, es, i, staging[k])
  }

  lemma {:induction false} EveryResponseWasValidated(h: Hashes, ws: seq<World>, es: seq<Event>, i: nat)
    requires IsRun(h, ws, es) && i < |ws|
    ensures AllValidated(h, ws, es, i, ws[i].staging)
    ensures ws[i].page.proposal.Some? ==>
              && Validated(h, ws, es, i, ws[i].page.proposal.value.response)
              && ws[i].page.proposal.value.sourceSetDigest == ws[i].page.proposal.value.response.expectedSourceDigest
              && ws[i].page.proposal.value.responseDigest == h.response(ws[i].page.proposal.value.response)
  {
    if i > 0 {
      EveryResponseWasValidated(h, ws, es, i - 1);
      forall k | 0 <= k < |ws[i].staging| ensures Validated(h, ws, es, i, ws[i].staging[k]) {
        StagingValidated(h, ws, es, i, k);
      }
      if ws[i].page.proposal.Some? {
        ProposalComesFromStaging(h, ws, es, i);
        if es[i - 1].CommitStage? {
          assert Validated(h, ws, es, i - 1, ws[i - 1].staging[es[i - 1].k]);
        }
      }
    }
  }

  lemma ProposalComesFromStaging(h: Hashes, ws: seq<World>, es: seq<Event>, i: nat)
    requires IsRun(h, ws, es) && 0 < i < |ws| && ws[i].page.proposal.Some?
    ensures var e, was := es[i - 1], ws[i - 1];
            if e.CommitStage? then
              && e.k < |was.staging|
              && ws[i].page.proposal.value ==
                 Proposal(e.id, h.response(was.staging[e.k]), was.staging[e.k].expectedSourceDigest, was.staging[e.k])
            else ws[i].page.proposal == was.page.proposal
  {
    assert StepAt(h, ws, es, i - 1);
  }

  lemma StagingValidated(h: Hashes, ws: seq<World>, es: seq<Event>, i: nat, k: nat)
    requires IsRun(h, ws, es) && 0 < i < |ws| && k < |ws[i].staging|
    requires AllValidated(h, ws, es, i - 1, ws[i - 1].staging)
    ensures Validated(h, ws, es, i, ws[i].staging[k])
  {
    var before, r := ws[i - 1], ws[i].staging[k];
    if r in before.staging {
      var m :| 0 <= m < |before.staging| && before.staging[m] == r;
      assert Validated(h, ws, es, i - 1, before.staging[m]);
    } else {
      NewStagingIsValid(h, ws, es, i, r);
    }
  }

  lemma NewStagingIsValid(h: Hashes, ws: seq<World>, es: seq<Event>, i: nat, r: Response)
    requires IsRun(h, ws, es) && 0 < i < |ws| && r in ws[i].staging && r !in ws[i - 1].staging
    ensures ValidatedAt(h, ws, es, i - 1, r)
  {
    assert StepAt(h, ws, es, i - 1);
  }

  /**
   The digest of every proposal was the frozen source's and the read receipt's when it was validated,
   and its texts and lists are in normal form.
   */
  lemma ProposalWasFrozenAndRead(h: Hashes, ws: seq<World>, es: seq<Event>, i: nat)
    requires IsRun(h, ws, es) && i < |ws| && ws[i].page.proposal.Some?
    ensures exists j :: 0 <= j < i && es[j].StageTool?
              && ws[j].page.frozen.Some? && ws[j].page.read.Some? && ws[j].page.proposal.None?
              && ws[j].page.frozen.value.sourceSetDigest == ws[i].page.proposal.value.sourceSetDigest
              && ws[j].page.read.value.sourceSetDigest == ws[i].page.proposal.value.sourceSetDigest
    ensures CleanButSources(ws[i].page.proposal.value.response.content)
  {
    EveryResponseWasValidated(h, ws, es, i);
    var j :| 0 <= j < i && ValidatedAt(h, ws, es, j, ws[i].page.proposal.value.response);
    ValidIsOfFrozen(h, ws[j].page, es[j].input, ws[i].page.proposal.value.response);
    ValidIsClean(h, ws[j].page, es[j].input, ws[i].page.proposal.value.response);
  }

  // ---- The agent decides nothing. ----

  predicate ByAgent(e: Event) {
    e.ReadTool? || e.StageTool? || e.CommitStage?
  }

  /** Only the user's save changes the saved note; the agent's steps change neither it nor the source. */
  lemma {:induction false} OnlySavingSaves(h: Hashes, ws: seq<World>, es: seq<Event>, i: nat, j: nat)
    requires IsRun(h, ws, es) && i <= j < |ws|
    requires forall k :: i <= k < j ==> !es[k].SaveNote?
    ensures ws[j].page.saved == ws[i].page.saved
    decreases j
  {
    if i < j {
      OnlySavingSaves(h, ws, es, i, j - 1);
      assert StepAt(h, ws, es, j - 1);
    }
  }

  lemma {:induction false} AgentLeavesSourceAndNote(h: Hashes, ws: seq<World>, es: seq<Event>, i: nat, j: nat)
    requires IsRun(h, ws, es) && i <= j < |ws|
    requires forall k :: i <= k < j ==> ByAgent(es[k])
    ensures ws[j].page.saved == ws[i].page.saved && ws[j].page.frozen == ws[i].page.frozen
    ensures ws[j].page.file == ws[i].page.file
    decreases j
  {
    if i < j {
      AgentLeavesSourceAndNote(h, ws, es, i, j - 1);
      assert StepAt(h, ws, es, j - 1) && ByAgent(es[j - 1]);
    }
  }

  // ---- Proposal, receipt and source agree if staging is atomic, and not otherwise. ----

  /** The proposal explains the source that is frozen and was read. */
  predicate Coherent(p: Page) {
    p.proposal.Some? ==>
      && p.frozen.Some? && p.read.Some?
      && p.proposal.value.sourceSetDigest == p.frozen.value.sourceSetDigest == p.read.value.sourceSetDigest
  }

  predicate CoherentNote(n: SavedNote) {
    n.readReceipt.Some? && n.proposal.sourceSetDigest == n.source.sourceSetDigest == n.readReceipt.value.sourceSetDigest
  }

  /** A commit leaves proposal, receipt and source in agreement exactly if the validated source is still frozen. */
  lemma CommitIsCoherentExactly(h: Hashes, p: Page, response: Response, id: string)
    requires ReadNamesFrozen(p)
    ensures Coherent(Staged(h, p, response, id)) <==>
            p.frozen.Some? && p.read.Some? && p.frozen.value.sourceSetDigest == response.expectedSourceDigest
  {
  }

  /** Only a commit can break the agreement. */
  lemma OnlyCommitsBreakCoherence(h: Hashes, w: World, e: Event)
    requires Enabled(w, e) && Inv(h, w) && Coherent(w.page) && !e.CommitStage?
    ensures Coherent(Step(h, w, e).page)
  {
  }

  /** Every validated stage call is committed before anything else happens. */
  ghost predicate StagesAtomically(ws: seq<World>, es: seq<Event>) {
    |ws| == |es| + 1 && forall i :: 0 <= i < |es| && ws[i].staging != [] ==> es[i].CommitStage?
  }

  ghost predicate AtomicInv(w: World) {
    && Coherent(w.page)
    && |w.staging| <= 1
    && (w.staging != [] ==>
          && w.page.frozen.Some? && w.page.read.Some? && w.page.proposal.None?
          && w.staging[0].expectedSourceDigest == w.page.frozen.value.sourceSetDigest)
  }

  lemma {:induction false} AtomicStagingIsCoherent(h: Hashes, ws: seq<World>, es: seq<Event>, i: nat)
    requires IsRun(h, ws, es) && StagesAtomically(ws, es) && i < |ws|
    ensures AtomicInv(ws[i])
  {
    if i > 0 {
      AtomicStagingIsCoherent(h, ws, es, i - 1);
      EveryRunKeepsInv(h, ws, es, i - 1);
      assert StepAt(h, ws, es, i - 1);
      if !es[i - 1].CommitStage? {
        OnlyCommitsBreakCoherence(h, ws[i - 1], es[i - 1]);
      }
    }
  }

  /** With atomic staging, what the user saves is one source, its receipt and its explanation. */
  lemma AtomicNotesAreCoherent(h: Hashes, ws: seq<World>, es: seq<Event>, i: nat)
    requires IsRun(h, ws, es) && StagesAtomically(ws, es) && i < |es| && es[i].SaveNote?
    ensures ws[i].page.proposal.None? ==> ws[i + 1].page.saved == ws[i].page.saved
    ensures ws[i].page.proposal.Some? ==>
              && ws[i].page.frozen.Some?
              && ws[i + 1].page.saved == Some(SavedNote(ws[i].page.frozen.value, ws[i].page.read,
                                                        ws[i].page.proposal.value, es[i].takeaway))
              && CoherentNote(ws[i + 1].page.saved.value)
  {
    AtomicStagingIsCoherent(h, ws, es, i);
    assert StepAt(h, ws, es, i);
  }

  /** With atomic staging a staged proposal is never replaced, only withdrawn. */
  lemma AtomicProposalsAreNotReplaced(h: Hashes, ws: seq<World>, es: seq<Event>, i: nat)
    requires IsRun(h, ws, es) && StagesAtomically(ws, es) && i < |es| && ws[i].page.proposal.Some?
    ensures ws[i + 1].page.proposal in {ws[i].page.proposal, None}
  {
    AtomicStagingIsCoherent(h, ws, es, i);
    assert StepAt(h, ws, es, i);
  }

  // ---- When a staged proposal can be replaced. ----

  /** Only a commit puts another proposal in the place of a staged one. */
  lemma OnlyCommitsReplace(h: Hashes, w: World, e: Event)
    requires Enabled(w, e) && w.page.proposal.Some?
    ensures var t := Step(h, w, e);
            if e.CommitStage? then
              && t.page.proposal.Some?
              && t.page.proposal.value.response == w.staging[e.k] && t.page.proposal.value.proposalId == e.id
            else t.page.proposal in {w.page.proposal, None}
  {
  }

  /** While a proposal is staged, no further stage call passes validation. */
  lemma NothingMoreIsStaged(h: Hashes, w: World, e: Event)
    requires Enabled(w, e) && w.page.proposal.Some?
    ensures |Step(h, w, e).staging| <= |w.staging|
  {
  }

  /** The world goes on from here, through any steps. */
  ghost predicate GoesOn(h: Hashes, ws: seq<World>, es: seq<Event>) {
    |ws| == |es| + 1 && forall i :: 0 <= i < |es| ==> StepAt(h, ws, es, i)
  }

  /** At the end another proposal is staged, and at no time in between was none. */
  ghost predicate Replaces(h: Hashes, w: World, ws: seq<World>, es: seq<Event>) {
    && GoesOn(h, ws, es) && ws[0] == w
    && (forall i :: 0 <= i < |ws| ==> ws[i].page.proposal.Some?)
    && ws[|es|].page.proposal != w.page.proposal
  }

  lemma {:induction false} KeptWhileNothingWaits(h: Hashes, ws: seq<World>, es: seq<Event>, i: nat)
    requires GoesOn(h, ws, es) && i < |ws| && ws[0].staging == []
    requires forall j :: 0 <= j < |ws| ==> ws[j].page.proposal.Some?
    ensures ws[i].staging == [] && ws[i].page.proposal == ws[0].page.proposal
  {
    if i > 0 {
      KeptWhileNothingWaits(h, ws, es, i - 1);
      assert StepAt(h, ws, es, i - 1);
      NothingMoreIsStaged(h, ws[i - 1], es[i - 1]);
      OnlyCommitsReplace(h, ws[i - 1], es[i - 1]);
    }
  }

  /**
   From a state with a proposal staged, some continuation replaces it without its being withdrawn
   first exactly when a stage call that was validated before still waits for its digest.
   */
  lemma ProposalIsReplaceableExactly(h: Hashes, w: World)
    requires w.page.proposal.Some?
    ensures w.staging != [] <==> exists ws, es :: Replaces(h, w, ws, es)
  {
    if w.staging != [] {
      var e := CommitStage(0, w.page.proposal.value.proposalId + "x");
      var ws := [w, Step(h, w, e)];
      assert StepAt(h, ws, [e], 0);
      OnlyCommitsReplace(h, w, e);
      assert Replaces(h, w, ws, [e]);
    } else if ws, es :| Replaces(h, w, ws, es) {
      KeptWhileNothingWaits(h, ws, es, |es|);
    }
  }

  // ---- What a frozen source is bound to. ----

  /** The digest of the source covers the PDF digest shown with it. */
  predicate Bound(h: Hashes, s: Source) {
    s.sourceSetDigest == h.material(Material(s.pdfSha256, s.textStart, s.textEnd, s.quoteSha256))
  }

  predicate InjectiveAt(h: Hashes, a: Material, b: Material) {
    h.material(a) == h.material(b) ==> a == b
  }

  /** The file's digest is read on both sides of an await; the result is bound exactly if it is the same. */
  lemma FreezeBindsExactly(h: Hashes, p: Page, d: Digesting)
    requires p.file.Some? && DigestingFits(h, d)
    requires InjectiveAt(h, d.material, d.material.(pdfSha256 := p.file.value.digest))
    ensures Bound(h, SourceHashed(h, p, d).frozen.value) <==> d.material.pdfSha256 == p.file.value.digest
  {
    var s := SourceHashed(h, p, d).frozen.value;
    assert Material(s.pdfSha256, s.textStart, s.textEnd, s.quoteSha256) ==
           d.material.(pdfSha256 := p.file.value.digest);
    assert d.material.(pdfSha256 := p.file.value.digest) == d.material <==> d.material.pdfSha256 == p.file.value.digest;
  }

  /** No PDF finishes loading while a freeze is under way. */
  predicate LoadsBetweenFreezes(ws: seq<World>, es: seq<Event>) {
    |ws| == |es| + 1 && forall i :: 0 <= i < |es| && es[i].Load? ==> ws[i].hashing == [] && ws[i].digesting == []
  }

  ghost predicate BoundInv(h: Hashes, w: World) {
    && (w.page.frozen.Some? ==>
          && w.page.file.Some? && Bound(h, w.page.frozen.value)
          && w.page.frozen.value.pdfSha256 == w.page.file.value.digest)
    && (forall i :: 0 <= i < |w.digesting| ==>
          w.page.file.Some? && w.digesting[i].material.pdfSha256 == w.page.file.value.digest)
  }

  lemma StepKeepsBound(h: Hashes, w: World, e: Event)
    requires Enabled(w, e) && Inv(h, w) && BoundInv(h, w)
    requires e.Load? ==> w.hashing == [] && w.digesting == []
    ensures BoundInv(h, Step(h, w, e))
  {
    match e
    case HashSource(k) =>
      assert DigestingFits(h, w.digesting[k]);
      var rest := Without(w.digesting, k);
      forall i | 0 <= i < |rest| ensures rest[i].material.pdfSha256 == w.page.file.value.digest {
        assert rest[i] == if i < k then w.digesting[i] else w.digesting[i + 1];
      }
    case _ =>
  }

  /** Then every frozen source carries the digest of the PDF on the page, and its own digest covers it. */
  lemma {:induction false} UndisturbedFreezesAreBound(h: Hashes, ws: seq<World>, es: seq<Event>, i: nat)
    requires IsRun(h, ws, es) && LoadsBetweenFreezes(ws, es) && i < |ws|
    ensures BoundInv(h, ws[i])
  {
    if i > 0 {
      UndisturbedFreezesAreBound(h, ws, es, i - 1);
      EveryRunKeepsInv(h, ws, es, i - 1);
      assert StepAt(h, ws, es, i - 1);
      StepKeepsBound(h, ws[i - 1], es[i - 1]);
    }
  }

  /**
   An undisturbed freeze takes passage, context, name and digest from the one PDF on the page, and ends
   what was read and staged.
   */
  lemma UndisturbedFreezeTakes(h: Hashes, w: World, range: Range)
    requires w.page.file.Some? && range.text != "" && w.hashing == [] && w.digesting == []
    ensures var file, quote := w.page.file.value, h.text(range.text);
            Step(h, Step(h, Step(h, w, BeginFreeze(range)), HashQuote(0)), HashSource(0)) ==
            w.(page := Page(w.page.file,
                            Some(Source(h.material(Material(file.digest, range.start, range.end, quote)),
                                        file.name, file.digest, range.text,
                                        h.context(file.page, range.start, range.end),
                                        range.start, range.end, quote)),
                            None, None, w.page.saved))
  {
    var w1 := Step(h, w, BeginFreeze(range));
    var w2 := Step(h, w1, HashQuote(0));
    assert w1.hashing == [range] && w2.hashing == [] && |w2.digesting| == 1;
    assert Without(w2.digesting, 0) == [];
  }

  // ---- Discarding. ----

  /** While an explanation is staged every other is refused; discarding it, and nothing else, makes room for one. */
  lemma DiscardReopensStaging(h: Hashes, w: World, c: Content)
    requires w.page.proposal.Some? && w.page.frozen.Some? && CleanContent(h.url, c)
    requires w.page.read.Some? && w.page.read.value.sourceSetDigest == w.page.frozen.value.sourceSetDigest
    ensures var input, t := StageInput(w.page.frozen.value.sourceSetDigest, c), Step(h, w, DiscardNote);
            && t == w.(page := w.page.(proposal := None))
            && ValidateProposal(h, w.page, input) == Err(ProposalAlreadyStaged)
            && ValidateProposal(h, t.page, input) == Ok(Response(w.page.frozen.value.sourceSetDigest, c))
  {
    PartsOfStageInput(w.page.frozen.value.sourceSetDigest, c);
    CleanInputIsValid(h, Step(h, w, DiscardNote).page, c);
  }

  /** Clearing the source withdraws what was read and staged, and nothing can be staged until a passage is frozen. */
  lemma ClearingWithdraws(h: Hashes, w: World, input: Value)
    ensures var t := Step(h, w, ClearSource);
            && t == w.(page := w.page.(frozen := None, read := None, proposal := None))
            && ValidateProposal(h, t.page, input).Err?
            && Step(h, t, StageTool(false, input)) == t && Step(h, t, ReadTool(false, "")) == t
  {
  }

  // ---- Runs in which something comes between. ----

  const BLANK := World(Page(None, None, None, None, None), [], [], [])

  /** A second PDF loads between the two digests of a freeze: its name and digest go with the first one's text. */
  lemma SwappedFileRun(h: Hashes, first: PdfFile, second: PdfFile, range: Range)
    returns (ws: seq<World>, es: seq<Event>)
    requires range.text != ""
    ensures IsRun(h, ws, es) && |es| == 5 && ws[5].page.frozen.Some?
    ensures var s := ws[5].page.frozen.value;
            && s.exactText == range.text && s.fileName == second.name && s.pdfSha256 == second.digest
            && s.sourceSetDigest == h.material(Material(first.digest, range.start, range.end, h.text(range.text)))
  {
    es := [Load(first), BeginFreeze(range), HashQuote(0), Load(second), HashSource(0)];
    var w1 := Step(h, BLANK, es[0]);
    var w2 := Step(h, w1, es[1]);
    var w3 := Step(h, w2, es[2]);
    var w4 := Step(h, w3, es[3]);
    var w5 := Step(h, w4, es[4]);
    ws := [BLANK, w1, w2, w3, w4, w5];
    forall i | 0 <= i < |es| ensures StepAt(h, ws, es, i) {
    }
  }

  lemma Extend(h: Hashes, ws: seq<World>, es: seq<Event>, e: Event)
    requires IsRun(h, ws, es) && Enabled(ws[|es|], e)
    ensures IsRun(h, ws + [Step(h, ws[|es|], e)], es + [e])
  {
    var longer, events := ws + [Step(h, ws[|es|], e)], es + [e];
    forall i | 0 <= i < |events| ensures StepAt(h, longer, events, i) {
      if i < |es| {
        assert StepAt(h, ws, es, i);
      }
    }
  }

  /** A run extended by one undisturbed freeze. */
  lemma ExtendByFreeze(h: Hashes, ws: seq<World>, es: seq<Event>, range: Range)
    returns (longer: seq<World>, events: seq<Event>)
    requires IsRun(h, ws, es) && MayFreeze(ws[|es|].page, range)
    requires ws[|es|].hashing == [] && ws[|es|].digesting == []
    ensures IsRun(h, longer, events)
    ensures longer[|events|] ==
            ws[|es|].(page := SourceHashed(h, ws[|es|].page, QuoteHashed(h, ws[|es|].page.file.value, range)))
  {
    var w := ws[|es|];
    Extend(h, ws, es, BeginFreeze(range));
    var w1 := Step(h, w, BeginFreeze(range));
    Extend(h, ws + [w1], es + [BeginFreeze(range)], HashQuote(0));
    var w2 := Step(h, w1, HashQuote(0));
    Extend(h, ws + [w1] + [w2], es + [BeginFreeze(range)] + [HashQuote(0)], HashSource(0));
    longer := ws + [w1] + [w2] + [Step(h, w2, HashSource(0))];
    events := es + [BeginFreeze(range)] + [HashQuote(0)] + [HashSource(0)];
  }

  lemma ExtendBy(h: Hashes, ws: seq<World>, es: seq<Event>, e: Event) returns (longer: seq<World>, events: seq<Event>)
    requires IsRun(h, ws, es) && Enabled(ws[|es|], e)
    ensures IsRun(h, longer, events) && longer[|events|] == Step(h, ws[|es|], e)
  {
    Extend(h, ws, es, e);
    longer, events := ws + [Step(h, ws[|es|], e)], es + [e];
  }

  /** A PDF is loaded, a passage frozen and read. */
  lemma ReadPassage(h: Hashes, file: PdfFile, range: Range) returns (ws: seq<World>, es: seq<Event>)
    requires range.text != ""
    ensures IsRun(h, ws, es)
    ensures var w := ws[|es|];
            && w.hashing == [] && w.digesting == [] && w.staging == []
            && w.page.file == Some(file) && w.page.frozen.Some? && w.page.proposal.None? && w.page.saved.None?
            && w.page.frozen.value.sourceSetDigest ==
               h.material(Material(file.digest, range.start, range.end, h.text(range.text)))
            && w.page.read == Some(ReadReceipt("read", w.page.frozen.value.sourceSetDigest))
  {
    ws, es := [BLANK], [];
    ws, es := ExtendBy(h, ws, es, Load(file));
    ws, es := ExtendByFreeze(h, ws, es, range);
    ws, es := ExtendBy(h, ws, es, ReadTool(false, "read"));
  }

  lemma ValidStage(h: Hashes, w: World, input: Value, r: Response)
    requires ValidateProposal(h, w.page, input) == Ok(r)
    ensures Step(h, w, StageTool(false, input)) == w.(staging := w.staging + [r])
  {
  }

  /** A run extended by a stage call that passes validation. */
  lemma ExtendByStage(h: Hashes, ws: seq<World>, es: seq<Event>, content: Content)
    returns (longer: seq<World>, events: seq<Event>)
    requires IsRun(h, ws, es) && CleanContent(h.url, content)
    requires ws[|es|].page.frozen.Some? && ws[|es|].page.proposal.None? && ws[|es|].page.read.Some?
    requires ws[|es|].page.read.value.sourceSetDigest == ws[|es|].page.frozen.value.sourceSetDigest
    ensures IsRun(h, longer, events)
    ensures longer[|events|] ==
            ws[|es|].(staging := ws[|es|].staging + [Response(ws[|es|].page.frozen.value.sourceSetDigest, content)])
  {
    var w := ws[|es|];
    var digest := w.page.frozen.value.sourceSetDigest;
    CleanInputIsValid(h, w.page, content);
    ValidStage(h, w, StageInput(digest, content), Response(digest, content));
    longer, events := ExtendBy(h, ws, es, StageTool(false, StageInput(digest, content)));
  }

  /** A freeze completes between the validation and the commit of a staged explanation, and the user saves. */
  lemma IncoherentNoteRun(h: Hashes, file: PdfFile, first: Range, second: Range, content: Content)
    returns (ws: seq<World>, es: seq<Event>)
    requires first.text != "" && second.text != "" && CleanContent(h.url, content)
    requires h.material(Material(file.digest, first.start, first.end, h.text(first.text))) !=
             h.material(Material(file.digest, second.start, second.end, h.text(second.text)))
    ensures IsRun(h, ws, es) && ws[|es|].page.saved.Some? && !CoherentNote(ws[|es|].page.saved.value)
  {
    ws, es := ReadPassage(h, file, first);
    ws, es := ExtendByStage(h, ws, es, content);
    ws, es := ExtendByFreeze(h, ws, es, second);
    ws, es := ExtendBy(h, ws, es, CommitStage(0, "proposal"));
    ws, es := ExtendBy(h, ws, es, SaveNote(""));
  }

  /** Two stage calls are validated before either commits: the second replaces the first. */
  lemma ReplacedProposalRun(h: Hashes, file: PdfFile, range: Range, one: Content, two: Content)
    returns (ws: seq<World>, es: seq<Event>)
    requires range.text != "" && one != two && CleanContent(h.url, one) && CleanContent(h.url, two)
    ensures IsRun(h, ws, es) && |es| >= 1
    ensures ws[|es| - 1].page.proposal.Some? && ws[|es|].page.proposal.Some?
    ensures ws[|es| - 1].page.proposal.value.response.content == one
    ensures ws[|es|].page.proposal.value.response.content == two
  {
    ws, es := ReadPassage(h, file, range);
    ws, es := ExtendByStage(h, ws, es, one);
    ws, es := ExtendByStage(h, ws, es, two);
    ws, es := ExtendBy(h, ws, es, CommitStage(0, "one"));
    Extend(h, ws, es, CommitStage(0, "two"));
    ws, es := ws + [Step(h, ws[|es|], CommitStage(0, "two"))], es + [CommitStage(0, "two")];
  }
}
