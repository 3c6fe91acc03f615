/**
 The mentor page: a passage of a PDF is frozen, an agent reads it and stages an explanation, and the
 user saves or discards it. Freezing hashes twice and staging hashes once, so other steps can come
 in between; each piece between two awaits is one method.
 */
module MentorNote {
  import opened Common
  import opened MentorResponse
  import opened Utf16

  type Digest = Text

  datatype PdfFile = PdfFile(name: string, digest: Digest, page: string)
  datatype Range = Range(start: nat, end: nat, text: string)

  /** What the source-set digest is taken of. */
  datatype Material = Material(pdfSha256: Digest, textStart: nat, textEnd: nat, quoteSha256: Digest)

  datatype Source = Source(
    sourceSetDigest: Digest, fileName: string, pdfSha256: Digest, exactText: string,
    context: (string, string), textStart: nat, textEnd: nat, quoteSha256: Digest)

  datatype ReadReceipt = ReadReceipt(readEventId: string, sourceSetDigest: Digest)
  datatype Response = Response(expectedSourceDigest: Digest, content: Content)
  datatype Proposal = Proposal(proposalId: string, responseDigest: Digest, sourceSetDigest: Digest, response: Response)

  datatype SavedNote = SavedNote(source: Source, readReceipt: Option<ReadReceipt>, proposal: Proposal, takeaway: string)

  /**
   SHA-256 of a text, of canonical source material and of a canonical response; the text around a
   range; and the URL parser.
   */
  datatype Hashes = Hashes(
    text: string -> Digest, material: Material -> Digest, response: Response -> Digest,
    context: (string, nat, nat) -> (string, string), url: UrlParser)

  datatype Page = Page(file: Option<PdfFile>, frozen: Option<Source>, read: Option<ReadReceipt>,
                       proposal: Option<Proposal>, saved: Option<SavedNote>)

  /** A freeze that waits for its second digest. */
  datatype Digesting = Digesting(range: Range, quoteSha256: Digest, context: (string, string), material: Material)

  // ---- Steps. ----

  /** A PDF has been read and rendered. */
  function Loaded(p: Page, file: PdfFile): Page {
    Page(Some(file), None, None, None, p.saved)
  }

  predicate MayFreeze(p: Page, range: Range) {
    p.file.Some? && range.text != ""
  }

  /** After the quote is hashed: the material takes the file's digest as it is now. */
  function QuoteHashed(h: Hashes, file: PdfFile, range: Range): Digesting {
    var quote := h.text(range.text);
    Digesting(range, quote, h.context(file.page, range.start, range.end),
              Material(file.digest, range.start, range.end, quote))
  }

  /** After the material is hashed: the frozen source takes the file's name and digest as they are now. */
  function SourceHashed(h: Hashes, p: Page, d: Digesting): Page
    requires p.file.Some?
  {
    var source := Source(h.material(d.material), p.file.value.name, p.file.value.digest, d.range.text, d.context,
                         d.range.start, d.range.end, d.quoteSha256);
    Page(p.file, Some(source), None, None, p.saved)
  }

  function Cleared(p: Page): Page {
    Page(p.file, None, None, None, p.saved)
  }

  /** The read tool; it throws when aborted. */
  function ReadSources(p: Page, aborted: bool, id: string): Page {
    if aborted || p.frozen.None? then p
    else p.(read := Some(ReadReceipt(id, p.frozen.value.sourceSetDigest)))
  }

  function ValidateProposal(h: Hashes, p: Page, input: Value): Result<Response, StageError> {
    if !input.Obj? || !(input.fields.Keys <= KEYS) then Err(ResponseInvalid)
    else if p.frozen.None? || Field(input.fields, "expectedSourceDigest") != Some(Str(p.frozen.value.sourceSetDigest))
    then Err(SourceDigestMismatch)
    else if p.read.None? || p.read.value.sourceSetDigest != p.frozen.value.sourceSetDigest then Err(ReadRequired)
    else if p.proposal.Some? then Err(ProposalAlreadyStaged)
    else
      var content := ParseContent(h.url, PartsOf(input.fields));
      if content.Err? then Err(content.error) else Ok(Response(p.frozen.value.sourceSetDigest, content.value))
  }

  /** The arguments that carry an explanation of the source with this digest. */
  function StageInput(digest: Digest, c: Content): Value {
    Protocol.Wire.Obj(map[
      "expectedSourceDigest" := Str(digest),
      "plainLanguage" := Str(c.plainLanguage),
      "keyTerms" := ValueAll(TermValue, c.keyTerms),
      "stepByStep" := ValueAll(Str, c.stepByStep),
      "paperConnection" := Str(c.paperConnection),
      "backgroundKnowledge" := Str(c.backgroundKnowledge),
      "externalSources" := ValueAll(SourceValue, c.externalSources),
      "limitations" := Str(c.limitations)])
  }

  lemma PartsOfStageInput(digest: Digest, c: Content)
    ensures var fields := StageInput(digest, c).fields;
            && fields.Keys == KEYS && Field(fields, "expectedSourceDigest") == Some(Str(digest))
            && PartsOf(fields) == PartsFrom(c)
  {
  }

  /** What passes validation names the source that is frozen and was read, while nothing is staged. */
  lemma ValidIsOfFrozen(h: Hashes, p: Page, input: Value, r: Response)
    requires ValidateProposal(h, p, input) == Ok(r)
    ensures p.frozen.Some? && p.read.Some? && p.proposal.None?
    ensures r.expectedSourceDigest == p.frozen.value.sourceSetDigest == p.read.value.sourceSetDigest
    ensures input.Obj? && ParseContent(h.url, PartsOf(input.fields)) == Ok(r.content)
  {
  }

  lemma ValidIsClean(h: Hashes, p: Page, input: Value, r: Response)
    requires ValidateProposal(h, p, input) == Ok(r)
    ensures CleanButSources(r.content)
  {
    ValidIsOfFrozen(h, p, input, r);
    AcceptedIsClean(h.url, PartsOf(input.fields), r.content);
  }

  /** Clean content for the source that was frozen and read is accepted as it stands while nothing is staged. */
  lemma CleanInputIsValid(h: Hashes, p: Page, c: Content)
    requires CleanContent(h.url, c) && p.frozen.Some? && p.proposal.None?
    requires p.read.Some? && p.read.value.sourceSetDigest == p.frozen.value.sourceSetDigest
    ensures var digest := p.frozen.value.sourceSetDigest;
            ValidateProposal(h, p, StageInput(digest, c)) == Ok(Response(digest, c))
  {
    PartsOfStageInput(p.frozen.value.sourceSetDigest, c);
    CleanContentIsAccepted(h.url, c);
    InputIsValid(h, p, StageInput(p.frozen.value.sourceSetDigest, c), c);
  }

  lemma InputIsValid(h: Hashes, p: Page, input: Value, c: Content)
    requires p.frozen.Some? && p.proposal.None?
    requires p.read.Some? && p.read.value.sourceSetDigest == p.frozen.value.sourceSetDigest
    requires input.Obj? && input.fields.Keys <= KEYS
    requires Field(input.fields, "expectedSourceDigest") == Some(Str(p.frozen.value.sourceSetDigest))
    requires ParseContent(h.url, PartsOf(input.fields)) == Ok(c)
    ensures ValidateProposal(h, p, input) == Ok(Response(p.frozen.value.sourceSetDigest, c))
  {
  }

  /** After the response is hashed. */
  function Staged(h: Hashes, p: Page, response: Response, id: string): Page {
    p.(proposal := Some(Proposal(id, h.response(response), response.expectedSourceDigest, response)))
  }

  function NoteSaved(p: Page, takeaway: string): Page {
    if p.proposal.None? || p.frozen.None? then p
    else p.(saved := Some(SavedNote(p.frozen.value, p.read, p.proposal.value, takeaway)))
  }

  function Discarded(p: Page): Page {
    if p.proposal.None? || p.frozen.None? then p else p.(proposal := None)
  }

  // ---- The page's state object. ----

  class MentorPage {
    var file: Option<PdfFile>
    var frozenSource: Option<Source>
    var latestReadReceipt: Option<ReadReceipt>
    var proposal: Option<Proposal>
    var savedReceipt: Option<SavedNote>

    constructor (restored: Option<SavedNote>)
      ensures View() == Page(None, None, None, None, restored)
    {
      file, frozenSource, latestReadReceipt, proposal, savedReceipt := None, None, None, None, restored;
    }

    ghost function View(): Page
      reads this
    {
      Page(file, frozenSource, latestReadReceipt, proposal, savedReceipt)
    }

    method FinishRender(rendered: PdfFile)
      modifies this
      ensures View() == Loaded(old(View()), rendered)
    {
      file := Some(rendered);
      frozenSource, latestReadReceipt, proposal := None, None, None;
    }

    method BeginFreeze(range: Range) returns (go: bool)
      ensures go <==> MayFreeze(View(), range)
    {
      return file.Some? && range.text != "";
    }

    method AfterQuoteHash(h: Hashes, range: Range) returns (d: Digesting)
      requires file.Some?
      ensures d == QuoteHashed(h, file.value, range)
    {
      var quoteSha256 := h.text(range.text);
      var context := h.context(file.value.page, range.start, range.end);
      d := Digesting(range, quoteSha256, context, Material(file.value.digest, range.start, range.end, quoteSha256));
    }

    method AfterSourceHash(h: Hashes, d: Digesting)
      requires file.Some?
      modifies this
      ensures View() == SourceHashed(h, old(View()), d)
    {
      frozenSource := Some(Source(h.material(d.material), file.value.name, file.value.digest, d.range.text, d.context,
                                  d.range.start, d.range.end, d.quoteSha256));
      latestReadReceipt := None;
      proposal := None;
    }

    method ClearFrozenSource()
      modifies this
      ensures View() == Cleared(old(View()))
    {
      frozenSource, latestReadReceipt, proposal := None, None, None;
    }

    method ReadTool(aborted: bool, id: string) returns (shared: Option<Source>)
      modifies this`latestReadReceipt
      ensures View() == ReadSources(old(View()), aborted, id)
      ensures shared == if aborted then None else old(frozenSource)
    {
      if aborted || frozenSource.None? {
        return None;
      }
      latestReadReceipt := Some(ReadReceipt(id, frozenSource.value.sourceSetDigest));
      return frozenSource;
    }

    method BeginStage(h: Hashes, input: Value) returns (r: Result<Response, StageError>)
      ensures r == ValidateProposal(h, View(), input)
    {
      if !input.Obj? || !(input.fields.Keys <= KEYS) {
        return Err(ResponseInvalid);
      }
      var digest := Field(input.fields, "expectedSourceDigest");
      if frozenSource.None? || digest != Some(Str(frozenSource.value.sourceSetDigest)) {
        return Err(SourceDigestMismatch);
      }
      if latestReadReceipt.None? || latestReadReceipt.value.sourceSetDigest != frozenSource.value.sourceSetDigest {
        return Err(ReadRequired);
      }
      if proposal.Some? {
        return Err(ProposalAlreadyStaged);
      }
      var content := ParseContent(h.url, PartsOf(input.fields));
      match content {
        case Err(error) => return Err(error);
        case Ok(value) => return Ok(Response(digest.value.s, value));
      }
    }

    method AfterResponseHash(h: Hashes, response: Response, id: string)
      modifies this`proposal
      ensures View() == Staged(h, old(View()), response, id)
    {
      proposal := Some(Proposal(id, h.response(response), response.expectedSourceDigest, response));
    }

    method SaveCurrentNote(takeaway: string)
      modifies this`savedReceipt
      ensures View() == NoteSaved(old(View()), takeaway)
    {
      if proposal.None? || frozenSource.None? {
        return;
      }
      savedReceipt := Some(SavedNote(frozenSource.value, latestReadReceipt, proposal.value, takeaway));
    }

    method DiscardCurrentProposal()
      modifies this`proposal
      ensures View() == Discarded(old(View()))
    {
      if proposal.None? || frozenSource.None? {
        return;
      }
      proposal := None;
    }
  }
}
