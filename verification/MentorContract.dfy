/** The contract of an accepted explanation, stated without the checks that decide it. */
module MentorContract {
  import opened Common
  import opened Utf16
  import opened MentorResponse
  import opened MentorNote

  // ---- What a value denotes. ----

  /** The value is text, and this is its normal form: the same words, within the limit. */
  predicate TextDenotes(v: Option<Value>, max: nat, t: Text) {
    v.Some? && v.value.Str? && Clean(t, max) && Words(t) == Words(v.value.s)
  }

  ghost predicate SomeText(v: Option<Value>, max: nat) {
    exists t :: TextDenotes(v, max, t)
  }

  predicate TermDenotes(v: Value, t: KeyTerm) {
    && v.Obj? && v.fields.Keys == {"term", "definition"}
    && TextDenotes(Some(v.fields["term"]), 100, t.term)
    && TextDenotes(Some(v.fields["definition"]), 600, t.definition)
  }

  predicate StepDenotes(v: Value, t: Text) {
    TextDenotes(Some(v), 900, t)
  }

  /** The address is secure and names no user, and is kept as the URL parser serializes it. */
  ghost predicate SourceDenotes(urls: UrlParser, v: Value, x: External) {
    && v.Obj? && v.fields.Keys == {"title", "url"}
    && TextDenotes(Some(v.fields["title"]), 240, x.title)
    && exists address ::
         TextDenotes(Some(v.fields["url"]), 2048, address) && urls(address) == Some(Url(x.url, true, false))
  }

  predicate TermsDenote(v: Option<Value>, ts: seq<KeyTerm>) {
    && v.Some? && v.value.Arr? && 1 <= |ts| <= 8 && |v.value.items| == |ts|
    && forall i :: 0 <= i < |ts| ==> TermDenotes(v.value.items[i], ts[i])
  }

  predicate StepsDenote(v: Option<Value>, ts: seq<Text>) {
    && v.Some? && v.value.Arr? && 1 <= |ts| <= 8 && |v.value.items| == |ts|
    && forall i :: 0 <= i < |ts| ==> StepDenotes(v.value.items[i], ts[i])
  }

  /** Missing sources are none. */
  ghost predicate SourcesDenote(urls: UrlParser, v: Option<Value>, xs: seq<External>) {
    if v.None? then xs == []
    else
      && v.value.Arr? && |xs| <= 5 && |v.value.items| == |xs|
      && forall i :: 0 <= i < |xs| ==> SourceDenotes(urls, v.value.items[i], xs[i])
  }

  predicate TextsDenote(p: Parts, c: Content) {
    && TextDenotes(p.plainLanguage, 2000, c.plainLanguage) && TextDenotes(p.paperConnection, 2000, c.paperConnection)
    && TextDenotes(p.backgroundKnowledge, 2000, c.backgroundKnowledge)
    && TextDenotes(p.limitations, 1500, c.limitations)
  }

  ghost predicate Denotes(urls: UrlParser, p: Parts, c: Content) {
    && TextsDenote(p, c) && TermsDenote(p.keyTerms, c.keyTerms) && StepsDenote(p.stepByStep, c.stepByStep)
    && SourcesDenote(urls, p.externalSources, c.externalSources)
  }

  // ---- The checks decide it. ----

  lemma CleanTextDenotes(v: Option<Value>, max: nat, t: Text)
    ensures CleanText(v, max) == Some(t) <==> TextDenotes(v, max, t)
  {
    CleanTextExactly(v, max, t);
    if TextDenotes(v, max, t) {
      CleanTextIsItsWords(v.value.s);
    }
  }

  lemma ParsedTermDenotes(v: Value, t: KeyTerm)
    ensures ParseTerm(v) == Some(t) <==> TermDenotes(v, t)
  {
    if v.Obj? {
      CleanTextDenotes(Field(v.fields, "term"), 100, t.term);
      CleanTextDenotes(Field(v.fields, "definition"), 600, t.definition);
      if ParseTerm(v) == Some(t) {
        assert "term" in v.fields && "definition" in v.fields;
      }
    }
  }

  lemma ParsedSourceDenotes(urls: UrlParser, v: Value, x: External)
    ensures ParseSource(urls, v) == Some(x) <==> SourceDenotes(urls, v, x)
  {
    if v.Obj? {
      CleanTextDenotes(Field(v.fields, "title"), 240, x.title);
      var address := CleanText(Field(v.fields, "url"), MAX_URL);
      if ParseSource(urls, v) == Some(x) {
        CleanTextDenotes(Field(v.fields, "url"), MAX_URL, address.value);
        assert "title" in v.fields && "url" in v.fields;
      }
      if SourceDenotes(urls, v, x) {
        var a :| TextDenotes(Some(v.fields["url"]), 2048, a) && urls(a) == Some(Url(x.url, true, false));
        CleanTextDenotes(Field(v.fields, "url"), MAX_URL, a);
      }
    }
  }

  lemma ParsedTermsDenote(v: Option<Value>, ts: seq<KeyTerm>)
    ensures ParseList(v, ParseTerm) == Some(ts) <==> TermsDenote(v, ts)
  {
    if v.Some? && v.value.Arr? {
      ParseAllExactly(ParseTerm, v.value.items, ts);
      forall i | 0 <= i < |ts| && i < |v.value.items|
        ensures ParseTerm(v.value.items[i]) == Some(ts[i]) <==> TermDenotes(v.value.items[i], ts[i])
      {
        ParsedTermDenotes(v.value.items[i], ts[i]);
      }
    }
  }

  lemma ParsedStepsDenote(v: Option<Value>, ts: seq<Text>)
    ensures ParseList(v, ParseStep) == Some(ts) <==> StepsDenote(v, ts)
  {
    if v.Some? && v.value.Arr? {
      ParseAllExactly(ParseStep, v.value.items, ts);
      forall i | 0 <= i < |ts| && i < |v.value.items|
        ensures ParseStep(v.value.items[i]) == Some(ts[i]) <==> StepDenotes(v.value.items[i], ts[i])
      {
        CleanTextDenotes(Some(v.value.items[i]), 900, ts[i]);
      }
    }
  }

  lemma ParsedSourcesDenote(urls: UrlParser, v: Option<Value>, xs: seq<External>)
    ensures ParseSources(urls, v) == Some(xs) <==> SourcesDenote(urls, v, xs)
  {
    if v.Some? && v.value.Arr? {
      var parse := x => ParseSource(urls, x);
      ParseAllExactly(parse, v.value.items, xs);
      forall i | 0 <= i < |xs| && i < |v.value.items|
        ensures parse(v.value.items[i]) == Some(xs[i]) <==> SourceDenotes(urls, v.value.items[i], xs[i])
      {
        ParsedSourceDenotes(urls, v.value.items[i], xs[i]);
      }
    }
  }

  lemma CleanTextDecides(v: Option<Value>, max: nat)
    ensures CleanText(v, max).Some? <==> SomeText(v, max)
  {
    if CleanText(v, max).Some? {
      CleanTextDenotes(v, max, CleanText(v, max).value);
    }
    if t :| TextDenotes(v, max, t) {
      CleanTextDenotes(v, max, t);
    }
  }

  ghost predicate SomeTexts(p: Parts) {
    && SomeText(p.plainLanguage, 2000) && SomeText(p.paperConnection, 2000)
    && SomeText(p.backgroundKnowledge, 2000) && SomeText(p.limitations, 1500)
  }

  /** What the checks come to, part by part and in their order. */
  lemma ChecksInOrder(urls: UrlParser, p: Parts)
    ensures var r := ParseContent(urls, p);
            if !SomeTexts(p) then r == Err(ResponseInvalid)
            else if ParseList(p.keyTerms, ParseTerm).None? then r == Err(KeyTermsInvalid)
            else if ParseList(p.stepByStep, ParseStep).None? then r == Err(StepsInvalid)
            else if ParseSources(urls, p.externalSources).None? then r == Err(ExternalSourcesInvalid)
            else r.Ok?
  {
    CleanTextDecides(p.plainLanguage, 2000);
    CleanTextDecides(p.paperConnection, 2000);
    CleanTextDecides(p.backgroundKnowledge, 2000);
    CleanTextDecides(p.limitations, 1500);
  }

  lemma ContentOfParts(urls: UrlParser, p: Parts, c: Content)
    ensures ParseContent(urls, p) == Ok(c) <==>
            && CleanText(p.plainLanguage, 2000) == Some(c.plainLanguage)
            && CleanText(p.paperConnection, 2000) == Some(c.paperConnection)
            && CleanText(p.backgroundKnowledge, 2000) == Some(c.backgroundKnowledge)
            && CleanText(p.limitations, 1500) == Some(c.limitations)
            && ParseList(p.keyTerms, ParseTerm) == Some(c.keyTerms)
            && ParseList(p.stepByStep, ParseStep) == Some(c.stepByStep)
            && ParseSources(urls, p.externalSources) == Some(c.externalSources)
  {
  }

  /** An explanation is accepted exactly as the content its parts denote. */
  lemma AcceptedExactly(urls: UrlParser, p: Parts, c: Content)
    ensures ParseContent(urls, p) == Ok(c) <==> Denotes(urls, p, c)
  {
    ContentOfParts(urls, p, c);
    CleanTextDenotes(p.plainLanguage, 2000, c.plainLanguage);
    CleanTextDenotes(p.paperConnection, 2000, c.paperConnection);
    CleanTextDenotes(p.backgroundKnowledge, 2000, c.backgroundKnowledge);
    CleanTextDenotes(p.limitations, 1500, c.limitations);
    ParsedTermsDenote(p.keyTerms, c.keyTerms);
    ParsedStepsDenote(p.stepByStep, c.stepByStep);
    ParsedSourcesDenote(urls, p.externalSources, c.externalSources);
  }

  ghost predicate SomeTerms(p: Parts) {
    exists ts :: TermsDenote(p.keyTerms, ts)
  }

  ghost predicate SomeSteps(p: Parts) {
    exists ts :: StepsDenote(p.stepByStep, ts)
  }

  /** A refusal names the first part, in the source's order, that denotes nothing. */
  lemma RefusedExactly(urls: UrlParser, p: Parts, error: StageError)
    requires ParseContent(urls, p) == Err(error)
    ensures error == (if !SomeTexts(p) then ResponseInvalid
                      else if !SomeTerms(p) then KeyTermsInvalid
                      else if !SomeSteps(p) then StepsInvalid
                      else ExternalSourcesInvalid)
  {
    ChecksInOrder(urls, p);
    if ParseList(p.keyTerms, ParseTerm).Some? {
      ParsedTermsDenote(p.keyTerms, ParseList(p.keyTerms, ParseTerm).value);
    }
    if ParseList(p.stepByStep, ParseStep).Some? {
      ParsedStepsDenote(p.stepByStep, ParseList(p.stepByStep, ParseStep).value);
    }
    if ts :| TermsDenote(p.keyTerms, ts) {
      ParsedTermsDenote(p.keyTerms, ts);
    }
    if ts :| StepsDenote(p.stepByStep, ts) {
      ParsedStepsDenote(p.stepByStep, ts);
    }
  }

  // ---- The whole validation. ----

  const STAGE_KEYS := {"expectedSourceDigest", "plainLanguage", "keyTerms", "stepByStep", "paperConnection",
                       "backgroundKnowledge", "externalSources", "limitations"}

  /**
   A stage call passes exactly if it has no other arguments, names the source that is frozen and was
   read, nothing is staged, and its parts denote an explanation, which is then the response.
   */
  lemma ValidExactly(h: Hashes, p: Page, input: Value, r: MentorNote.Response)
    ensures ValidateProposal(h, p, input) == Ok(r) <==>
            && input.Obj? && input.fields.Keys <= STAGE_KEYS
            && p.frozen.Some? && p.read.Some? && p.proposal.None?
            && "expectedSourceDigest" in input.fields
            && input.fields["expectedSourceDigest"] == Str(p.frozen.value.sourceSetDigest)
            && p.frozen.value.sourceSetDigest == p.read.value.sourceSetDigest == r.expectedSourceDigest
            && Denotes(h.url, PartsOf(input.fields), r.content)
  {
    if input.Obj? {
      AcceptedExactly(h.url, PartsOf(input.fields), r.content);
      PassesExactly(h, p, input, r);
    }
  }

  lemma PassesExactly(h: Hashes, p: Page, input: Value, r: MentorNote.Response)
    requires input.Obj?
    ensures ValidateProposal(h, p, input) == Ok(r) <==>
            && input.fields.Keys <= STAGE_KEYS
            && p.frozen.Some? && p.read.Some? && p.proposal.None?
            && Field(input.fields, "expectedSourceDigest") == Some(Str(p.frozen.value.sourceSetDigest))
            && p.frozen.value.sourceSetDigest == p.read.value.sourceSetDigest == r.expectedSourceDigest
            && ParseContent(h.url, PartsOf(input.fields)) == Ok(r.content)
  {
  }
}
