/**
 The explanation an agent stages, checked and put in normal form: white space is collapsed, lists are
 bounded, and the addresses of external sources are rewritten by the URL parser.
 */
module MentorResponse {
  import opened Common
  import opened Utf16
  import FormUrl
  import Protocol = ExtractionProtocol

  type Value = Protocol.Wire
  type Fields = map<string, Value>

  /** A parsed URL: its serialization, whether it is `https:`, and whether it names a user or a password. */
  datatype Url = Url(href: Text, https: bool, credentials: bool)

  type UrlParser = Text -> Option<Url>

  datatype KeyTerm = KeyTerm(term: Text, definition: Text)
  datatype External = External(title: Text, url: Text)

  datatype Content = Content(
    plainLanguage: Text, keyTerms: seq<KeyTerm>, stepByStep: seq<Text>, paperConnection: Text,
    backgroundKnowledge: Text, externalSources: seq<External>, limitations: Text)

  datatype StageError =
    | ResponseInvalid
    | SourceDigestMismatch
    | ReadRequired
    | ProposalAlreadyStaged
    | KeyTermsInvalid
    | StepsInvalid
    | ExternalSourcesInvalid

  const SPACE: Unit := 0x20
  const MAX_ITEMS := 8
  const MAX_SOURCES := 5
  const MAX_URL := 2048
  const KEYS := {"expectedSourceDigest", "plainLanguage", "keyTerms", "stepByStep", "paperConnection",
                 "backgroundKnowledge", "externalSources", "limitations"}

  // ---- Text. ----

  /** `replace(/\s+/g, " ")` */
  function Collapse(s: Text): Text
    decreases |s|
  {
    if s == [] then []
    else if IsWhite(s[0]) then [SPACE] + Collapse(TrimStart(s))
    else [s[0]] + Collapse(s[1..])
  }

  /** None where the value is missing, not text, blank or too long. */
  function CleanText(v: Option<Value>, max: nat): Option<Text> {
    if v.None? || !v.value.Str? then None
    else
      var text := Trim(Collapse(v.value.s));
      if text == [] || |text| > max then None else Some(text)
  }

  // ---- Lists and records. ----

  function Field(fields: Fields, key: string): Option<Value> {
    if key in fields then Some(fields[key]) else None
  }

  function ParseAll<T>(parse: Value -> Option<T>, items: seq<Value>): Option<seq<T>> {
    if items == [] then Some([])
    else
      var first, rest := parse(items[0]), ParseAll(parse, items[1..]);
      if first.None? || rest.None? then None else Some([first.value] + rest.value)
  }

  function ParseTerm(v: Value): Option<KeyTerm> {
    if !v.Obj? || !(v.fields.Keys <= {"term", "definition"}) then None
    else
      var term, definition := CleanText(Field(v.fields, "term"), 100), CleanText(Field(v.fields, "definition"), 600);
      if term.None? || definition.None? then None else Some(KeyTerm(term.value, definition.value))
  }

  function ParseStep(v: Value): Option<Text> {
    CleanText(Some(v), 900)
  }

  function ParseSource(urls: UrlParser, v: Value): Option<External> {
    if !v.Obj? || !(v.fields.Keys <= {"title", "url"}) then None
    else
      var title, urlText := CleanText(Field(v.fields, "title"), 240), CleanText(Field(v.fields, "url"), MAX_URL);
      if title.None? || urlText.None? then None
      else
        var url := urls(urlText.value);
        if url.None? || !url.value.https || url.value.credentials then None
        else Some(External(title.value, url.value.href))
  }

  function ParseList<T>(v: Option<Value>, parse: Value -> Option<T>): Option<seq<T>> {
    if v.None? || !v.value.Arr? || !(1 <= |v.value.items| <= MAX_ITEMS) then None else ParseAll(parse, v.value.items)
  }

  function ParseSources(urls: UrlParser, v: Option<Value>): Option<seq<External>> {
    if v.None? then Some([])
    else if !v.value.Arr? || |v.value.items| > MAX_SOURCES then None
    else ParseAll(x => ParseSource(urls, x), v.value.items)
  }

  /** The arguments of the stage tool but for the digest; None is a missing one. */
  datatype Parts = Parts(
    plainLanguage: Option<Value>, keyTerms: Option<Value>, stepByStep: Option<Value>, paperConnection: Option<Value>,
    backgroundKnowledge: Option<Value>, externalSources: Option<Value>, limitations: Option<Value>)

  function PartsOf(fields: Fields): Parts {
    Parts(Field(fields, "plainLanguage"), Field(fields, "keyTerms"), Field(fields, "stepByStep"),
          Field(fields, "paperConnection"), Field(fields, "backgroundKnowledge"), Field(fields, "externalSources"),
          Field(fields, "limitations"))
  }

  /** The part of the validation that looks at the explanation only, its errors in the source's order. */
  function ParseContent(urls: UrlParser, p: Parts): Result<Content, StageError> {
    var plain := CleanText(p.plainLanguage, 2000);
    var paper := CleanText(p.paperConnection, 2000);
    var background := CleanText(p.backgroundKnowledge, 2000);
    var limitations := CleanText(p.limitations, 1500);
    if plain.None? || paper.None? || background.None? || limitations.None? then Err(ResponseInvalid)
    else
      var terms := ParseList(p.keyTerms, ParseTerm);
      if terms.None? then Err(KeyTermsInvalid)
      else
        var steps := ParseList(p.stepByStep, ParseStep);
        if steps.None? then Err(StepsInvalid)
        else
          var sources := ParseSources(urls, p.externalSources);
          if sources.None? then Err(ExternalSourcesInvalid)
          else Ok(Content(plain.value, terms.value, steps.value, paper.value, background.value, sources.value,
                          limitations.value))
  }

  // ---- Collapsing white space keeps the words. ----

  /** The maximal runs without white space. */
  function Words(s: Text): (ws: seq<Text>)
    ensures s != [] && !IsWhite(s[0]) ==> ws != []
  {
    if s == [] then []
    else if IsWhite(s[0]) then Words(s[1..])
    else
      var rest := Words(s[1..]);
      if |s| == 1 || IsWhite(s[1]) then [[s[0]]] + rest else [[s[0]] + rest[0]] + rest[1..]
  }

  function Join(ws: seq<Text>): Text {
    if ws == [] then [] else ws[0] + (if |ws| == 1 then [] else [SPACE] + Join(ws[1..]))
  }

  predicate IsWord(w: Text) {
    w != [] && forall i :: 0 <= i < |w| ==> !IsWhite(w[i])
  }

  predicate AreWords(ws: seq<Text>) {
    forall i :: 0 <= i < |ws| ==> IsWord(ws[i])
  }

  lemma {:induction false} WordsAreWords(s: Text)
    ensures AreWords(Words(s))
  {
    if s != [] {
      WordsAreWords(s[1..]);
    }
  }

  lemma {:induction false} LeadingSpaceIsNoWord(s: Text)
    ensures Words(TrimStart(s)) == Words(s)
  {
    if s != [] && IsWhite(s[0]) {
      LeadingSpaceIsNoWord(s[1..]);
    }
  }

  lemma TrimStartStarts(s: Text)
    ensures TrimStart(s) == [] || !IsWhite(TrimStart(s)[0])
    ensures |TrimStart(s)| <= |s|
  {
  }

  lemma TrimEndCons(u: Unit, s: Text)
    ensures TrimEnd([u] + s) == if TrimEnd(s) == [] && IsWhite(u) then [] else [u] + TrimEnd(s)
    decreases |s|
  {
    var t := [u] + s;
    if s == [] {
      assert t[..0] == [];
    } else if IsWhite(s[|s| - 1]) {
      TrimEndCons(u, s[..|s| - 1]);
      assert t[..|t| - 1] == [u] + s[..|s| - 1];
    }
  }

  lemma {:induction false} CollapsedFromWord(s: Text)
    requires s == [] || !IsWhite(s[0])
    ensures TrimEnd(Collapse(s)) == Join(Words(s))
    decreases |s|
  {
    if s != [] {
      var rest := s[1..];
      TrimEndCons(s[0], Collapse(rest));
      WordsAreWords(rest);
      if rest != [] && IsWhite(rest[0]) {
        TrimStartStarts(rest);
        CollapsedFromWord(TrimStart(rest));
        LeadingSpaceIsNoWord(rest);
        TrimEndCons(SPACE, Collapse(TrimStart(rest)));
      } else {
        CollapsedFromWord(rest);
        if rest != [] {
          JoinLongerWord(s[0], Words(rest));
        }
      }
    }
  }

  lemma JoinLongerWord(u: Unit, ws: seq<Text>)
    requires ws != []
    ensures Join([[u] + ws[0]] + ws[1..]) == [u] + Join(ws)
  {
    var longer := [[u] + ws[0]] + ws[1..];
    assert longer[1..] == ws[1..];
  }

  /** Collapsing and trimming leaves the words, joined by single spaces. */
  lemma CleanTextIsItsWords(s: Text)
    ensures Trim(Collapse(s)) == Join(Words(s))
  {
    TrimStartStarts(s);
    CollapsedFromWord(TrimStart(s));
    LeadingSpaceIsNoWord(s);
    if s != [] && IsWhite(s[0]) {
      var inner := Collapse(TrimStart(s));
      assert TrimStart([SPACE] + inner) == TrimStart(inner);
      assert TrimStart(inner) == inner;
    }
  }

  lemma {:induction false} WordsOfWordThen(w: Text, rest: Text)
    requires IsWord(w) && (rest != [] ==> IsWhite(rest[0]))
    ensures Words(w + rest) == [w] + Words(rest)
    decreases |w|
  {
    var s := w + rest;
    assert s[1..] == w[1..] + rest;
    if |w| == 1 {
      assert w == [s[0]];
    } else {
      WordsOfWordThen(w[1..], rest);
      assert Words(s[1..])[0] == w[1..] && [w[0]] + w[1..] == w;
    }
  }

  lemma {:induction false} WordsOfJoin(ws: seq<Text>)
    requires AreWords(ws)
    ensures Words(Join(ws)) == ws
  {
    if |ws| == 1 {
      WordsOfWordThen(ws[0], []);
    } else if ws != [] {
      var tail := [SPACE] + Join(ws[1..]);
      assert tail[1..] == Join(ws[1..]);
      WordsOfJoin(ws[1..]);
      WordsOfWordThen(ws[0], tail);
    }
  }

  /** Text in normal form: words with single spaces between them, neither blank nor too long. */
  predicate Clean(t: Text, max: nat) {
    t != [] && |t| <= max && Join(Words(t)) == t
  }

  /** Clean text is what comes out, and comes out unchanged. */
  lemma CleanTextExactly(v: Option<Value>, max: nat, t: Text)
    ensures CleanText(v, max) == Some(t) ==> Clean(t, max) && Words(t) == Words(v.value.s)
    ensures Clean(t, max) ==> CleanText(Some(Protocol.Wire.Str(t)), max) == Some(t)
    ensures |t| > max ==> CleanText(Some(Protocol.Wire.Str(t)), max) != Some(t)
  {
    CleanTextIsItsWords(t);
    if CleanText(v, max) == Some(t) {
      CleanTextIsItsWords(v.value.s);
      WordsAreWords(v.value.s);
      WordsOfJoin(Words(v.value.s));
    }
  }

  // ---- Validating what was validated. ----

  lemma {:induction false} ParseAllExactly<T>(parse: Value -> Option<T>, items: seq<Value>, ts: seq<T>)
    ensures ParseAll(parse, items) == Some(ts) <==>
            |items| == |ts| && forall i :: 0 <= i < |ts| ==> parse(items[i]) == Some(ts[i])
  {
    if items != [] && ts != [] {
      ParseAllExactly(parse, items[1..], ts[1..]);
      assert ts == [ts[0]] + ts[1..];
      if |items| == |ts| && forall i :: 0 <= i < |ts| ==> parse(items[i]) == Some(ts[i]) {
        assert forall i :: 0 <= i < |ts| - 1 ==> parse(items[1..][i]) == Some(ts[1..][i]);
      }
      if ParseAll(parse, items) == Some(ts) {
        assert ParseAll(parse, items[1..]).value == ts[1..];
        forall i | 0 <= i < |ts| ensures parse(items[i]) == Some(ts[i]) {
          assert i > 0 ==> items[i] == items[1..][i - 1] && ts[i] == ts[1..][i - 1];
        }
      }
    }
  }

  predicate CleanTerm(t: KeyTerm) {
    Clean(t.term, 100) && Clean(t.definition, 600)
  }

  /** A source whose address the parser leaves as it is. */
  predicate CleanSource(urls: UrlParser, x: External) {
    Clean(x.title, 240) && Clean(x.url, MAX_URL) && urls(x.url) == Some(Url(x.url, true, false))
  }

  predicate CleanButSources(c: Content) {
    && Clean(c.plainLanguage, 2000) && Clean(c.paperConnection, 2000)
    && Clean(c.backgroundKnowledge, 2000) && Clean(c.limitations, 1500)
    && 1 <= |c.keyTerms| <= MAX_ITEMS && (forall i :: 0 <= i < |c.keyTerms| ==> CleanTerm(c.keyTerms[i]))
    && 1 <= |c.stepByStep| <= MAX_ITEMS && (forall i :: 0 <= i < |c.stepByStep| ==> Clean(c.stepByStep[i], 900))
    && |c.externalSources| <= MAX_SOURCES
  }

  predicate CleanContent(urls: UrlParser, c: Content) {
    CleanButSources(c) && forall i :: 0 <= i < |c.externalSources| ==> CleanSource(urls, c.externalSources[i])
  }

  function Str(t: Text): Value {
    Protocol.Wire.Str(t)
  }

  function TermValue(t: KeyTerm): Value {
    Protocol.Wire.Obj(map["term" := Str(t.term), "definition" := Str(t.definition)])
  }

  function SourceValue(x: External): Value {
    Protocol.Wire.Obj(map["title" := Str(x.title), "url" := Str(x.url)])
  }

  function ValueAll<T>(value: T -> Value, ts: seq<T>): Value {
    Protocol.Wire.Arr(seq(|ts|, i requires 0 <= i < |ts| => value(ts[i])))
  }

  /** The arguments that carry this explanation. */
  function PartsFrom(c: Content): Parts {
    Parts(Some(Str(c.plainLanguage)), Some(ValueAll(TermValue, c.keyTerms)), Some(ValueAll(Str, c.stepByStep)),
          Some(Str(c.paperConnection)), Some(Str(c.backgroundKnowledge)),
          Some(ValueAll(SourceValue, c.externalSources)), Some(Str(c.limitations)))
  }

  lemma ParseAllOfValues<T>(parse: Value -> Option<T>, value: T -> Value, ts: seq<T>)
    requires forall i :: 0 <= i < |ts| ==> parse(value(ts[i])) == Some(ts[i])
    ensures ParseAll(parse, ValueAll(value, ts).items) == Some(ts)
  {
    ParseAllExactly(parse, ValueAll(value, ts).items, ts);
  }

  lemma TermExactly(v: Value, t: KeyTerm)
    ensures ParseTerm(v) == Some(t) ==> CleanTerm(t)
    ensures CleanTerm(t) ==> ParseTerm(TermValue(t)) == Some(t)
  {
    var fields := TermValue(t).fields;
    CleanTextExactly(Field(fields, "term"), 100, t.term);
    CleanTextExactly(Field(fields, "definition"), 600, t.definition);
    if v.Obj? {
      CleanTextExactly(Field(v.fields, "term"), 100, t.term);
      CleanTextExactly(Field(v.fields, "definition"), 600, t.definition);
    }
  }

  /** What is assumed of the URL parser at one of its serializations: no white space, and it parses to itself. */
  predicate Serialized(urls: UrlParser, href: Text) {
    IsWord(href) && urls(href) == Some(Url(href, true, false))
  }

  lemma WordIsClean(w: Text, max: nat)
    requires IsWord(w)
    ensures Clean(w, max) <==> |w| <= max
  {
    assert Join([w]) == w;
    WordsOfJoin([w]);
  }

  lemma SourceExactly(urls: UrlParser, v: Value, x: External)
    requires ParseSource(urls, v) == Some(x) && Serialized(urls, x.url)
    ensures ParseSource(urls, SourceValue(x)) == Some(x) <==> |x.url| <= MAX_URL
  {
    var fields := SourceValue(x).fields;
    WordIsClean(x.url, MAX_URL);
    CleanTextExactly(Field(fields, "title"), 240, x.title);
    CleanTextExactly(Field(fields, "url"), MAX_URL, x.url);
    CleanTextExactly(Field(v.fields, "title"), 240, x.title);
    if |x.url| > MAX_URL {
      SourceOfLongUrl(urls, x);
    }
  }

  lemma SourceOfLongUrl(urls: UrlParser, x: External)
    requires IsWord(x.url) && |x.url| > MAX_URL
    ensures ParseSource(urls, SourceValue(x)) == None
  {
    CleanTextIsItsWords(x.url);
    assert Join([x.url]) == x.url;
    WordsOfJoin([x.url]);
    assert CleanText(Field(SourceValue(x).fields, "url"), MAX_URL) == None;
  }

  lemma TermsAccepted(ts: seq<KeyTerm>)
    requires 1 <= |ts| <= MAX_ITEMS && forall i :: 0 <= i < |ts| ==> CleanTerm(ts[i])
    ensures ParseList(Some(ValueAll(TermValue, ts)), ParseTerm) == Some(ts)
  {
    forall i | 0 <= i < |ts| ensures ParseTerm(TermValue(ts[i])) == Some(ts[i]) {
      TermExactly(TermValue(ts[i]), ts[i]);
    }
    ParseAllOfValues(ParseTerm, TermValue, ts);
  }

  lemma StepsAccepted(ts: seq<Text>)
    requires 1 <= |ts| <= MAX_ITEMS && forall i :: 0 <= i < |ts| ==> Clean(ts[i], 900)
    ensures ParseList(Some(ValueAll(Str, ts)), ParseStep) == Some(ts)
  {
    forall i | 0 <= i < |ts| ensures ParseStep(Str(ts[i])) == Some(ts[i]) {
      CleanTextExactly(None, 900, ts[i]);
    }
    ParseAllOfValues(ParseStep, Str, ts);
  }

  lemma SourcesAccepted(urls: UrlParser, xs: seq<External>)
    requires |xs| <= MAX_SOURCES && forall i :: 0 <= i < |xs| ==> CleanSource(urls, xs[i])
    ensures ParseSources(urls, Some(ValueAll(SourceValue, xs))) == Some(xs)
  {
    var parse := x => ParseSource(urls, x);
    forall i | 0 <= i < |xs| ensures parse(SourceValue(xs[i])) == Some(xs[i]) {
      CleanTextExactly(None, 240, xs[i].title);
      CleanTextExactly(None, MAX_URL, xs[i].url);
    }
    ParseAllOfValues(parse, SourceValue, xs);
  }

  lemma SourcesExactly(urls: UrlParser, v: Option<Value>, xs: seq<External>)
    requires ParseSources(urls, v) == Some(xs) && forall i :: 0 <= i < |xs| ==> Serialized(urls, xs[i].url)
    ensures |xs| <= MAX_SOURCES
    ensures (forall i :: 0 <= i < |xs| ==> |xs[i].url| <= MAX_URL) <==>
            ParseSources(urls, Some(ValueAll(SourceValue, xs))) == Some(xs)
  {
    var parse, items := x => ParseSource(urls, x), if v.Some? then v.value.items else [];
    ParseAllExactly(parse, items, xs);
    ParseAllExactly(parse, ValueAll(SourceValue, xs).items, xs);
    forall i | 0 <= i < |xs| ensures |xs[i].url| <= MAX_URL <==> parse(SourceValue(xs[i])) == Some(xs[i]) {
      assert parse(items[i]) == Some(xs[i]);
      SourceExactly(urls, items[i], xs[i]);
    }
  }

  /** With the texts and lists clean, only the sources can fail the check. */
  lemma OnlySourcesDecide(urls: UrlParser, c: Content)
    requires CleanButSources(c)
    ensures var sources := ParseSources(urls, Some(ValueAll(SourceValue, c.externalSources)));
            ParseContent(urls, PartsFrom(c)) ==
            if sources.None? then Err(ExternalSourcesInvalid) else Ok(c.(externalSources := sources.value))
  {
    CleanTextExactly(None, 2000, c.plainLanguage);
    CleanTextExactly(None, 2000, c.paperConnection);
    CleanTextExactly(None, 2000, c.backgroundKnowledge);
    CleanTextExactly(None, 1500, c.limitations);
    TermsAccepted(c.keyTerms);
    StepsAccepted(c.stepByStep);
  }

  /** Clean content is accepted as it stands. */
  lemma CleanContentIsAccepted(urls: UrlParser, c: Content)
    requires CleanContent(urls, c)
    ensures ParseContent(urls, PartsFrom(c)) == Ok(c)
  {
    OnlySourcesDecide(urls, c);
    SourcesAccepted(urls, c.externalSources);
  }

  /** Whatever is accepted comes out clean, but for the addresses. */
  lemma AcceptedIsClean(urls: UrlParser, p: Parts, c: Content)
    requires ParseContent(urls, p) == Ok(c)
    ensures CleanButSources(c)
  {
    AcceptedListsAreClean(p, c.keyTerms, c.stepByStep);
    AcceptedSourcesAreFew(urls, p.externalSources);
    CleanTextExactly(p.plainLanguage, 2000, c.plainLanguage);
    CleanTextExactly(p.paperConnection, 2000, c.paperConnection);
    CleanTextExactly(p.backgroundKnowledge, 2000, c.backgroundKnowledge);
    CleanTextExactly(p.limitations, 1500, c.limitations);
  }

  lemma AcceptedSourcesAreFew(urls: UrlParser, v: Option<Value>)
    ensures var xs := ParseSources(urls, v); xs.Some? ==> |xs.value| <= MAX_SOURCES
  {
    if ParseSources(urls, v).Some? && v.Some? {
      ParseAllExactly(x => ParseSource(urls, x), v.value.items, ParseSources(urls, v).value);
    }
  }

  lemma AcceptedListsAreClean(p: Parts, terms: seq<KeyTerm>, steps: seq<Text>)
    requires ParseList(p.keyTerms, ParseTerm) == Some(terms)
    requires ParseList(p.stepByStep, ParseStep) == Some(steps)
    ensures 1 <= |terms| <= MAX_ITEMS && forall i :: 0 <= i < |terms| ==> CleanTerm(terms[i])
    ensures 1 <= |steps| <= MAX_ITEMS && forall i :: 0 <= i < |steps| ==> Clean(steps[i], 900)
  {
    var ts, ss := p.keyTerms.value.items, p.stepByStep.value.items;
    ParseAllExactly(ParseTerm, ts, terms);
    ParseAllExactly(ParseStep, ss, steps);
    forall i | 0 <= i < |terms| ensures CleanTerm(terms[i]) {
      TermExactly(ts[i], terms[i]);
    }
    forall i | 0 <= i < |steps| ensures Clean(steps[i], 900) {
      assert ParseStep(ss[i]) == Some(steps[i]);
      CleanTextExactly(Some(ss[i]), 900, steps[i]);
    }
  }

  lemma AcceptedSources(urls: UrlParser, p: Parts, c: Content)
    requires ParseContent(urls, p) == Ok(c)
    ensures ParseSources(urls, p.externalSources) == Some(c.externalSources)
  {
  }

  lemma ResubmittedExactly(urls: UrlParser, c: Content)
    requires CleanButSources(c)
    ensures ParseContent(urls, PartsFrom(c)) == Ok(c) <==>
            ParseSources(urls, Some(ValueAll(SourceValue, c.externalSources))) == Some(c.externalSources)
  {
    OnlySourcesDecide(urls, c);
  }

  /**
   An accepted explanation, submitted again as it was stored, is accepted unchanged exactly when no
   address outgrew the limit when it was rewritten.
   */
  lemma RevalidatesExactly(urls: UrlParser, p: Parts, c: Content)
    requires ParseContent(urls, p) == Ok(c)
    requires forall i :: 0 <= i < |c.externalSources| ==> Serialized(urls, c.externalSources[i].url)
    ensures ParseContent(urls, PartsFrom(c)) == Ok(c) <==>
            forall i :: 0 <= i < |c.externalSources| ==> |c.externalSources[i].url| <= MAX_URL
  {
    AcceptedIsClean(urls, p, c);
    AcceptedSources(urls, p, c);
    ResubmittedExactly(urls, c);
    SourcesExactly(urls, p.externalSources, c.externalSources);
  }

  // ---- An address that outgrows the limit. ----

  const E_ACUTE: Unit := 0xE9
  const ORIGIN: Text := Ascii("https://example.org/")

  /** The two bytes UTF-8 makes of a character from U+0080 to U+07FF (RFC 3629, section 3), percent-encoded. */
  function PercentEncoded(u: Unit): Text
    requires 0x80 <= u < 0x800
  {
    FormUrl.EncodeByte(0xC0 + u / 0x40) + FormUrl.EncodeByte(0x80 + u % 0x40)
  }

  /** A path of `n` such characters: as it is typed, and as the URL Standard's path percent-encode set has it. */
  function Typed(n: nat): Text {
    if n == 0 then ORIGIN else Typed(n - 1) + [E_ACUTE]
  }

  function Escaped(n: nat): Text {
    if n == 0 then ORIGIN else Escaped(n - 1) + PercentEncoded(E_ACUTE)
  }

  lemma EscapedCharacter()
    ensures PercentEncoded(E_ACUTE) == Ascii("%C3%A9")
  {
  }

  lemma OriginIsWord()
    ensures IsWord(ORIGIN) && |ORIGIN| == 20
  {
    assert |"https://example.org/"| == 20;
  }

  lemma LongerWord(w: Text, more: Text)
    requires IsWord(w) && IsWord(more)
    ensures IsWord(w + more)
  {
  }

  lemma EscapedCharacterIsWord()
    ensures IsWord(PercentEncoded(E_ACUTE)) && |PercentEncoded(E_ACUTE)| == 6
  {
    EscapedCharacter();
    assert |"%C3%A9"| == 6;
  }

  lemma {:induction false} LengthsOfPaths(n: nat)
    ensures IsWord(Typed(n)) && |Typed(n)| == 20 + n
    ensures IsWord(Escaped(n)) && |Escaped(n)| == 20 + 6 * n
  {
    if n == 0 {
      OriginIsWord();
    } else {
      LengthsOfPaths(n - 1);
      EscapedCharacterIsWord();
      LongerWord(Typed(n - 1), [E_ACUTE]);
      LongerWord(Escaped(n - 1), PercentEncoded(E_ACUTE));
    }
  }

  lemma OutgrownIsRefused(urls: UrlParser, title: Text, address: Text, href: Text)
    requires Clean(title, 240) && Clean(address, MAX_URL)
    requires urls(address) == Some(Url(href, true, false)) && |href| > MAX_URL && IsWord(href)
    ensures ParseSource(urls, SourceValue(External(title, address))) == Some(External(title, href))
    ensures ParseSource(urls, SourceValue(External(title, href))) == None
  {
    CleanTextExactly(None, 240, title);
    CleanTextExactly(None, MAX_URL, address);
    SourceOfLongUrl(urls, External(title, href));
  }

  /**
   An address can: the limit is checked before the rewriting, which escapes characters. So it is with
   339 to 2028 letters e with an acute accent after `https://example.org/`.
   */
  lemma StoredAddressCanOutgrow(urls: UrlParser, title: Text, n: nat)
    requires Clean(title, 240) && 339 <= n <= 2028 && urls(Typed(n)) == Some(Url(Escaped(n), true, false))
    ensures ParseSource(urls, SourceValue(External(title, Typed(n)))) == Some(External(title, Escaped(n)))
    ensures ParseSource(urls, SourceValue(External(title, Escaped(n)))) == None
  {
    LengthsOfPaths(n);
    WordIsClean(Typed(n), MAX_URL);
    OutgrownIsRefused(urls, title, Typed(n), Escaped(n));
  }
}
