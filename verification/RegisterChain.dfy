/**
 The loaded pages as a chain of cursors, and what happens to it when the provider repeats a
 cursor or an import acknowledgement overtakes a reload.
 */
module RegisterChain {
  import opened Common
  import opened Attachments
  import opened Register
  import opened RegisterRuns

  /** Page 0 starts at the beginning and every page starts where the one before it ended. */
  ghost predicate Chain(pages: seq<Page>) {
    && (pages != [] ==> pages[0].after.None?)
    && (forall i :: 0 < i < |pages| ==> pages[i].after == pages[i - 1].nextCursor)
  }

  ghost predicate Unused(pages: seq<Page>, cursor: Option<string>) {
    cursor.Some? ==> forall i :: 0 <= i < |pages| ==> pages[i].after != cursor
  }

  /** A chain whose end has not been visited before, so that it can go on. */
  ghost predicate Gapless(pages: seq<Page>) {
    Chain(pages) && (pages != [] ==> Unused(pages, pages[|pages| - 1].nextCursor))
  }

  /**
   The proviso on the provider: a page's next cursor is either the one it had before or not
   the cursor of a page up to and including it.
   */
  ghost predicate ProviderFresh(s: System, e: Event) {
    match e
    case LoadAnswered(token, Ok(r)) =>
      token in s.manual && s.manual[token].append ==>
        Unused(s.core.pages, r.nextCursor) && (r.nextCursor.Some? ==> r.nextCursor != s.manual[token].after)
    case QuietAnswered(token, Ok(r)) =>
      token in s.quiet && s.quiet[token].index < |s.core.pages| ==>
        r.nextCursor == s.quiet[token].page.nextCursor || Unused(s.core.pages[..s.quiet[token].index + 1], r.nextCursor)
    case _ => true
  }

  ghost predicate IsFreshRun(states: seq<System>, es: seq<Event>) {
    && IsRun(states, es)
    && (forall i :: 0 <= i < |es| ==> ProviderFresh(states[i], es[i]))
  }

  lemma {:induction false} WithoutUnusedAfter(pages: seq<Page>, after: Option<string>)
    requires forall i :: 0 <= i < |pages| ==> pages[i].after != after
    ensures WithoutAfter(pages, after) == pages
  {
    if pages != [] {
      WithoutUnusedAfter(pages[..|pages| - 1], after);
    }
  }

  lemma LoadKeepsGapless(c: Core, f: ManualFrame, r: Response)
    requires Gapless(c.pages) && (f.append <==> f.after.Some?)
    requires f.requestId == c.requestCounter ==> LiveManualFrame(c, f)
    requires f.append ==> Unused(c.pages, r.nextCursor) && (r.nextCursor.Some? ==> r.nextCursor != f.after)
    ensures Gapless(LoadOk(c, f, r).pages)
  {
    if f.requestId == c.requestCounter && f.append {
      WithoutUnusedAfter(c.pages, f.after);
    }
  }

  lemma QuietKeepsGapless(c: Core, f: QuietFrame, r: Response)
    requires Gapless(c.pages)
    requires !Fenced(c, f) ==> LiveQuietFrame(c, f)
    requires f.index < |c.pages| ==> r.nextCursor == f.page.nextCursor || Unused(c.pages[..f.index + 1], r.nextCursor)
    ensures Gapless(QuietOk(c, f, r).0.pages)
  {
    if !Fenced(c, f) {
      var page := Page(f.page.after, r.attachments, r.nextCursor, f.filter);
      var replaced := c.pages[f.index := page];
      if r.nextCursor != f.page.nextCursor {
        var kept := replaced[..f.index + 1];
        assert forall i :: 0 <= i < |kept| ==> kept[i].after == c.pages[..f.index + 1][i].after;
      }
    }
  }

  /** Only the two kinds of answers put new cursors into the page list. */
  lemma OtherStepsKeepGapless(s: System, e: Event)
    requires Enabled(s, e) && Gapless(s.core.pages) && !e.LoadAnswered? && !e.QuietAnswered?
    ensures Gapless(Step(s, e).core.pages)
  {
    match e
    case QuietPoll(token) => QuietStartSummary(s.core, None, s.core.filter);
    case ImportFailed(token) => QuietStartSummary(Bump(s.core), Some(s.importing.value.id), s.importing.value.filter);
    case _ =>
  }

  lemma StepKeepsGapless(s: System, e: Event)
    requires Inv(s) && Enabled(s, e) && ProviderFresh(s, e) && Gapless(s.core.pages)
    ensures Gapless(Step(s, e).core.pages)
  {
    if e.LoadAnswered? {
      if e.outcome.Ok? {
        LoadAnswerKeepsGapless(s, e.token, e.outcome.value);
      }
    } else if e.QuietAnswered? {
      if e.outcome.Ok? {
        QuietAnswerKeepsGapless(s, e.token, e.outcome.value);
      }
    } else {
      OtherStepsKeepGapless(s, e);
    }
  }

  lemma LoadAnswerKeepsGapless(s: System, token: nat, r: Response)
    requires Inv(s) && token in s.manual && ProviderFresh(s, LoadAnswered(token, Ok(r))) && Gapless(s.core.pages)
    ensures Gapless(LoadOk(s.core, s.manual[token], r).pages)
  {
    LoadKeepsGapless(s.core, s.manual[token], r);
  }

  lemma QuietAnswerKeepsGapless(s: System, token: nat, r: Response)
    requires Inv(s) && token in s.quiet && ProviderFresh(s, QuietAnswered(token, Ok(r))) && Gapless(s.core.pages)
    ensures Gapless(AnswerQuiet(s, token, r).core.pages)
  {
    QuietKeepsGapless(s.core, s.quiet[token], r);
  }

  /** In every state of every run in which the provider keeps its side, the pages are a gap-free chain. */
  lemma EveryFreshRunIsGapless(filter: Filter, states: seq<System>, es: seq<Event>)
    requires IsFreshRun(states, es) && states[0] == Begin(filter)
    ensures forall i :: 0 <= i < |states| ==> Gapless(states[i].core.pages)
  {
    RunKeepsInv(states, es);
    assert Gapless(states[0].core.pages);
    for n := 0 to |es|
      invariant forall i :: 0 <= i <= n ==> Gapless(states[i].core.pages)
    {
      FreshStepAt(states, es, n);
    }
  }

  lemma FreshStepAt(states: seq<System>, es: seq<Event>, n: nat)
    requires IsFreshRun(states, es) && n < |es| && Inv(states[n]) && Gapless(states[n].core.pages)
    ensures Gapless(states[n + 1].core.pages)
  {
    StepKeepsGapless(states[n], es[n]);
  }

  // ---- Without the proviso. ----

  /**
   Appending after a repeated cursor: `WithoutAfter` cuts out the earlier page, and the chain
   survives exactly when that page, if any, is the last one.
   */
  lemma AppendKeepsChainExactly(pages: seq<Page>, page: Page)
    requires pages != [] && Chain(pages) && DistinctAfters(pages)
    requires page.after.Some? && pages[|pages| - 1].nextCursor == page.after
    ensures Chain(WithoutAfter(pages, page.after) + [page]) <==>
            forall i :: 0 <= i < |pages| - 1 ==> pages[i].after != page.after
  {
    if i :| 0 <= i < |pages| - 1 && pages[i].after == page.after {
      CutAt(pages, i);
      CutBreaksChain(pages, i, page);
    } else {
      AppendExtendsChain(pages, page);
    }
  }

  lemma AppendExtendsChain(pages: seq<Page>, page: Page)
    requires pages != [] && Chain(pages) && pages[|pages| - 1].nextCursor == page.after && page.after.Some?
    requires forall i :: 0 <= i < |pages| - 1 ==> pages[i].after != page.after
    ensures Chain(WithoutAfter(pages, page.after) + [page])
  {
    var last := |pages| - 1;
    if pages[last].after == page.after {
      var before := pages[..last];
      assert last > 0;
      WithoutUnusedAfter(before, page.after);
      assert WithoutAfter(pages, page.after) == before;
      ChainSnoc(before, page);
    } else {
      WithoutUnusedAfter(pages, page.after);
      ChainSnoc(pages, page);
    }
  }

  lemma ChainSnoc(front: seq<Page>, page: Page)
    requires Chain(front) && front != [] && page.after == front[|front| - 1].nextCursor
    ensures Chain(front + [page])
  {
  }

  lemma CutBreaksChain(pages: seq<Page>, i: nat, page: Page)
    requires 0 < i < |pages| - 1 && Chain(pages) && DistinctAfters(pages)
    ensures !Chain(pages[..i] + pages[i + 1..] + [page])
  {
    var cut := pages[..i] + pages[i + 1..] + [page];
    assert cut[i] == pages[i + 1] && cut[i - 1] == pages[i - 1];
    assert pages[i - 1].nextCursor == pages[i].after;
  }

  lemma SlicesOfFront(pages: seq<Page>, i: nat)
    requires i < |pages| - 1
    ensures pages[..|pages| - 1][..i] == pages[..i]
    ensures pages[..|pages| - 1][i + 1..] + [pages[|pages| - 1]] == pages[i + 1..]
  {
  }

  lemma {:induction false} CutAt(pages: seq<Page>, i: nat)
    requires i < |pages| && DistinctAfters(pages)
    ensures WithoutAfter(pages, pages[i].after) == pages[..i] + pages[i + 1..]
    decreases |pages|
  {
    var last := |pages| - 1;
    var before := pages[..last];
    if i == last {
      WithoutUnusedAfter(before, pages[i].after);
      assert pages[..i] + pages[i + 1..] == before;
    } else {
      CutAt(before, i);
      SlicesOfFront(pages, i);
      assert pages[last].after != pages[i].after;
    }
  }

  /** A load-more that counts is answered, and its cursor is that of an earlier page than the last. */
  predicate RepeatsCursor(s: System, e: Event) {
    && e.LoadAnswered? && e.outcome.Ok? && e.token in s.manual
    && s.manual[e.token].append && s.manual[e.token].requestId == s.core.requestCounter
    && exists i :: 0 <= i < |s.core.pages| - 1 && s.core.pages[i].after == s.manual[e.token].after
  }

  lemma LoadKeepsChainExactly(s: System, token: nat, r: Response)
    requires Inv(s) && token in s.manual && Chain(s.core.pages)
    ensures Chain(LoadOk(s.core, s.manual[token], r).pages) <==> !RepeatsCursor(s, LoadAnswered(token, Ok(r)))
  {
    var f := s.manual[token];
    if f.requestId == s.core.requestCounter && f.append {
      AppendKeepsChainExactly(s.core.pages, Page(f.after, r.attachments, r.nextCursor, f.filter));
    }
  }

  lemma QuietKeepsChain(c: Core, f: QuietFrame, r: Response)
    requires Chain(c.pages) && (!Fenced(c, f) ==> LiveQuietFrame(c, f))
    ensures Chain(QuietOk(c, f, r).0.pages)
  {
  }

  lemma OtherStepsKeepChain(s: System, e: Event)
    requires Enabled(s, e) && Chain(s.core.pages) && !e.LoadAnswered? && !e.QuietAnswered?
    ensures Chain(Step(s, e).core.pages)
  {
    match e
    case QuietPoll(token) => QuietStartSummary(s.core, None, s.core.filter);
    case ImportFailed(token) => QuietStartSummary(Bump(s.core), Some(s.importing.value.id), s.importing.value.filter);
    case _ =>
  }

  /** Over all steps: a chain is broken exactly by an append under a cursor that an earlier page has. */
  lemma StepKeepsChainExactly(s: System, e: Event)
    requires Inv(s) && Enabled(s, e) && Chain(s.core.pages)
    ensures Chain(Step(s, e).core.pages) <==> !RepeatsCursor(s, e)
  {
    match e
    case LoadAnswered(token, Ok(r)) => LoadKeepsChainExactly(s, token, r);
    case LoadAnswered(_, Err(_)) =>
    case QuietAnswered(token, Ok(r)) => QuietKeepsChain(s.core, s.quiet[token], r);
    case QuietAnswered(_, Err(_)) =>
    case _ => OtherStepsKeepChain(s, e);
  }

  // ---- What the two counters alone already guarantee. ----

  /**
   In every reachable state the request and quiet counters decide: a pass they let through also
   passes the manual-load test and the cursor test that follow the `await`.
   */
  lemma CountersDecide(s: System, token: nat)
    requires Inv(s) && token in s.quiet
    ensures Fenced(s.core, s.quiet[token]) <==> !Unfenced(s.core, s.quiet[token])
    ensures Unfenced(s.core, s.quiet[token]) ==>
            AfterAt(s.core.pages, s.quiet[token].index) == s.quiet[token].page.after
  {
    var f := s.quiet[token];
    if Unfenced(s.core, f) && !f.forced {
      assert s.manual == map[];
      assert |s.manual| == 0;
    }
  }

  // ---- An acknowledgement that overtakes a reload. ----

  /** The register claims to be up to date although it holds no page at all. */
  predicate EmptyReady(c: Core) {
    c.display.Ready? && c.pages == []
  }

  /** This comes about exactly when an import is acknowledged while no page is loaded. */
  lemma EmptyReadyArisesExactly(s: System, e: Event)
    requires Inv(s) && Enabled(s, e) && !EmptyReady(s.core)
    ensures EmptyReady(Step(s, e).core) <==> e.ImportAcknowledged? && s.core.pages == []
  {
    if e.QuietAnswered? {
      if e.outcome.Ok? {
        QuietAnswerShowsAPage(s, e.token, e.outcome.value);
      }
    } else if e.QuietPoll? {
      QuietStartSummary(s.core, None, s.core.filter);
    } else if e.ImportFailed? {
      QuietStartSummary(Bump(s.core), Some(s.importing.value.id), s.importing.value.filter);
    }
  }

  lemma QuietAnswerShowsAPage(s: System, token: nat, r: Response)
    requires Inv(s) && token in s.quiet && !EmptyReady(s.core)
    ensures !EmptyReady(AnswerQuiet(s, token, r).core)
  {
  }

  /** The reload that was overtaken stays pending, and its answer is dropped whatever it holds. */
  lemma OvertakenReloadIsDropped(s: System, record: ImportRecord, token: nat, r: Response)
    requires Inv(s) && Enabled(s, ImportAcknowledged(record)) && s.core.pages == [] && token in s.manual
    ensures var t := Step(Step(s, ImportAcknowledged(record)), LoadAnswered(token, Ok(r)));
            EmptyReady(t.core) && t.core.shown == []
  {
    assert s.manual[token].requestId <= s.core.requestCounter;
    assert Flatten([]) == [];
  }

  /** A run that ends so: the workspace's libraries change while an import is being submitted. */
  lemma OvertakenReloadRun(filter: Filter, a: Attachment, record: ImportRecord)
    returns (s1: System, s2: System, s3: System, s4: System, s5: System, s6: System)
    ensures s1 == Step(Begin(filter), AuthorityChanged(0))
    ensures Enabled(s1, LoadAnswered(0, Ok(Response([a], None))))
            && s2 == Step(s1, LoadAnswered(0, Ok(Response([a], None))))
    ensures Enabled(s2, ImportStarted(a.id)) && s3 == Step(s2, ImportStarted(a.id))
    ensures Enabled(s3, AuthorityChanged(1)) && s4 == Step(s3, AuthorityChanged(1))
    ensures Enabled(s4, ImportAcknowledged(record)) && s5 == Step(s4, ImportAcknowledged(record))
    ensures Enabled(s5, LoadAnswered(1, Ok(Response([a], None))))
            && s6 == Step(s5, LoadAnswered(1, Ok(Response([a], None))))
    ensures EmptyReady(s6.core) && s6.manual == map[] && s6.importing.None?
  {
    s1, s2 := FirstLoad(filter, a, None);
    s3 := Step(s2, ImportStarted(a.id));
    StepKeepsInv(s2, ImportStarted(a.id));
    s4, s5, s6 := Overtake(s3, Response([a], None), record);
  }

  lemma FirstLoad(filter: Filter, a: Attachment, next: Option<string>) returns (s1: System, s2: System)
    ensures s1 == Step(Begin(filter), AuthorityChanged(0))
    ensures 0 in s1.manual && s2 == Step(s1, LoadAnswered(0, Ok(Response([a], next))))
    ensures Inv(s2) && s2.manual == map[] && s2.quiet == map[] && s2.importing.None? && HasId(s2.core.shown, a.id)
    ensures s2.core.pages == [Page(None, [a], next, filter)] && s2.core.display == Display.Ready(next)
  {
    s1 := Step(Begin(filter), AuthorityChanged(0));
    StepKeepsInv(Begin(filter), AuthorityChanged(0));
    StepKeepsInv(s1, LoadAnswered(0, Ok(Response([a], next))));
    s2 := Step(s1, LoadAnswered(0, Ok(Response([a], next))));
    var page := Page(None, [a], next, filter);
    assert AllAttachments([page]) == [] + [a] == [a];
    FlattenHasEachIdOnce([page]);
    assert [a][0].id == a.id;
    assert s2.core.shown == Flatten([page]);
  }

  lemma Overtake(s3: System, answer: Response, record: ImportRecord) returns (s4: System, s5: System, s6: System)
    requires Inv(s3) && s3.manual == map[] && s3.importing.Some? && s3.importing.value.refresh.None?
    ensures s4 == Step(s3, AuthorityChanged(1)) && s4.importing == s3.importing
    ensures s5 == Step(s4, ImportAcknowledged(record)) && 1 in s5.manual
    ensures s6 == Step(s5, LoadAnswered(1, Ok(answer)))
    ensures EmptyReady(s6.core) && s6.manual == map[] && s6.importing.None?
  {
    s4 := Step(s3, AuthorityChanged(1));
    StepKeepsInv(s3, AuthorityChanged(1));
    assert s4.manual == map[1 := ManualFrame(s4.core.requestCounter, false, None, s3.core.filter)];
    assert s4.core.pages == [];
    s5 := Step(s4, ImportAcknowledged(record));
    s6 := Step(s5, LoadAnswered(1, Ok(answer)));
    OvertakenReloadIsDropped(s4, record, 1, answer);
    assert s6.manual == map[];
  }

  // ---- A failed import that overtakes a reload. ----

  /** The register shows that it is loading, but no pending answer counts. */
  predicate Stuck(s: System) {
    s.core.display.Loading? && forall t :: t in s.manual ==> s.manual[t].requestId != s.core.requestCounter
  }

  /** While the register is loading it holds no page, and when it is stuck no import is being submitted. */
  predicate LoadingOk(s: System) {
    && (s.core.display.Loading? ==> s.core.pages == [])
    && (Stuck(s) ==> s.importing.None?)
  }

  predicate StartsLoad(e: Event) {
    e.AuthorityChanged? || e.FilterChanged?
  }

  lemma StartedLoadCounts(s: System, core: Core, token: nat)
    ensures var t := StartLoad(s, core, token, false, None);
            !Stuck(t) && t.core.pages == [] && t.importing == s.importing
  {
    var t := StartLoad(s, core, token, false, None);
    assert token in t.manual && t.manual[token].requestId == t.core.requestCounter;
  }

  lemma LoadAnswerAndStuck(s: System, token: nat, outcome: Result<Response, string>)
    requires Inv(s) && LoadingOk(s) && token in s.manual
    ensures LoadingOk(Step(s, LoadAnswered(token, outcome)))
    ensures Stuck(Step(s, LoadAnswered(token, outcome))) <==> Stuck(s)
  {
    var t := Step(s, LoadAnswered(token, outcome));
    if s.manual[token].requestId != s.core.requestCounter {
      assert t.core == s.core.(manualCount := t.core.manualCount);
      forall u | u in s.manual && u !in t.manual ensures s.manual[u].requestId != s.core.requestCounter {
        assert u == token;
      }
    }
  }

  lemma QuietAnswerAndStuck(s: System, token: nat, outcome: Result<Response, string>)
    requires Inv(s) && LoadingOk(s) && token in s.quiet
    ensures LoadingOk(Step(s, QuietAnswered(token, outcome)))
    ensures Stuck(Step(s, QuietAnswered(token, outcome))) <==> Stuck(s)
  {
  }

  lemma ImportFailureAndStuck(s: System, token: nat)
    requires Inv(s) && LoadingOk(s) && Enabled(s, ImportFailed(token))
    ensures LoadingOk(Step(s, ImportFailed(token)))
    ensures Stuck(Step(s, ImportFailed(token))) <==> s.core.display.Loading?
  {
    QuietStartSummary(Bump(s.core), Some(s.importing.value.id), s.importing.value.filter);
  }

  lemma PollAndStuck(s: System, token: nat)
    requires Inv(s) && LoadingOk(s) && Enabled(s, QuietPoll(token))
    ensures LoadingOk(Step(s, QuietPoll(token)))
    ensures Stuck(Step(s, QuietPoll(token))) <==> Stuck(s)
  {
    QuietStartSummary(s.core, None, s.core.filter);
  }

  lemma LoadingShowsNothing(s: System)
    requires Inv(s) && LoadingOk(s) && s.core.display.Loading?
    ensures s.core.shown == []
  {
    assert Flatten([]) == [];
  }

  /** It gets stuck exactly when an import fails while it is loading, and unstuck exactly by loading afresh. */
  lemma StuckChangesExactly(s: System, e: Event)
    requires Inv(s) && LoadingOk(s) && Enabled(s, e)
    ensures LoadingOk(Step(s, e))
    ensures Stuck(Step(s, e)) <==> if Stuck(s) then !StartsLoad(e) else e.ImportFailed? && s.core.display.Loading?
  {
    match e
    case Reload(token) => StartedLoadCounts(s, s.core, token);
    case AuthorityChanged(token) => StartedLoadCounts(s, Bump(s.core), token);
    case FilterChanged(token, filter) => StartedLoadCounts(s, Bump(s.core).(filter := filter), token);
    case LoadMore(_) =>
    case LoadAnswered(token, outcome) => LoadAnswerAndStuck(s, token, outcome);
    case QuietPoll(token) => PollAndStuck(s, token);
    case QuietAnswered(token, outcome) => QuietAnswerAndStuck(s, token, outcome);
    case PollCancelled =>
    case ImportStarted(_) => if s.core.display.Loading? { LoadingShowsNothing(s); }
    case ImportAcknowledged(_) =>
    case ImportFailed(token) => ImportFailureAndStuck(s, token);
    case SnapshotTaken =>
  }

  /** The register was idle at its start or lost its load at step `j`, and has started none since. */
  predicate LostLoad(states: seq<System>, es: seq<Event>, j: nat, i: nat)
    requires j <= i <= |es| < |states|
  {
    && (j == 0 || (es[j - 1].ImportFailed? && states[j - 1].core.display.Loading?))
    && (forall k :: j <= k < i ==> !StartsLoad(es[k]))
  }

  ghost predicate LoadLostBy(states: seq<System>, es: seq<Event>, i: nat)
    requires i <= |es| < |states|
  {
    exists j: nat :: j <= i && LostLoad(states, es, j, i)
  }

  /** Over whole runs: loading with nothing pending that counts, exactly since an import failed during a load. */
  lemma {:induction false} StuckExactly(filter: Filter, states: seq<System>, es: seq<Event>, i: nat)
    requires IsRun(states, es) && states[0] == Begin(filter) && i < |states|
    ensures LoadingOk(states[i])
    ensures Stuck(states[i]) <==> LoadLostBy(states, es, i)
  {
    if i == 0 {
      assert LostLoad(states, es, 0, 0);
    } else {
      StuckExactly(filter, states, es, i - 1);
      RunKeepsInv(states, es);
      StuckChangesExactly(states[i - 1], es[i - 1]);
      LostLoadExtends(states, es, i);
    }
  }

  lemma LostLoadExtends(states: seq<System>, es: seq<Event>, i: nat)
    requires 0 < i <= |es| < |states|
    ensures LoadLostBy(states, es, i) <==>
            || (es[i - 1].ImportFailed? && states[i - 1].core.display.Loading?)
            || (!StartsLoad(es[i - 1]) && LoadLostBy(states, es, i - 1))
  {
    var h := i - 1;
    if es[h].ImportFailed? && states[h].core.display.Loading? {
      assert LostLoad(states, es, i, i);
    }
    if j: nat :| j <= h && LostLoad(states, es, j, h) {
      assert StartsLoad(es[h]) || LostLoad(states, es, j, i);
    }
    if j: nat :| j <= i && LostLoad(states, es, j, i) {
      assert j < i ==> LostLoad(states, es, j, h);
    }
  }

  /** Such a run: the libraries change while an import is being submitted, and the import then fails. */
  lemma StuckRun(filter: Filter, a: Attachment, outcome: Result<Response, string>)
    returns (s1: System, s2: System, s3: System, s4: System, s5: System, s6: System)
    ensures s1 == Step(Begin(filter), AuthorityChanged(0))
    ensures Enabled(s1, LoadAnswered(0, Ok(Response([a], None))))
            && s2 == Step(s1, LoadAnswered(0, Ok(Response([a], None))))
    ensures Enabled(s2, ImportStarted(a.id)) && s3 == Step(s2, ImportStarted(a.id))
    ensures Enabled(s3, AuthorityChanged(1)) && s4 == Step(s3, AuthorityChanged(1))
    ensures Enabled(s4, ImportFailed(0)) && s5 == Step(s4, ImportFailed(0))
    ensures Enabled(s5, LoadAnswered(1, outcome)) && s6 == Step(s5, LoadAnswered(1, outcome))
    ensures Stuck(s6) && s6.manual == map[] && s6.quiet == map[] && s6.importing.None?
  {
    s1, s2 := FirstLoad(filter, a, None);
    s3 := Step(s2, ImportStarted(a.id));
    s4, s5, s6 := FailedOvertake(s3, outcome);
  }

  lemma FailedOvertake(s3: System, outcome: Result<Response, string>) returns (s4: System, s5: System, s6: System)
    requires s3.manual == map[] && s3.quiet == map[] && s3.importing.Some? && s3.importing.value.refresh.None?
    ensures s4 == Step(s3, AuthorityChanged(1)) && s4.importing == s3.importing
    ensures Enabled(s4, ImportFailed(0)) && s5 == Step(s4, ImportFailed(0))
    ensures 1 in s5.manual && s6 == Step(s5, LoadAnswered(1, outcome))
    ensures Stuck(s6) && s6.manual == map[] && s6.quiet == map[] && s6.importing.None?
  {
    s4 := Step(s3, AuthorityChanged(1));
    assert s4.manual == map[1 := ManualFrame(s4.core.requestCounter, false, None, s3.core.filter)];
    s5 := Step(s4, ImportFailed(0));
    s6 := Step(s5, LoadAnswered(1, outcome));
    assert s6.manual == map[];
  }
}
