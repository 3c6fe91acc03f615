/**
 What the register shows: the cursor from which its list can be continued, when that is lost and
 found again, and which records an acknowledgement changes.
 */
module RegisterShown {
  import opened Common
  import opened Attachments
  import opened Register
  import opened RegisterRuns
  import opened RegisterChain

  // ---- The cursor on display. ----

  /** A register that is ready and holds pages shows the cursor of the last one. */
  predicate CursorShown(c: Core) {
    c.display.Ready? && c.pages != [] ==> c.display.nextCursor == c.pages[|c.pages| - 1].nextCursor
  }

  /** An import is acknowledged while the register shows an error over a list that goes on. */
  predicate LosesCursor(s: System, e: Event) {
    && e.ImportAcknowledged? && s.core.pages != [] && !s.core.display.Ready?
    && s.core.pages[|s.core.pages| - 1].nextCursor.Some?
  }

  /** A list is begun afresh, or an answer that counts is shown, be it an error. */
  predicate SetsDisplay(s: System, e: Event) {
    match e
    case Reload(_) => true
    case AuthorityChanged(_) => true
    case FilterChanged(_, _) => true
    case LoadAnswered(token, _) => token in s.manual && s.manual[token].requestId == s.core.requestCounter
    case QuietAnswered(token, _) => token in s.quiet && !Fenced(s.core, s.quiet[token])
    case _ => false
  }

  lemma LoadShowsCursor(s: System, token: nat, outcome: Result<Response, string>)
    requires Inv(s) && token in s.manual
    ensures var t := Step(s, LoadAnswered(token, outcome));
            CursorShown(t.core) <==> SetsDisplay(s, LoadAnswered(token, outcome)) || CursorShown(s.core)
  {
  }

  lemma QuietOkShowsCursor(c: Core, f: QuietFrame, r: Response)
    requires !Fenced(c, f) ==> LiveQuietFrame(c, f)
    ensures CursorShown(QuietOk(c, f, r).0) <==> !Fenced(c, f) || CursorShown(c)
  {
  }

  lemma QuietShowsCursor(s: System, token: nat, outcome: Result<Response, string>)
    requires Inv(s) && token in s.quiet
    ensures var t := Step(s, QuietAnswered(token, outcome));
            CursorShown(t.core) <==> SetsDisplay(s, QuietAnswered(token, outcome)) || CursorShown(s.core)
  {
    if outcome.Ok? {
      LiveUnlessFenced(s, token);
      QuietOkShowsCursor(s.core, s.quiet[token], outcome.value);
      QuietAnswerChangesCore(s, token, outcome.value);
    }
  }

  lemma LiveUnlessFenced(s: System, token: nat)
    requires Inv(s) && token in s.quiet
    ensures !Fenced(s.core, s.quiet[token]) ==> LiveQuietFrame(s.core, s.quiet[token])
  {
  }

  lemma AcknowledgementAndCursor(s: System, record: ImportRecord)
    requires Enabled(s, ImportAcknowledged(record)) && (CursorShown(s.core) || s.core.display.Ready?)
    ensures CursorShown(Step(s, ImportAcknowledged(record)).core) <==>
            CursorShown(s.core) && !LosesCursor(s, ImportAcknowledged(record))
  {
    var c := s.core;
    if c.pages != [] {
      var pages := MapPages(Acknowledge(s.importing.value.id, record), c.pages);
      MappedPages(Acknowledge(s.importing.value.id, record), c.pages, |c.pages| - 1);
    }
  }

  lemma MappedPages(f: Attachment -> Attachment, pages: seq<Page>, i: nat)
    requires i < |pages|
    ensures |MapPages(f, pages)| == |pages|
    ensures MapPages(f, pages)[i] == pages[i].(attachments := MapList(f, pages[i].attachments))
  {
  }

  lemma OtherStepsAndCursor(s: System, e: Event)
    requires Enabled(s, e) && !e.LoadAnswered? && !e.QuietAnswered? && !e.ImportAcknowledged?
    ensures CursorShown(Step(s, e).core) <==> SetsDisplay(s, e) || CursorShown(s.core)
  {
    match e
    case QuietPoll(_) => QuietStartSummary(s.core, None, s.core.filter);
    case ImportFailed(_) => QuietStartSummary(Bump(s.core), Some(s.importing.value.id), s.importing.value.filter);
    case _ =>
  }

  /**
   The cursor on display is lost exactly by an acknowledgement over an error, and found again exactly
   by a list begun afresh or an answer that counts.
   */
  lemma CursorChangesExactly(s: System, e: Event)
    requires Inv(s) && Enabled(s, e)
    ensures CursorShown(Step(s, e).core) <==>
            if CursorShown(s.core) then !LosesCursor(s, e) else SetsDisplay(s, e)
  {
    match e
    case LoadAnswered(token, outcome) => LoadShowsCursor(s, token, outcome);
    case QuietAnswered(token, outcome) => QuietShowsCursor(s, token, outcome);
    case ImportAcknowledged(record) => AcknowledgementAndCursor(s, record);
    case _ => OtherStepsAndCursor(s, e);
  }

  /** Step `j` lost the cursor and none up to `i` has brought it back. */
  predicate LostSince(states: seq<System>, es: seq<Event>, j: nat, i: nat)
    requires j < i <= |es| < |states|
  {
    LosesCursor(states[j], es[j]) && forall k :: j < k < i ==> !SetsDisplay(states[k], es[k])
  }

  ghost predicate LostBy(states: seq<System>, es: seq<Event>, i: nat)
    requires i <= |es| < |states|
  {
    exists j: nat :: j < i && LostSince(states, es, j, i)
  }

  lemma LostByExtends(states: seq<System>, es: seq<Event>, h: nat)
    requires h < |es| < |states|
    ensures LostBy(states, es, h + 1) <==>
            LosesCursor(states[h], es[h]) || (LostBy(states, es, h) && !SetsDisplay(states[h], es[h]))
  {
    if LosesCursor(states[h], es[h]) {
      assert LostSince(states, es, h, h + 1);
    }
    if j: nat :| j < h && LostSince(states, es, j, h) {
      assert SetsDisplay(states[h], es[h]) || LostSince(states, es, j, h + 1);
    }
    var i := h + 1;
    if j: nat :| j < i && LostSince(states, es, j, i) {
      assert j < h ==> LostSince(states, es, j, h);
    }
  }

  /** Over whole runs: the register shows the cursor of its last page unless it was lost so, and not found again. */
  lemma {:induction false} CursorShownExactly(filter: Filter, states: seq<System>, es: seq<Event>, i: nat)
    requires IsRun(states, es) && states[0] == Begin(filter) && i < |states|
    ensures CursorShown(states[i].core) <==> !LostBy(states, es, i)
  {
    if i > 0 {
      CursorShownExactly(filter, states, es, i - 1);
      CursorChangesAt(filter, states, es, i - 1);
      LostByExtends(states, es, i - 1);
    }
  }

  lemma CursorChangesAt(filter: Filter, states: seq<System>, es: seq<Event>, h: nat)
    requires IsRun(states, es) && states[0] == Begin(filter) && h < |es|
    ensures CursorShown(states[h + 1].core) <==>
            if CursorShown(states[h].core) then !LosesCursor(states[h], es[h]) else SetsDisplay(states[h], es[h])
    ensures LosesCursor(states[h], es[h]) ==> CursorShown(states[h].core)
  {
    RunKeepsInv(states, es);
    CursorChangesExactly(states[h], es[h]);
  }

  // ---- Load more. ----

  /** After an answer that counts, the list can be continued exactly if the provider gave a cursor to go on from. */
  lemma AnswerOffersMoreExactly(s: System, token: nat, r: Response, other: nat)
    requires Inv(s) && token in s.manual && s.manual[token].requestId == s.core.requestCounter
    requires other !in s.manual
    ensures var t := Step(s, LoadAnswered(token, Ok(r)));
            && (Enabled(t, LoadMore(other)) <==> r.nextCursor.Some? && r.nextCursor.value != "")
            && t.core.pages != [] && t.core.pages[|t.core.pages| - 1].attachments == r.attachments
            && (Enabled(t, LoadMore(other)) ==> Step(t, LoadMore(other)).manual[other].after == r.nextCursor)
  {
  }

  lemma QuietAnswerShows(c: Core, f: QuietFrame, r: Response)
    requires LiveQuietFrame(c, f) && !Fenced(c, f)
    ensures var pages := QuietOk(c, f, r).0.pages;
            && f.index < |pages| && pages[f.index].attachments == r.attachments
            && pages[f.index].nextCursor == r.nextCursor
            && (r.nextCursor != f.page.nextCursor ==> f.index == |pages| - 1)
            && QuietOk(c, f, r).0.display == Display.Ready(pages[|pages| - 1].nextCursor)
  {
  }

  lemma QuietAnswerChangesCore(s: System, token: nat, r: Response)
    requires token in s.quiet
    ensures AnswerQuiet(s, token, r).core == QuietOk(s.core, s.quiet[token], r).0
    ensures AnswerQuiet(s, token, r).manual == s.manual
    ensures Step(s, QuietAnswered(token, Ok(r))) == AnswerQuiet(s, token, r)
  {
  }

  /** The button for more is there exactly for a cursor on display that is not empty. */
  lemma OffersMoreExactly(s: System, cursor: Option<string>, other: nat)
    requires s.core.display == Display.Ready(cursor) && other !in s.manual
    ensures Enabled(s, LoadMore(other)) <==> cursor.Some? && cursor.value != ""
  {
  }

  /** After a quiet answer that counts, exactly if the page that is then the last has one. */
  lemma QuietAnswerOffersMoreExactly(s: System, token: nat, r: Response, other: nat) returns (t: System)
    requires Inv(s) && token in s.quiet && !Fenced(s.core, s.quiet[token]) && other !in s.manual
    ensures t == Step(s, QuietAnswered(token, Ok(r)))
    ensures var f := s.quiet[token];
            && f.index < |t.core.pages| && t.core.pages[f.index].attachments == r.attachments
            && t.core.pages[f.index].nextCursor == r.nextCursor
            && (r.nextCursor != f.page.nextCursor ==> f.index == |t.core.pages| - 1)
    ensures var last := t.core.pages[|t.core.pages| - 1].nextCursor;
            Enabled(t, LoadMore(other)) <==> last.Some? && last.value != ""
  {
    t := AnswerQuiet(s, token, r);
    QuietAnswerShows(s.core, s.quiet[token], r);
    QuietAnswerChangesCore(s, token, r);
    OffersMoreExactly(t, t.core.pages[|t.core.pages| - 1].nextCursor, other);
  }

  /** A run that loses it: a quiet refresh fails during an import, which is then acknowledged. */
  lemma LostCursorRun(filter: Filter, a: Attachment, cursor: string, message: string, record: ImportRecord)
    returns (s1: System, s2: System, s3: System, s4: System, s5: System, s6: System)
    requires cursor != ""
    ensures s1 == Step(Begin(filter), AuthorityChanged(0)) && 0 in s1.manual
    ensures s2 == Step(s1, LoadAnswered(0, Ok(Response([a], Some(cursor))))) && Enabled(s2, ImportStarted(a.id))
    ensures s3 == Step(s2, ImportStarted(a.id)) && Enabled(s3, QuietPoll(0)) && s4 == Step(s3, QuietPoll(0))
    ensures 0 in s4.quiet && s5 == Step(s4, QuietAnswered(0, Err(message)))
    ensures Enabled(s5, ImportAcknowledged(record)) && s6 == Step(s5, ImportAcknowledged(record))
    ensures Enabled(s2, LoadMore(0)) && !CursorShown(s6.core) && !Enabled(s6, LoadMore(0))
  {
    s1, s2 := FirstLoad(filter, a, Some(cursor));
    s3 := Step(s2, ImportStarted(a.id));
    s4, s5, s6 := FailedPoll(s3, Page(None, [a], Some(cursor), filter), message, record);
  }

  lemma FailedPoll(s3: System, page: Page, message: string, record: ImportRecord)
    returns (s4: System, s5: System, s6: System)
    requires Inv(s3) && s3.quiet == map[] && s3.manual == map[] && s3.core.pages == [page] && page.nextCursor.Some?
    requires s3.importing.Some? && s3.importing.value.refresh.None?
    ensures s4 == Step(s3, QuietPoll(0)) && 0 in s4.quiet && s5 == Step(s4, QuietAnswered(0, Err(message)))
    ensures Enabled(s5, ImportAcknowledged(record)) && s6 == Step(s5, ImportAcknowledged(record))
    ensures !CursorShown(s6.core) && s6.core.display == Display.Ready(None)
  {
    assert s3.core.manualCount == |s3.manual| == 0;
    s4 := Step(s3, QuietPoll(0));
    s5 := Step(s4, QuietAnswered(0, Err(message)));
    s6 := Step(s5, ImportAcknowledged(record));
    MappedPages(Acknowledge(s5.importing.value.id, record), s5.core.pages, 0);
  }

  // ---- Acknowledgements. ----

  /** The record after its import was acknowledged; the others stay. */
  predicate ShowsImport(before: Attachment, after: Attachment, id: string, record: ImportRecord) {
    && after.id == before.id && after.providerMd5 == before.providerMd5 && after.sourceVersion == before.sourceVersion
    && after.latestImport == (if before.id == id then Some(record) else before.latestImport)
  }

  predicate AllShowImport(before: seq<Attachment>, after: seq<Attachment>, id: string, record: ImportRecord) {
    |after| == |before| && forall i :: 0 <= i < |before| ==> ShowsImport(before[i], after[i], id, record)
  }

  /** Exactly the records of the acknowledged identity show the new import, in the list and on every page. */
  lemma AcknowledgementUpdatesExactly(c: Core, id: string, record: ImportRecord)
    ensures var t := ImportAck(c, id, record);
            && AllShowImport(c.shown, t.shown, id, record)
            && |t.pages| == |c.pages|
            && (forall p :: 0 <= p < |c.pages| ==>
                  && AllShowImport(c.pages[p].attachments, t.pages[p].attachments, id, record)
                  && t.pages[p] == c.pages[p].(attachments := t.pages[p].attachments))
  {
    var t := ImportAck(c, id, record);
    forall p | 0 <= p < |c.pages|
      ensures t.pages[p] == c.pages[p].(attachments := MapList(Acknowledge(id, record), c.pages[p].attachments))
    {
      MappedPages(Acknowledge(id, record), c.pages, p);
    }
  }

  /** An acknowledged import keeps the register polling exactly if it is of this very file and not yet at an end. */
  lemma AcknowledgedIsActiveExactly(before: Attachment, after: Attachment, id: string, record: ImportRecord)
    requires before.id == id && ShowsImport(before, after, id, record)
    ensures HasActiveImport(after) <==>
            && record.sourceVersion == before.sourceVersion
            && before.providerMd5.Some? && record.providerMd5 == before.providerMd5.value
            && record.status !in
               {ImportStatus.Ready, ImportStatus.Attention, ImportStatus.Failed, ImportStatus.Cancelled}
  {
    assert after.latestImport == Some(record);
    assert after.latestImport.value.status == record.status;
  }

  // ---- Passes that no longer count, and the import button. ----

  /** A cancelled poll takes every pass under way out of account: whatever its answer, nothing is shown of it. */
  lemma CancelledPassesAreDropped(s: System, token: nat, outcome: Result<Response, string>)
    requires Inv(s) && token in s.quiet
    ensures var t := Step(s, PollCancelled);
            && t.core.pages == s.core.pages && t.core.shown == s.core.shown && t.core.display == s.core.display
            && Enabled(t, QuietAnswered(token, outcome))
            && Step(t, QuietAnswered(token, outcome)).core == t.core
            && token !in Step(t, QuietAnswered(token, outcome)).quiet
  {
    assert s.quiet[token].quietId <= s.core.quietCounter;
  }

  /** The button of a failed import is released exactly when the pass it waits for has ended. */
  lemma ImportIsReleasedExactly(s: System, token: nat, outcome: Result<Response, string>)
    requires token in s.quiet && s.importing.Some?
    ensures var t := Step(s, QuietAnswered(token, outcome));
            && (t.importing.None? <==> s.importing.value.refresh == Some(token) && token !in t.quiet)
            && (t.importing.Some? ==> t.importing == s.importing)
  {
  }
}
