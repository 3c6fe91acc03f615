/**
 Every interleaving of the register's handlers. The system is the register, the frames of the
 handlers that are waiting for an answer, and the import being submitted.
 */
module RegisterRuns {
  import opened Common
  import opened Attachments
  import opened Register

  /** `refresh` is the quiet pass a failed import awaits before its button is released. */
  datatype Importing = Importing(id: string, filter: Filter, refresh: Option<nat>)

  datatype System = System(
    core: Core,
    manual: map<nat, ManualFrame>,
    quiet: map<nat, QuietFrame>,
    importing: Option<Importing>)

  // `token` names the waiting frame; a starting handler gets one that is not in use.
  datatype Event =
    | Reload(token: nat)
    | AuthorityChanged(token: nat)
    | FilterChanged(token: nat, filter: Filter)
    | LoadMore(token: nat)
    | LoadAnswered(token: nat, outcome: Result<Response, string>)
    | QuietPoll(token: nat)
    | QuietAnswered(token: nat, outcome: Result<Response, string>)
    | PollCancelled
    | ImportStarted(id: string)
    | ImportAcknowledged(record: ImportRecord)
    | ImportFailed(token: nat)
    | SnapshotTaken

  function Begin(filter: Filter): System {
    System(Initial(filter), map[], map[], None)
  }

  /** Which events can happen: fresh tokens, pending answers, and the buttons' `disabled` conditions. */
  predicate Enabled(s: System, e: Event) {
    match e
    case Reload(token) => token !in s.manual && s.importing.None? && !s.core.display.Loading?
    case AuthorityChanged(token) => token !in s.manual
    case FilterChanged(token, _) => token !in s.manual && s.importing.None?
    case LoadMore(token) =>
      && token !in s.manual
      && s.core.display.Ready? && s.core.display.nextCursor.Some?
      && s.core.display.nextCursor.value != ""
    case LoadAnswered(token, _) => token in s.manual
    case QuietPoll(token) => token !in s.quiet
    case QuietAnswered(token, _) => token in s.quiet
    case PollCancelled => true
    case ImportStarted(id) => s.importing.None? && HasId(s.core.shown, id)
    case ImportAcknowledged(_) => s.importing.Some? && s.importing.value.refresh.None?
    case ImportFailed(token) => token !in s.quiet && s.importing.Some? && s.importing.value.refresh.None?
    case SnapshotTaken => true
  }

  function StartLoad(s: System, core: Core, token: nat, append: bool, after: Option<string>): System {
    var (started, frame) := LoadStart(core, append, after);
    s.(core := started, manual := s.manual[token := frame])
  }

  /** A quiet pass ends; an import waiting for it is released. */
  function EndQuiet(s: System, token: nat): System {
    s.(quiet := s.quiet - {token},
       importing := if s.importing.Some? && s.importing.value.refresh == Some(token) then None else s.importing)
  }

  function Continue(s: System, core: Core, token: nat, next: Option<QuietFrame>): System {
    if next.Some? then s.(core := core, quiet := s.quiet[token := next.value])
    else EndQuiet(s.(core := core), token)
  }

  function AnswerQuiet(s: System, token: nat, r: Response): System
    requires token in s.quiet
  {
    var (core, next) := QuietOk(s.core, s.quiet[token], r);
    Continue(s, core, token, next)
  }

  function Step(s: System, e: Event): System
    requires Enabled(s, e)
  {
    match e
    case Reload(token) => StartLoad(s, s.core, token, false, None)
    case AuthorityChanged(token) => StartLoad(s, Bump(s.core), token, false, None)
    case FilterChanged(token, filter) => StartLoad(s, Bump(s.core).(filter := filter), token, false, None)
    case LoadMore(token) => StartLoad(s, s.core, token, true, s.core.display.nextCursor)
    case LoadAnswered(token, outcome) =>
      var f := s.manual[token];
      s.(manual := s.manual - {token},
         core := if outcome.Ok? then LoadOk(s.core, f, outcome.value) else LoadFail(s.core, f, outcome.error))
    case QuietPoll(token) =>
      var (core, frame) := QuietStart(s.core, None, s.core.filter);
      Continue(s, core, token, frame)
    case QuietAnswered(token, outcome) =>
      if outcome.Ok? then AnswerQuiet(s, token, outcome.value)
      else EndQuiet(s.(core := QuietFail(s.core, s.quiet[token], outcome.error)), token)
    case PollCancelled => s.(core := s.core.(quietCounter := s.core.quietCounter + 1))
    case ImportStarted(id) => s.(core := Bump(s.core), importing := Some(Importing(id, s.core.filter, None)))
    case ImportAcknowledged(record) =>
      s.(core := ImportAck(s.core, s.importing.value.id, record), importing := None)
    case ImportFailed(token) =>
      var i := s.importing.value;
      var (core, frame) := QuietStart(Bump(s.core), Some(i.id), i.filter);
      if frame.Some? then s.(core := core, quiet := s.quiet[token := frame.value],
                             importing := Some(i.(refresh := Some(token))))
      else s.(core := core, importing := None)
    case SnapshotTaken => s.(core := s.core.(snapshot := s.core.shown))
  }

  /** A run: the states a sequence of events passes through, each event enabled when it happens. */
  ghost predicate IsRun(states: seq<System>, es: seq<Event>) {
    && |states| == |es| + 1
    && (forall i :: 0 <= i < |es| ==> Enabled(states[i], es[i]) && states[i + 1] == Step(states[i], es[i]))
  }

  // ---- The invariant. ----

  ghost predicate DistinctAfters(pages: seq<Page>) {
    && (pages != [] ==> pages[0].after.None?)
    && (forall i :: 0 < i < |pages| ==> pages[i].after.Some?)
    && (forall i, j :: 0 <= i < j < |pages| ==> pages[i].after != pages[j].after)
  }

  ghost predicate FetchedUnder(pages: seq<Page>, filter: Filter) {
    forall i :: 0 <= i < |pages| ==> pages[i].filter == filter
  }

  /** Load more continues from the end of what is loaded. */
  ghost predicate CursorIsLast(c: Core) {
    c.display.Ready? && c.display.nextCursor.Some? ==>
      c.pages != [] && c.pages[|c.pages| - 1].nextCursor == c.display.nextCursor
  }

  ghost predicate CoreOk(c: Core) {
    && c.shown == Flatten(c.pages)
    && DistinctAfters(c.pages)
    && FetchedUnder(c.pages, c.filter)
    && CursorIsLast(c)
  }

  /** What a pending manual load that still counts can rely on. */
  ghost predicate LiveManualFrame(c: Core, f: ManualFrame) {
    && f.filter == c.filter
    && (f.append ==> f.after.Some? && c.pages != [] && c.pages[|c.pages| - 1].nextCursor == f.after)
  }

  /** What a quiet pass that is not fenced off can rely on. */
  ghost predicate LiveQuietFrame(c: Core, f: QuietFrame) {
    && f.index < |c.pages|
    && c.pages[f.index] == f.page
    && f.filter == c.filter
  }

  ghost predicate ManualOk(c: Core, manual: map<nat, ManualFrame>) {
    && c.manualCount == |manual|
    && (forall t :: t in manual ==> manual[t].requestId <= c.requestCounter)
    && (forall t :: t in manual ==> (manual[t].append <==> manual[t].after.Some?))
    && (forall t, u ::
          t in manual && u in manual && manual[t].requestId == manual[u].requestId == c.requestCounter ==> t == u)
    && (forall t :: t in manual && manual[t].requestId == c.requestCounter ==> LiveManualFrame(c, manual[t]))
  }

  ghost predicate QuietsOk(c: Core, quiet: map<nat, QuietFrame>) {
    && (forall t :: t in quiet ==> quiet[t].observed <= c.requestCounter && quiet[t].quietId <= c.quietCounter)
    && (forall t, u :: t in quiet && u in quiet && t != u ==> quiet[t].quietId != quiet[u].quietId)
    && (forall t :: t in quiet && Unfenced(c, quiet[t]) ==> LiveQuietFrame(c, quiet[t]))
  }

  ghost predicate Unfenced(c: Core, f: QuietFrame) {
    f.observed == c.requestCounter && f.quietId == c.quietCounter
  }

  /** No manual load and quiet pass count at once: their request numbers never coincide. */
  ghost predicate Apart(c: Core, manual: map<nat, ManualFrame>, quiet: map<nat, QuietFrame>) {
    forall t :: t in quiet && quiet[t].observed == c.requestCounter ==>
      && (forall u :: u in manual ==> manual[u].requestId != c.requestCounter)
      && (!quiet[t].forced ==> manual == map[])
  }

  ghost predicate Inv(s: System) {
    && CoreOk(s.core)
    && ManualOk(s.core, s.manual)
    && QuietsOk(s.core, s.quiet)
    && Apart(s.core, s.manual, s.quiet)
    && (s.importing.Some? ==> s.importing.value.filter == s.core.filter)
  }

  // ---- Facts about the step functions. ----

  lemma {:induction false} WithoutAfterMembers(pages: seq<Page>, after: Option<string>)
    ensures forall p :: p in WithoutAfter(pages, after) <==> p in pages && p.after != after
  {
    if pages != [] {
      var last := |pages| - 1;
      WithoutAfterMembers(pages[..last], after);
      assert pages == pages[..last] + [pages[last]];
    }
  }

  lemma {:induction false} WithoutAfterKeeps(pages: seq<Page>, after: Option<string>, filter: Filter)
    requires after.Some? && DistinctAfters(pages) && FetchedUnder(pages, filter)
    ensures DistinctAfters(WithoutAfter(pages, after)) && FetchedUnder(WithoutAfter(pages, after), filter)
    ensures pages != [] ==> WithoutAfter(pages, after) != []
  {
    if pages != [] {
      var last := |pages| - 1;
      WithoutAfterKeeps(pages[..last], after, filter);
      WithoutAfterMembers(pages[..last], after);
      var before := WithoutAfter(pages[..last], after);
      forall i | 0 <= i < |before|
        ensures before[i].after != pages[last].after
      {
        assert before[i] in before;
      }
    }
  }

  lemma AppendKeepsAfters(pages: seq<Page>, page: Page)
    requires pages != [] && page.after.Some?
    requires DistinctAfters(pages) && FetchedUnder(pages, page.filter)
    ensures DistinctAfters(WithoutAfter(pages, page.after) + [page])
    ensures FetchedUnder(WithoutAfter(pages, page.after) + [page], page.filter)
  {
    WithoutAfterKeeps(pages, page.after, page.filter);
    WithoutAfterMembers(pages, page.after);
    var kept := WithoutAfter(pages, page.after);
    forall i | 0 <= i < |kept|
      ensures kept[i].after != page.after
    {
      assert kept[i] in kept;
    }
  }

  lemma {:induction false} NextFetchIsLive(pages: seq<Page>, f: QuietFrame)
    ensures var next := NextFetch(pages, f);
            next.Some? ==>
              && next.value.index < |pages| && next.value.page == pages[next.value.index]
              && next.value.observed == f.observed && next.value.quietId == f.quietId
              && next.value.forced == f.forced && next.value.filter == f.filter
    decreases |f.rest|
  {
    if f.rest != [] {
      NextFetchIsLive(pages, f.(index := f.rest[0], rest := f.rest[1..]));
    }
  }

  // ---- Every step keeps the invariant. ----

  lemma StartLoadKeepsInv(s: System, core: Core, token: nat, append: bool, after: Option<string>)
    requires Inv(s) && token !in s.manual
    requires core.requestCounter >= s.core.requestCounter
    requires core == s.core.(requestCounter := core.requestCounter, filter := core.filter)
    requires append <==> after.Some?
    requires append ==>
               && core.filter == s.core.filter && s.core.pages != []
               && s.core.pages[|s.core.pages| - 1].nextCursor == after
    requires s.importing.Some? ==> core.filter == s.core.filter
    ensures Inv(StartLoad(s, core, token, append, after))
  {
    var t := StartLoad(s, core, token, append, after);
    var (started, frame) := LoadStart(core, append, after);
    assert CoreOk(started);
    assert LiveManualFrame(started, frame);
    AddManual(s, started, token, frame);
  }

  lemma AddManual(s: System, core: Core, token: nat, frame: ManualFrame)
    requires Inv(s) && token !in s.manual
    requires CoreOk(core) && LiveManualFrame(core, frame) && (frame.append <==> frame.after.Some?)
    requires core.requestCounter == frame.requestId > s.core.requestCounter
    requires core.manualCount == s.core.manualCount + 1 && core.quietCounter == s.core.quietCounter
    requires s.importing.Some? ==> core.filter == s.core.filter
    ensures Inv(s.(core := core, manual := s.manual[token := frame]))
  {
    ManualAdded(s.core, core, s.manual, token, frame);
  }

  lemma ManualAdded(c: Core, c': Core, manual: map<nat, ManualFrame>, token: nat, frame: ManualFrame)
    requires ManualOk(c, manual) && token !in manual
    requires LiveManualFrame(c', frame) && (frame.append <==> frame.after.Some?)
    requires c'.requestCounter == frame.requestId > c.requestCounter && c'.manualCount == c.manualCount + 1
    ensures ManualOk(c', manual[token := frame])
  {
    assert manual[token := frame].Keys == manual.Keys + {token};
    assert |manual[token := frame].Keys| == |manual.Keys| + 1;
  }

  lemma ManualRemoved(c: Core, c': Core, manual: map<nat, ManualFrame>, token: nat)
    requires ManualOk(c, manual) && token in manual
    requires c'.requestCounter == c.requestCounter && c'.manualCount == c.manualCount - 1
    requires manual[token].requestId == c.requestCounter || (c'.pages == c.pages && c'.filter == c.filter)
    ensures ManualOk(c', manual - {token})
  {
    assert (manual - {token}).Keys == manual.Keys - {token};
    assert |(manual - {token}).Keys| == |manual.Keys| - 1;
  }

  lemma LoadAnswerKeepsCore(c: Core, f: ManualFrame, outcome: Result<Response, string>)
    requires CoreOk(c) && (f.append <==> f.after.Some?)
    requires f.requestId == c.requestCounter ==> LiveManualFrame(c, f)
    ensures CoreOk(if outcome.Ok? then LoadOk(c, f, outcome.value) else LoadFail(c, f, outcome.error))
  {
    if f.requestId == c.requestCounter && outcome.Ok? && f.append {
      AppendKeepsAfters(c.pages, Page(f.after, outcome.value.attachments, outcome.value.nextCursor, f.filter));
    }
  }

  lemma LoadAnswerKeepsInv(s: System, token: nat, outcome: Result<Response, string>)
    requires Inv(s) && token in s.manual
    ensures Inv(Step(s, LoadAnswered(token, outcome)))
  {
    var t := Step(s, LoadAnswered(token, outcome));
    LoadAnswerKeepsCore(s.core, s.manual[token], outcome);
    ManualRemoved(s.core, t.core, s.manual, token);
    assert QuietsOk(t.core, t.quiet);
  }

  lemma QuietStartSummary(core: Core, refreshId: Option<string>, filter: Filter)
    ensures var (started, frame) := QuietStart(core, refreshId, filter);
            && started == core.(quietCounter := started.quietCounter, offset := started.offset)
            && started.quietCounter >= core.quietCounter
            && (frame.Some? ==>
                  && started.quietCounter == frame.value.quietId == core.quietCounter + 1
                  && frame.value.observed == core.requestCounter
                  && frame.value.index < |core.pages| && frame.value.page == core.pages[frame.value.index]
                  && frame.value.filter == filter
                  && frame.value.forced == refreshId.Some?
                  && (refreshId.None? ==> core.manualCount <= 0))
  {
    if core.pages != [] {
      NextFetchIsLive(core.pages,
                      QuietFrame(core.requestCounter, core.quietCounter + 1, refreshId.Some?, 0, core.pages[0],
                                 QuietTargets(core, refreshId), filter));
    }
  }

  /** Renumbering the counters upwards only fences more handlers off. */
  lemma BumpKeepsInv(s: System, core: Core)
    requires Inv(s)
    requires core == s.core.(requestCounter := core.requestCounter, quietCounter := core.quietCounter,
                             offset := core.offset, snapshot := core.snapshot)
    requires core.requestCounter >= s.core.requestCounter && core.quietCounter >= s.core.quietCounter
    ensures Inv(s.(core := core))
  {
  }

  lemma AddQuiet(s: System, token: nat, frame: QuietFrame)
    requires Inv(s) && token !in s.quiet
    requires frame.observed == s.core.requestCounter && frame.quietId == s.core.quietCounter
    requires LiveQuietFrame(s.core, frame)
    requires forall t :: t in s.quiet ==> s.quiet[t].quietId < frame.quietId
    requires forall u :: u in s.manual ==> s.manual[u].requestId != s.core.requestCounter
    requires !frame.forced ==> s.manual == map[]
    ensures Inv(s.(quiet := s.quiet[token := frame]))
  {
  }

  lemma QuietStartKeepsInv(s: System, core: Core, token: nat, refreshId: Option<string>, filter: Filter)
    requires Inv(s) && token !in s.quiet && filter == s.core.filter
    requires core.requestCounter >= s.core.requestCounter
    requires core == s.core.(requestCounter := core.requestCounter)
    requires refreshId.Some? ==> core.requestCounter > s.core.requestCounter
    ensures var (started, frame) := QuietStart(core, refreshId, filter);
            Inv(s.(core := started, quiet := if frame.Some? then s.quiet[token := frame.value] else s.quiet))
  {
    var (started, frame) := QuietStart(core, refreshId, filter);
    QuietStartSummary(core, refreshId, filter);
    BumpKeepsInv(s, started);
    if frame.Some? {
      if refreshId.None? {
        assert |s.manual| == 0;
      }
      AddQuiet(s.(core := started), token, frame.value);
    }
  }

  lemma EndQuietKeepsInv(s: System, token: nat)
    requires Inv(s)
    ensures Inv(EndQuiet(s, token))
  {
  }

  /** What a counting quiet answer does to the pages. */
  lemma QuietOkSummary(c: Core, f: QuietFrame, r: Response)
    requires CoreOk(c) && LiveQuietFrame(c, f) && !Fenced(c, f)
    ensures var (core, next) := QuietOk(c, f, r);
            && CoreOk(core)
            && core == c.(pages := core.pages, shown := core.shown, display := core.display)
            && (next.Some? ==>
                  && LiveQuietFrame(core, next.value)
                  && next.value.observed == f.observed && next.value.quietId == f.quietId
                  && next.value.forced == f.forced)
  {
    var (core, next) := QuietOk(c, f, r);
    NextFetchIsLive(core.pages, f);
  }

  lemma ReplaceQuiet(s: System, core: Core, token: nat, next: QuietFrame)
    requires Inv(s) && token in s.quiet && CoreOk(core) && LiveQuietFrame(core, next)
    requires core == s.core.(pages := core.pages, shown := core.shown, display := core.display)
    requires s.quiet[token].observed == next.observed == s.core.requestCounter
    requires s.quiet[token].quietId == next.quietId == s.core.quietCounter
    requires s.quiet[token].forced == next.forced
    ensures Inv(s.(core := core, quiet := s.quiet[token := next]))
  {
  }

  lemma QuietFailKeepsInv(s: System, token: nat, message: string)
    requires Inv(s) && token in s.quiet
    ensures Inv(EndQuiet(s.(core := QuietFail(s.core, s.quiet[token], message)), token))
  {
    EndQuietKeepsInv(s.(core := QuietFail(s.core, s.quiet[token], message)), token);
  }

  lemma QuietIgnoredKeepsInv(s: System, token: nat, r: Response)
    requires Inv(s) && token in s.quiet && Fenced(s.core, s.quiet[token])
    ensures Inv(AnswerQuiet(s, token, r))
  {
    EndQuietKeepsInv(s, token);
  }

  lemma QuietOkKeepsInv(s: System, token: nat, r: Response)
    requires Inv(s) && token in s.quiet && !Fenced(s.core, s.quiet[token])
    ensures Inv(AnswerQuiet(s, token, r))
  {
    QuietOkSummary(s.core, s.quiet[token], r);
    var (core, next) := QuietOk(s.core, s.quiet[token], r);
    ContinueKeepsInv(s, core, token, next);
  }

  lemma ContinueKeepsInv(s: System, core: Core, token: nat, next: Option<QuietFrame>)
    requires Inv(s) && token in s.quiet && !Fenced(s.core, s.quiet[token]) && CoreOk(core)
    requires core == s.core.(pages := core.pages, shown := core.shown, display := core.display)
    requires next.Some? ==>
               && LiveQuietFrame(core, next.value)
               && next.value.observed == s.quiet[token].observed && next.value.quietId == s.quiet[token].quietId
               && next.value.forced == s.quiet[token].forced
    ensures Inv(Continue(s, core, token, next))
  {
    if next.Some? {
      ReplaceQuiet(s, core, token, next.value);
    } else {
      FinishKeepsInv(s, core, token);
    }
  }

  lemma EndQuietTwice(s: System, core: Core, token: nat)
    ensures EndQuiet(s.(core := core), token) == EndQuiet(s.(core := core, quiet := s.quiet - {token}), token)
  {
    assert s.quiet - {token} - {token} == s.quiet - {token};
  }

  lemma FinishKeepsInv(s: System, core: Core, token: nat)
    requires Inv(s) && token in s.quiet && !Fenced(s.core, s.quiet[token]) && CoreOk(core)
    requires core == s.core.(pages := core.pages, shown := core.shown, display := core.display)
    ensures Inv(EndQuiet(s.(core := core), token))
  {
    ShowKeepsInv(s, core, token);
    EndQuietKeepsInv(s.(core := core, quiet := s.quiet - {token}), token);
    EndQuietTwice(s, core, token);
  }

  /** The last page of a pass has been shown and the pass is over. */
  lemma ShowKeepsInv(s: System, core: Core, token: nat)
    requires Inv(s) && token in s.quiet && CoreOk(core)
    requires core == s.core.(pages := core.pages, shown := core.shown, display := core.display)
    requires !Fenced(s.core, s.quiet[token])
    ensures Inv(s.(core := core, quiet := s.quiet - {token}))
  {
    assert ManualOk(core, s.manual);
  }

  lemma QuietPollKeepsInv(s: System, token: nat)
    requires Inv(s) && Enabled(s, QuietPoll(token))
    ensures Inv(Step(s, QuietPoll(token)))
  {
    var (core, frame) := QuietStart(s.core, None, s.core.filter);
    QuietStartKeepsInv(s, s.core, token, None, s.core.filter);
    if frame.None? {
      EndQuietKeepsInv(s.(core := core), token);
    }
  }

  lemma ImportFailedKeepsInv(s: System, token: nat)
    requires Inv(s) && Enabled(s, ImportFailed(token))
    ensures Inv(Step(s, ImportFailed(token)))
  {
    var i := s.importing.value;
    QuietStartKeepsInv(s, Bump(s.core), token, Some(i.id), i.filter);
    QuietStartSummary(Bump(s.core), Some(i.id), i.filter);
  }

  lemma ImportAcknowledgedKeepsInv(s: System, record: ImportRecord)
    requires Inv(s) && Enabled(s, ImportAcknowledged(record))
    ensures Inv(Step(s, ImportAcknowledged(record)))
  {
    AcknowledgeKeepsCore(s.core, s.importing.value.id, record);
    var t := Step(s, ImportAcknowledged(record));
    assert ManualOk(t.core, t.manual) && QuietsOk(t.core, t.quiet);
  }

  lemma AcknowledgeKeepsCore(c: Core, id: string, record: ImportRecord)
    requires CoreOk(c)
    ensures CoreOk(ImportAck(c, id, record))
  {
    MapCommutesWithFlatten(Acknowledge(id, record), c.pages);
  }

  lemma StepKeepsInv(s: System, e: Event)
    requires Inv(s) && Enabled(s, e)
    ensures Inv(Step(s, e))
  {
    match e
    case Reload(token) => StartLoadKeepsInv(s, s.core, token, false, None);
    case AuthorityChanged(token) => StartLoadKeepsInv(s, Bump(s.core), token, false, None);
    case FilterChanged(token, filter) => StartLoadKeepsInv(s, Bump(s.core).(filter := filter), token, false, None);
    case LoadMore(token) => StartLoadKeepsInv(s, s.core, token, true, s.core.display.nextCursor);
    case LoadAnswered(token, outcome) => LoadAnswerKeepsInv(s, token, outcome);
    case QuietPoll(token) => QuietPollKeepsInv(s, token);
    case QuietAnswered(token, outcome) =>
      if outcome.Err? {
        QuietFailKeepsInv(s, token, outcome.error);
      } else if Fenced(s.core, s.quiet[token]) {
        QuietIgnoredKeepsInv(s, token, outcome.value);
      } else {
        QuietOkKeepsInv(s, token, outcome.value);
      }
    case PollCancelled => BumpKeepsInv(s, Step(s, e).core);
    case ImportStarted(_) => BumpKeepsInv(s, Step(s, e).core);
    case ImportAcknowledged(record) => ImportAcknowledgedKeepsInv(s, record);
    case ImportFailed(token) => ImportFailedKeepsInv(s, token);
    case SnapshotTaken => BumpKeepsInv(s, Step(s, e).core);
  }

  lemma {:induction false} RunKeepsInv(states: seq<System>, es: seq<Event>)
    requires IsRun(states, es) && Inv(states[0])
    ensures forall i :: 0 <= i < |states| ==> Inv(states[i])
    decreases |es|
  {
    if es != [] {
      var n := |es| - 1;
      RunKeepsInv(states[..n + 1], es[..n]);
      assert states[n] == states[..n + 1][n];
      StepKeepsInv(states[n], es[n]);
      forall i | 0 <= i < |states|
        ensures Inv(states[i])
      {
        if i <= n {
          assert states[i] == states[..n + 1][i];
        }
      }
    }
  }

  /**
   In every state of every run: the displayed list is the duplicate-free flattening of the loaded
   pages, no two pages share an `after`, and every page was fetched under the current filter.
   */
  lemma EveryRunIsSound(filter: Filter, states: seq<System>, es: seq<Event>)
    requires IsRun(states, es) && states[0] == Begin(filter)
    ensures forall i :: 0 <= i < |states| ==>
                          && states[i].core.shown == Flatten(states[i].core.pages)
                          && DistinctAfters(states[i].core.pages)
                          && FetchedUnder(states[i].core.pages, states[i].core.filter)
  {
    RunKeepsInv(states, es);
  }
}
