/**
 Starvation in the register: passes that failed imports force move the rotation on without using it,
 so a run in which they alternate with polls never refreshes some active page.
 */
module RegisterStarvation {
  import opened Common
  import opened Attachments
  import opened Register
  import opened RegisterRuns
  import opened RegisterFairness
  import Rotation = QuietRotation

  /** Every pass but those of a list that is empty: polls that start one, and failed imports. */
  predicate StartsAny(s: System, e: Event) {
    Starts(s, e) || (e.ImportFailed? && s.core.pages != [])
  }

  function AnyPassesBefore(states: seq<System>, es: seq<Event>, k: nat): nat
    requires k <= |es| < |states|
  {
    if k == 0 then 0
    else AnyPassesBefore(states, es, k - 1) + if StartsAny(states[k - 1], es[k - 1]) then 1 else 0
  }

  /** As `Steady`, but imports may fail. */
  ghost predicate Mixed(states: seq<System>, es: seq<Event>, active: seq<nat>) {
    && IsRun(states, es) && Inv(states[0])
    && (forall k :: 0 <= k < |es| ==> !es[k].Reload? && !es[k].AuthorityChanged? && !es[k].FilterChanged?)
    && (forall k :: 0 <= k < |es| && StartsAny(states[k], es[k]) ==> Active(states[k]) == active)
  }

  lemma OffsetMovesWithAnyPass(s: System, e: Event)
    requires Enabled(s, e) && !e.Reload? && !e.AuthorityChanged? && !e.FilterChanged?
    ensures Step(s, e).core.offset ==
            if StartsAny(s, e) then Rotation.NextOffset(s.core.offset, |Active(s)|) else s.core.offset
  {
    if e.QuietPoll? && Starts(s, e) {
      StartingPass(s, e.token);
    }
  }

  lemma OffsetAfterStep(states: seq<System>, es: seq<Event>, active: seq<nat>, k: nat)
    requires Mixed(states, es, active) && k < |es|
    ensures states[k + 1].core.offset ==
            if StartsAny(states[k], es[k]) then Rotation.NextOffset(states[k].core.offset, |active|)
            else states[k].core.offset
  {
    OffsetMovesWithAnyPass(states[k], es[k]);
  }

  function StartsOf(states: seq<System>, es: seq<Event>): seq<bool>
    requires |es| < |states|
  {
    seq(|es|, i requires 0 <= i < |es| => StartsAny(states[i], es[i]))
  }

  lemma {:induction false} PassesAreCounted(states: seq<System>, es: seq<Event>, k: nat)
    requires k <= |es| < |states|
    ensures AnyPassesBefore(states, es, k) == Rotation.Count(StartsOf(states, es), k)
  {
    if k > 0 {
      PassesAreCounted(states, es, k - 1);
    }
  }

  lemma OffsetOfAnyPass(states: seq<System>, es: seq<Event>, active: seq<nat>, k: nat)
    requires Mixed(states, es, active) && k <= |es|
    ensures states[k].core.offset ==
            Rotation.OffsetBefore(states[0].core.offset, |active|, AnyPassesBefore(states, es, k))
  {
    var offsets, starts := seq(|states|, i requires 0 <= i < |states| => states[i].core.offset), StartsOf(states, es);
    forall i | 0 <= i < |es|
      ensures offsets[i + 1] == if starts[i] then Rotation.NextOffset(offsets[i], |active|) else offsets[i]
    {
      OffsetAfterStep(states, es, active, i);
    }
    PassesAreCounted(states, es, k);
    Rotation.OffsetsOfSchedule(offsets, starts, |active|, k);
  }

  /** No pass under way is going to fetch this page. */
  predicate Avoids(s: System, page: nat) {
    forall t :: t in s.quiet ==> s.quiet[t].index != page && page !in s.quiet[t].rest
  }

  /** If a pass starts here, the page is none of those it asks for. */
  predicate NotAskedFor(s: System, e: Event, page: nat)
    requires Enabled(s, e)
  {
    StartsAny(s, e) ==>
      page !in QuietTargets(s.core, if e.ImportFailed? then Some(s.importing.value.id) else None)
  }

  lemma {:induction false} NextFetchAvoids(pages: seq<Page>, f: QuietFrame, page: nat)
    requires page !in f.rest
    ensures var next := NextFetch(pages, f); next.Some? ==> next.value.index != page && page !in next.value.rest
    decreases |f.rest|
  {
    if f.rest != [] {
      NextFetchAvoids(pages, f.(index := f.rest[0], rest := f.rest[1..]), page);
    }
  }

  lemma AnswerAvoids(s: System, token: nat, r: Response, page: nat)
    requires token in s.quiet && Avoids(s, page)
    ensures Avoids(AnswerQuiet(s, token, r), page)
  {
    NextFetchAvoids(QuietOk(s.core, s.quiet[token], r).0.pages, s.quiet[token], page);
  }

  lemma StartAvoids(core: Core, refreshId: Option<string>, filter: Filter, page: nat)
    requires page !in QuietTargets(core, refreshId)
    ensures var frame := QuietStart(core, refreshId, filter).1;
            frame.Some? ==> frame.value.index != page && page !in frame.value.rest
  {
    if core.pages != [] {
      NextFetchAvoids(core.pages, QuietFrame(core.requestCounter, core.quietCounter + 1, refreshId.Some?, 0,
                                             core.pages[0], QuietTargets(core, refreshId), filter), page);
    }
  }

  lemma StepAvoids(s: System, e: Event, page: nat)
    requires Enabled(s, e) && Avoids(s, page) && NotAskedFor(s, e, page)
    ensures Avoids(Step(s, e), page)
  {
    match e
    case QuietPoll(_) => if Starts(s, e) { StartAvoids(s.core, None, s.core.filter, page); }
    case ImportFailed(_) =>
      if s.core.pages != [] {
        StartAvoids(Bump(s.core), Some(s.importing.value.id), s.importing.value.filter, page);
      }
    case QuietAnswered(token, Ok(r)) => AnswerAvoids(s, token, r, page);
    case _ =>
  }

  /** A page that no pass asks for is not refreshed. */
  lemma {:induction false} UnaskedIsNotRefreshed(states: seq<System>, es: seq<Event>, page: nat, n: nat)
    requires IsRun(states, es) && Avoids(states[0], page) && n <= |es|
    requires forall k :: 0 <= k < |es| ==> NotAskedFor(states[k], es[k], page)
    ensures Avoids(states[n], page)
    ensures n < |es| ==> !Refreshes(states[n], es[n], page)
  {
    if n > 0 {
      UnaskedIsNotRefreshed(states, es, page, n - 1);
      StepAvoids(states[n - 1], es[n - 1], page);
    }
  }

  /** Passes take turns, a poll first and then a failed import, which finds its attachment on another page. */
  ghost predicate TakesTurns(states: seq<System>, es: seq<Event>, page: nat)
    requires IsRun(states, es)
  {
    forall k :: 0 <= k < |es| && StartsAny(states[k], es[k]) ==>
      && (es[k].ImportFailed? <==> AnyPassesBefore(states, es, k) % 2 == 1)
      && (es[k].ImportFailed? ==>
            var found := FindPage(states[k].core.pages, states[k].importing.value.id);
            found.Some? && found.value != page)
  }

  lemma EvenPollsMiss(active: seq<nat>, offset: nat, p: nat, j: nat)
    requires |active| == 8 && p % 2 == 0 && j == (offset + 4) % 8
    requires forall i, k :: 0 <= i < k < |active| ==> active[i] != active[k]
    ensures active[j] !in Rotation.Selected(active, Rotation.OffsetBefore(offset, 8, p))
  {
    Rotation.PassVisits(active, offset, p, j);
    var q, d := p / 2, (offset + 4) / 8;
    Rotation.ModIs(j - offset - Rotation.ROTATING_CAPACITY * p, 0 - d - q, 4, 8);
  }

  lemma UnselectedIsNotAskedFor(s: System, e: Event, page: nat)
    requires Enabled(s, e) && Starts(s, e) && page > 0 && page !in Rotation.Selected(Active(s), s.core.offset)
    ensures NotAskedFor(s, e, page)
  {
  }

  lemma OthersAreNotAskedFor(s: System, e: Event, page: nat)
    requires Enabled(s, e) && e.ImportFailed?
    requires var found := FindPage(s.core.pages, s.importing.value.id); found.Some? && found.value != page
    ensures NotAskedFor(s, e, page)
  {
  }

  lemma TurnsDoNotAsk(states: seq<System>, es: seq<Event>, active: seq<nat>, j: nat, k: nat)
    requires Mixed(states, es, active) && |active| == 8 && k < |es| && StartsAny(states[k], es[k])
    requires j == (states[0].core.offset + 4) % 8 && TakesTurns(states, es, active[j])
    ensures NotAskedFor(states[k], es[k], active[j])
  {
    if es[k].ImportFailed? {
      OthersAreNotAskedFor(states[k], es[k], active[j]);
    } else {
      OffsetOfAnyPass(states, es, active, k);
      assert Active(states[k]) == active;
      EvenPollsMiss(active, states[0].core.offset, AnyPassesBefore(states, es, k), j);
      UnselectedIsNotAskedFor(states[k], es[k], active[j]);
    }
  }

  /**
   Starvation of the register: as long as polls and failed imports take turns on eight active pages,
   the page four places on from the first window is never refreshed, however many passes complete.
   */
  lemma AlternatingFailuresStarve(states: seq<System>, es: seq<Event>, active: seq<nat>, j: nat, n: nat)
    requires Mixed(states, es, active) && |active| == 8 && n < |es|
    requires j == (states[0].core.offset + 4) % 8
    requires Avoids(states[0], active[j]) && TakesTurns(states, es, active[j])
    ensures !Refreshes(states[n], es[n], active[j])
  {
    forall k | 0 <= k < |es| ensures NotAskedFor(states[k], es[k], active[j]) {
      if StartsAny(states[k], es[k]) {
        TurnsDoNotAsk(states, es, active, j, k);
      }
    }
    UnaskedIsNotRefreshed(states, es, active[j], n);
  }

  // ---- Such runs exist, with every pass answered. ----

  /** The step fits: passes take turns on the active pages, and every quiet answer is good and counts. */
  ghost predicate Fits(s: System, e: Event, passes: nat, active: seq<nat>, page: nat) {
    && !e.Reload? && !e.AuthorityChanged? && !e.FilterChanged?
    && (e.QuietAnswered? ==> e.token in s.quiet && e.outcome.Ok? && !Fenced(s.core, s.quiet[e.token]))
    && (StartsAny(s, e) ==> Active(s) == active && (e.ImportFailed? <==> passes % 2 == 1))
    && (e.ImportFailed? ==>
          && s.importing.Some?
          && var found := FindPage(s.core.pages, s.importing.value.id); found.Some? && found.value != page)
  }

  predicate StepAt(states: seq<System>, es: seq<Event>, k: nat)
    requires k < |es| < |states|
  {
    Enabled(states[k], es[k]) && states[k + 1] == Step(states[k], es[k])
  }

  ghost predicate FitsAt(states: seq<System>, es: seq<Event>, k: nat, active: seq<nat>, page: nat)
    requires k < |es| < |states|
  {
    Fits(states[k], es[k], AnyPassesBefore(states, es, k), active, page)
  }

  ghost predicate Turning(states: seq<System>, es: seq<Event>, active: seq<nat>, page: nat) {
    && |states| == |es| + 1 && Inv(states[0])
    && (forall k :: 0 <= k < |es| ==> StepAt(states, es, k))
    && (forall k :: 0 <= k < |es| ==> FitsAt(states, es, k, active, page))
  }

  lemma TurningIsRun(states: seq<System>, es: seq<Event>, active: seq<nat>, page: nat)
    requires Turning(states, es, active, page)
    ensures IsRun(states, es)
  {
    forall i | 0 <= i < |es| ensures Enabled(states[i], es[i]) && states[i + 1] == Step(states[i], es[i]) {
      assert StepAt(states, es, i);
    }
  }

  lemma InvAtEnd(states: seq<System>, es: seq<Event>, active: seq<nat>, page: nat)
    requires Turning(states, es, active, page)
    ensures Inv(states[|es|])
  {
    TurningIsRun(states, es, active, page);
    InvAt(states, es, |es|);
  }

  lemma TurningTakesTurns(states: seq<System>, es: seq<Event>, active: seq<nat>, page: nat)
    requires Turning(states, es, active, page)
    ensures Mixed(states, es, active) && TakesTurns(states, es, page)
  {
    TurningIsRun(states, es, active, page);
    forall k | 0 <= k < |es|
      ensures !es[k].Reload? && !es[k].AuthorityChanged? && !es[k].FilterChanged?
      ensures StartsAny(states[k], es[k]) ==> Active(states[k]) == active
    {
      assert FitsAt(states, es, k, active, page);
    }
    forall k | 0 <= k < |es| && StartsAny(states[k], es[k])
      ensures es[k].ImportFailed? <==> AnyPassesBefore(states, es, k) % 2 == 1
      ensures es[k].ImportFailed? ==>
                var found := FindPage(states[k].core.pages, states[k].importing.value.id);
                found.Some? && found.value != page
    {
      assert FitsAt(states, es, k, active, page);
    }
  }

  lemma {:induction false} CountOfPrefix(states: seq<System>, es: seq<Event>, last: System, e: Event, k: nat)
    requires |states| == |es| + 1 && k <= |es|
    ensures AnyPassesBefore(states + [last], es + [e], k) == AnyPassesBefore(states, es, k)
  {
    if k > 0 {
      CountOfPrefix(states, es, last, e, k - 1);
    }
  }

  lemma LongerFits(states: seq<System>, es: seq<Event>, active: seq<nat>, page: nat, last: System, e: Event, k: nat)
    requires |states| == |es| + 1 && k <= |es|
    requires k < |es| ==> StepAt(states, es, k) && FitsAt(states, es, k, active, page)
    requires Enabled(states[|es|], e) && last == Step(states[|es|], e)
    requires Fits(states[|es|], e, AnyPassesBefore(states, es, |es|), active, page)
    ensures StepAt(states + [last], es + [e], k) && FitsAt(states + [last], es + [e], k, active, page)
  {
    CountOfPrefix(states, es, last, e, k);
  }

  lemma Turn(states: seq<System>, es: seq<Event>, active: seq<nat>, page: nat, e: Event)
    returns (longer: seq<System>, events: seq<Event>)
    requires Turning(states, es, active, page) && Enabled(states[|es|], e)
    requires Fits(states[|es|], e, AnyPassesBefore(states, es, |es|), active, page)
    ensures Turning(longer, events, active, page) && events == es + [e] && longer[0] == states[0]
    ensures longer[|events|] == Step(states[|es|], e)
    ensures AnyPassesBefore(longer, events, |events|) ==
            AnyPassesBefore(states, es, |es|) + if StartsAny(states[|es|], e) then 1 else 0
  {
    var last := Step(states[|es|], e);
    longer, events := states + [last], es + [e];
    forall k | 0 <= k < |events| ensures StepAt(longer, events, k) && FitsAt(longer, events, k, active, page) {
      LongerFits(states, es, active, page, last, e, k);
    }
    CountOfPrefix(states, es, last, e, |es|);
  }

  /** Answering a pass with what the page already holds changes neither pages nor list. */
  lemma SameAnswer(s: System, token: nat)
    requires Inv(s) && token in s.quiet && !Fenced(s.core, s.quiet[token]) && AllThere(s, token)
    ensures var f := s.quiet[token];
            var t := AnswerQuiet(s, token, Response(f.page.attachments, f.page.nextCursor));
            && t.core == s.core.(display := t.core.display)
            && (if f.rest == [] then t == EndQuiet(s.(core := t.core), token)
                else t == s.(core := t.core, quiet := s.quiet[token :=
                       f.(index := f.rest[0], page := s.core.pages[f.rest[0]], rest := f.rest[1..])]))
  {
    var f := s.quiet[token];
    assert s.core.pages[f.index := f.page] == s.core.pages;
  }

  /** The pass of `token` is the only one under way, and counts. */
  predicate OnlyPass(s: System, token: nat) {
    s.quiet.Keys == {token} && !Fenced(s.core, s.quiet[token]) && AllThere(s, token)
  }

  /** The answer that repeats what the page holds. */
  function SameAgain(s: System, token: nat): Event
    requires token in s.quiet
  {
    QuietAnswered(token, Ok(Response(s.quiet[token].page.attachments, s.quiet[token].page.nextCursor)))
  }

  /** What is left of the only pass under way after one such answer. */
  ghost predicate OneAnswered(s: System, t: System, token: nat)
    requires token in s.quiet
  {
    && t.core == s.core.(display := t.core.display)
    && (if s.quiet[token].rest == [] then t == EndQuiet(s.(core := t.core), token)
        else OnlyPass(t, token) && t.quiet[token].rest == s.quiet[token].rest[1..]
             && t == s.(core := t.core, quiet := t.quiet))
  }

  lemma SameAgainAnswers(s: System, token: nat)
    requires Inv(s) && OnlyPass(s, token)
    ensures Enabled(s, SameAgain(s, token)) && OneAnswered(s, Step(s, SameAgain(s, token)), token)
  {
    SameAnswer(s, token);
  }

  lemma AnswerOne(states: seq<System>, es: seq<Event>, active: seq<nat>, page: nat, token: nat)
    returns (longer: seq<System>, events: seq<Event>)
    requires Turning(states, es, active, page) && OnlyPass(states[|es|], token)
    ensures Turning(longer, events, active, page) && longer[0] == states[0]
    ensures AnyPassesBefore(longer, events, |events|) == AnyPassesBefore(states, es, |es|)
    ensures OneAnswered(states[|es|], longer[|events|], token)
  {
    InvAtEnd(states, es, active, page);
    SameAgainAnswers(states[|es|], token);
    longer, events := Turn(states, es, active, page, SameAgain(states[|es|], token));
  }

  lemma {:induction false} AnswerAll(states: seq<System>, es: seq<Event>, active: seq<nat>, page: nat, token: nat)
    returns (longer: seq<System>, events: seq<Event>)
    requires Turning(states, es, active, page) && OnlyPass(states[|es|], token)
    ensures Turning(longer, events, active, page) && longer[0] == states[0]
    ensures AnyPassesBefore(longer, events, |events|) == AnyPassesBefore(states, es, |es|)
    ensures var s, t := states[|es|], longer[|events|];
            && t.core == s.core.(display := t.core.display) && t.quiet == map[]
            && t == EndQuiet(s.(core := t.core), token)
    decreases |states[|es|].quiet[token].rest|
  {
    longer, events := AnswerOne(states, es, active, page, token);
    if states[|es|].quiet[token].rest != [] {
      longer, events := AnswerAll(longer, events, active, page, token);
    }
  }

  /** Nothing is under way, and the attachment stands on a loaded page other than the starved one. */
  ghost predicate Settled(s: System, active: seq<nat>, page: nat, id: string) {
    && Inv(s) && s.quiet == map[] && s.manual == map[] && s.importing.None?
    && s.core.pages != [] && Active(s) == active && HasId(s.core.shown, id)
    && FindPage(s.core.pages, id).Some? && FindPage(s.core.pages, id).value != page
  }

  /** The run so far has `p` passes, by turns and all answered. */
  ghost predicate Passes(states: seq<System>, es: seq<Event>, s: System, active: seq<nat>, page: nat, id: string,
                         p: nat) {
    && Turning(states, es, active, page) && states[0] == s && Settled(states[|es|], active, page, id)
    && AnyPassesBefore(states, es, |es|) == p
  }

  lemma PollAndAnswer(states: seq<System>, es: seq<Event>, s: System, active: seq<nat>, page: nat, id: string, p: nat)
    returns (longer: seq<System>, events: seq<Event>)
    requires Passes(states, es, s, active, page, id, p) && p % 2 == 0
    ensures Passes(longer, events, s, active, page, id, p + 1)
  {
    var now := states[|es|];
    assert now.core.manualCount == |now.manual| == 0;
    StartingPass(now, 0);
    longer, events := Turn(states, es, active, page, QuietPoll(0));
    longer, events := AnswerAll(longer, events, active, page, 0);
    InvAtEnd(longer, events, active, page);
  }

  lemma ImportBegins(s: System, active: seq<nat>, page: nat, id: string)
    requires Settled(s, active, page, id)
    ensures var t := Step(s, ImportStarted(id));
            && t == s.(core := Bump(s.core), importing := Some(Importing(id, s.core.filter, None)))
            && Enabled(t, ImportFailed(0)) && !StartsAny(s, ImportStarted(id)) && StartsAny(t, ImportFailed(0))
            && Active(t) == active
  {
  }

  lemma ForcedPass(s: System, id: string)
    requires Enabled(s, ImportFailed(0)) && s.quiet == map[] && s.core.pages != []
    requires s.importing.value.id == id && FindPage(s.core.pages, id).Some?
    ensures var t := Step(s, ImportFailed(0));
            && t.quiet.Keys == {0} && t.quiet[0].rest == [] && !Fenced(t.core, t.quiet[0])
            && t.core == s.core.(requestCounter := t.core.requestCounter, quietCounter := t.core.quietCounter,
                                 offset := t.core.offset)
            && t.manual == s.manual && t.importing == Some(s.importing.value.(refresh := Some(0)))
  {
  }

  lemma StartedImportFits(s: System, active: seq<nat>, page: nat, id: string, p: nat)
    requires Settled(s, active, page, id) && p % 2 == 1
    ensures Enabled(s, ImportStarted(id)) && Fits(s, ImportStarted(id), p, active, page)
    ensures var t := Step(s, ImportStarted(id));
            Enabled(t, ImportFailed(0)) && Fits(t, ImportFailed(0), p, active, page)
  {
  }

  /** An import begins and fails, which starts its pass. */
  lemma FailImport(states: seq<System>, es: seq<Event>, active: seq<nat>, page: nat, id: string)
    returns (longer: seq<System>, events: seq<Event>)
    requires Turning(states, es, active, page) && Settled(states[|es|], active, page, id)
    requires AnyPassesBefore(states, es, |es|) % 2 == 1
    ensures Turning(longer, events, active, page) && longer[0] == states[0]
    ensures AnyPassesBefore(longer, events, |events|) == AnyPassesBefore(states, es, |es|) + 1
    ensures longer[|events|] == Step(Step(states[|es|], ImportStarted(id)), ImportFailed(0))
  {
    ImportBegins(states[|es|], active, page, id);
    StartedImportFits(states[|es|], active, page, id, AnyPassesBefore(states, es, |es|));
    longer, events := Turn(states, es, active, page, ImportStarted(id));
    longer, events := Turn(longer, events, active, page, ImportFailed(0));
  }

  lemma FailAndAnswer(states: seq<System>, es: seq<Event>, s: System, active: seq<nat>, page: nat, id: string, p: nat)
    returns (longer: seq<System>, events: seq<Event>)
    requires Passes(states, es, s, active, page, id, p) && p % 2 == 1
    ensures Passes(longer, events, s, active, page, id, p + 1)
  {
    ImportBegins(states[|es|], active, page, id);
    ForcedPass(Step(states[|es|], ImportStarted(id)), id);
    longer, events := FailImport(states, es, active, page, id);
    longer, events := AnswerAll(longer, events, active, page, 0);
    InvAtEnd(longer, events, active, page);
  }

  lemma NoPasses(s: System, active: seq<nat>, page: nat, id: string)
    requires Settled(s, active, page, id)
    ensures Passes([s], [], s, active, page, id, 0)
  {
  }

  lemma OnePass(states: seq<System>, es: seq<Event>, s: System, active: seq<nat>, page: nat, id: string, p: nat)
    returns (longer: seq<System>, events: seq<Event>)
    requires Passes(states, es, s, active, page, id, p)
    ensures Passes(longer, events, s, active, page, id, p + 1)
  {
    if p % 2 == 0 {
      longer, events := PollAndAnswer(states, es, s, active, page, id, p);
    } else {
      longer, events := FailAndAnswer(states, es, s, active, page, id, p);
    }
  }

  /** From a settled state, polls and failed imports can take turns for any number of passes, all completing. */
  lemma StarvingRun(s: System, active: seq<nat>, page: nat, id: string, n: nat)
    returns (states: seq<System>, es: seq<Event>)
    requires Settled(s, active, page, id)
    ensures Mixed(states, es, active) && TakesTurns(states, es, page) && states[0] == s && states[|es|].quiet == map[]
    ensures AnyPassesBefore(states, es, |es|) == n
    ensures forall k :: 0 <= k < |es| && es[k].QuietAnswered? ==>
              es[k].outcome.Ok? && !Fenced(states[k].core, states[k].quiet[es[k].token])
  {
    states, es := [s], [];
    NoPasses(s, active, page, id);
    for p := 0 to n
      invariant Passes(states, es, s, active, page, id, p)
    {
      states, es := OnePass(states, es, s, active, page, id, p);
    }
    TurningTakesTurns(states, es, active, page);
    AnswersWereGood(states, es, active, page);
  }

  lemma AnswersWereGood(states: seq<System>, es: seq<Event>, active: seq<nat>, page: nat)
    requires Turning(states, es, active, page)
    ensures forall k :: 0 <= k < |es| && es[k].QuietAnswered? ==>
              && es[k].outcome.Ok? && es[k].token in states[k].quiet
              && !Fenced(states[k].core, states[k].quiet[es[k].token])
  {
    forall k | 0 <= k < |es| && es[k].QuietAnswered?
      ensures es[k].outcome.Ok? && es[k].token in states[k].quiet
      ensures !Fenced(states[k].core, states[k].quiet[es[k].token])
    {
      assert FitsAt(states, es, k, active, page);
    }
  }
}
