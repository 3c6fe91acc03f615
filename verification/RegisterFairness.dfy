/**
 Fairness of the rotation, lifted to the register: what the quiet passes of a run really refresh
 while loads, imports and other passes happen around them.
 */
module RegisterFairness {
  import opened Common
  import opened Attachments
  import opened Register
  import opened RegisterRuns
  import Rotation = QuietRotation

  // ---- One pass. ----

  /** An answer that replaces this page. */
  predicate Refreshes(s: System, e: Event, page: nat) {
    && e.QuietAnswered? && e.outcome.Ok? && e.token in s.quiet
    && !Fenced(s.core, s.quiet[e.token])
    && s.quiet[e.token].index == page
  }

  /** The pass of `token` has replaced this page between steps `k` and `i`. */
  ghost predicate RefreshedBy(states: seq<System>, es: seq<Event>, k: nat, i: nat, token: nat, page: nat)
    requires i <= |es| < |states|
  {
    exists m: nat :: k < m < i && Refreshes(states[m], es[m], page) && es[m].token == token
  }

  /** The pass of `token` that started at step `k` ran to its end at step `m`, its last answer counting. */
  ghost predicate Completed(states: seq<System>, es: seq<Event>, k: nat, m: nat, token: nat)
    requires |states| == |es| + 1
  {
    && k < m < |es|
    && (forall i :: k < i <= m ==> token in states[i].quiet)
    && es[m].QuietAnswered? && es[m].token == token && es[m].outcome.Ok?
    && !Fenced(states[m].core, states[m].quiet[token])
    && es[m].outcome.value.nextCursor == states[m].quiet[token].page.nextCursor
    && token !in states[m + 1].quiet
  }

  /** Every index the pass has left is that of a loaded page. */
  predicate AllThere(s: System, token: nat)
    requires token in s.quiet
  {
    forall k :: 0 <= k < |s.quiet[token].rest| ==> s.quiet[token].rest[k] < |s.core.pages|
  }

  lemma OtherAnswerKeepsPages(s: System, token: nat, other: nat, r: Response)
    requires Inv(s) && token in s.quiet && other in s.quiet && other != token && Unfenced(s.core, s.quiet[token])
    ensures AnswerQuiet(s, other, r).core == s.core
  {
  }

  lemma OwnAnswerGoesOn(s: System, token: nat, r: Response)
    requires Inv(s) && token in s.quiet && AllThere(s, token)
    requires token in AnswerQuiet(s, token, r).quiet
    ensures !Fenced(s.core, s.quiet[token]) && s.quiet[token].rest != []
    ensures var t, f := AnswerQuiet(s, token, r), s.quiet[token];
            && |t.core.pages| == |s.core.pages| && t.quiet[token].forced == f.forced
            && t.quiet[token].index == f.rest[0] && t.quiet[token].rest == f.rest[1..]
  {
  }

  lemma InvAt(states: seq<System>, es: seq<Event>, i: nat)
    requires IsRun(states, es) && Inv(states[0]) && i < |states|
    ensures Inv(states[i])
  {
    RunKeepsInv(states, es);
  }

  lemma AnswerKeepsNumbers(s: System, token: nat, r: Response)
    requires token in s.quiet
    ensures var t, f := AnswerQuiet(s, token, r), s.quiet[token];
            && t.core.requestCounter == s.core.requestCounter && t.core.quietCounter == s.core.quietCounter
            && (forall u :: u in t.quiet && u != token ==> u in s.quiet && t.quiet[u] == s.quiet[u])
            && (token in t.quiet ==> t.quiet[token].observed == f.observed && t.quiet[token].quietId == f.quietId)
  {
    NextFetchIsLive(QuietOk(s.core, s.quiet[token], r).0.pages, s.quiet[token]);
  }

  /** No step takes a counter back. */
  lemma CountersGoUp(s: System, e: Event)
    requires Inv(s) && Enabled(s, e)
    ensures s.core.requestCounter <= Step(s, e).core.requestCounter
    ensures s.core.quietCounter <= Step(s, e).core.quietCounter
  {
    match e
    case QuietPoll(_) => QuietStartSummary(s.core, None, s.core.filter);
    case ImportFailed(_) => QuietStartSummary(Bump(s.core), Some(s.importing.value.id), s.importing.value.filter);
    case QuietAnswered(other, Ok(r)) => AnswerKeepsNumbers(s, other, r);
    case _ =>
  }

  /** A pass keeps the numbers it started with. */
  lemma PassKeepsNumbers(s: System, e: Event, token: nat)
    requires Enabled(s, e) && token in s.quiet && token in Step(s, e).quiet
    ensures Step(s, e).quiet[token].observed == s.quiet[token].observed
    ensures Step(s, e).quiet[token].quietId == s.quiet[token].quietId
  {
    match e
    case QuietAnswered(other, Ok(r)) => AnswerKeepsNumbers(s, other, r);
    case _ =>
  }

  /** Once fenced off, a pass stays so. */
  lemma FencedStays(s: System, e: Event, token: nat)
    requires Inv(s) && Enabled(s, e) && token in s.quiet && token in Step(s, e).quiet
    requires Unfenced(Step(s, e).core, Step(s, e).quiet[token])
    ensures Unfenced(s.core, s.quiet[token])
  {
    var t := Step(s, e);
    CountersGoUp(s, e);
    PassKeepsNumbers(s, e, token);
    assert s.quiet[token].observed <= s.core.requestCounter && s.quiet[token].quietId <= s.core.quietCounter;
  }

  lemma OtherStepsLeavePass(s: System, e: Event, token: nat)
    requires Inv(s) && Enabled(s, e) && token in s.quiet && token in Step(s, e).quiet && !s.quiet[token].forced
    requires Unfenced(s.core, s.quiet[token]) && Unfenced(Step(s, e).core, Step(s, e).quiet[token])
    requires !(e.QuietAnswered? && e.token == token)
    ensures Step(s, e).quiet[token] == s.quiet[token] && |Step(s, e).core.pages| == |s.core.pages|
  {
    match e
    case QuietPoll(_) => QuietStartSummary(s.core, None, s.core.filter);
    case QuietAnswered(other, Ok(r)) => OtherAnswerKeepsPages(s, token, other, r);
    case _ =>
  }

  /** What is still to do: a page not refreshed yet is the one being fetched or in the rest. */
  ghost predicate PassInv(states: seq<System>, es: seq<Event>, k: nat, i: nat, token: nat, targets: seq<nat>)
    requires i <= |es| < |states|
  {
    && token in states[i].quiet && !states[i].quiet[token].forced && AllThere(states[i], token)
    && forall p :: p in targets ==>
                     || p == states[i].quiet[token].index || p in states[i].quiet[token].rest
                     || RefreshedBy(states, es, k, i, token, p)
  }

  lemma PassInvStep(states: seq<System>, es: seq<Event>, k: nat, i: nat, token: nat, targets: seq<nat>)
    requires IsRun(states, es) && k < i < |es| && Inv(states[i]) && PassInv(states, es, k, i, token, targets)
    requires token in states[i + 1].quiet
    requires Unfenced(states[i].core, states[i].quiet[token])
             && Unfenced(states[i + 1].core, states[i + 1].quiet[token])
    ensures PassInv(states, es, k, i + 1, token, targets)
  {
    var s, e := states[i], es[i];
    var f := s.quiet[token];
    if e.QuietAnswered? && e.token == token {
      assert e.outcome.Ok?;
      OwnAnswerGoesOn(s, token, e.outcome.value);
      assert Refreshes(s, e, f.index);
    } else {
      OtherStepsLeavePass(s, e, token);
    }
    forall p | p in targets
      ensures p == states[i + 1].quiet[token].index || p in states[i + 1].quiet[token].rest
              || RefreshedBy(states, es, k, i + 1, token, p)
    {
      if RefreshedBy(states, es, k, i, token, p) {
        var m: nat :| k < m < i && Refreshes(states[m], es[m], p) && es[m].token == token;
        assert m < i + 1;
      }
    }
  }

  lemma UnfencedBefore(states: seq<System>, es: seq<Event>, i: nat, token: nat)
    requires IsRun(states, es) && i < |es| && Inv(states[i])
    requires token in states[i].quiet && token in states[i + 1].quiet
    requires Unfenced(states[i + 1].core, states[i + 1].quiet[token])
    ensures Unfenced(states[i].core, states[i].quiet[token])
  {
    FencedStays(states[i], es[i], token);
  }

  lemma {:induction false} UnfencedThroughout(states: seq<System>, es: seq<Event>, k: nat, m: nat, token: nat, i: nat)
    requires IsRun(states, es) && Inv(states[0]) && Completed(states, es, k, m, token) && k < i <= m
    ensures Unfenced(states[i].core, states[i].quiet[token])
    decreases m - i
  {
    if i < m {
      UnfencedThroughout(states, es, k, m, token, i + 1);
      InvAt(states, es, i);
      UnfencedBefore(states, es, i, token);
    }
  }

  lemma PassGoesOn(states: seq<System>, es: seq<Event>, k: nat, m: nat, token: nat, i: nat, targets: seq<nat>)
    requires IsRun(states, es) && Inv(states[0]) && Completed(states, es, k, m, token) && k < i < m
    requires PassInv(states, es, k, i, token, targets)
    ensures PassInv(states, es, k, i + 1, token, targets)
  {
    InvAt(states, es, i);
    UnfencedThroughout(states, es, k, m, token, i);
    UnfencedThroughout(states, es, k, m, token, i + 1);
    PassInvStep(states, es, k, i, token, targets);
  }

  lemma {:induction false} PassInvAtEnd(states: seq<System>, es: seq<Event>, k: nat, m: nat, token: nat, i: nat,
                                        targets: seq<nat>)
    requires IsRun(states, es) && Inv(states[0]) && Completed(states, es, k, m, token) && k < i <= m
    requires PassInv(states, es, k, i, token, targets)
    ensures PassInv(states, es, k, m, token, targets)
    decreases m - i
  {
    if i < m {
      PassGoesOn(states, es, k, m, token, i, targets);
      PassInvAtEnd(states, es, k, m, token, i + 1, targets);
    }
  }

  // ---- The passes of a run. ----

  /** A poll that starts a pass: no load is pending and there are pages to refresh. */
  predicate Starts(s: System, e: Event) {
    e.QuietPoll? && s.core.manualCount <= 0 && s.core.pages != []
  }

  function Active(s: System): seq<nat> {
    ActivePages(s.core.pages, ActiveIds(s.core.snapshot))
  }

  lemma StartingPass(s: System, token: nat)
    requires Enabled(s, QuietPoll(token)) && Starts(s, QuietPoll(token))
    ensures var t := Step(s, QuietPoll(token));
            && t.core.pages == s.core.pages && token in t.quiet
            && t.quiet[token].index == 0 && !t.quiet[token].forced && AllThere(t, token)
            && t.quiet[token].rest == Rotation.Selected(Active(s), s.core.offset)
            && t.core.offset == Rotation.NextOffset(s.core.offset, |Active(s)|)
  {
    var targets := QuietTargets(s.core, None);
    QuietTargetsAreBounded(s.core, None);
    assert targets[1..] == Rotation.Selected(Active(s), s.core.offset);
    var rest := targets[1..];
    forall k | 0 <= k < |rest| ensures rest[k] < |s.core.pages| {
      assert rest[k] == targets[k + 1];
    }
  }

  lemma PassBegins(states: seq<System>, es: seq<Event>, k: nat)
    requires IsRun(states, es) && k < |es| && Starts(states[k], es[k])
    ensures PassInv(states, es, k, k + 1, es[k].token,
                    [0] + Rotation.Selected(Active(states[k]), states[k].core.offset))
  {
    StartingPass(states[k], es[k].token);
  }

  lemma LastAnswerRefreshes(states: seq<System>, es: seq<Event>, k: nat, m: nat, token: nat, targets: seq<nat>,
                            page: nat)
    requires IsRun(states, es) && Completed(states, es, k, m, token) && Inv(states[m])
    requires PassInv(states, es, k, m, token, targets) && page in targets
    ensures RefreshedBy(states, es, k, m + 1, token, page)
  {
    LastAnswerLeavesNothing(states[m], token, es[m].outcome.value);
    if RefreshedBy(states, es, k, m, token, page) {
      var n: nat :| k < n < m && Refreshes(states[n], es[n], page) && es[n].token == token;
      assert n < m + 1;
    } else {
      assert Refreshes(states[m], es[m], page);
    }
  }

  /** A pass that completes has itself refreshed the first page and every page of its window. */
  lemma CompletedPassRefreshes(states: seq<System>, es: seq<Event>, k: nat, m: nat, page: nat)
    requires IsRun(states, es) && Inv(states[0]) && k < |es| && Starts(states[k], es[k])
    requires Completed(states, es, k, m, es[k].token)
    requires page == 0 || page in Rotation.Selected(Active(states[k]), states[k].core.offset)
    ensures RefreshedBy(states, es, k, m + 1, es[k].token, page)
  {
    var targets := [0] + Rotation.Selected(Active(states[k]), states[k].core.offset);
    PassBegins(states, es, k);
    PassInvAtEnd(states, es, k, m, es[k].token, k + 1, targets);
    InvAt(states, es, m);
    LastAnswerRefreshes(states, es, k, m, es[k].token, targets, page);
  }

  lemma LastAnswerLeavesNothing(s: System, token: nat, r: Response)
    requires token in s.quiet && AllThere(s, token) && !Fenced(s.core, s.quiet[token])
    requires Inv(s) && r.nextCursor == s.quiet[token].page.nextCursor && token !in AnswerQuiet(s, token, r).quiet
    ensures s.quiet[token].rest == []
  {
  }

  // ---- Many passes. ----

  /** The passes started before step `k`. */
  function PassesBefore(states: seq<System>, es: seq<Event>, k: nat): nat
    requires k <= |es| < |states|
  {
    if k == 0 then 0 else PassesBefore(states, es, k - 1) + if Starts(states[k - 1], es[k - 1]) then 1 else 0
  }

  /**
   Nothing starts the list afresh, no import fails, and every pass finds the same active pages.
   Load-more, imports, snapshots, cancelled polls and late answers may happen at any time.
   */
  ghost predicate Steady(states: seq<System>, es: seq<Event>, active: seq<nat>) {
    && IsRun(states, es) && Inv(states[0])
    && (forall k :: 0 <= k < |es| ==>
          !es[k].Reload? && !es[k].AuthorityChanged? && !es[k].FilterChanged? && !es[k].ImportFailed?)
    && (forall k :: 0 <= k < |es| && Starts(states[k], es[k]) ==> Active(states[k]) == active)
  }

  lemma OffsetMovesWithPasses(s: System, e: Event)
    requires Enabled(s, e) && !e.Reload? && !e.AuthorityChanged? && !e.FilterChanged? && !e.ImportFailed?
    ensures Step(s, e).core.offset ==
            if Starts(s, e) then Rotation.NextOffset(s.core.offset, |Active(s)|) else s.core.offset
  {
    if e.QuietPoll? && Starts(s, e) {
      StartingPass(s, e.token);
    }
  }

  lemma {:induction false} OffsetOfPass(states: seq<System>, es: seq<Event>, active: seq<nat>, k: nat)
    requires Steady(states, es, active) && k <= |es|
    ensures states[k].core.offset == Rotation.OffsetBefore(states[0].core.offset, |active|, PassesBefore(states, es, k))
  {
    if k > 0 {
      OffsetOfPass(states, es, active, k - 1);
      OffsetMovesWithPasses(states[k - 1], es[k - 1]);
    }
  }

  lemma {:induction false} PassNumber(states: seq<System>, es: seq<Event>, k: nat, p: nat) returns (start: nat)
    requires k <= |es| < |states| && p < PassesBefore(states, es, k)
    ensures start < k && Starts(states[start], es[start]) && PassesBefore(states, es, start) == p
  {
    if p < PassesBefore(states, es, k - 1) {
      start := PassNumber(states, es, k - 1, p);
    } else {
      start := k - 1;
    }
  }

  ghost predicate Completes(states: seq<System>, es: seq<Event>, k: nat)
    requires k < |es| && |states| == |es| + 1 && es[k].QuietPoll?
  {
    exists m :: Completed(states, es, k, m, es[k].token)
  }

  /**
   Fairness of the register: if the active pages stay the same and ceil(n / 4) passes start and
   complete, then one of them has fetched the page anew, for every active page.
   */
  lemma EveryActivePageIsRefreshed(states: seq<System>, es: seq<Event>, active: seq<nat>, j: nat)
    returns (k: nat, m: nat)
    requires Steady(states, es, active) && j < |active|
    requires PassesBefore(states, es, |es|) >= Rotation.CeilDiv(|active|, Rotation.ROTATING_CAPACITY)
    requires forall k :: 0 <= k < |es| && Starts(states[k], es[k]) ==> Completes(states, es, k)
    ensures k < |es| && Starts(states[k], es[k]) && Completed(states, es, k, m, es[k].token)
    ensures RefreshedBy(states, es, k, m + 1, es[k].token, active[j])
  {
    var first := PassNumber(states, es, |es|, 0);
    assert Active(states[first]) == active;
    var p := Rotation.EveryActivePageIsVisited(active, states[0].core.offset, j);
    k := PassNumber(states, es, |es|, p);
    OffsetOfPass(states, es, active, k);
    assert Completes(states, es, k);
    m :| Completed(states, es, k, m, es[k].token);
    CompletedPassRefreshes(states, es, k, m, active[j]);
  }

  // ---- A list that was begun afresh. ----

  lemma FirstLoadStartsOver(s: System, e: Event)
    requires Enabled(s, e) && (e.Reload? || e.AuthorityChanged? || e.FilterChanged?)
    ensures Step(s, e).core.offset == 0 && Step(s, e).core.pages == [] && Step(s, e).core.shown == []
  {
  }

  lemma RotationFromZero(states: seq<System>, es: seq<Event>, active: seq<nat>, k: nat, j: nat)
    requires Steady(states, es, active) && states[0].core.offset == 0 && k < |es| && Starts(states[k], es[k])
    requires j < |active|
    ensures active[j] in Rotation.Selected(active, states[k].core.offset) <==>
            |active| <= 4 || (j - 4 * PassesBefore(states, es, k)) % |active| < 4
  {
    OffsetOfPass(states, es, active, k);
    assert Active(states[k]) == active;
    Rotation.PassVisitsFromZero(active, PassesBefore(states, es, k), j);
  }

  /**
   After a list was begun afresh the rotation starts over: whatever went before, pass `p` asks for the
   `j`-th active page exactly if all fit one pass or the page is in the `p`-th window of four.
   */
  lemma RotationStartsOver(s: System, e: Event, states: seq<System>, es: seq<Event>, active: seq<nat>, k: nat, j: nat)
    requires Enabled(s, e) && (e.Reload? || e.AuthorityChanged? || e.FilterChanged?)
    requires Steady(states, es, active) && states[0] == Step(s, e) && k < |es| && Starts(states[k], es[k])
    requires j < |active|
    ensures active[j] in Rotation.Selected(active, states[k].core.offset) <==>
            |active| <= 4 || (j - 4 * PassesBefore(states, es, k)) % |active| < 4
  {
    FirstLoadStartsOver(s, e);
    RotationFromZero(states, es, active, k, j);
  }
}
