/** Every interleaving of prepare, approve, discard and their answers, for all Inbox entries at once. */
module WebMcpRuns {
  import opened Common
  import opened WebMcpApproval

  /** The handlers' state together with everything sent so far. */
  datatype World = World(app: App, finals: seq<Submission>, requests: seq<Selection>)

  datatype Event =
    | PrepareClicked(selection: Selection, page: Page)
    | ApproveClicked(selection: Selection, challenge: Challenge, page: Page, op: string)
    | DiscardClicked(entryId: string)
    | ChallengeAnswered(answer: Option<Challenge>)
    | ApprovalAnswered(outcome: Outcome)

  const Start: World := World(App(map[], map[], None), [], [])

  function FlightEntry(f: Flight): string {
    if f.Preparing? then f.selection.entryId else f.entryId
  }

  /**
   What the page lets happen: an answer belongs to the flight in progress, the discard button is
   disabled while its entry is in flight, and an approval carries the dossier that is on display,
   challenge IDs being unique.
   */
  predicate Enabled(w: World, e: Event) {
    match e
    case PrepareClicked(_, _) => true
    case ApproveClicked(s, c, _, _) =>
      s.entryId in w.app.reviews && w.app.reviews[s.entryId].challenge.id == c.id ==>
          w.app.reviews[s.entryId].challenge == c
    case DiscardClicked(entryId) => w.app.flight.Some? ==> FlightEntry(w.app.flight.value) != entryId
    case ChallengeAnswered(_) => w.app.flight.Some? && w.app.flight.value.Preparing?
    case ApprovalAnswered(_) => w.app.flight.Some? && w.app.flight.value.Approving?
  }

  function Note(w: World, app: App, sent: Sent): World {
    match sent
    case Nothing => w.(app := app)
    case Request(s) => w.(app := app, requests := w.requests + [s])
    case Final(submission) => w.(app := app, finals := w.finals + [submission])
  }

  function Step(w: World, e: Event): World
    requires Enabled(w, e)
  {
    match e
    case PrepareClicked(s, page) =>
      var (app, request) := Prepare(w.app, s, page);
      Note(w, app, if request.Some? then Request(request.value) else Nothing)
    case ApproveClicked(s, c, page, op) =>
      var (app, sent) := Approve(w.app, s, c, page, op);
      Note(w, app, sent)
    case DiscardClicked(entryId) => w.(app := Discard(w.app, entryId))
    case ChallengeAnswered(answer) => w.(app := Prepared(w.app, w.app.flight.value.selection, answer))
    case ApprovalAnswered(outcome) =>
      var f := w.app.flight.value;
      w.(app := Answered(w.app, f.entryId, f.challenge, outcome))
  }

  ghost predicate IsRun(states: seq<World>, es: seq<Event>) {
    && |states| == |es| + 1
    && (forall i :: 0 <= i < |es| ==> Enabled(states[i], es[i]) && states[i + 1] == Step(states[i], es[i]))
  }

  // ---- The invariant. ----

  /** A stored submission is exactly what the stored review's challenge authorises. */
  ghost predicate Bound(r: Review, stored: Stored) {
    && stored.key == SelectionKey(r.challenge.selection)
    && stored.key == SelectionKey(stored.submission.selection)
    && stored.submission.challengeId == r.challenge.id
    && stored.submission.evidenceDigest == r.challenge.evidenceDigest
    && stored.submission.expectedVersion == r.challenge.expectedVersion
  }

  ghost predicate FlightOk(a: App, f: Flight) {
    match f
    case Preparing(s) => s.entryId !in a.finals
    case Approving(e, c, submission) =>
      && e in a.reviews && a.reviews[e].challenge == c
      && e in a.finals && a.finals[e].submission == submission
  }

  ghost predicate Inv(a: App) {
    && (forall e :: e in a.finals ==> e in a.reviews && Bound(a.reviews[e], a.finals[e]))
    && (forall e :: e in a.finals ==> a.finals[e].submission.selection.entryId == e)
    && (forall e :: IsUnknown(a, e) ==> e in a.finals)
    && (a.flight.Some? ==> FlightOk(a, a.flight.value))
  }

  lemma ClearKeepsInv(a: App, entryId: string)
    requires Inv(a) && (a.flight.Some? ==> FlightEntry(a.flight.value) != entryId)
    ensures Inv(Clear(a, entryId))
  {
  }

  lemma PrepareKeepsInv(a: App, s: Selection, page: Page)
    requires Inv(a)
    ensures Inv(Prepare(a, s, page).0)
  {
    if a.flight.None? && !IsUnknown(a, s.entryId) {
      ClearKeepsInv(a, s.entryId);
    }
  }

  /** A submission goes out under the dossier on display. */
  lemma SendKeepsInv(a: App, s: Selection, c: Challenge, submission: Submission)
    requires Inv(a) && a.flight.None?
    requires s.entryId in a.reviews && a.reviews[s.entryId].challenge == c
    requires submission.selection.entryId == s.entryId
    requires Bound(a.reviews[s.entryId], Stored(SelectionKey(s), submission))
    ensures Inv(a.(finals := a.finals[s.entryId := Stored(SelectionKey(s), submission)],
                   flight := Some(Approving(s.entryId, c, submission))))
  {
  }

  lemma ApproveKeepsInv(w: World, s: Selection, c: Challenge, page: Page, op: string)
    requires Inv(w.app) && Enabled(w, ApproveClicked(s, c, page, op))
    ensures Inv(Approve(w.app, s, c, page, op).0)
  {
    var a, e := w.app, s.entryId;
    if a.flight.None? {
      if (!page.resolved && !RetryingUnknown(a, s)) || !ChallengeIsCurrent(a, s, c) {
        ClearKeepsInv(a, e);
      } else if e !in a.finals && (c.expiresAt <= page.now || c.expectedVersion != page.version) {
        ClearKeepsInv(a, e);
        PrepareKeepsInv(Clear(a, e), s, page);
      } else {
        assert a.reviews[e].challenge == c;
        if e in a.finals {
          assert Bound(a.reviews[e], a.finals[e]);
          SendKeepsInv(a, s, c, a.finals[e].submission);
        } else {
          SendKeepsInv(a, s, c, FreshSubmission(s, c, op));
        }
      }
    }
  }

  lemma PreparedKeepsInv(a: App, s: Selection, challenge: Option<Challenge>)
    requires Inv(a) && a.flight == Some(Preparing(s))
    ensures Inv(Prepared(a, s, challenge))
  {
  }

  lemma AnsweredKeepsInv(a: App, e: string, c: Challenge, submission: Submission, outcome: Outcome)
    requires Inv(a) && a.flight == Some(Approving(e, c, submission))
    ensures Inv(Answered(a, e, c, outcome))
  {
    assert Bound(a.reviews[e], a.finals[e]);
  }

  lemma AnswersKeepInv(w: World, e: Event)
    requires Inv(w.app) && Enabled(w, e) && (e.ChallengeAnswered? || e.ApprovalAnswered?)
    ensures Inv(Step(w, e).app)
  {
    match e
    case ChallengeAnswered(challenge) => PreparedKeepsInv(w.app, w.app.flight.value.selection, challenge);
    case ApprovalAnswered(outcome) =>
      var f := w.app.flight.value;
      AnsweredKeepsInv(w.app, f.entryId, f.challenge, f.submission, outcome);
  }

  lemma StepKeepsInv(w: World, e: Event)
    requires Inv(w.app) && Enabled(w, e)
    ensures Inv(Step(w, e).app)
  {
    match e
    case PrepareClicked(s, page) => PrepareKeepsInv(w.app, s, page);
    case ApproveClicked(s, c, page, op) => ApproveKeepsInv(w, s, c, page, op);
    case DiscardClicked(entryId) => ClearKeepsInv(w.app, entryId);
    case _ => AnswersKeepInv(w, e);
  }

  lemma {:induction false} RunKeepsInv(states: seq<World>, es: seq<Event>)
    requires IsRun(states, es) && Inv(states[0].app)
    ensures forall i :: 0 <= i < |states| ==> Inv(states[i].app)
  {
    for n := 0 to |es|
      invariant forall i :: 0 <= i <= n ==> Inv(states[i].app)
    {
      StepKeepsInv(states[n], es[n]);
    }
  }

  /** In every state of every run a stored submission has a stored review with the same selection key. */
  lemma StoredSubmissionsAreReviewed(states: seq<World>, es: seq<Event>, i: nat)
    requires IsRun(states, es) && states[0] == Start && i < |states|
    ensures forall e :: e in states[i].app.finals ==>
              && e in states[i].app.reviews
              && states[i].app.finals[e].key == SelectionKey(states[i].app.reviews[e].challenge.selection)
  {
    RunKeepsInv(states, es);
    assert Inv(states[i].app);
  }

  // ---- An unknown outcome. ----

  predicate Closes(w: World, e: Event, entryId: string) {
    && e.ApprovalAnswered? && !e.outcome.Unknown?
    && w.app.flight.Some? && w.app.flight.value.Approving? && w.app.flight.value.entryId == entryId
  }

  /**
   While the outcome is unknown, nothing but a closed answer changes the entry's evidence or its
   submission; no evidence is requested for it; and what is sent for it is that submission.
   */
  lemma UnknownIsFrozen(w: World, e: Event, entryId: string)
    requires Inv(w.app) && Enabled(w, e) && IsUnknown(w.app, entryId) && !Closes(w, e, entryId)
    ensures var t := Step(w, e);
            && IsUnknown(t.app, entryId)
            && t.app.reviews[entryId].challenge == w.app.reviews[entryId].challenge
            && t.app.finals[entryId] == w.app.finals[entryId]
            && w.requests <= t.requests && w.finals <= t.finals
            && (forall k :: |w.requests| <= k < |t.requests| ==> t.requests[k].entryId != entryId)
            && (forall k :: |w.finals| <= k < |t.finals| ==>
                  t.finals[k].selection.entryId == entryId ==> t.finals[k] == w.app.finals[entryId].submission)
  {
    match e
    case ApproveClicked(s, c, page, op) => ApproveWhileUnknown(w, s, c, page, op, entryId);
    case _ =>
  }

  /** An approval click sends the stored submission for the entry, or something for another entry. */
  lemma ApproveWhileUnknown(w: World, s: Selection, c: Challenge, page: Page, op: string, entryId: string)
    requires Inv(w.app) && Enabled(w, ApproveClicked(s, c, page, op)) && IsUnknown(w.app, entryId)
    ensures var (app, sent) := Approve(w.app, s, c, page, op);
            && IsUnknown(app, entryId) && entryId in app.finals
            && app.reviews[entryId].challenge == w.app.reviews[entryId].challenge
            && app.finals[entryId] == w.app.finals[entryId]
            && (sent.Request? ==> sent.selection.entryId != entryId)
            && (sent.Final? && sent.submission.selection.entryId == entryId ==>
                    sent.submission == w.app.finals[entryId].submission)
  {
    assert Bound(w.app.reviews[entryId], w.app.finals[entryId]);
    if s.entryId != entryId && s.entryId in w.app.finals {
      assert w.app.finals[s.entryId].submission.selection.entryId == s.entryId;
    }
  }

  /** Over any stretch of a run without a closed answer, every send for the entry is the same submission. */
  lemma {:induction false} UnknownRunSendsOneSubmission(states: seq<World>, es: seq<Event>, entryId: string)
    requires IsRun(states, es) && Inv(states[0].app) && IsUnknown(states[0].app, entryId)
    requires forall i :: 0 <= i < |es| ==> !Closes(states[i], es[i], entryId)
    ensures var s, t := states[0], states[|es|];
            && IsUnknown(t.app, entryId) && entryId in t.app.finals
            && |s.finals| <= |t.finals| && |s.requests| <= |t.requests|
            && (forall k :: |s.requests| <= k < |t.requests| ==> t.requests[k].entryId != entryId)
            && (forall k :: |s.finals| <= k < |t.finals| ==>
                  t.finals[k].selection.entryId == entryId ==> t.finals[k] == s.app.finals[entryId].submission)
  {
    RunKeepsInv(states, es);
    var s := states[0];
    for n := 0 to |es|
      invariant IsUnknown(states[n].app, entryId)
      invariant states[n].app.finals[entryId] == s.app.finals[entryId]
      invariant |s.finals| <= |states[n].finals| && |s.requests| <= |states[n].requests|
      invariant forall k :: |s.requests| <= k < |states[n].requests| ==> states[n].requests[k].entryId != entryId
      invariant forall k :: |s.finals| <= k < |states[n].finals| ==>
                  states[n].finals[k].selection.entryId == entryId ==>
                      states[n].finals[k] == s.app.finals[entryId].submission
    {
      UnknownIsFrozen(states[n], es[n], entryId);
    }
  }

  /** The retry is always open: it sends the same bytes even if the intent drifted or the evidence expired. */
  lemma RetrySendsTheSame(w: World, s: Selection, page: Page, op: string)
    requires Inv(w.app) && w.app.flight.None? && IsUnknown(w.app, s.entryId)
    requires s == w.app.reviews[s.entryId].challenge.selection
    ensures var c := w.app.reviews[s.entryId].challenge;
            && Enabled(w, ApproveClicked(s, c, page, op))
            && Approve(w.app, s, c, page, op).1 == Final(w.app.finals[s.entryId].submission)
  {
    assert Bound(w.app.reviews[s.entryId], w.app.finals[s.entryId]);
  }

  /** A first send happens only under a displayed, unexpired dossier for this revision, and binds it. */
  lemma FirstSendIsConsented(w: World, s: Selection, c: Challenge, page: Page, op: string)
    requires Inv(w.app) && Enabled(w, ApproveClicked(s, c, page, op)) && s.entryId !in w.app.finals
    requires Approve(w.app, s, c, page, op).1.Final?
    ensures page.resolved && page.now < c.expiresAt && c.expectedVersion == page.version
    ensures w.app.reviews[s.entryId] == Review(c, false) && SelectionKey(c.selection) == SelectionKey(s)
    ensures Approve(w.app, s, c, page, op).1.submission == FreshSubmission(s, c, op)
  {
  }

  // ---- The guard that lives only in the button. ----

  /** Discarding without the button's guard keeps the invariant unless the entry's first approval is in flight. */
  lemma DiscardIsSafeExactly(a: App, entryId: string)
    requires Inv(a)
    ensures Inv(Discard(a, entryId)) <==>
            !(&& a.flight.Some? && a.flight.value.Approving? && a.flight.value.entryId == entryId
              && !IsUnknown(a, entryId))
  {
  }

  /** Unguarded, the discard loses the operation: after a lost answer the retry is sent under a second ID. */
  lemma UnguardedDiscardSplitsTheOperation(s: Selection, c: Challenge, page: Page, op1: string, op2: string)
    requires c.selection == s && page.resolved && page.now < c.expiresAt && c.expectedVersion == page.version
    requires op1 != op2
    ensures var shown := App(map[s.entryId := Review(c, false)], map[], None);
            var (sent, first) := Approve(shown, s, c, page, op1);
            var lost := Answered(Discard(sent, s.entryId), s.entryId, c, Unknown);
            var second := Approve(lost, s, c, page, op2).1;
            Inv(shown) && first == Final(FreshSubmission(s, c, op1)) && second == Final(FreshSubmission(s, c, op2))
  {
  }

  // ---- From the first click to the closed answer. ----

  /**
   A prepared dossier can be approved: the click asks for it, its answer puts it on display, and the
   approval sends a submission of exactly this operation, selection, version and evidence.
   */
  lemma PreparedCanBeApproved(w: World, s: Selection, c: Challenge, page: Page, op: string)
    returns (w1: World, w2: World, w3: World)
    requires w.app.flight.None? && !IsUnknown(w.app, s.entryId) && page.resolved
    requires c.selection == s && page.now < c.expiresAt && c.expectedVersion == page.version
    ensures Enabled(w, PrepareClicked(s, page)) && w1 == Step(w, PrepareClicked(s, page))
    ensures w1.requests == w.requests + [s]
    ensures Enabled(w1, ChallengeAnswered(Some(c))) && w2 == Step(w1, ChallengeAnswered(Some(c)))
    ensures s.entryId in w2.app.reviews && w2.app.reviews[s.entryId].challenge == c
    ensures Enabled(w2, ApproveClicked(s, c, page, op)) && w3 == Step(w2, ApproveClicked(s, c, page, op))
    ensures w3.finals == w.finals + [Submission(op, page.version, s, c.id, c.evidenceDigest)]
  {
    w1 := Step(w, PrepareClicked(s, page));
    w2 := Step(w1, ChallengeAnswered(Some(c)));
    w3 := Step(w2, ApproveClicked(s, c, page, op));
  }

  /** A challenge that could not be had leaves the entry without dossier and submission, and others as they were. */
  lemma FailedPrepareLeavesNothing(w: World, s: Selection, page: Page, other: string)
    requires w.app.flight.None? && !IsUnknown(w.app, s.entryId) && page.resolved && other != s.entryId
    ensures var t := Step(Step(w, PrepareClicked(s, page)), ChallengeAnswered(None)).app;
            && t.flight.None? && s.entryId !in t.reviews && s.entryId !in t.finals
            && (other in t.reviews <==> other in w.app.reviews) && (other in t.finals <==> other in w.app.finals)
            && (other in t.reviews ==> t.reviews[other] == w.app.reviews[other])
            && (other in t.finals ==> t.finals[other] == w.app.finals[other])
  {
  }

  /** A closed answer ends the entry's approval, the outcome being known, and touches no other entry. */
  lemma ClosedAnswerEndsApproval(w: World, e: Event, entryId: string, other: string)
    requires Enabled(w, e) && Closes(w, e, entryId) && other != entryId
    ensures var t := Step(w, e).app;
            && t.flight.None? && entryId !in t.reviews && entryId !in t.finals
            && (other in t.reviews <==> other in w.app.reviews) && (other in t.finals <==> other in w.app.finals)
            && (other in t.reviews ==> t.reviews[other] == w.app.reviews[other])
            && (other in t.finals ==> t.finals[other] == w.app.finals[other])
  {
  }

  // ---- What an approval click does with the dossier it carries. ----

  /** The entry is put away and all others stay. */
  predicate PutsAway(a: App, t: App, entryId: string) {
    && t.reviews == a.reviews - {entryId} && t.finals == a.finals - {entryId}
  }

  /** A submission goes out only for the dossier on display, in all its parts, whatever the page claims. */
  lemma SentOnlyForDossierOnDisplay(a: App, s: Selection, c: Challenge, page: Page, op: string)
    requires Approve(a, s, c, page, op).1.Final?
    ensures a.flight.None? && s.entryId in a.reviews
    ensures a.reviews[s.entryId].challenge.id == c.id
    ensures a.reviews[s.entryId].challenge.evidenceDigest == c.evidenceDigest
    ensures SelectionKey(c.selection) == SelectionKey(s)
  {
  }

  /** An approval for another dossier than the one on display sends nothing and, unless unknown, puts the entry away. */
  lemma OutdatedDossierIsPutAway(a: App, s: Selection, c: Challenge, page: Page, op: string)
    requires a.flight.None? && s.entryId in a.reviews
    requires || a.reviews[s.entryId].challenge.id != c.id
             || a.reviews[s.entryId].challenge.evidenceDigest != c.evidenceDigest
    ensures var (t, sent) := Approve(a, s, c, page, op);
            sent.Nothing? && if a.reviews[s.entryId].finalOutcomeUnknown then t == a else PutsAway(a, t, s.entryId)
  {
  }

  /** A first approval of a dossier that has expired, or is of another version, asks for a new one instead. */
  lemma ExpiredDossierIsRenewed(w: World, s: Selection, c: Challenge, page: Page, op: string)
    requires Inv(w.app) && w.app.flight.None? && s.entryId !in w.app.finals && page.resolved
    requires s.entryId in w.app.reviews && w.app.reviews[s.entryId].challenge == c && c.selection == s
    requires c.expiresAt <= page.now || c.expectedVersion != page.version
    ensures Enabled(w, ApproveClicked(s, c, page, op))
    ensures var t := Step(w, ApproveClicked(s, c, page, op));
            && t.requests == w.requests + [s] && t.finals == w.finals
            && PutsAway(w.app, t.app, s.entryId) && t.app.flight == Some(Preparing(s))
  {
  }

  /** A prepare click for what no longer resolves asks for nothing and, unless unknown, puts the entry away. */
  lemma UnresolvedPrepareIsPutAway(w: World, s: Selection, page: Page)
    requires w.app.flight.None? && !page.resolved
    ensures var t := Step(w, PrepareClicked(s, page));
            && t.requests == w.requests && t.finals == w.finals && t.app.flight.None?
            && if IsUnknown(w.app, s.entryId) then t.app == w.app else PutsAway(w.app, t.app, s.entryId)
  {
  }
}
