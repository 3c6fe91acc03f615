/**
 The two-phase approval of a WebMCP proposal: prepare an evidence challenge, review it, then
 send one frozen submission and keep it until the server gives a closed answer.
 */
module WebMcpApproval {
  import opened Common

  datatype Decision = CreateNew | UseExisting(canonicalPaperId: string)

  datatype Selection = Selection(entryId: string, proposalDigest: string, projectId: string, decision: Decision)

  /** The evidence dossier: what it was prepared for, and until when. */
  datatype Challenge = Challenge(
    id: string,
    evidenceDigest: string,
    selection: Selection,
    expectedVersion: nat,
    expiresAt: int)

  /** The frozen submission stands for the exact bytes that are sent. */
  datatype Submission = Submission(
    op: string,
    expectedVersion: nat,
    selection: Selection,
    challengeId: string,
    evidenceDigest: string)

  datatype Review = Review(challenge: Challenge, finalOutcomeUnknown: bool)

  datatype Stored = Stored(key: string, submission: Submission)

  datatype Flight =
    | Preparing(selection: Selection)
    | Approving(entryId: string, challenge: Challenge, submission: Submission)

  datatype App = App(reviews: map<string, Review>, finals: map<string, Stored>, flight: Option<Flight>)

  /** A closed answer proves whether the approval applied; anything else leaves it unknown. */
  datatype Outcome = Approved | Rejected | Unknown

  /** The page around a call: whether the selection still resolves, the workspace revision, the time. */
  datatype Page = Page(resolved: bool, version: nat, now: int)

  // ---- The selection key. ----

  const NUL: char := '\0'

  function Join(parts: seq<string>): string {
    if parts == [] then ""
    else if |parts| == 1 then parts[0]
    else parts[0] + [NUL] + Join(parts[1..])
  }

  function KeyParts(s: Selection): seq<string> {
    [s.entryId, s.proposalDigest, s.projectId,
     if s.decision.CreateNew? then "create_new" else "use_existing",
     if s.decision.UseExisting? then s.decision.canonicalPaperId else ""]
  }

  function SelectionKey(s: Selection): string {
    Join(KeyParts(s))
  }

  predicate NulFree(s: string) {
    NUL !in s
  }

  predicate NulFreeIds(s: Selection) {
    && NulFree(s.entryId) && NulFree(s.proposalDigest) && NulFree(s.projectId)
    && (s.decision.UseExisting? ==> NulFree(s.decision.canonicalPaperId))
  }

  /** The length of the part before the first NUL. */
  function FirstNul(s: string): (n: nat)
    ensures n <= |s|
  {
    if s == "" || s[0] == NUL then 0 else 1 + FirstNul(s[1..])
  }

  lemma {:induction false} FirstNulOf(a: string, rest: string)
    requires NulFree(a)
    ensures FirstNul(a + [NUL] + rest) == |a|
  {
    if a != "" {
      FirstNulOf(a[1..], rest);
      assert (a + [NUL] + rest)[1..] == a[1..] + [NUL] + rest;
    }
  }

  /** Splitting at the first NUL is unambiguous. */
  lemma FirstPartIsUnique(a: string, s: string, b: string, t: string)
    requires NulFree(a) && NulFree(b) && a + [NUL] + s == b + [NUL] + t
    ensures a == b && s == t
  {
    FirstNulOf(a, s);
    FirstNulOf(b, t);
    var u := a + [NUL] + s;
    assert a == u[..|a|] && b == u[..|a|];
    assert s == u[|a| + 1..] && t == u[|a| + 1..];
  }

  lemma {:induction false} JoinIsInjective(xs: seq<string>, ys: seq<string>)
    requires |xs| == |ys| && Join(xs) == Join(ys)
    requires forall i :: 0 <= i < |xs| ==> NulFree(xs[i]) && NulFree(ys[i])
    ensures xs == ys
    decreases |xs|
  {
    if |xs| == 1 {
      assert xs == [xs[0]] && ys == [ys[0]];
    } else if |xs| > 1 {
      FirstPartIsUnique(xs[0], Join(xs[1..]), ys[0], Join(ys[1..]));
      JoinIsInjective(xs[1..], ys[1..]);
      assert xs == [xs[0]] + xs[1..] && ys == [ys[0]] + ys[1..];
    }
  }

  /** On NUL-free IDs, equal keys mean equal selections. */
  lemma KeyIsInjective(s: Selection, t: Selection)
    requires NulFreeIds(s) && NulFreeIds(t)
    ensures SelectionKey(s) == SelectionKey(t) <==> s == t
  {
    if SelectionKey(s) == SelectionKey(t) {
      JoinIsInjective(KeyParts(s), KeyParts(t));
      assert KeyParts(s)[0] == KeyParts(t)[0] && KeyParts(s)[1] == KeyParts(t)[1] && KeyParts(s)[2] == KeyParts(t)[2];
      assert KeyParts(s)[3] == KeyParts(t)[3] && KeyParts(s)[4] == KeyParts(t)[4];
      assert "create_new"[0] != "use_existing"[0];
    }
  }

  // ---- The handlers. ----

  predicate IsUnknown(a: App, entryId: string) {
    entryId in a.reviews && a.reviews[entryId].finalOutcomeUnknown
  }

  function Clear(a: App, entryId: string): App {
    a.(reviews := a.reviews - {entryId}, finals := a.finals - {entryId})
  }

  function Discard(a: App, entryId: string): App {
    if IsUnknown(a, entryId) then a else Clear(a, entryId)
  }

  /** The second component is the challenge request that goes out. */
  function Prepare(a: App, s: Selection, page: Page): (App, Option<Selection>) {
    if a.flight.Some? || IsUnknown(a, s.entryId) then (a, None)
    else if !page.resolved then (Clear(a, s.entryId), None)
    else (Clear(a, s.entryId).(flight := Some(Preparing(s))), Some(s))
  }

  function Prepared(a: App, s: Selection, challenge: Option<Challenge>): App {
    var landed := a.(flight := None);
    if challenge.None? then landed
    else landed.(reviews := a.reviews[s.entryId := Review(challenge.value, false)])
  }

  predicate ChallengeIsCurrent(a: App, s: Selection, c: Challenge) {
    && s.entryId in a.reviews
    && a.reviews[s.entryId].challenge.id == c.id
    && a.reviews[s.entryId].challenge.evidenceDigest == c.evidenceDigest
    && SelectionKey(c.selection) == SelectionKey(s)
  }

  predicate RetryingUnknown(a: App, s: Selection) {
    IsUnknown(a, s.entryId) && s.entryId in a.finals && a.finals[s.entryId].key == SelectionKey(s)
  }

  function FreshSubmission(s: Selection, c: Challenge, op: string): Submission {
    Submission(op, c.expectedVersion, s, c.id, c.evidenceDigest)
  }

  datatype Sent = Nothing | Request(selection: Selection) | Final(submission: Submission)

  /** `op` is the operation ID that would be minted for a fresh submission. */
  function Approve(a: App, s: Selection, c: Challenge, page: Page, op: string): (App, Sent) {
    var e := s.entryId;
    if a.flight.Some? then (a, Nothing)
    else if (!page.resolved && !RetryingUnknown(a, s)) || !ChallengeIsCurrent(a, s, c) then
      (if IsUnknown(a, e) then a else Clear(a, e), Nothing)
    else if e !in a.finals && (c.expiresAt <= page.now || c.expectedVersion != page.version) then
      var (b, request) := Prepare(Clear(a, e), s, page);
      (b, if request.Some? then Request(request.value) else Nothing)
    else
      var submission :=
        if e in a.finals && a.finals[e].key == SelectionKey(s) then a.finals[e].submission
        else FreshSubmission(s, c, op);
      (a.(finals := a.finals[e := Stored(SelectionKey(s), submission)], flight := Some(Approving(e, c, submission))),
       Final(submission))
  }

  function Answered(a: App, e: string, c: Challenge, outcome: Outcome): App {
    if outcome.Unknown? then a.(flight := None, reviews := a.reviews[e := Review(c, true)])
    else Clear(a, e).(flight := None)
  }

  /** The live app's state and refs for approvals, updated in place. */
  class Approvals {
    var reviews: map<string, Review>
    var finalSubmissions: map<string, Stored>
    var approvalInFlight: Option<Flight>

    function View(): App
      reads this
    {
      App(reviews, finalSubmissions, approvalInFlight)
    }

    constructor ()
      ensures View() == App(map[], map[], None)
    {
      reviews, finalSubmissions, approvalInFlight := map[], map[], None;
    }

    method ClearReview(entryId: string)
      modifies this
      ensures View() == Clear(old(View()), entryId)
    {
      finalSubmissions := finalSubmissions - {entryId};
      reviews := reviews - {entryId};
    }

    method DiscardReview(entryId: string)
      modifies this
      ensures View() == Discard(old(View()), entryId)
    {
      if entryId in reviews && reviews[entryId].finalOutcomeUnknown {
        return;
      }
      ClearReview(entryId);
    }

    method BeginPrepare(s: Selection, page: Page) returns (request: Option<Selection>)
      modifies this
      ensures (View(), request) == Prepare(old(View()), s, page)
    {
      request := None;
      if approvalInFlight.Some? {
        return;
      }
      if s.entryId in reviews && reviews[s.entryId].finalOutcomeUnknown {
        return;
      }
      ClearReview(s.entryId);
      if page.resolved {
        approvalInFlight := Some(Preparing(s));
        request := Some(s);
      }
    }

    method FinishPrepare(s: Selection, challenge: Option<Challenge>)
      modifies this
      ensures View() == Prepared(old(View()), s, challenge)
    {
      if challenge.Some? {
        reviews := reviews[s.entryId := Review(challenge.value, false)];
      }
      approvalInFlight := None;
    }

    method BeginApprove(s: Selection, c: Challenge, page: Page, op: string) returns (sent: Sent)
      modifies this
      ensures (View(), sent) == Approve(old(View()), s, c, page, op)
    {
      sent := Nothing;
      var e := s.entryId;
      if approvalInFlight.Some? {
        return;
      }
      var retryingUnknownOutcome := RetryingUnknown(View(), s);
      if (!page.resolved && !retryingUnknownOutcome) || !ChallengeIsCurrent(View(), s, c) {
        if !IsUnknown(View(), e) {
          ClearReview(e);
        }
        return;
      }
      if e !in finalSubmissions && (c.expiresAt <= page.now || c.expectedVersion != page.version) {
        ClearReview(e);
        var request := BeginPrepare(s, page);
        sent := if request.Some? then Request(request.value) else Nothing;
        return;
      }
      var submission := FreshSubmission(s, c, op);
      if e in finalSubmissions && finalSubmissions[e].key == SelectionKey(s) {
        submission := finalSubmissions[e].submission;
      }
      finalSubmissions := finalSubmissions[e := Stored(SelectionKey(s), submission)];
      approvalInFlight := Some(Approving(e, c, submission));
      sent := Final(submission);
    }

    method FinishApprove(e: string, c: Challenge, outcome: Outcome)
      modifies this
      ensures View() == Answered(old(View()), e, c, outcome)
    {
      match outcome {
        case Unknown =>
          reviews := reviews[e := Review(c, true)];
        case _ =>
          ClearReview(e);
      }
      approvalInFlight := None;
    }
  }
}
