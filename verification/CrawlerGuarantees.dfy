/** What the exact-retry discipline of the crawler commands guarantees, over whole runs. */
module CrawlerGuarantees {
  import opened Common
  import opened CrawlerClient
  import opened CrawlerRetry

  // ---- Safety of every run. ----

  /** Under one operation ID there is one command, that is, one body. */
  predicate SameIfSameOp(a: Command, b: Command) {
    a.op == b.op ==> a == b
  }

  /**
   In every state of every run: at most one command of each kind is unresolved, every POST under
   an operation ID carries the same body, and each operation has taken effect at most once and
   with that body.
   */
  lemma EveryRunIsExact(version: nat, states: seq<World>, es: seq<Event>, i: nat)
    requires IsRun(states, es) && states[0] == Begin(version) && i < |states|
    ensures |states[i].client.queued| <= 1 && |states[i].client.deletions| <= 1
    ensures forall j, k :: 0 <= j < |states[i].posts| && 0 <= k < |states[i].posts| ==>
                             SameIfSameOp(states[i].posts[j], states[i].posts[k])
    ensures forall j, k :: 0 <= j < k < |states[i].server.applied| ==>
                             states[i].server.applied[j].op != states[i].server.applied[k].op
    ensures forall j, k :: 0 <= j < |states[i].server.applied| && 0 <= k < |states[i].posts| ==>
                             SameIfSameOp(states[i].server.applied[j], states[i].posts[k])
  {
    RunKeepsInv(states, es);
    var w := states[i];
    assert Inv(w);
    forall k | 0 <= k < |w.posts|
      ensures IsFrozen(w.frozen, w.posts[k])
    {
    }
    forall j | 0 <= j < |w.server.applied|
      ensures IsFrozen(w.frozen, w.server.applied[j])
    {
      assert w.server.receipts[w.server.applied[j].op] == w.server.applied[j];
    }
  }

  /** A reply from this server never fails the browser's own test, so an answer always resolves. */
  lemma HonestRepliesResolve(w: World, cleared: bool)
    requires Inv(w) && Enabled(w, ReplyArrived(cleared))
    ensures var command, t := w.client.flight.value, Step(w, ReplyArrived(cleared));
            && t.client.flight.None?
            && (if command.Queue? then t.client.queued == [] && t.client.pending.None? else t.client.deletions == [])
            && (!w.replies[w.flightPost].Refused? ==>
                  command.op in t.server.receipts && t.server.receipts[command.op] == command)
  {
    HonestReplyIsAccepted(w);
    ReplyKeepsClient(w.client, w.client.flight.value, w.replies[w.flightPost], cleared);
  }

  /**
   A success moves the browser to the version it reports, unless it has seen a later one. It shows a queued
   request as the first row, all others staying, and takes a deleted one off the rows that can be deleted.
   */
  lemma SuccessIsShown(w: World, cleared: bool)
    requires Inv(w) && Enabled(w, ReplyArrived(cleared)) && !w.replies[w.flightPost].Refused?
    ensures var t, reply := Step(w, ReplyArrived(cleared)).client, w.replies[w.flightPost];
            t.version == if w.client.version <= reply.version then reply.version else w.client.version
    ensures var t, command := Step(w, ReplyArrived(cleared)).client, w.client.flight.value;
            if command.Delete?
            then t.rows == w.client.rows && t.deletable == w.client.deletable - {command.target}
            else
              && t.deletable == w.client.deletable && t.rows != []
              && t.rows[0] == w.server.ledger[command.op]
              && (forall r :: r in t.rows[1..] <==> r in w.client.rows && r.op != command.op)
  {
    HonestReplyIsAccepted(w);
    var command, reply := w.client.flight.value, w.replies[w.flightPost];
    if command.Queue? {
      OtherRowsAre(w.client.rows, reply.echo.row);
    }
  }

  lemma {:induction false} OtherRowsAre(rows: seq<Row>, row: Row)
    ensures forall r :: r in OtherRows(rows, row) <==> r in rows && r.id != row.id && r.op != row.op
  {
    if rows != [] {
      OtherRowsAre(rows[1..], row);
    }
  }

  // ---- When a preserved command is forgotten. ----

  /** The events that can end the life of a preserved command. */
  predicate Settles(w: World, e: Event, command: Command) {
    match e
    case ReplyArrived(_) => w.client.flight == Some(command)
    case LedgerArrived(gone, _, _, _) => command.Delete? && command.target in gone
    case PageReloaded(queueReadable, deletionReadable, _) =>
      w.denied || (command.Queue? && !queueReadable) || (command.Delete? && !deletionReadable)
    case SignedOut => true
    case _ => false
  }

  /**
   A preserved command disappears only on an answer to it, a ledger row showing its deletion
   under way, a reload with recovery storage denied, or sign-out.
   */
  lemma ForgottenOnlyWhenSettled(w: World, e: Event, command: Command)
    requires Inv(w) && Enabled(w, e) && !w.ended
    requires command in w.client.queued + w.client.deletions
    requires command !in Step(w, e).client.queued + Step(w, e).client.deletions
    ensures Settles(w, e, command)
  {
    match e
    case QueueClicked(d, allowed, stored) => QueueClickForgetsNothing(w, d, allowed, stored);
    case DeleteClicked(target, op, stored) => DeleteClickForgetsNothing(w, target, op, stored);
    case ReplyArrived(cleared) =>
      if w.client.flight != Some(command) {
        OtherAnswersForgetNothing(w, cleared, command);
      }
    case LedgerArrived(gone, _, _, _) => WithoutTargetsOfSmall(w.client.deletions, gone);
    case PageReloaded(_, _, _) => ReloadForgetsOnlyDenied(w, e, command);
    case SignedOut =>
    case _ => OtherStepsForgetNothing(w, e);
  }

  lemma OtherStepsForgetNothing(w: World, e: Event)
    requires Inv(w) && Enabled(w, e)
    requires !e.QueueClicked? && !e.DeleteClicked? && !e.ReplyArrived? && !e.LedgerArrived? && !e.PageReloaded?
    requires !e.SignedOut?
    ensures var t := Step(w, e);
            t.client.queued == w.client.queued && t.client.deletions == w.client.deletions
  {
  }

  lemma ReloadForgetsOnlyDenied(w: World, e: Event, command: Command)
    requires Inv(w) && e.PageReloaded? && Enabled(w, e) && !w.ended
    requires command in w.client.queued + w.client.deletions
    requires command !in Step(w, e).client.queued + Step(w, e).client.deletions
    ensures Settles(w, e, command)
  {
  }

  lemma QueueClickForgetsNothing(w: World, d: Draft, allowed: bool, stored: bool)
    requires Inv(w) && Enabled(w, QueueClicked(d, allowed, stored))
    ensures w.client.queued != [] ==> Step(w, QueueClicked(d, allowed, stored)).client.queued == w.client.queued
    ensures Step(w, QueueClicked(d, allowed, stored)).client.deletions == w.client.deletions
  {
  }

  lemma OtherAnswersForgetNothing(w: World, cleared: bool, command: Command)
    requires Inv(w) && Enabled(w, ReplyArrived(cleared)) && w.client.flight != Some(command)
    ensures var t := Step(w, ReplyArrived(cleared));
            command in w.client.queued + w.client.deletions ==> command in t.client.queued + t.client.deletions
  {
    HonestReplyIsAccepted(w);
    ReplyKeepsClient(w.client, w.client.flight.value, w.replies[w.flightPost], cleared);
  }

  lemma DeleteClickForgetsNothing(w: World, target: string, op: string, stored: bool)
    requires Inv(w) && Enabled(w, DeleteClicked(target, op, stored))
    ensures w.client.deletions != [] ==>
            Step(w, DeleteClicked(target, op, stored)).client.deletions == w.client.deletions
    ensures Step(w, DeleteClicked(target, op, stored)).client.queued == w.client.queued
  {
    if DeletionCommand(w.client, target, op).Some? {
      DeletionCommandIsPreserved(w.client, target, op);
      PutOnly(w.client.deletions, DeletionCommand(w.client, target, op).value);
    }
  }

  /** A deletion reconciled from the ledger really is under way on the server. */
  lemma ReconciledDeletionIsReal(w: World, e: Event, command: Command)
    requires Inv(w) && e.LedgerArrived? && Enabled(w, e)
    requires command in w.client.deletions && command !in Step(w, e).client.deletions
    ensures command.target in w.server.gone
  {
    WithoutTargetsOfSmall(w.client.deletions, e.gone);
  }

  /** While storage refuses nothing, a reload restores exactly what was preserved and offers the retry. */
  lemma ReloadRestores(w: World, version: nat)
    requires Inv(w) && !w.denied && Enabled(w, PageReloaded(true, true, version))
    ensures var t := Step(w, PageReloaded(true, true, version));
            && t.client.queued == w.client.queued && t.client.deletions == w.client.deletions
            && (w.client.queued != [] ==> t.client.pending == Some(w.client.queued[0].op))
  {
  }

  /** After a reload nothing of the ledger is shown, and so nothing can be deleted, until it is read again. */
  lemma ReloadHidesLedger(w: World, queueReadable: bool, deletionReadable: bool, version: nat, target: string,
                          op: string)
    requires Enabled(w, PageReloaded(queueReadable, deletionReadable, version))
    ensures var t := Step(w, PageReloaded(queueReadable, deletionReadable, version));
            && t.client.rows == [] && t.client.version == version && t.client.flight.None?
            && !Enabled(t, DeleteClicked(target, op, true)) && DeletionCommand(t.client, target, op).None?
  {
  }

  // ---- Resending. ----

  /** Every click that sends while a deletion is preserved sends that very command, whatever ID the page supplies. */
  lemma DeletionResendIsExact(w: World, target: string, op: string, stored: bool)
    requires Inv(w) && Enabled(w, DeleteClicked(target, op, stored)) && w.client.deletions != []
    ensures var t := Step(w, DeleteClicked(target, op, stored));
            && t.client.deletions == w.client.deletions && t.frozen == w.frozen
            && (t.posts == w.posts || t.posts == w.posts + [w.client.deletions[0]])
            && (t.posts != w.posts ==> target == w.client.deletions[0].target)
  {
    var found := DeletionCommand(w.client, target, op);
    if found.Some? {
      DeletionCommandIsPreserved(w.client, target, op);
      PutOnly(w.client.deletions, found.value);
      assert w.client.deletions[0] == found.value;
      assert IsFrozen(w.frozen, found.value);
      assert w.frozen[found.value.op := found.value] == w.frozen;
    }
  }

  /** Retrying a pending queue request, having it handled and hearing the answer resolves it. */
  lemma RetryResolves(w: World, deny: bool, rowId: string, cleared: bool) returns (t: World)
    requires Inv(w) && !w.ended && w.client.pending.Some? && w.client.flight.None? && FreshRow(w.server, rowId)
    ensures Enabled(w, RetryClicked)
    ensures var sent := Step(w, RetryClicked);
            && sent.posts == w.posts + [w.client.queued[0]]
            && Enabled(sent, PostHandled(|w.posts|, deny, rowId))
            && var handled := Step(sent, PostHandled(|w.posts|, deny, rowId));
               Enabled(handled, ReplyArrived(cleared)) && t == Step(handled, ReplyArrived(cleared))
    ensures Inv(t) && t.client.queued == [] && t.client.pending.None? && t.client.flight.None?
  {
    assert Lookup(w.client.queued, w.client.pending.value) == Some(w.client.queued[0]);
    var sent := Step(w, RetryClicked);
    StepKeepsInv(w, RetryClicked);
    var handled := Step(sent, PostHandled(|w.posts|, deny, rowId));
    StepKeepsInv(sent, PostHandled(|w.posts|, deny, rowId));
    StepKeepsInv(handled, ReplyArrived(cleared));
    HonestRepliesResolve(handled, cleared);
    t := Step(handled, ReplyArrived(cleared));
  }

  // ---- A version conflict is final. ----

  /** The command was frozen against a version the server has left behind without it. */
  ghost predicate Missed(w: World, op: string) {
    op in w.frozen && op !in w.server.receipts && w.frozen[op].expectedVersion < w.server.version
  }

  lemma MissedStays(w: World, e: Event, op: string)
    requires Inv(w) && Enabled(w, e) && Missed(w, op)
    ensures Missed(Step(w, e), op)
  {
    match e
    case QueueClicked(d, allowed, stored) =>
    case DeleteClicked(target, id, stored) => DeleteClickRefreezesNothing(w, target, id, stored, op);
    case PostHandled(post, deny, rowId) => HandlingKeepsMissed(w, post, deny, rowId, op);
    case _ =>
  }

  lemma HandlingKeepsMissed(w: World, post: nat, deny: bool, rowId: string, op: string)
    requires Inv(w) && Enabled(w, PostHandled(post, deny, rowId)) && Missed(w, op)
    ensures Missed(Step(w, PostHandled(post, deny, rowId)), op)
  {
    assert IsFrozen(w.frozen, w.posts[post]);
  }

  lemma DeleteClickRefreezesNothing(w: World, target: string, id: string, stored: bool, op: string)
    requires Inv(w) && Enabled(w, DeleteClicked(target, id, stored)) && op in w.frozen
    ensures var t := Step(w, DeleteClicked(target, id, stored));
            op in t.frozen && t.frozen[op] == w.frozen[op] && t.server == w.server
  {
    if DeletionCommand(w.client, target, id).Some? {
      DeletionCommandIsPreserved(w.client, target, id);
      if w.client.deletions != [] {
        assert IsFrozen(w.frozen, w.client.deletions[0]);
      }
    }
  }

  /** Once the server has answered a version conflict, no delayed copy of that command can take effect. */
  lemma {:induction false} ConflictIsFinal(states: seq<World>, es: seq<Event>, k: nat)
    requires IsRun(states, es) && Inv(states[0])
    requires k in states[0].replies && states[0].replies[k] == Refused(VersionConflict)
    ensures forall i :: 0 <= i < |states| ==> states[0].posts[k].op !in states[i].server.receipts
  {
    RunKeepsInv(states, es);
    var op := states[0].posts[k].op;
    assert ReplyOk(states[0].server, states[0].posts[k], states[0].replies[k]);
    assert IsFrozen(states[0].frozen, states[0].posts[k]);
    for n := 0 to |es|
      invariant forall i :: 0 <= i <= n ==> Missed(states[i], op)
    {
      MissedStays(states[n], es[n], op);
    }
  }

  // ---- A refused command can still take effect through a delayed copy. ----

  /** Nothing on the page or in its storage would send the operation again. */
  ghost predicate Forgotten(c: Client, op: string) {
    && (forall i :: 0 <= i < |c.queued| ==> c.queued[i].op != op)
    && (forall i :: 0 <= i < |c.deletions| ==> c.deletions[i].op != op)
    && (c.queueSlot.Some? ==> c.queueSlot.value.op != op)
    && (c.deletionSlot.Some? ==> c.deletionSlot.value.op != op)
  }

  /** A copy is still on its way, and the server would accept it now. */
  ghost predicate CanStillApply(w: World, op: string) {
    && op in w.frozen && w.frozen[op].expectedVersion == w.server.version
    && (w.frozen[op].Delete? ==> w.frozen[op].target !in w.server.gone)
    && exists k :: OnItsWay(w, k, op)
  }

  predicate OnItsWay(w: World, k: nat, op: string) {
    k < |w.posts| && k !in w.replies && w.posts[k].op == op
  }

  /** The command has had no effect and nobody will send it again. */
  ghost predicate LeftBehind(w: World, op: string) {
    op in w.frozen && op !in w.server.receipts && Forgotten(w.client, op)
  }

  /**
   A refusal makes the browser forget its command, if storage accepts the removal. It has had no effect
   then, or another copy was applied before this answer came, and its effect stays in place.
   */
  lemma RefusalLeavesBehind(w: World)
    requires Inv(w) && Enabled(w, ReplyArrived(true)) && w.replies[w.flightPost].Refused?
    ensures var t, command := Step(w, ReplyArrived(true)), w.client.flight.value;
            && Forgotten(t.client, command.op) && t.server == w.server
            && (if command.op in t.server.receipts
                then t.server.receipts[command.op] == command && command in t.server.applied
                else LeftBehind(t, command.op))
  {
    var command := w.client.flight.value;
    HonestReplyIsAccepted(w);
    ReplyKeepsClient(w.client, command, w.replies[w.flightPost], true);
    assert IsFrozen(w.frozen, w.posts[w.flightPost]);
  }

  /** The step keeps the operation left behind, and sends only others. */
  ghost predicate SendsOthers(w: World, t: World, op: string)
    requires op in w.frozen
  {
    && LeftBehind(t, op) && t.frozen[op] == w.frozen[op] && t.server == w.server && t.replies == w.replies
    && w.posts <= t.posts && forall k: nat :: |w.posts| <= k < |t.posts| ==> t.posts[k].op != op
  }

  lemma QueueClickSendsOthers(w: World, e: Event, op: string)
    requires Inv(w) && e.QueueClicked? && Enabled(w, e) && LeftBehind(w, op)
    ensures SendsOthers(w, Step(w, e), op)
  {
    PutOnly([], FreezeQueue(w.client, e.draft));
  }

  lemma DeleteClickSendsOthers(w: World, e: Event, op: string)
    requires Inv(w) && e.DeleteClicked? && Enabled(w, e) && LeftBehind(w, op)
    ensures SendsOthers(w, Step(w, e), op)
  {
    var command := DeletionCommand(w.client, e.target, e.op);
    if command.Some? {
      DeletionCommandIsPreserved(w.client, e.target, e.op);
      PutOnly(w.client.deletions, command.value);
    }
  }

  lemma RetryClickSendsOthers(w: World, op: string)
    requires Inv(w) && Enabled(w, RetryClicked) && LeftBehind(w, op)
    ensures SendsOthers(w, Step(w, RetryClicked), op)
  {
  }

  lemma HandlingSpendsOthers(w: World, e: Event, op: string)
    requires Inv(w) && e.PostHandled? && Enabled(w, e) && LeftBehind(w, op) && !CanStillApply(w, op)
    ensures LeftBehind(Step(w, e), op) && !CanStillApply(Step(w, e), op)
  {
    assert IsFrozen(w.frozen, w.posts[e.post]);
    var t := Step(w, e);
    if w.posts[e.post].op == op {
      assert OnItsWay(w, e.post, op);
    }
    if k: nat :| OnItsWay(t, k, op) {
      assert OnItsWay(w, k, op);
    }
  }

  lemma PageStepsLeaveBehind(w: World, e: Event, op: string)
    requires Inv(w) && Enabled(w, e) && LeftBehind(w, op)
    requires !e.QueueClicked? && !e.DeleteClicked? && !e.RetryClicked? && !e.PostHandled? && !e.OthersCommitted?
    ensures var t := Step(w, e);
            && LeftBehind(t, op) && t.frozen == w.frozen && t.server == w.server
            && t.posts == w.posts && t.replies == w.replies
  {
    if e.ReplyArrived? {
      HonestReplyIsAccepted(w);
      ReplyKeepsClient(w.client, w.client.flight.value, w.replies[w.flightPost], e.cleared);
    } else if e.LedgerArrived? {
      WithoutTargetsOfSmall(w.client.deletions, e.gone);
    }
  }

  lemma SpentStays(w: World, e: Event, op: string)
    requires Inv(w) && Enabled(w, e) && LeftBehind(w, op) && !CanStillApply(w, op)
    ensures LeftBehind(Step(w, e), op) && !CanStillApply(Step(w, e), op)
  {
    var t := Step(w, e);
    if e.PostHandled? {
      HandlingSpendsOthers(w, e, op);
    } else {
      if e.QueueClicked? {
        QueueClickSendsOthers(w, e, op);
      } else if e.DeleteClicked? {
        DeleteClickSendsOthers(w, e, op);
      } else if e.RetryClicked? {
        RetryClickSendsOthers(w, op);
      } else if !e.OthersCommitted? {
        PageStepsLeaveBehind(w, e, op);
      }
      if CanStillApply(t, op) {
        var k: nat :| OnItsWay(t, k, op);
        assert OnItsWay(w, k, op);
      }
    }
  }

  lemma {:induction false} LongerThanAll(ids: set<string>) returns (n: nat)
    ensures forall id :: id in ids ==> |id| < n
    decreases |ids|
  {
    if ids == {} {
      n := 0;
    } else {
      var id :| id in ids;
      var m := LongerThanAll(ids - {id});
      n := if |id| < m then m else |id| + 1;
    }
  }

  lemma SomeRowIsFresh(s: Server) returns (rowId: string)
    ensures FreshRow(s, rowId)
  {
    var n := LongerThanAll(set op | op in s.ledger :: s.ledger[op].id);
    rowId := seq(n, _ => 'x');
    assert |rowId| == n;
  }

  ghost predicate LeadsToEffect(w: World, states: seq<World>, es: seq<Event>, op: string) {
    IsRun(states, es) && states[0] == w && op in states[|es|].server.receipts
  }

  /**
   A command that was refused and forgotten can still take effect in some run exactly when an
   unhandled copy of it remains, the version still matches and a deletion's target is not yet gone.
   */
  lemma LeftBehindAppliesExactly(w: World, op: string)
    requires Inv(w) && LeftBehind(w, op)
    ensures CanStillApply(w, op) <==> exists states, es :: LeadsToEffect(w, states, es, op)
  {
    if CanStillApply(w, op) {
      var k: nat :| OnItsWay(w, k, op);
      assert IsFrozen(w.frozen, w.posts[k]);
      var rowId := SomeRowIsFresh(w.server);
      var e := PostHandled(k, false, rowId);
      assert LeadsToEffect(w, [w, Step(w, e)], [e], op);
    } else if states, es :| LeadsToEffect(w, states, es, op) {
      SpentForGood(states, es, op, |es|);
    }
  }

  lemma {:induction false} SpentForGood(states: seq<World>, es: seq<Event>, op: string, i: nat)
    requires IsRun(states, es) && i < |states| && Inv(states[0])
    requires LeftBehind(states[0], op) && !CanStillApply(states[0], op)
    ensures LeftBehind(states[i], op) && !CanStillApply(states[i], op)
  {
    RunKeepsInv(states, es);
    if i > 0 {
      SpentForGood(states, es, op, i - 1);
      SpentStays(states[i - 1], es[i - 1], op);
    }
  }

  // ---- A request frozen behind a deletion. ----

  /** A queue request is preserved, but neither on its way nor offered for retry. */
  predicate Stranded(c: Client) {
    c.queued != [] && c.pending.None? && (c.flight.None? || !c.flight.value.Queue?)
  }

  lemma QueueClickStrands(c: Client, d: Draft, allowed: bool, stored: bool)
    requires ClientOk(c) && !Stranded(c) && c.pending.None?
    ensures Stranded(QueueRequest(c, d, allowed, stored).0) <==> allowed && c.queued == [] && c.flight.Some?
    ensures c.queued == [] && c.flight.Some? ==> c.flight.value.Delete?
  {
    assert Put([], FreezeQueue(c, d)) == [FreezeQueue(c, d)];
  }

  lemma DeletionStrandsNothing(c: Client, target: string, op: string, stored: bool)
    requires ClientOk(c) && !Stranded(c)
    ensures !Stranded(DeleteCustody(c, target, op, stored).0)
  {
  }

  lemma AnswerStrandsNothing(w: World, cleared: bool)
    requires Inv(w) && Enabled(w, ReplyArrived(cleared)) && !Stranded(w.client)
    ensures !Stranded(Step(w, ReplyArrived(cleared)).client)
  {
    HonestReplyIsAccepted(w);
    ReplyKeepsClient(w.client, w.client.flight.value, w.replies[w.flightPost], cleared);
  }

  lemma OtherStepsStrandNothing(w: World, e: Event)
    requires Inv(w) && Enabled(w, e) && !Stranded(w.client)
    requires !e.QueueClicked? && !e.DeleteClicked? && !e.ReplyArrived?
    ensures !Stranded(Step(w, e).client)
  {
  }

  /**
   The one way there: a new request is frozen while a deletion is in flight, which the card allows
   only after it was mounted anew.
   */
  lemma StrandedArisesExactly(w: World, e: Event)
    requires Inv(w) && Enabled(w, e) && !Stranded(w.client)
    ensures Stranded(Step(w, e).client) <==>
            && e.QueueClicked? && e.allowed
            && w.client.queued == [] && w.client.flight.Some?
    ensures Stranded(Step(w, e).client) ==> !w.busy && w.client.flight.value.Delete?
  {
    match e
    case QueueClicked(d, allowed, stored) => QueueClickStrands(w.client, d, allowed, stored);
    case DeleteClicked(target, op, stored) => DeletionStrandsNothing(w.client, target, op, stored);
    case ReplyArrived(cleared) => AnswerStrandsNothing(w, cleared);
    case _ => OtherStepsStrandNothing(w, e);
  }

  /** While the card stays mounted it is busy whenever a command is in flight. */
  lemma {:induction false} MountedCardIsBusy(version: nat, states: seq<World>, es: seq<Event>, i: nat)
    requires IsRun(states, es) && states[0] == Begin(version) && i < |states|
    requires forall k :: 0 <= k < i ==> !es[k].CardRemounted?
    ensures states[i].client.flight.Some? ==> states[i].busy
    ensures !Stranded(states[i].client)
  {
    RunKeepsInv(states, es);
    if i > 0 {
      MountedCardIsBusy(version, states, es, i - 1);
      assert states[i] == Step(states[i - 1], es[i - 1]);
      StrandedArisesExactly(states[i - 1], es[i - 1]);
      FlightsMakeBusy(states[i - 1], es[i - 1]);
    }
  }

  lemma SendsMakeBusy(w: World, e: Event)
    requires Enabled(w, e) && (e.QueueClicked? || e.DeleteClicked? || e.RetryClicked?)
    requires w.client.flight.Some? ==> w.busy
    ensures Step(w, e).client.flight.Some? ==> Step(w, e).busy
  {
  }

  lemma FlightsMakeBusy(w: World, e: Event)
    requires Inv(w) && Enabled(w, e) && !e.CardRemounted? && (w.client.flight.Some? ==> w.busy)
    ensures Step(w, e).client.flight.Some? ==> Step(w, e).busy
  {
    if e.QueueClicked? || e.DeleteClicked? || e.RetryClicked? {
      SendsMakeBusy(w, e);
    }
  }

  /**
   From there no deletion click gets out, no retry is offered, and a queue click gets out exactly if it
   brings the stranded operation ID. The form never does: it forgets its ID as soon as a call ends.
   */
  lemma StrandedBlocksEveryClick(w: World, e: Event)
    requires Inv(w) && Enabled(w, e) && Stranded(w.client) && (e.DeleteClicked? || e.QueueClicked?)
    ensures Step(w, e).posts != w.posts <==>
            e.QueueClicked? && e.draft.op == w.client.queued[0].op && w.client.flight.None?
    ensures Step(w, e).posts == w.posts ==> Stranded(Step(w, e).client)
    ensures !Enabled(w, RetryClicked)
  {
  }

  lemma ExtendBy(states: seq<World>, es: seq<Event>, e: Event) returns (longer: seq<World>, events: seq<Event>)
    requires IsRun(states, es) && Enabled(states[|es|], e)
    ensures IsRun(longer, events) && events == es + [e] && |longer| == |states| + 1
    ensures longer[0] == states[0] && longer[|es|] == states[|es|] && longer[|events|] == Step(states[|es|], e)
  {
    longer, events := states + [Step(states[|es|], e)], es + [e];
    forall i | 0 <= i < |events| ensures Enabled(longer[i], events[i]) && longer[i + 1] == Step(longer[i], events[i]) {
      if i < |es| {
        assert longer[i] == states[i] && longer[i + 1] == states[i + 1];
      }
    }
  }

  /** The ledger shows one deletable row, and a click on it sends the deletion. */
  lemma DeletionSent(row: Row, op: string) returns (states: seq<World>, es: seq<Event>)
    requires op != row.op
    ensures IsRun(states, es) && states[0] == Begin(0)
    ensures es == [OthersCommitted(Some(row)), LedgerArrived({}, {row.id}, [row], true),
                   DeleteClicked(row.id, op, true)]
    ensures var w, command := states[|es|], Delete(op, 0, row.id);
            && w.client == Client([], [command], None, Some(command), None, Some(command), 0, [row], {row.id})
            && w.frozen == map[op := command] && w.posts == [command] && w.replies == map[] && !w.ended
            && w.server.ledger == map[row.op := row] && w.flightPost == 0
  {
    states, es := [Begin(0)], [];
    states, es := ExtendBy(states, es, OthersCommitted(Some(row)));
    states, es := ExtendBy(states, es, LedgerArrived({}, {row.id}, [row], true));
    assert DeletionCommand(states[|es|].client, row.id, op) == Some(Delete(op, 0, row.id));
    states, es := ExtendBy(states, es, DeleteClicked(row.id, op, true));
  }

  /**
   Such a run: a deletion is sent, the user leaves the sources view and comes back, and queues a
   request before the deletion's answer, which is then lost.
   */
  lemma StrandedRun(row: Row, op: string, draft: Draft) returns (states: seq<World>, es: seq<Event>)
    requires op != draft.op && op != row.op && draft.op != row.op
    ensures IsRun(states, es) && states[0] == Begin(0)
    ensures es == [OthersCommitted(Some(row)), LedgerArrived({}, {row.id}, [row], true),
                   DeleteClicked(row.id, op, true),
                   CardRemounted, QueueClicked(draft, true, true), ReplyLost]
    ensures Stranded(states[|es|].client) && states[|es|].client.flight.None? && |states[|es|].posts| == 1
  {
    states, es := DeletionSent(row, op);
    states, es := ExtendBy(states, es, CardRemounted);
    states, es := ExtendBy(states, es, QueueClicked(draft, true, true));
    states, es := ExtendBy(states, es, ReplyLost);
  }

  /** A run in which a denied and forgotten request takes effect: its first copy was delayed. */
  lemma LateCopyRun(draft: Draft, rowId: string) returns (states: seq<World>, es: seq<Event>)
    ensures IsRun(states, es) && states[0] == Begin(0)
    ensures es == [QueueClicked(draft, true, true), ReplyLost, RetryClicked, PostHandled(1, true, rowId),
                   ReplyArrived(true), PostHandled(0, false, rowId)]
    ensures 1 in states[|es| - 1].replies && states[|es| - 1].replies[1] == Refused(Denied)
    ensures LeftBehind(states[|es| - 1], draft.op)
    ensures draft.op in states[|es|].server.receipts
  {
    states, es := [Begin(0)], [];
    var command := FreezeQueue(Begin(0).client, draft);
    PutOnly([], command);
    RemoveOnly(command);
    states, es := ExtendBy(states, es, QueueClicked(draft, true, true));
    states, es := ExtendBy(states, es, ReplyLost);
    states, es := ExtendBy(states, es, RetryClicked);
    states, es := ExtendBy(states, es, PostHandled(1, true, rowId));
    states, es := ExtendBy(states, es, ReplyArrived(true));
    states, es := ExtendBy(states, es, PostHandled(0, false, rowId));
  }
}
