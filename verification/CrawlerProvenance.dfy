/** Where every crawler command comes from: the click that froze it, with what the user entered there. */
module CrawlerProvenance {
  import opened Common
  import opened CrawlerClient
  import opened CrawlerRetry

  /** The click enters this command, against the version shown at that moment. */
  predicate Enters(w: World, e: Event, command: Command) {
    && command.expectedVersion == w.client.version
    && match command
       case Queue(op, _, sourceUrl, fileName, policyVersion, maxBytes) =>
         && e.QueueClicked? && e.allowed && e.draft.op == op
         && e.draft.sourceUrl == sourceUrl && e.draft.fileName == fileName
         && e.draft.policyVersion == policyVersion && e.draft.maxBytes == maxBytes
       case Delete(op, _, target) =>
         e.DeleteClicked? && e.op == op && e.target == target && target in w.client.deletable
  }

  predicate EnteredAt(states: seq<World>, es: seq<Event>, i: nat, command: Command)
    requires i < |es| < |states|
  {
    Enters(states[i], es[i], command)
  }

  ghost predicate Entered(states: seq<World>, es: seq<Event>, n: nat, command: Command)
    requires n <= |es| < |states|
  {
    exists i: nat :: i < n && EnteredAt(states, es, i, command)
  }

  lemma EnteredEarlier(states: seq<World>, es: seq<Event>, n: nat, command: Command)
    requires n < |es| < |states| && Entered(states, es, n, command)
    ensures Entered(states, es, n + 1, command)
  {
    var i: nat :| i < n && EnteredAt(states, es, i, command);
    assert i < n + 1;
  }

  /** A step freezes at most the command of the click it is. */
  lemma StepFreezes(w: World, e: Event, op: string)
    requires Inv(w) && Enabled(w, e) && op in Step(w, e).frozen
    ensures (op in w.frozen && Step(w, e).frozen[op] == w.frozen[op]) || Enters(w, e, Step(w, e).frozen[op])
  {
    match e
    case QueueClicked(d, allowed, stored) => PutOnly([], FreezeQueue(w.client, d));
    case DeleteClicked(target, id, stored) => DeletionFreezes(w, target, id, stored, op);
    case _ =>
  }

  lemma DeletionFreezes(w: World, target: string, id: string, stored: bool, op: string)
    requires Inv(w) && Enabled(w, DeleteClicked(target, id, stored))
    requires op in Step(w, DeleteClicked(target, id, stored)).frozen
    ensures var t := Step(w, DeleteClicked(target, id, stored));
            || (op in w.frozen && t.frozen[op] == w.frozen[op])
            || Enters(w, DeleteClicked(target, id, stored), t.frozen[op])
  {
    if DeletionCommand(w.client, target, id).Some? {
      DeletionCommandIsPreserved(w.client, target, id);
      if w.client.deletions != [] {
        assert IsFrozen(w.frozen, w.client.deletions[0]);
      }
    }
  }

  lemma StepFreezesAt(states: seq<World>, es: seq<Event>, n: nat, op: string)
    requires IsRun(states, es) && n < |es| && Inv(states[n]) && op in states[n + 1].frozen
    ensures || (op in states[n].frozen && states[n + 1].frozen[op] == states[n].frozen[op])
            || EnteredAt(states, es, n, states[n + 1].frozen[op])
  {
    StepFreezes(states[n], es[n], op);
  }

  lemma {:induction false} FrozenWasEntered(version: nat, states: seq<World>, es: seq<Event>, n: nat, op: string)
    requires IsRun(states, es) && states[0] == Begin(version) && n < |states| && op in states[n].frozen
    ensures Entered(states, es, n, states[n].frozen[op])
  {
    if n > 0 {
      RunKeepsInv(states, es);
      StepFreezesAt(states, es, n - 1, op);
      var command := states[n].frozen[op];
      if op in states[n - 1].frozen && command == states[n - 1].frozen[op] {
        FrozenWasEntered(version, states, es, n - 1, op);
        EnteredEarlier(states, es, n - 1, command);
      } else {
        assert n - 1 < n && EnteredAt(states, es, n - 1, command);
      }
    }
  }

  /** Every POST carries what the user entered in some earlier click: a queue request or a deletion. */
  lemma EveryPostWasEntered(version: nat, states: seq<World>, es: seq<Event>, n: nat, k: nat)
    requires IsRun(states, es) && states[0] == Begin(version) && n < |states| && k < |states[n].posts|
    ensures Entered(states, es, n, states[n].posts[k])
  {
    RunKeepsInv(states, es);
    assert IsFrozen(states[n].frozen, states[n].posts[k]);
    FrozenWasEntered(version, states, es, n, states[n].posts[k].op);
  }

  /** So does every command that took effect, and the ledger row of a request repeats it. */
  lemma EveryEffectWasEntered(version: nat, states: seq<World>, es: seq<Event>, n: nat, k: nat)
    requires IsRun(states, es) && states[0] == Begin(version) && n < |states| && k < |states[n].server.applied|
    ensures var command, ledger := states[n].server.applied[k], states[n].server.ledger;
            && Entered(states, es, n, command)
            && (command.Queue? ==>
                  && command.op in ledger && ledger[command.op].op == command.op
                  && ledger[command.op].fileName == command.fileName
                  && ledger[command.op].policyVersion == command.policyVersion
                  && ledger[command.op].maxBytes == command.maxBytes)
  {
    RunKeepsInv(states, es);
    var s, command := states[n].server, states[n].server.applied[k];
    assert s.applied[k].op in s.receipts && s.receipts[s.applied[k].op] == s.applied[k];
    assert IsFrozen(states[n].frozen, command);
    FrozenWasEntered(version, states, es, n, command.op);
  }

  /** What the browser preserves, in memory and in its storage, was entered too. */
  lemma EveryPreservedWasEntered(version: nat, states: seq<World>, es: seq<Event>, n: nat, command: Command)
    requires IsRun(states, es) && states[0] == Begin(version) && n < |states|
    requires var c := states[n].client;
             || command in c.queued || command in c.deletions
             || c.queueSlot == Some(command) || c.deletionSlot == Some(command)
    ensures Entered(states, es, n, command)
  {
    RunKeepsInv(states, es);
    assert IsFrozen(states[n].frozen, command);
    FrozenWasEntered(version, states, es, n, command.op);
  }

  // ---- Which successes are believed. ----

  /** The row repeats what was asked for, and no row on display has one of its identifiers but not the other. */
  predicate RowFits(c: Client, command: Command, row: Row)
    requires command.Queue?
  {
    && row.op == command.op && row.fileName == command.fileName
    && row.policyVersion == command.policyVersion && row.maxBytes == command.maxBytes
    && (forall i :: 0 <= i < |c.rows| ==> (c.rows[i].id == row.id <==> c.rows[i].op == row.op))
    && (forall i, j :: 0 <= i < j < |c.rows| ==> c.rows[i].id != c.rows[j].id && c.rows[i].op != c.rows[j].op)
  }

  predicate VersionFits(command: Command, reply: Reply)
    requires !reply.Refused?
  {
    if reply.Applied? then reply.version == command.expectedVersion + 1 else reply.version > command.expectedVersion
  }

  predicate Believable(c: Client, command: Command, reply: Reply)
    requires !reply.Refused?
  {
    && VersionFits(command, reply)
    && if command.Queue? then reply.echo.QueuedRow? && RowFits(c, command, reply.echo.row)
       else reply.echo.DeletingRow? && reply.echo.id == command.target
  }

  /**
   A success, honest or not, settles its command exactly if it is believable; else the command stays
   preserved, nothing of the reply is shown, and a queue request is offered for retry.
   */
  lemma SuccessIsBelievedExactly(c: Client, command: Command, reply: Reply, cleared: bool)
    requires ClientOk(c) && c.flight == Some(command) && !reply.Refused?
    ensures var t := ReplyReceived(c, command, reply, cleared);
            && t.flight.None?
            && (command !in t.queued && command !in t.deletions <==> Believable(c, command, reply))
            && (!Believable(c, command, reply) ==>
                  t == c.(flight := None, pending := if command.Queue? then Some(command.op) else c.pending))
  {
    RemoveOnly(command);
  }
}
