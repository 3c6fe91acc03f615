/**
 The browser's side of the two crawler commands, queueing a PDF and deleting its custody.

 A command is frozen before it is first sent and kept until its outcome is known. The frozen
 value stands for the exact bytes sent: the body is one `JSON.stringify` of these fields.
 */
module CrawlerClient {
  import opened Common

  datatype Command =
    | Queue(op: string, expectedVersion: nat, sourceUrl: string, fileName: string, policyVersion: string, maxBytes: nat)
    | Delete(op: string, expectedVersion: nat, target: string)

  datatype Code = VersionConflict | IdempotencyConflict | Denied

  /** A row of the request ledger: what identifies it, and what it repeats of the request. */
  datatype Row = Row(id: string, op: string, fileName: string, policyVersion: string, maxBytes: nat)

  /** The row a success shows: the queued request, or the one whose deletion is under way. */
  datatype Echo = QueuedRow(row: Row) | DeletingRow(id: string)

  datatype Reply = Applied(version: nat, echo: Echo) | Replayed(version: nat, echo: Echo) | Refused(code: Code)

  /** What the form hands over for a new queue request. */
  datatype Draft = Draft(op: string, sourceUrl: string, fileName: string, policyVersion: string, maxBytes: nat)

  /**
   `queued` and `deletions` are the records of preserved commands, in insertion order. The slots
   are the two session-storage entries. `rows` is the ledger on display, and `deletable` holds the
   rows whose `canDeleteCustody` is set.
   */
  datatype Client = Client(
    queued: seq<Command>,
    deletions: seq<Command>,
    pending: Option<string>,
    flight: Option<Command>,
    queueSlot: Option<Command>,
    deletionSlot: Option<Command>,
    version: nat,
    rows: seq<Row>,
    deletable: set<string>)

  // ---- Records keyed by operation ID. ----

  function Lookup(record: seq<Command>, op: string): (found: Option<Command>)
    ensures found.Some? ==> found.value in record && found.value.op == op
    ensures found.None? ==> forall c :: c in record ==> c.op != op
  {
    if record == [] then None
    else if record[0].op == op then Some(record[0])
    else Lookup(record[1..], op)
  }

  function Put(record: seq<Command>, c: Command): seq<Command> {
    if record == [] then [c]
    else if record[0].op == c.op then [c] + record[1..]
    else [record[0]] + Put(record[1..], c)
  }

  function Remove(record: seq<Command>, op: string): seq<Command> {
    if record == [] then []
    else if record[0].op == op then Remove(record[1..], op)
    else [record[0]] + Remove(record[1..], op)
  }

  function FindTarget(record: seq<Command>, target: string): (found: Option<Command>)
    ensures found.Some? ==> found.value in record && found.value.Delete? && found.value.target == target
    ensures found.None? ==> forall c :: c in record ==> !(c.Delete? && c.target == target)
  {
    if record == [] then None
    else if record[0].Delete? && record[0].target == target then Some(record[0])
    else FindTarget(record[1..], target)
  }

  /** Ledger reconciliation: commands whose target the ledger shows as going or gone. */
  function WithoutTargets(record: seq<Command>, gone: set<string>): seq<Command> {
    if record == [] then []
    else if record[0].Delete? && record[0].target in gone then WithoutTargets(record[1..], gone)
    else [record[0]] + WithoutTargets(record[1..], gone)
  }

  // ---- The handlers up to their `await`; the second component is the POST that goes out. ----

  function Submit(c: Client, command: Command): (Client, Option<Command>) {
    if c.flight.Some? then (c, None) else (c.(flight := Some(command)), Some(command))
  }

  function FreezeQueue(c: Client, d: Draft): Command {
    Queue(d.op, c.version, d.sourceUrl, d.fileName, d.policyVersion, d.maxBytes)
  }

  /** `allowed`: the role may queue and a policy is loaded. `stored`: session storage accepts the write. */
  function QueueRequest(c: Client, d: Draft, allowed: bool, stored: bool): (Client, Option<Command>) {
    var prior := Lookup(c.queued, d.op);
    if prior.Some? then Submit(c, prior.value)
    else if c.queued != [] || c.pending.Some? || !allowed then (c, None)
    else
      var command := FreezeQueue(c, d);
      Submit(c.(queued := Put(c.queued, command), queueSlot := if stored then Some(command) else c.queueSlot), command)
  }

  function RetryPending(c: Client): (Client, Option<Command>) {
    var found := if c.pending.Some? then Lookup(c.queued, c.pending.value) else None;
    if found.None? then (c.(pending := None), None) else Submit(c, found.value)
  }

  /** The command a deletion click sends, if the client lets it go out at all. */
  function DeletionCommand(c: Client, target: string, op: string): Option<Command> {
    if c.flight.Some? || c.queued != [] || c.pending.Some? || target !in c.deletable then None
    else
      var forTarget := FindTarget(c.deletions, target);
      if c.deletions != [] && forTarget.None? then None
      else
        var byOp := Lookup(c.deletions, op);
        var prior := if byOp.Some? then byOp else forTarget;
        if prior.None? then Some(Delete(op, c.version, target))
        else if prior.value.Delete? && prior.value.target == target then prior
        else None
  }

  function DeleteCustody(c: Client, target: string, op: string, stored: bool): (Client, Option<Command>) {
    var command := DeletionCommand(c, target, op);
    if command.None? then (c, None)
    else
      (c.(deletions := Put(c.deletions, command.value),
          deletionSlot := if stored then command else c.deletionSlot,
          flight := command),
       command)
  }

  // ---- The handlers after their `await`. ----

  predicate Echoes(command: Command, echo: Echo) {
    match command
    case Queue(op, _, _, fileName, policyVersion, maxBytes) =>
      && echo.QueuedRow? && echo.row.op == op && echo.row.fileName == fileName
      && echo.row.policyVersion == policyVersion && echo.row.maxBytes == maxBytes
    case Delete(_, _, target) => echo == DeletingRow(target)
  }

  /** The client's own test of a success reply against the command it sent. */
  predicate Matches(command: Command, reply: Reply) {
    match reply
    case Applied(v, echo) => v == command.expectedVersion + 1 && Echoes(command, echo)
    case Replayed(v, echo) => v >= command.expectedVersion + 1 && Echoes(command, echo)
    case Refused(_) => false
  }

  /** The rows on display identify their requests, and none of them contradicts this one. */
  predicate RowsAgree(rows: seq<Row>, row: Row) {
    && (forall i, j :: 0 <= i < j < |rows| ==> rows[i].id != rows[j].id && rows[i].op != rows[j].op)
    && (forall i :: 0 <= i < |rows| ==> (rows[i].id == row.id <==> rows[i].op == row.op))
  }

  /** A queue reply is also held against the rows on display. */
  predicate Accepts(c: Client, command: Command, reply: Reply) {
    Matches(command, reply) && (command.Queue? ==> RowsAgree(c.rows, reply.echo.row))
  }

  function OtherRows(rows: seq<Row>, row: Row): seq<Row> {
    if rows == [] then []
    else (if rows[0].id != row.id && rows[0].op != row.op then [rows[0]] else []) + OtherRows(rows[1..], row)
  }

  /** The ledger on display after a success. */
  function Displayed(c: Client, echo: Echo): Client {
    match echo
    case QueuedRow(row) => c.(rows := [row] + OtherRows(c.rows, row))
    case DeletingRow(id) => c.(deletable := c.deletable - {id})
  }

  function Max(a: nat, b: nat): nat {
    if a < b then b else a
  }

  /** The command's outcome is known; `cleared`: session storage accepts the removal. */
  function Resolve(c: Client, command: Command, cleared: bool): Client {
    if command.Queue? then
      c.(queued := Remove(c.queued, command.op),
         queueSlot := if cleared then None else c.queueSlot,
         pending := if c.pending == Some(command.op) then None else c.pending,
         flight := None)
    else
      c.(deletions := Remove(c.deletions, command.op),
         deletionSlot := if cleared then None else c.deletionSlot,
         flight := None)
  }

  function OutcomeUnknown(c: Client, command: Command): Client {
    c.(flight := None, pending := if command.Queue? then Some(command.op) else c.pending)
  }

  function ReplyReceived(c: Client, command: Command, reply: Reply, cleared: bool): Client {
    match reply
    case Refused(_) => Resolve(c, command, cleared)
    case _ =>
      if Accepts(c, command, reply)
      then Displayed(Resolve(c, command, cleared).(version := Max(c.version, reply.version)), reply.echo)
      else OutcomeUnknown(c, command)
  }

  function LedgerRead(c: Client, gone: set<string>, deletable: set<string>, rows: seq<Row>, cleared: bool): Client {
    if c.flight.Some? then c
    else
      var kept := WithoutTargets(c.deletions, gone);
      c.(deletions := kept,
         deletionSlot := if kept != c.deletions && cleared then None else c.deletionSlot,
         rows := rows,
         deletable := deletable)
  }

  /** A new page session: memory is gone, the slots are read back if the browser lets them be read. */
  function Reloaded(c: Client, queueReadable: bool, deletionReadable: bool, version: nat): Client {
    var queue := if queueReadable then c.queueSlot else None;
    var deletion := if deletionReadable then c.deletionSlot else None;
    c.(queued := if queue.Some? then [queue.value] else [],
       deletions := if deletion.Some? then [deletion.value] else [],
       pending := if queue.Some? then Some(queue.value.op) else None,
       flight := None,
       version := version,
       rows := [],
       deletable := {})
  }

  /** The refs and state of the live app that these handlers update in place. */
  class Crawler {
    var submissions: seq<Command>
    var deletionSubmissions: seq<Command>
    var pendingRetry: Option<string>
    var mutationInFlight: Option<Command>
    var queueSlot: Option<Command>
    var deletionSlot: Option<Command>
    var aggregateVersion: nat
    var requests: seq<Row>
    var deletable: set<string>

    function View(): Client
      reads this
    {
      Client(submissions, deletionSubmissions, pendingRetry, mutationInFlight,
             queueSlot, deletionSlot, aggregateVersion, requests, deletable)
    }

    constructor (version: nat)
      ensures View() == Client([], [], None, None, None, None, version, [], {})
    {
      submissions, deletionSubmissions := [], [];
      pendingRetry, mutationInFlight, queueSlot, deletionSlot := None, None, None, None;
      aggregateVersion, requests, deletable := version, [], {};
    }

    method SubmitFrozen(submission: Command) returns (post: Option<Command>)
      modifies this
      ensures (View(), post) == Submit(old(View()), submission)
    {
      if mutationInFlight.Some? {
        return None;
      }
      mutationInFlight := Some(submission);
      post := Some(submission);
    }

    method OnQueue(d: Draft, allowed: bool, stored: bool) returns (post: Option<Command>)
      modifies this
      ensures (View(), post) == QueueRequest(old(View()), d, allowed, stored)
    {
      var prior := Lookup(submissions, d.op);
      if prior.Some? {
        post := SubmitFrozen(prior.value);
        return;
      }
      if submissions != [] || pendingRetry.Some? || !allowed {
        return None;
      }
      var submission := Queue(d.op, aggregateVersion, d.sourceUrl, d.fileName, d.policyVersion, d.maxBytes);
      submissions := Put(submissions, submission);
      if stored {
        queueSlot := Some(submission);
      }
      post := SubmitFrozen(submission);
    }

    method OnRetry() returns (post: Option<Command>)
      modifies this
      ensures (View(), post) == RetryPending(old(View()))
    {
      var submission: Option<Command> := None;
      if pendingRetry.Some? {
        submission := Lookup(submissions, pendingRetry.value);
      }
      if submission.None? {
        pendingRetry := None;
        return None;
      }
      post := SubmitFrozen(submission.value);
    }

    method OnDelete(target: string, op: string, stored: bool) returns (post: Option<Command>)
      modifies this
      ensures (View(), post) == DeleteCustody(old(View()), target, op, stored)
    {
      if mutationInFlight.Some? || submissions != [] || pendingRetry.Some? || target !in deletable {
        return None;
      }
      var preservedForTarget := FindTarget(deletionSubmissions, target);
      if deletionSubmissions != [] && preservedForTarget.None? {
        return None;
      }
      var prior := Lookup(deletionSubmissions, op);
      if prior.None? {
        prior := preservedForTarget;
      }
      if prior.Some? && !(prior.value.Delete? && prior.value.target == target) {
        return None;
      }
      var submission := if prior.Some? then prior.value else Delete(op, aggregateVersion, target);
      deletionSubmissions := Put(deletionSubmissions, submission);
      if stored {
        deletionSlot := Some(submission);
      }
      mutationInFlight := Some(submission);
      post := Some(submission);
    }

    /** The loop over the displayed rows, with the sets of identifiers seen so far. */
    method RowsAccept(row: Row) returns (ok: bool)
      ensures ok <==> RowsAgree(requests, row)
    {
      var requestIds: set<string>, clientOperationIds: set<string> := {}, {};
      for i := 0 to |requests|
        invariant requestIds == set j | 0 <= j < i :: requests[j].id
        invariant clientOperationIds == set j | 0 <= j < i :: requests[j].op
        invariant RowsAgree(requests[..i], row)
      {
        var request := requests[i];
        if request.id in requestIds
           || request.op in clientOperationIds
           || (request.id == row.id && request.op != row.op)
           || (request.op == row.op && request.id != row.id) {
          return false;
        }
        requestIds := requestIds + {request.id};
        clientOperationIds := clientOperationIds + {request.op};
      }
      assert requests[..|requests|] == requests;
      return true;
    }

    method OnReply(submission: Command, reply: Reply, cleared: bool)
      modifies this
      ensures View() == ReplyReceived(old(View()), submission, reply, cleared)
    {
      if !reply.Refused? {
        var accepted := Matches(submission, reply);
        if accepted && submission.Queue? {
          accepted := RowsAccept(reply.echo.row);
        }
        if !accepted {
          OnUnknown(submission);
          return;
        }
        if aggregateVersion < reply.version {
          aggregateVersion := reply.version;
        }
        match reply.echo
        case QueuedRow(row) => requests := [row] + OtherRows(requests, row);
        case DeletingRow(id) => deletable := deletable - {id};
      }
      if submission.Queue? {
        submissions := Remove(submissions, submission.op);
        queueSlot := if cleared then None else queueSlot;
        if pendingRetry == Some(submission.op) {
          pendingRetry := None;
        }
      } else {
        deletionSubmissions := Remove(deletionSubmissions, submission.op);
        deletionSlot := if cleared then None else deletionSlot;
      }
      mutationInFlight := None;
    }

    method OnUnknown(submission: Command)
      modifies this
      ensures View() == OutcomeUnknown(old(View()), submission)
    {
      if submission.Queue? {
        pendingRetry := Some(submission.op);
      }
      mutationInFlight := None;
    }

    /** The reconciliation loop over the preserved deletions. */
    method OnLedger(gone: set<string>, canDelete: set<string>, rows: seq<Row>, cleared: bool)
      modifies this
      ensures View() == LedgerRead(old(View()), gone, canDelete, rows, cleared)
    {
      if mutationInFlight.Some? {
        return;
      }
      var submissions := deletionSubmissions;
      var reconciled := false;
      var kept: seq<Command> := [];
      for i := 0 to |submissions|
        invariant kept + WithoutTargets(submissions[i..], gone) == WithoutTargets(submissions, gone)
        invariant |kept| <= i
        invariant !reconciled <==> kept == submissions[..i]
        invariant reconciled ==> |kept| < i
      {
        var submission := submissions[i];
        assert submissions[i..][1..] == submissions[i + 1..];
        if submission.Delete? && submission.target in gone {
          reconciled := true;
        } else {
          kept := kept + [submission];
        }
      }
      assert submissions[..|submissions|] == submissions;
      deletionSubmissions := kept;
      if reconciled && cleared {
        deletionSlot := None;
      }
      requests := rows;
      deletable := canDelete;
    }
  }
}
