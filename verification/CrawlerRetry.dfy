/**
 The crawler commands against a server that keeps one receipt per operation ID, over a network
 that may delay, lose or answer late. POSTs are numbered in the order the browser sends them.
 */
module CrawlerRetry {
  import opened Common
  import opened CrawlerClient

  /**
   `applied` lists the commands in the order they took effect; `gone` the custody they retired;
   `ledger` holds the row of every request of the workspace, under its operation ID.
   */
  datatype Server = Server(receipts: map<string, Command>, version: nat, applied: seq<Command>, gone: set<string>,
                           ledger: map<string, Row>)

  /**
   `busy` says that the crawler card on the page waits for the command in flight, which disables its
   buttons; `frozen` records, per operation ID, the command frozen under it; `denied` that session
   storage has refused something; `ended` that the user has signed out.
   */
  datatype World = World(
    client: Client,
    busy: bool,
    flightPost: nat,
    posts: seq<Command>,
    replies: map<nat, Reply>,
    server: Server,
    frozen: map<string, Command>,
    denied: bool,
    ended: bool)

  datatype Event =
    | QueueClicked(draft: Draft, allowed: bool, stored: bool)
    | RetryClicked
    | DeleteClicked(target: string, op: string, stored: bool)
    | ReplyArrived(cleared: bool)
    | ReplyLost
    | CardRemounted
    | LedgerArrived(gone: set<string>, deletable: set<string>, rows: seq<Row>, cleared: bool)
    | PageReloaded(queueReadable: bool, deletionReadable: bool, version: nat)
    | BootstrapRefreshed(version: nat)
    | SignedOut
    | PostHandled(post: nat, deny: bool, rowId: string)
    | OthersCommitted(row: Option<Row>)

  function Begin(version: nat): World {
    World(Client([], [], None, None, None, None, version, [], {}), false, 0, [], map[],
          Server(map[], version, [], {}, map[]), map[], false, false)
  }

  // ---- The server. ----

  function RowOf(command: Command, rowId: string): Row
    requires command.Queue?
  {
    Row(rowId, command.op, command.fileName, command.policyVersion, command.maxBytes)
  }

  /** The row an answer shows; a queued request has one. */
  function EchoOf(s: Server, command: Command): Echo {
    if command.Delete? then DeletingRow(command.target)
    else QueuedRow(if command.op in s.ledger then s.ledger[command.op] else RowOf(command, ""))
  }

  /** The server after a command took effect; `rowId` identifies the row of a queued request. */
  function Effect(s: Server, command: Command, rowId: string): Server {
    Server(s.receipts[command.op := command], s.version + 1, s.applied + [command],
           if command.Delete? then s.gone + {command.target} else s.gone,
           if command.Queue? then s.ledger[command.op := RowOf(command, rowId)] else s.ledger)
  }

  function Answer(s: Server, command: Command, deny: bool, rowId: string): (Server, Reply) {
    if command.op in s.receipts then
      (s, if s.receipts[command.op] == command then Replayed(s.version, EchoOf(s, command))
          else Refused(IdempotencyConflict))
    else if command.expectedVersion != s.version then (s, Refused(VersionConflict))
    else if deny || (command.Delete? && command.target in s.gone) then (s, Refused(Denied))
    else
      var t := Effect(s, command, rowId);
      (t, Applied(t.version, EchoOf(t, command)))
  }

  // ---- Steps. ----

  /** The identifier is that of no row. */
  predicate FreshRow(s: Server, rowId: string) {
    forall op :: op in s.ledger ==> s.ledger[op].id != rowId
  }

  /** Each row is one of the ledger's, and none comes twice. */
  predicate Truthful(ledger: map<string, Row>, rows: seq<Row>) {
    && (forall i :: 0 <= i < |rows| ==> rows[i].op in ledger && ledger[rows[i].op] == rows[i])
    && (forall i, j :: 0 <= i < j < |rows| ==> rows[i].op != rows[j].op)
  }

  /**
   The card's buttons work while it waits for nothing, and queueing and deleting only while no retry
   is offered. A new click brings an operation ID that was never used, or that of a preserved
   command; the ledger is truthful; a version the browser sees is one the server has reached.
   */
  predicate Enabled(w: World, e: Event) {
    match e
    case QueueClicked(d, _, _) =>
      && !w.ended && !w.busy && w.client.pending.None?
      && ((d.op !in w.frozen && d.op !in w.server.ledger) || Lookup(w.client.queued, d.op).Some?)
    case DeleteClicked(target, op, _) =>
      && !w.ended && !w.busy && w.client.pending.None? && target in w.client.deletable
      && ((op !in w.frozen && op !in w.server.ledger) || Lookup(w.client.deletions, op).Some?)
    case RetryClicked => !w.ended && !w.busy && w.client.pending.Some?
    case ReplyArrived(_) => w.client.flight.Some? && w.flightPost in w.replies
    case ReplyLost => w.client.flight.Some?
    case CardRemounted => !w.ended
    case LedgerArrived(gone, deletable, rows, _) =>
      !w.ended && gone <= w.server.gone && gone !! deletable && Truthful(w.server.ledger, rows)
    case PageReloaded(_, _, version) => !w.ended && version <= w.server.version
    case BootstrapRefreshed(version) => !w.ended && version <= w.server.version
    case SignedOut => !w.ended
    case PostHandled(post, _, rowId) => post < |w.posts| && post !in w.replies && FreshRow(w.server, rowId)
    case OthersCommitted(row) =>
      row.Some? ==> FreshRow(w.server, row.value.id) && row.value.op !in w.server.ledger && row.value.op !in w.frozen
  }

  function Send(w: World, client: Client, post: Option<Command>): World {
    if post.None? then w.(client := client)
    else w.(client := client, busy := true, flightPost := |w.posts|, posts := w.posts + [post.value])
  }

  function Freeze(w: World, command: Command, stored: bool): World {
    w.(frozen := w.frozen[command.op := command], denied := w.denied || !stored)
  }

  function StepQueue(w: World, d: Draft, allowed: bool, stored: bool): World {
    var (client, post) := QueueRequest(w.client, d, allowed, stored);
    var noted := if client.queued != w.client.queued then Freeze(w, FreezeQueue(w.client, d), stored) else w;
    Send(noted, client, post)
  }

  function StepDelete(w: World, target: string, op: string, stored: bool): World {
    var (client, post) := DeleteCustody(w.client, target, op, stored);
    var noted := if post.Some? then Freeze(w, post.value, stored) else w;
    Send(noted, client, post)
  }

  function StepReload(w: World, queueReadable: bool, deletionReadable: bool, version: nat): World {
    w.(client := CrawlerClient.Reloaded(w.client, queueReadable, deletionReadable, version),
       busy := false,
       denied := w.denied || !queueReadable || !deletionReadable)
  }

  function StepHandled(w: World, post: nat, deny: bool, rowId: string): World
    requires post < |w.posts|
  {
    var (server, reply) := Answer(w.server, w.posts[post], deny, rowId);
    w.(server := server, replies := w.replies[post := reply])
  }

  function Step(w: World, e: Event): World
    requires Enabled(w, e)
  {
    match e
    case QueueClicked(d, allowed, stored) => StepQueue(w, d, allowed, stored)
    case RetryClicked => var (client, post) := RetryPending(w.client); Send(w, client, post)
    case DeleteClicked(target, op, stored) => StepDelete(w, target, op, stored)
    case ReplyArrived(cleared) =>
      w.(client := ReplyReceived(w.client, w.client.flight.value, w.replies[w.flightPost], cleared),
         busy := false,
         denied := w.denied || !cleared)
    case ReplyLost => w.(client := OutcomeUnknown(w.client, w.client.flight.value), busy := false)
    case CardRemounted => w.(busy := false)
    case LedgerArrived(gone, deletable, rows, cleared) =>
      w.(client := LedgerRead(w.client, gone, deletable, rows, cleared), denied := w.denied || !cleared)
    case PageReloaded(queueReadable, deletionReadable, version) =>
      StepReload(w, queueReadable, deletionReadable, version)
    case BootstrapRefreshed(version) => w.(client := w.client.(version := version))
    case SignedOut =>
      w.(client := w.client.(queued := [], deletions := [], pending := None, flight := None,
                             queueSlot := None, deletionSlot := None),
         busy := false,
         ended := true)
    case PostHandled(post, deny, rowId) => StepHandled(w, post, deny, rowId)
    case OthersCommitted(row) =>
      w.(server := w.server.(
           version := w.server.version + 1,
           ledger := if row.Some? then w.server.ledger[row.value.op := row.value] else w.server.ledger))
  }

  ghost predicate IsRun(states: seq<World>, es: seq<Event>) {
    && |states| == |es| + 1
    && (forall i :: 0 <= i < |es| ==> Enabled(states[i], es[i]) && states[i + 1] == Step(states[i], es[i]))
  }

  // ---- The invariant. ----

  /** The browser: at most one preserved command of each kind, and the flight is that command. */
  ghost predicate ClientOk(c: Client) {
    && |c.queued| <= 1 && (forall i :: 0 <= i < |c.queued| ==> c.queued[i].Queue?)
    && |c.deletions| <= 1 && (forall i :: 0 <= i < |c.deletions| ==> c.deletions[i].Delete?)
    && (c.pending.Some? ==> |c.queued| == 1 && c.queued[0].op == c.pending.value)
    && (c.flight.Some? ==>
          if c.flight.value.Queue? then c.queued == [c.flight.value] else c.deletions == [c.flight.value])
    && (c.queueSlot.Some? ==> c.queueSlot.value.Queue?)
    && (c.deletionSlot.Some? ==> c.deletionSlot.value.Delete?)
  }

  ghost predicate IsFrozen(frozen: map<string, Command>, c: Command) {
    c.op in frozen && frozen[c.op] == c
  }

  /** Wherever a command is found, it is the one frozen under its operation ID. */
  ghost predicate AllFrozen(w: World) {
    && (forall i :: 0 <= i < |w.client.queued| ==> IsFrozen(w.frozen, w.client.queued[i]))
    && (forall i :: 0 <= i < |w.client.deletions| ==> IsFrozen(w.frozen, w.client.deletions[i]))
    && (w.client.queueSlot.Some? ==> IsFrozen(w.frozen, w.client.queueSlot.value))
    && (w.client.deletionSlot.Some? ==> IsFrozen(w.frozen, w.client.deletionSlot.value))
    && (forall k :: 0 <= k < |w.posts| ==> IsFrozen(w.frozen, w.posts[k]))
    && (forall op :: op in w.frozen ==> w.frozen[op].op == op && w.frozen[op].expectedVersion <= w.server.version)
    && w.client.version <= w.server.version
  }

  /** The server: one receipt per operation, one effect per receipt. */
  ghost predicate ServerOk(s: Server, frozen: map<string, Command>) {
    && (forall i, j :: 0 <= i < j < |s.applied| ==> s.applied[i].op != s.applied[j].op)
    && (forall i :: 0 <= i < |s.applied| ==>
          s.applied[i].op in s.receipts && s.receipts[s.applied[i].op] == s.applied[i])
    && (forall op :: op in s.receipts ==>
          s.receipts[op] in s.applied && IsFrozen(frozen, s.receipts[op]) && s.receipts[op].op == op)
    && (forall op :: op in s.receipts ==> s.receipts[op].expectedVersion < s.version)
    && (forall op :: op in s.receipts && s.receipts[op].Delete? ==> s.receipts[op].target in s.gone)
  }

  /** What a reply says about its command. */
  ghost predicate ReplyOk(s: Server, command: Command, reply: Reply) {
    match reply
    case Refused(VersionConflict) => command.op !in s.receipts && command.expectedVersion < s.version
    case Refused(IdempotencyConflict) => false
    case Refused(Denied) => true
    case _ =>
      && command.op in s.receipts && s.receipts[command.op] == command
      && Matches(command, reply) && reply.version <= s.version
      && (command.Queue? ==> command.op in s.ledger && reply.echo.row == s.ledger[command.op])
  }

  /** Rows are told apart by either identifier; a request has a row exactly from its receipt on. */
  ghost predicate LedgerOk(s: Server, frozen: map<string, Command>) {
    && (forall op :: op in s.ledger ==> s.ledger[op].op == op)
    && (forall a, b :: a in s.ledger && b in s.ledger && a != b ==> s.ledger[a].id != s.ledger[b].id)
    && (forall op :: op in s.receipts && s.receipts[op].Queue? ==>
          op in s.ledger && s.ledger[op] == RowOf(s.receipts[op], s.ledger[op].id))
    && (forall op :: op in frozen && op in s.ledger ==> op in s.receipts && s.receipts[op].Queue?)
  }

  ghost predicate NetworkOk(w: World) {
    && (forall k :: k in w.replies ==> k < |w.posts| && ReplyOk(w.server, w.posts[k], w.replies[k]))
    && (w.client.flight.Some? ==> w.flightPost < |w.posts| && w.posts[w.flightPost] == w.client.flight.value)
  }

  function AsSlot(record: seq<Command>): Option<Command> {
    if |record| == 1 then Some(record[0]) else None
  }

  /** As long as storage has refused nothing, the slots mirror memory. */
  ghost predicate SlotsOk(w: World) {
    !w.denied && !w.ended ==>
      w.client.queueSlot == AsSlot(w.client.queued) && w.client.deletionSlot == AsSlot(w.client.deletions)
  }

  ghost predicate Inv(w: World) {
    && ClientOk(w.client)
    && AllFrozen(w)
    && ServerOk(w.server, w.frozen)
    && NetworkOk(w)
    && SlotsOk(w)
    && LedgerOk(w.server, w.frozen)
    && Truthful(w.server.ledger, w.client.rows)
    && (w.busy ==> w.client.flight.Some?)
    && (w.ended ==> w.client.flight.None? && w.client.queued == [] && w.client.deletions == [])
  }

  // ---- Steps keep it. ----

  lemma RemoveOnly(c: Command)
    ensures Remove([c], c.op) == []
  {
  }

  lemma PutOnly(record: seq<Command>, c: Command)
    requires record == [] || (|record| == 1 && record[0].op == c.op)
    ensures Put(record, c) == [c]
  {
  }

  lemma WithoutTargetsOfSmall(record: seq<Command>, gone: set<string>)
    requires |record| <= 1
    ensures WithoutTargets(record, gone) ==
            if |record| == 1 && record[0].Delete? && record[0].target in gone then [] else record
  {
    assert WithoutTargets([], gone) == [];
    if |record| == 1 {
      assert record[1..] == [] && record == [record[0]];
    }
  }

  /** A client whose flight has ended one way or another. */
  lemma ResolveKeepsClient(c: Client, command: Command, cleared: bool)
    requires ClientOk(c) && c.flight == Some(command)
    ensures ClientOk(Resolve(c, command, cleared))
    ensures Resolve(c, command, cleared).queued == if command.Queue? then [] else c.queued
    ensures Resolve(c, command, cleared).deletions == if command.Queue? then c.deletions else []
  {
    RemoveOnly(command);
  }

  lemma FreezeKeepsServer(w: World, command: Command)
    requires Inv(w) && command.op !in w.frozen
    ensures ServerOk(w.server, w.frozen[command.op := command])
  {
    forall op | op in w.server.receipts
      ensures IsFrozen(w.frozen[command.op := command], w.server.receipts[op])
    {
      assert IsFrozen(w.frozen, w.server.receipts[op]);
    }
  }

  /** A command preserved in memory goes out again: nothing new is frozen. */
  lemma SendKeepsInv(w: World, command: Command)
    requires Inv(w) && !w.ended && w.client.flight.None?
    requires if command.Queue? then w.client.queued == [command] else w.client.deletions == [command]
    ensures Inv(Send(w, w.client.(flight := Some(command)), Some(command)))
  {
    var t := Send(w, w.client.(flight := Some(command)), Some(command));
    assert command == if command.Queue? then w.client.queued[0] else w.client.deletions[0];
    assert IsFrozen(w.frozen, command);
    assert NetworkOk(t);
  }

  /** The state with a command frozen and preserved in its record. */
  function FrozenIn(w: World, command: Command, stored: bool): World {
    Freeze(w, command, stored).(client :=
      if command.Queue?
      then w.client.(queued := [command], queueSlot := if stored then Some(command) else w.client.queueSlot)
      else w.client.(deletions := [command], deletionSlot := if stored then Some(command) else w.client.deletionSlot))
  }

  lemma FreezeKeepsAllFrozen(w: World, command: Command, stored: bool)
    requires AllFrozen(w) && command.op !in w.frozen && command.expectedVersion == w.client.version
    ensures AllFrozen(FrozenIn(w, command, stored))
  {
    var t := FrozenIn(w, command, stored);
    forall k | 0 <= k < |t.posts| ensures IsFrozen(t.frozen, t.posts[k]) {
      assert IsFrozen(w.frozen, w.posts[k]);
    }
  }

  /** A new command is frozen and preserved. */
  lemma FreezeKeepsInv(w: World, command: Command, stored: bool)
    requires Inv(w) && !w.ended && command.op !in w.frozen && command.expectedVersion == w.client.version
    requires command.op !in w.server.ledger
    requires if command.Queue? then w.client.queued == [] && w.client.pending.None? else w.client.deletions == []
    requires w.client.flight.None? || w.client.flight.value.Queue? != command.Queue?
    ensures Inv(FrozenIn(w, command, stored))
  {
    FreezeKeepsServer(w, command);
    FreezeKeepsAllFrozen(w, command, stored);
    assert NetworkOk(FrozenIn(w, command, stored));
  }

  lemma StepQueueKeepsInv(w: World, d: Draft, allowed: bool, stored: bool)
    requires Inv(w) && Enabled(w, QueueClicked(d, allowed, stored))
    ensures Inv(StepQueue(w, d, allowed, stored))
  {
    var prior := Lookup(w.client.queued, d.op);
    if prior.Some? {
      assert w.client.queued == [prior.value];
      if w.client.flight.None? {
        SendKeepsInv(w, prior.value);
      }
    } else if !(w.client.queued != [] || w.client.pending.Some? || !allowed) {
      var command := FreezeQueue(w.client, d);
      PutOnly([], command);
      FreezeKeepsInv(w, command, stored);
      if w.client.flight.None? {
        SendKeepsInv(FrozenIn(w, command, stored), command);
      }
    }
  }

  /** A deletion click sends a new command or, if one is preserved, exactly that one. */
  lemma DeletionCommandIsPreserved(c: Client, target: string, op: string)
    requires ClientOk(c) && DeletionCommand(c, target, op).Some?
    ensures c.flight.None? && target in c.deletable
    ensures if c.deletions == []
            then DeletionCommand(c, target, op).value == Delete(op, c.version, target)
            else c.deletions == [DeletionCommand(c, target, op).value] && c.deletions[0].target == target
  {
  }

  lemma StepDeleteKeepsInv(w: World, target: string, op: string, stored: bool)
    requires Inv(w) && Enabled(w, DeleteClicked(target, op, stored))
    ensures Inv(StepDelete(w, target, op, stored))
  {
    var found := DeletionCommand(w.client, target, op);
    if found.Some? {
      var command := found.value;
      DeletionCommandIsPreserved(w.client, target, op);
      PutOnly(w.client.deletions, command);
      if w.client.deletions == [] {
        FreezeKeepsInv(w, command, stored);
        SendKeepsInv(FrozenIn(w, command, stored), command);
      } else {
        assert IsFrozen(w.frozen, command);
        assert w.frozen[command.op := command] == w.frozen;
        assert Inv(FrozenIn(w, command, stored));
        SendKeepsInv(FrozenIn(w, command, stored), command);
      }
    }
  }

  lemma RetryKeepsInv(w: World)
    requires Inv(w) && Enabled(w, RetryClicked)
    ensures Inv(Step(w, RetryClicked))
  {
    if w.client.pending.Some? {
      assert Lookup(w.client.queued, w.client.pending.value) == Some(w.client.queued[0]);
      if w.client.flight.None? {
        SendKeepsInv(w, w.client.queued[0]);
      }
    }
  }

  /** What this server answers passes all of the browser's tests. */
  lemma HonestReplyIsAccepted(w: World)
    requires Inv(w) && w.client.flight.Some? && w.flightPost in w.replies
    ensures var command, reply := w.client.flight.value, w.replies[w.flightPost];
            && ReplyOk(w.server, command, reply)
            && (reply.Refused? || Accepts(w.client, command, reply))
            && (!reply.Refused? && command.Queue? ==>
                    Truthful(w.server.ledger, [reply.echo.row] + OtherRows(w.client.rows, reply.echo.row)))
  {
    var command, reply := w.client.flight.value, w.replies[w.flightPost];
    assert ReplyOk(w.server, w.posts[w.flightPost], reply);
    if !reply.Refused? && command.Queue? {
      TruthfulRowsAgree(w.server, w.frozen, w.client.rows, command.op);
      NewRowKeepsTruth(w.server.ledger, w.client.rows, reply.echo.row);
    }
  }

  lemma ReplyKeepsInv(w: World, cleared: bool)
    requires Inv(w) && Enabled(w, ReplyArrived(cleared))
    ensures Inv(Step(w, ReplyArrived(cleared)))
  {
    HonestReplyIsAccepted(w);
    ReplyKeepsClient(w.client, w.client.flight.value, w.replies[w.flightPost], cleared);
    var t := Step(w, ReplyArrived(cleared));
    assert AllFrozen(t);
  }

  /** Truthful rows contradict no row of the ledger. */
  lemma TruthfulRowsAgree(s: Server, frozen: map<string, Command>, rows: seq<Row>, op: string)
    requires LedgerOk(s, frozen) && Truthful(s.ledger, rows) && op in s.ledger
    ensures RowsAgree(rows, s.ledger[op])
  {
  }

  lemma {:induction false} OtherRowsAt(rows: seq<Row>, row: Row)
    ensures forall r :: r in OtherRows(rows, row) <==> r in rows && r.id != row.id && r.op != row.op
    ensures (forall i, j :: 0 <= i < j < |rows| ==> rows[i].op != rows[j].op) ==>
              forall i, j :: 0 <= i < j < |OtherRows(rows, row)| ==>
                  OtherRows(rows, row)[i].op != OtherRows(rows, row)[j].op
  {
    if rows != [] {
      OtherRowsAt(rows[1..], row);
      assert rows == [rows[0]] + rows[1..];
      var rest := OtherRows(rows[1..], row);
      if forall i, j :: 0 <= i < j < |rows| ==> rows[i].op != rows[j].op {
        forall j | 0 <= j < |rest| ensures rest[j].op != rows[0].op {
          assert rest[j] in rest;
          var k :| 0 <= k < |rows[1..]| && rows[1..][k] == rest[j];
          assert rows[k + 1] == rest[j];
        }
      }
    }
  }

  lemma NewRowKeepsTruth(ledger: map<string, Row>, rows: seq<Row>, row: Row)
    requires Truthful(ledger, rows) && row.op in ledger && ledger[row.op] == row
    ensures Truthful(ledger, [row] + OtherRows(rows, row))
  {
    OtherRowsAt(rows, row);
    var after := [row] + OtherRows(rows, row);
    forall i | 0 <= i < |after| ensures after[i].op in ledger && ledger[after[i].op] == after[i] {
      if i > 0 {
        assert after[i] in OtherRows(rows, row);
      }
    }
    forall j | 0 < j < |after| ensures after[j].op != row.op {
      assert after[j] in OtherRows(rows, row);
    }
  }

  /** An answer the client accepts empties the record of its command and nothing else. */
  lemma ReplyKeepsClient(c: Client, command: Command, reply: Reply, cleared: bool)
    requires ClientOk(c) && c.flight == Some(command) && (reply.Refused? || Accepts(c, command, reply))
    ensures var t := ReplyReceived(c, command, reply, cleared);
            && ClientOk(t) && t.flight.None?
            && t.queued == (if command.Queue? then [] else c.queued)
            && t.deletions == (if command.Queue? then c.deletions else [])
            && t.queueSlot == (if command.Queue? && cleared then None else c.queueSlot)
            && t.deletionSlot == (if command.Delete? && cleared then None else c.deletionSlot)
            && (t.version == c.version || (!reply.Refused? && t.version == reply.version))
            && t.rows == (if !reply.Refused? && command.Queue?
                          then [reply.echo.row] + OtherRows(c.rows, reply.echo.row) else c.rows)
  {
    ResolveKeepsClient(c, command, cleared);
  }

  lemma LedgerKeepsInv(w: World, gone: set<string>, deletable: set<string>, rows: seq<Row>, cleared: bool)
    requires Inv(w) && Enabled(w, LedgerArrived(gone, deletable, rows, cleared))
    ensures Inv(Step(w, LedgerArrived(gone, deletable, rows, cleared)))
  {
    WithoutTargetsOfSmall(w.client.deletions, gone);
  }

  lemma EffectKeepsServer(s: Server, command: Command, rowId: string, frozen: map<string, Command>)
    requires ServerOk(s, frozen) && IsFrozen(frozen, command) && command.expectedVersion <= s.version
    requires command.op !in s.receipts
    ensures ServerOk(Effect(s, command, rowId), frozen)
  {
    var t := Effect(s, command, rowId);
    assert t.applied[|s.applied|] == command;
    forall op | op in t.receipts
      ensures t.receipts[op] in t.applied
    {
      if op != command.op {
        assert s.receipts[op] in s.applied;
      }
    }
  }

  lemma EffectKeepsLedger(s: Server, command: Command, rowId: string, frozen: map<string, Command>)
    requires LedgerOk(s, frozen) && IsFrozen(frozen, command) && command.op !in s.receipts && FreshRow(s, rowId)
    ensures LedgerOk(Effect(s, command, rowId), frozen)
    ensures command.Queue? ==> command.op !in s.ledger
  {
  }

  lemma AnswerIsTrue(s: Server, command: Command, deny: bool, rowId: string, frozen: map<string, Command>)
    requires ServerOk(s, frozen) && LedgerOk(s, frozen)
    requires IsFrozen(frozen, command) && command.expectedVersion <= s.version
    ensures ReplyOk(Answer(s, command, deny, rowId).0, command, Answer(s, command, deny, rowId).1)
  {
    if command.op in s.receipts {
      assert IsFrozen(frozen, s.receipts[command.op]);
    }
  }

  lemma AnswerKeepsServer(s: Server, command: Command, deny: bool, rowId: string, frozen: map<string, Command>)
    requires ServerOk(s, frozen) && IsFrozen(frozen, command) && command.expectedVersion <= s.version
    ensures ServerOk(Answer(s, command, deny, rowId).0, frozen)
  {
    if command.op !in s.receipts {
      EffectKeepsServer(s, command, rowId, frozen);
    }
  }

  lemma AnswerKeepsLedger(s: Server, command: Command, deny: bool, rowId: string, frozen: map<string, Command>)
    requires LedgerOk(s, frozen) && FreshRow(s, rowId) && IsFrozen(frozen, command)
    ensures LedgerOk(Answer(s, command, deny, rowId).0, frozen)
    ensures forall op :: op in s.ledger ==>
              && op in Answer(s, command, deny, rowId).0.ledger
              && Answer(s, command, deny, rowId).0.ledger[op] == s.ledger[op]
  {
    if command.op !in s.receipts {
      EffectKeepsLedger(s, command, rowId, frozen);
    }
  }

  /** What the server has told one command stays true while it handles another. */
  lemma RepliesStay(s: Server, command: Command, deny: bool, rowId: string, other: Command, reply: Reply)
    requires ReplyOk(s, other, reply) && command.expectedVersion <= s.version
    requires command.op == other.op ==> command == other
    ensures ReplyOk(Answer(s, command, deny, rowId).0, other, reply)
  {
  }

  lemma HandledKeepsReplies(w: World, post: nat, deny: bool, rowId: string)
    requires Inv(w) && Enabled(w, PostHandled(post, deny, rowId))
    ensures NetworkOk(StepHandled(w, post, deny, rowId))
  {
    var command := w.posts[post];
    AnswerIsTrue(w.server, command, deny, rowId, w.frozen);
    forall k | k in w.replies
      ensures ReplyOk(Answer(w.server, command, deny, rowId).0, w.posts[k], w.replies[k])
    {
      assert IsFrozen(w.frozen, w.posts[k]);
      RepliesStay(w.server, command, deny, rowId, w.posts[k], w.replies[k]);
    }
  }

  lemma AnswerKeepsVersion(s: Server, command: Command, deny: bool, rowId: string)
    ensures Answer(s, command, deny, rowId).0.version >= s.version
  {
  }

  lemma HandledKeepsInv(w: World, post: nat, deny: bool, rowId: string)
    requires Inv(w) && Enabled(w, PostHandled(post, deny, rowId))
    ensures Inv(Step(w, PostHandled(post, deny, rowId)))
  {
    AnswerKeepsServer(w.server, w.posts[post], deny, rowId, w.frozen);
    AnswerKeepsLedger(w.server, w.posts[post], deny, rowId, w.frozen);
    AnswerKeepsVersion(w.server, w.posts[post], deny, rowId);
    HandledKeepsReplies(w, post, deny, rowId);
    assert AllFrozen(StepHandled(w, post, deny, rowId));
  }

  lemma StepKeepsInv(w: World, e: Event)
    requires Inv(w) && Enabled(w, e)
    ensures Inv(Step(w, e))
  {
    match e
    case QueueClicked(d, allowed, stored) => StepQueueKeepsInv(w, d, allowed, stored);
    case RetryClicked => RetryKeepsInv(w);
    case DeleteClicked(target, op, stored) => StepDeleteKeepsInv(w, target, op, stored);
    case ReplyArrived(cleared) => ReplyKeepsInv(w, cleared);
    case LedgerArrived(gone, deletable, rows, cleared) => LedgerKeepsInv(w, gone, deletable, rows, cleared);
    case PostHandled(post, deny, rowId) => HandledKeepsInv(w, post, deny, rowId);
    case PageReloaded(queueReadable, deletionReadable, version) =>
      ReloadKeepsInv(w, queueReadable, deletionReadable, version);
    case SignedOut => SignOutKeepsInv(w);
    case OthersCommitted(row) => OthersKeepInv(w, row);
    case _ => OtherStepsKeepInv(w, e);
  }

  lemma ReloadKeepsInv(w: World, queueReadable: bool, deletionReadable: bool, version: nat)
    requires Inv(w) && !w.ended && version <= w.server.version
    ensures Inv(StepReload(w, queueReadable, deletionReadable, version))
  {
  }

  lemma SignOutKeepsInv(w: World)
    requires Inv(w) && !w.ended
    ensures Inv(Step(w, SignedOut))
  {
  }

  lemma OthersKeepLedger(w: World, row: Option<Row>)
    requires Inv(w) && Enabled(w, OthersCommitted(row))
    ensures var t := Step(w, OthersCommitted(row));
            LedgerOk(t.server, t.frozen) && Truthful(t.server.ledger, t.client.rows)
  {
  }

  lemma OthersKeepInv(w: World, row: Option<Row>)
    requires Inv(w) && Enabled(w, OthersCommitted(row))
    ensures Inv(Step(w, OthersCommitted(row)))
  {
    var t := Step(w, OthersCommitted(row));
    OthersKeepLedger(w, row);
    forall k | k in t.replies ensures ReplyOk(t.server, t.posts[k], t.replies[k]) {
      assert ReplyOk(w.server, w.posts[k], w.replies[k]);
    }
  }

  lemma OtherStepsKeepInv(w: World, e: Event)
    requires Inv(w) && Enabled(w, e)
    requires e.BootstrapRefreshed? || e.CardRemounted? || e.ReplyLost?
    ensures Inv(Step(w, e))
  {
  }

  lemma {:induction false} RunKeepsInv(states: seq<World>, es: seq<Event>)
    requires IsRun(states, es) && Inv(states[0])
    ensures forall i :: 0 <= i < |states| ==> Inv(states[i])
    decreases |es|
  {
    if es != [] {
      var n := |es| - 1;
      RunKeepsInv(states[..n + 1], es[..n]);
      assert states[n] == states[..n + 1][n];
      StepKeepsInv(states[n], es[n]);
      forall i | 0 <= i < |states|
        ensures Inv(states[i])
      {
        if i <= n {
          assert states[i] == states[..n + 1][i];
        }
      }
    }
  }
}
