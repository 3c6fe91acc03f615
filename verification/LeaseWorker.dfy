/**
 The extraction worker around the lease store: probe, claim, work under a heartbeat, settle. Calls
 to the store may take effect and lose their answer, the process may die, and other workers act on
 the same store.
 */
module LeaseWorker {
  import opened Common
  import opened LeaseStore

  // ---- The heartbeat of one lease. ----

  /** `outstanding` counts the calls that have started and not yet ended. */
  datatype Beat = Beat(armed: bool, running: bool, outstanding: nat, aborted: bool)

  const NO_BEAT := Beat(false, false, 0, false)

  function Interval(b: Beat): Beat {
    if b.running || b.aborted then b else b.(running := true, outstanding := b.outstanding + 1)
  }

  /** None when the call threw. */
  function Answered(b: Beat, retained: Option<bool>): Beat
    requires b.outstanding > 0
  {
    b.(running := false, outstanding := b.outstanding - 1, aborted := b.aborted || retained != Some(true))
  }

  class Heartbeat {
    var armed: bool
    var heartbeatRunning: bool
    ghost var outstanding: nat
    var aborted: bool

    constructor (callerAborted: bool)
      ensures View() == Beat(true, false, 0, callerAborted)
    {
      armed, heartbeatRunning, outstanding, aborted := true, false, 0, callerAborted;
    }

    ghost function View(): Beat
      reads this
    {
      Beat(armed, heartbeatRunning, outstanding, aborted)
    }

    method OnInterval() returns (started: bool)
      modifies this
      ensures View() == Interval(old(View()))
      ensures started <==> View() != old(View())
    {
      if heartbeatRunning || aborted {
        return false;
      }
      heartbeatRunning := true;
      outstanding := outstanding + 1;
      return true;
    }

    method OnAnswer(retained: Option<bool>)
      requires outstanding > 0
      modifies this
      ensures View() == Answered(old(View()), retained)
    {
      if retained != Some(true) {
        aborted := true;
      }
      heartbeatRunning := false;
      outstanding := outstanding - 1;
    }

    method Clear()
      modifies this`armed
      ensures !armed
    {
      armed := false;
    }
  }

  // ---- The worker. ----

  /** How the work on a lease ended: an attestation, busy before admission, or another error. */
  datatype Outcome = Attested | Busy | Broken(retryable: bool)

  datatype Phase =
    | Ready
    | Probed
    | Working(id: LeaseId)
    | Draining(id: LeaseId, outcome: Outcome)      // the interval is cleared, a heartbeat may be awaited
    | FailingAfterComplete(id: LeaseId, retryable: bool)
    | Halted

  /**
   `stopping` says that the caller's signal has aborted; `settled` counts the settle calls per lease;
   `abandoned` are leases in hand when the process died.
   */
  datatype World = World(store: Store, phase: Phase, beat: Beat, stopping: bool, probes: nat, claimCalls: nat,
                         mine: set<LeaseId>, settled: map<LeaseId, nat>, abandoned: set<LeaseId>)

  const START := World(EMPTY, Ready, NO_BEAT, false, 0, 0, {}, map[], {})

  datatype Kind = CompleteIt | DeferIt | FailIt(retryable: bool)

  datatype Event =
    | Probe(ok: bool, retryable: bool)
    | ClaimNext(pick: Option<JobId>, id: LeaseId, answered: bool)
    | IntervalFires
    | BeatEnds(reached: bool, answered: bool)
    | OperationEnds(outcome: Outcome)
    | Settle(reached: bool, answered: bool, errorRetryable: bool)
    | CallerAborts
    | Stop
    | Crash
    | Enqueued(job: JobId)
    | Expires(job: JobId)
    | Closes(job: JobId)
    | CustodyDeleted(job: JobId)
    | OtherClaims(job: JobId, id: LeaseId)
    | OtherSettles(id: LeaseId, kind: Kind)

  predicate Holding(p: Phase) {
    p.Working? || p.Draining? || p.FailingAfterComplete?
  }

  predicate Enabled(w: World, e: Event) {
    match e
    case Probe(_, _) => w.phase == Ready && !w.stopping
    case ClaimNext(pick, id, _) =>
      && w.phase == Probed
      && (pick.Some? ==> Claimable(w.store, pick.value) && id !in w.store.leases)
    case IntervalFires => w.beat.armed
    case BeatEnds(_, _) => w.beat.outstanding > 0 && Holding(w.phase)
    case OperationEnds(_) => w.phase.Working?
    case Settle(_, _, _) => (w.phase.Draining? && !w.beat.running) || w.phase.FailingAfterComplete?
    case CallerAborts => true
    case Stop => w.phase == Ready && w.stopping
    case Crash => w.phase != Halted
    case Enqueued(_) => true
    case Expires(_) => true
    case Closes(j) => Candidate(w.store, j)
    case CustodyDeleted(_) => true
    case OtherClaims(j, id) => Claimable(w.store, j) && id !in w.store.leases
    case OtherSettles(id, _) => id !in w.mine
  }

  function SettleIn(s: Store, id: LeaseId, kind: Kind): Store {
    match kind
    case CompleteIt => Complete(s, id)
    case DeferIt => Defer(s, id)
    case FailIt(retryable) => Fail(s, id, retryable)
  }

  /** The settle call the current phase makes. */
  function KindOf(p: Phase): Kind
    requires p.Draining? || p.FailingAfterComplete?
  {
    match p
    case Draining(_, Attested) => CompleteIt
    case Draining(_, Busy) => DeferIt
    case Draining(_, Broken(retryable)) => FailIt(retryable)
    case FailingAfterComplete(_, retryable) => FailIt(retryable)
  }

  /** A completion that throws is followed by a failure report; any other settle call that throws ends the loop. */
  function AfterSettle(p: Phase, answered: bool, errorRetryable: bool): Phase
    requires p.Draining? || p.FailingAfterComplete?
  {
    if answered then Ready
    else if p.Draining? && p.outcome == Attested then FailingAfterComplete(p.id, errorRetryable)
    else Halted
  }

  function Count(settled: map<LeaseId, nat>, id: LeaseId): nat {
    if id in settled then settled[id] else 0
  }

  function Step(w: World, e: Event): World
    requires Enabled(w, e)
  {
    match e
    case Probe(ok, retryable) =>
      if ok then w.(phase := Probed, probes := w.probes + 1) else if retryable then w else w.(phase := Halted)
    case ClaimNext(pick, id, answered) =>
      var called := w.(claimCalls := w.claimCalls + 1);
      if pick.None? then called.(phase := if answered then Ready else Halted)
      else
        var claimed := called.(store := Claim(w.store, pick.value, id));
        if !answered then claimed.(phase := Halted)
        else claimed.(phase := Working(id), beat := Beat(true, false, 0, w.stopping), mine := w.mine + {id})
    case IntervalFires => w.(beat := Interval(w.beat))
    case BeatEnds(reached, answered) =>
      w.(beat := Answered(w.beat, if reached && answered then Some(Retained(w.store, w.phase.id)) else None))
    case OperationEnds(outcome) =>
      w.(phase := Draining(w.phase.id, outcome), beat := w.beat.(armed := false))
    case Settle(reached, answered, errorRetryable) =>
      var id := w.phase.id;
      w.(store := if reached then SettleIn(w.store, id, KindOf(w.phase)) else w.store,
         phase := AfterSettle(w.phase, answered, errorRetryable),
         settled := w.settled[id := Count(w.settled, id) + 1])
    case CallerAborts => w.(stopping := true, beat := w.beat.(aborted := true))
    case Stop => w.(phase := Halted)
    case Crash =>
      w.(phase := Halted, beat := NO_BEAT,
         abandoned := if Holding(w.phase) then w.abandoned + {w.phase.id} else w.abandoned)
    case Enqueued(j) => w.(store := Enqueue(w.store, j))
    case Expires(j) => w.(store := Expire(w.store, j))
    case Closes(j) => w.(store := CloseWithoutClaim(w.store, j))
    case CustodyDeleted(j) => w.(store := Cancel(w.store, j))
    case OtherClaims(j, id) => w.(store := Claim(w.store, j, id))
    case OtherSettles(id, kind) => w.(store := SettleIn(w.store, id, kind))
  }

  // ---- What every step keeps. ----

  ghost predicate BeatInv(w: World) {
    && w.beat.outstanding == (if w.beat.running then 1 else 0)
    && (w.beat.running ==> w.phase.Working? || w.phase.Draining?)
    && (w.beat.armed <==> w.phase.Working?)
  }

  ghost predicate ProbeInv(w: World) {
    && w.claimCalls <= w.probes
    && (w.phase != Halted ==> w.probes == w.claimCalls + if w.phase == Probed then 1 else 0)
  }

  /** Each lease handed to the worker has had its settle calls, unless it is in hand or died in hand. */
  ghost predicate SettleInv(w: World) {
    && (Holding(w.phase) ==> w.phase.id in w.mine)
    && (forall id :: id in w.mine ==>
          if Holding(w.phase) && w.phase.id == id
          then Count(w.settled, id) == (if w.phase.FailingAfterComplete? then 1 else 0)
          else (id in w.abandoned || Count(w.settled, id) >= 1) && Count(w.settled, id) <= 2)
    && w.settled.Keys <= w.mine <= w.store.leases.Keys
  }

  ghost predicate WorldInv(w: World) {
    Inv(w.store) && BeatInv(w) && ProbeInv(w) && SettleInv(w)
  }

  lemma SettleInKeepsInv(s: Store, id: LeaseId, kind: Kind)
    requires Inv(s)
    ensures Inv(SettleIn(s, id, kind))
    ensures s.leases.Keys == SettleIn(s, id, kind).leases.Keys
  {
    SettlingKeepsInv(s, id, kind.FailIt? && kind.retryable);
  }

  lemma StoreStaysInOrder(w: World, e: Event)
    requires Enabled(w, e) && Inv(w.store)
    ensures Inv(Step(w, e).store)
    ensures w.store.leases.Keys <= Step(w, e).store.leases.Keys
  {
    match e
    case ClaimNext(pick, id, _) => if pick.Some? { ClaimKeepsInv(w.store, pick.value, id); }
    case Settle(_, _, _) => SettleInKeepsInv(w.store, w.phase.id, KindOf(w.phase));
    case Enqueued(j) => EnqueueKeepsInv(w.store, j);
    case Expires(j) => ExpireKeepsInv(w.store, j);
    case Closes(j) => CloseKeepsInv(w.store, j);
    case CustodyDeleted(j) => CancelKeepsInv(w.store, j);
    case OtherClaims(j, id) => ClaimKeepsInv(w.store, j, id);
    case OtherSettles(id, kind) => SettleInKeepsInv(w.store, id, kind);
    case _ =>
  }

  lemma StepKeepsBeatAndProbes(w: World, e: Event)
    requires Enabled(w, e) && BeatInv(w) && ProbeInv(w)
    ensures BeatInv(Step(w, e)) && ProbeInv(Step(w, e))
  {
  }

  lemma SettleCounts(w: World, e: Event)
    requires Enabled(w, e) && e.Settle? && SettleInv(w) && w.store.leases.Keys <= Step(w, e).store.leases.Keys
    ensures SettleInv(Step(w, e))
  {
    var t := Step(w, e);
    forall id | id in t.mine && id != w.phase.id ensures Count(t.settled, id) == Count(w.settled, id) {
    }
  }

  lemma ClaimCounts(w: World, e: Event)
    requires Enabled(w, e) && e.ClaimNext? && SettleInv(w) && w.store.leases.Keys <= Step(w, e).store.leases.Keys
    ensures SettleInv(Step(w, e))
  {
    var t := Step(w, e);
    assert t.settled == w.settled;
    if t.phase.Working? {
      assert t.phase.id !in w.mine && Count(t.settled, t.phase.id) == 0;
    }
  }

  lemma StepKeepsSettles(w: World, e: Event)
    requires Enabled(w, e) && SettleInv(w) && w.store.leases.Keys <= Step(w, e).store.leases.Keys
    ensures SettleInv(Step(w, e))
  {
    if e.Settle? {
      SettleCounts(w, e);
    } else if e.ClaimNext? {
      ClaimCounts(w, e);
    } else {
      var t := Step(w, e);
      assert t.settled == w.settled && t.mine == w.mine && w.abandoned <= t.abandoned;
    }
  }

  lemma StepKeepsInv(w: World, e: Event)
    requires Enabled(w, e) && WorldInv(w)
    ensures WorldInv(Step(w, e))
  {
    StoreStaysInOrder(w, e);
    StepKeepsBeatAndProbes(w, e);
    StepKeepsSettles(w, e);
  }

  // ---- Runs. ----

  predicate StepAt(ws: seq<World>, es: seq<Event>, i: nat)
    requires |ws| == |es| + 1 && i < |es|
  {
    Enabled(ws[i], es[i]) && ws[i + 1] == Step(ws[i], es[i])
  }

  ghost predicate IsRun(ws: seq<World>, es: seq<Event>) {
    && |ws| == |es| + 1 && ws[0] == START
    && forall i :: 0 <= i < |es| ==> StepAt(ws, es, i)
  }

  lemma {:induction false} EveryRunKeepsInv(ws: seq<World>, es: seq<Event>, i: nat)
    requires IsRun(ws, es) && i < |ws|
    ensures WorldInv(ws[i])
  {
    if i > 0 {
      EveryRunKeepsInv(ws, es, i - 1);
      assert StepAt(ws, es, i - 1);
      StepKeepsInv(ws[i - 1], es[i - 1]);
    }
  }

  ghost predicate FreshProbe(es: seq<Event>, p: nat, i: nat) {
    p < i <= |es| && es[p].Probe? && es[p].ok && forall q :: p < q < i ==> !es[q].ClaimNext?
  }

  lemma {:induction false} ProbedByFreshProbe(ws: seq<World>, es: seq<Event>, i: nat)
    requires IsRun(ws, es) && i < |ws| && ws[i].phase == Probed
    ensures exists p :: FreshProbe(es, p, i)
  {
    var last := es[i - 1];
    assert StepAt(ws, es, i - 1);
    if last.Probe? && last.ok {
      assert FreshProbe(es, i - 1, i);
    } else {
      ProbedByFreshProbe(ws, es, i - 1);
      var p :| FreshProbe(es, p, i - 1);
      assert FreshProbe(es, p, i);
    }
  }

  /** Every claim follows a successful probe that no earlier claim used. */
  lemma ProbesBeforeClaims(ws: seq<World>, es: seq<Event>, i: nat)
    requires IsRun(ws, es) && i < |es| && es[i].ClaimNext?
    ensures exists p :: FreshProbe(es, p, i)
    ensures ws[i].probes == ws[i].claimCalls + 1
  {
    EveryRunKeepsInv(ws, es, i);
    assert StepAt(ws, es, i);
    ProbedByFreshProbe(ws, es, i);
  }

  /** No heartbeat is outstanding when a settle call is made, and never are there two. */
  lemma SettlesWithoutHeartbeat(ws: seq<World>, es: seq<Event>, i: nat)
    requires IsRun(ws, es) && i < |es|
    ensures ws[i].beat.outstanding <= 1
    ensures es[i].Settle? ==> ws[i].beat.outstanding == 0 && !ws[i].beat.armed
  {
    EveryRunKeepsInv(ws, es, i);
    assert StepAt(ws, es, i);
  }

  /** Back at the top of the loop, every lease ever handed to the worker has had its settle call. */
  lemma EveryLeaseIsSettled(ws: seq<World>, es: seq<Event>, i: nat, id: LeaseId)
    requires IsRun(ws, es) && i < |ws| && id in ws[i].mine && id !in ws[i].abandoned
    ensures (Holding(ws[i].phase) && ws[i].phase.id == id) || 1 <= Count(ws[i].settled, id) <= 2
  {
    EveryRunKeepsInv(ws, es, i);
  }

  // ---- One effect per lease, and books that balance. ----

  lemma EffectStays(w: World, e: Event, id: LeaseId)
    requires Enabled(w, e) && id in w.store.leases && w.store.leases[id].effect != Pending
    ensures id in Step(w, e).store.leases && Step(w, e).store.leases[id] == w.store.leases[id]
  {
  }

  ghost predicate HasEffect(w: World, id: LeaseId, a: Attempt) {
    id in w.store.leases && w.store.leases[id] == a && a.effect != Pending
  }

  lemma EffectStaysInRun(ws: seq<World>, es: seq<Event>, i: nat, id: LeaseId, a: Attempt)
    requires IsRun(ws, es) && i < |es| && HasEffect(ws[i], id, a)
    ensures HasEffect(ws[i + 1], id, a)
  {
    assert StepAt(ws, es, i);
    EffectStays(ws[i], es[i], id);
  }

  /** Once a lease has an effect, nothing that happens later changes it: at most one settle call takes effect. */
  lemma {:induction false} OneEffectPerLease(ws: seq<World>, es: seq<Event>, i: nat, j: nat, id: LeaseId, a: Attempt)
    requires IsRun(ws, es) && i <= j < |ws| && HasEffect(ws[i], id, a)
    ensures HasEffect(ws[j], id, a)
    decreases j
  {
    if i < j {
      OneEffectPerLease(ws, es, i, j - 1, id, a);
      EffectStaysInRun(ws, es, j - 1, id, a);
    }
  }

  /** A settle call on a lease that already has an effect, or was taken over, leaves the store alone. */
  lemma LateSettleChangesNothing(s: Store, id: LeaseId, kind: Kind)
    requires Inv(s)
    requires id !in s.leases || s.leases[id].effect != Pending || s.jobs[s.leases[id].job].expired
    ensures SettleIn(s, id, kind) == s
  {
    assert id in s.leases ==> LeaseInv(s, id);
  }

  // ---- Jobs that are over. ----

  ghost predicate OverIn(w: World, j: JobId, job: Job) {
    j in w.store.jobs && w.store.jobs[j] == job && Final(job.status)
  }

  lemma SettlingLeavesOver(s: Store, id: LeaseId, kind: Kind, j: JobId)
    requires j in s.jobs && Final(s.jobs[j].status)
    ensures j in SettleIn(s, id, kind).jobs && SettleIn(s, id, kind).jobs[j] == s.jobs[j]
  {
  }

  lemma OverStays(w: World, e: Event, j: JobId)
    requires Enabled(w, e) && j in w.store.jobs && Final(w.store.jobs[j].status)
    ensures OverIn(Step(w, e), j, w.store.jobs[j])
  {
    match e
    case Settle(_, _, _) => SettlingLeavesOver(w.store, w.phase.id, KindOf(w.phase), j);
    case OtherSettles(id, kind) => SettlingLeavesOver(w.store, id, kind, j);
    case _ =>
  }

  /** Once a job has succeeded, died or been cancelled nothing changes it any more: no late worker revives it. */
  lemma {:induction false} OverIsFinal(ws: seq<World>, es: seq<Event>, i: nat, k: nat, j: JobId, job: Job)
    requires IsRun(ws, es) && i <= k < |ws| && OverIn(ws[i], j, job)
    ensures OverIn(ws[k], j, job)
    decreases k
  {
    if i < k {
      OverIsFinal(ws, es, i, k - 1, j, job);
      assert StepAt(ws, es, k - 1);
      OverStays(ws[k - 1], es[k - 1], j);
    }
  }

  /** After a custody deletion the job is over and no worker's settle call on it takes effect. */
  lemma CustodyDeletionFences(ws: seq<World>, es: seq<Event>, i: nat, k: nat, id: LeaseId, kind: Kind)
    requires IsRun(ws, es) && i < k < |ws| && es[i].CustodyDeleted?
    requires es[i].job in ws[i].store.jobs
    requires id in ws[k].store.leases && ws[k].store.leases[id].job == es[i].job
    ensures es[i].job in ws[k].store.jobs && Final(ws[k].store.jobs[es[i].job].status)
    ensures SettleIn(ws[k].store, id, kind) == ws[k].store
  {
    EveryRunKeepsInv(ws, es, i);
    assert StepAt(ws, es, i) && JobInv(ws[i].store, es[i].job);
    OverIsFinal(ws, es, i + 1, k, es[i].job, ws[i + 1].store.jobs[es[i].job]);
  }

  /** In every reachable state, per job: claims are attempts used up plus deferrals, within the budget. */
  lemma BooksBalance(ws: seq<World>, es: seq<Event>, i: nat, j: JobId)
    requires IsRun(ws, es) && i < |ws| && j in ws[i].store.jobs
    ensures var s := ws[i].store;
            |Claims(s.leases, j)| == s.jobs[j].attempts + |Deferrals(s.leases, j)|
            && s.jobs[j].attempts <= s.jobs[j].maxAttempts
  {
    EveryRunKeepsInv(ws, es, i);
    ClaimsBalance(ws[i].store, j);
  }

  function EffectOf(kind: Kind): Effect {
    match kind
    case CompleteIt => Completed
    case DeferIt => Deferred
    case FailIt(_) => Failed
  }

  /**
   While the worker holds a lease that the store still shows as open and unexpired, its next settle
   call, if it reaches the store, is the one that takes effect.
   */
  lemma OpenLeaseSettles(ws: seq<World>, es: seq<Event>, i: nat)
    requires IsRun(ws, es) && i < |es| && es[i].Settle? && es[i].reached
    requires Holding(ws[i].phase)
    requires var id := ws[i].phase.id; var s := ws[i].store;
             && id in s.leases && s.leases[id].effect == Pending && s.leases[id].job in s.jobs
             && !s.jobs[s.leases[id].job].expired
    ensures ws[i].phase.Draining? || ws[i].phase.FailingAfterComplete?
    ensures ws[i].phase.id in ws[i + 1].store.leases
    ensures ws[i + 1].store.leases[ws[i].phase.id].effect == EffectOf(KindOf(ws[i].phase))
  {
    EveryRunKeepsInv(ws, es, i);
    assert StepAt(ws, es, i);
    var s, id := ws[i].store, ws[i].phase.id;
    assert LeaseInv(s, id) && JobInv(s, s.leases[id].job);
    assert Current(s, id);
  }
}
