/**
 What becomes of a lease and its job, told from how the work on it ended: over whole runs, and for
 every settle call that finds the lease open.
 */
module LeaseOutcomes {
  import opened Common
  import opened LeaseStore
  import opened LeaseWorker

  // ---- What a run says of a lease. ----

  predicate EndsAt(ws: seq<World>, es: seq<Event>, k: nat, id: LeaseId, outcome: Outcome)
    requires |ws| == |es| + 1 && k < |es|
  {
    es[k] == OperationEnds(outcome) && ws[k].phase == Working(id)
  }

  /** Before step `i` the work on the lease ended so. */
  ghost predicate Ended(ws: seq<World>, es: seq<Event>, i: nat, id: LeaseId, outcome: Outcome)
    requires |ws| == |es| + 1 && i <= |es|
  {
    exists k: nat :: k < i && EndsAt(ws, es, k, id, outcome)
  }

  predicate ThrowsAt(ws: seq<World>, es: seq<Event>, k: nat, id: LeaseId, retryable: bool)
    requires |ws| == |es| + 1 && k < |es|
  {
    ws[k].phase == Draining(id, Attested) && es[k].Settle? && !es[k].answered && es[k].errorRetryable == retryable
  }

  /** Before step `i` the completion of the lease threw an error that may be retried or not. */
  ghost predicate Threw(ws: seq<World>, es: seq<Event>, i: nat, id: LeaseId, retryable: bool)
    requires |ws| == |es| + 1 && i <= |es|
  {
    exists k: nat :: k < i && ThrowsAt(ws, es, k, id, retryable)
  }

  lemma SaidEarlier(ws: seq<World>, es: seq<Event>, i: nat, id: LeaseId, outcome: Outcome, retryable: bool)
    requires |ws| == |es| + 1 && i < |es|
    ensures Ended(ws, es, i, id, outcome) ==> Ended(ws, es, i + 1, id, outcome)
    ensures Threw(ws, es, i, id, retryable) ==> Threw(ws, es, i + 1, id, retryable)
  {
    if Ended(ws, es, i, id, outcome) {
      var k: nat :| k < i && EndsAt(ws, es, k, id, outcome);
      assert k < i + 1;
    }
    if Threw(ws, es, i, id, retryable) {
      var k: nat :| k < i && ThrowsAt(ws, es, k, id, retryable);
      assert k < i + 1;
    }
  }

  /** The phase remembers how the work ended. */
  ghost predicate PhaseIsTold(ws: seq<World>, es: seq<Event>, i: nat)
    requires |ws| == |es| + 1 && i <= |es|
  {
    match ws[i].phase
    case Draining(id, outcome) => Ended(ws, es, i, id, outcome)
    case FailingAfterComplete(id, retryable) => Ended(ws, es, i, id, Attested) && Threw(ws, es, i, id, retryable)
    case _ => true
  }

  /** How one step can change the phase of a lease in hand. */
  lemma PhaseSteps(w: World, e: Event)
    requires Enabled(w, e)
    ensures var t := Step(w, e).phase;
            && (t.Draining? ==> t == w.phase || (w.phase == Working(t.id) && e == OperationEnds(t.outcome)))
            && (t.FailingAfterComplete? ==>
                  || (t == w.phase && !e.Settle?)
                  || (&& w.phase == Draining(t.id, Attested) && e.Settle?
                      && !e.answered && e.errorRetryable == t.retryable))
  {
  }

  lemma PhaseStepsAt(ws: seq<World>, es: seq<Event>, i: nat)
    requires IsRun(ws, es) && i < |es|
    ensures var t := ws[i + 1].phase;
            && (t.Draining? ==> t == ws[i].phase || EndsAt(ws, es, i, t.id, t.outcome))
            && (t.FailingAfterComplete? ==> t == ws[i].phase || ThrowsAt(ws, es, i, t.id, t.retryable))
  {
    assert StepAt(ws, es, i);
    PhaseSteps(ws[i], es[i]);
  }

  lemma {:induction false} EveryPhaseIsTold(ws: seq<World>, es: seq<Event>, i: nat)
    requires IsRun(ws, es) && i < |ws|
    ensures PhaseIsTold(ws, es, i)
  {
    if i > 0 {
      EveryPhaseIsTold(ws, es, i - 1);
      PhaseStepsAt(ws, es, i - 1);
      match ws[i].phase
      case Draining(id, outcome) => SaidEarlier(ws, es, i - 1, id, outcome, false);
      case FailingAfterComplete(id, retryable) => SaidEarlier(ws, es, i - 1, id, Attested, retryable);
      case _ =>
    }
  }

  // ---- Effects. ----

  /** The effect of a lease of this worker is accounted for by how the work on it ended. */
  ghost predicate EffectIsTold(ws: seq<World>, es: seq<Event>, i: nat, id: LeaseId, effect: Effect)
    requires |ws| == |es| + 1 && i <= |es|
  {
    match effect
    case Completed => Ended(ws, es, i, id, Attested)
    case Deferred => Ended(ws, es, i, id, Busy)
    case Failed =>
      || Ended(ws, es, i, id, Broken(true)) || Ended(ws, es, i, id, Broken(false))
      || Threw(ws, es, i, id, true) || Threw(ws, es, i, id, false)
    case _ => true
  }

  /** The effect a settle call on a lease in this phase may have. */
  predicate MayHave(p: Phase, effect: Effect) {
    match p
    case Draining(_, Attested) => effect == Completed
    case Draining(_, Busy) => effect == Deferred
    case Draining(_, Broken(_)) => effect == Failed
    case FailingAfterComplete(_, _) => effect == Failed
    case _ => false
  }

  lemma EffectSteps(w: World, e: Event, id: LeaseId)
    requires Enabled(w, e) && id in Step(w, e).mine && id in Step(w, e).store.leases && w.mine <= w.store.leases.Keys
    ensures var effect := Step(w, e).store.leases[id].effect;
            || effect in {Pending, Reaped, Revoked}
            || (id in w.store.leases && id in w.mine && effect == w.store.leases[id].effect)
            || (e.Settle? && Holding(w.phase) && w.phase.id == id && MayHave(w.phase, effect))
  {
  }

  lemma EffectStepsAt(ws: seq<World>, es: seq<Event>, i: nat, id: LeaseId)
    requires IsRun(ws, es) && i < |es| && id in ws[i + 1].mine
    ensures id in ws[i + 1].store.leases
    ensures var effect := ws[i + 1].store.leases[id].effect;
            || effect in {Pending, Reaped, Revoked}
            || (id in ws[i].store.leases && id in ws[i].mine && effect == ws[i].store.leases[id].effect)
            || (es[i].Settle? && Holding(ws[i].phase) && ws[i].phase.id == id && MayHave(ws[i].phase, effect))
  {
    EveryRunKeepsInv(ws, es, i);
    EveryRunKeepsInv(ws, es, i + 1);
    assert StepAt(ws, es, i);
    EffectSteps(ws[i], es[i], id);
  }

  lemma EffectSaidEarlier(ws: seq<World>, es: seq<Event>, i: nat, id: LeaseId, effect: Effect)
    requires |ws| == |es| + 1 && i < |es| && EffectIsTold(ws, es, i, id, effect)
    ensures EffectIsTold(ws, es, i + 1, id, effect)
  {
    SaidEarlier(ws, es, i, id, Attested, true);
    SaidEarlier(ws, es, i, id, Busy, false);
    SaidEarlier(ws, es, i, id, Broken(true), true);
    SaidEarlier(ws, es, i, id, Broken(false), false);
  }

  lemma PhaseTellsEffect(ws: seq<World>, es: seq<Event>, i: nat, id: LeaseId, effect: Effect)
    requires |ws| == |es| + 1 && i <= |es| && PhaseIsTold(ws, es, i)
    requires Holding(ws[i].phase) && ws[i].phase.id == id && MayHave(ws[i].phase, effect)
    ensures EffectIsTold(ws, es, i, id, effect)
  {
  }

  /**
   In every run: a lease of this worker is completed only after its work ended in an attestation,
   deferred only after it was busy, and failed only after another error or a completion that threw.
   */
  lemma {:induction false} EveryEffectIsTold(ws: seq<World>, es: seq<Event>, i: nat, id: LeaseId)
    requires IsRun(ws, es) && i < |ws| && id in ws[i].mine
    ensures id in ws[i].store.leases && EffectIsTold(ws, es, i, id, ws[i].store.leases[id].effect)
  {
    if i > 0 {
      EffectStepsAt(ws, es, i - 1, id);
      var effect := ws[i].store.leases[id].effect;
      if effect !in {Pending, Reaped, Revoked} {
        if id in ws[i - 1].mine && id in ws[i - 1].store.leases && effect == ws[i - 1].store.leases[id].effect {
          EveryEffectIsTold(ws, es, i - 1, id);
        } else {
          EveryPhaseIsTold(ws, es, i - 1);
          PhaseTellsEffect(ws, es, i - 1, id, effect);
        }
        EffectSaidEarlier(ws, es, i - 1, id, effect);
      }
    }
  }

  // ---- The work on a lease ends once. ----

  lemma NeverWorkedOnAgain(w: World, e: Event, id: LeaseId)
    requires Enabled(w, e) && id in w.store.leases && w.phase != Working(id)
    ensures id in Step(w, e).store.leases && Step(w, e).phase != Working(id)
  {
  }

  lemma {:induction false} OverAfterItsEnd(ws: seq<World>, es: seq<Event>, k: nat, i: nat, id: LeaseId,
                                           outcome: Outcome)
    requires IsRun(ws, es) && k < i < |ws| && EndsAt(ws, es, k, id, outcome)
    ensures id in ws[i].store.leases && ws[i].phase != Working(id)
    decreases i
  {
    assert StepAt(ws, es, i - 1);
    if i == k + 1 {
      EveryRunKeepsInv(ws, es, k);
      EveryRunKeepsInv(ws, es, i);
    } else {
      OverAfterItsEnd(ws, es, k, i - 1, id, outcome);
      NeverWorkedOnAgain(ws[i - 1], es[i - 1], id);
    }
  }

  /** So the outcome of a lease is one and the same throughout a run. */
  lemma OutcomesAgree(ws: seq<World>, es: seq<Event>, i: nat, id: LeaseId, a: Outcome, b: Outcome)
    requires IsRun(ws, es) && i <= |es| && Ended(ws, es, i, id, a) && Ended(ws, es, i, id, b)
    ensures a == b
  {
    var k: nat :| k < i && EndsAt(ws, es, k, id, a);
    var l: nat :| l < i && EndsAt(ws, es, l, id, b);
    if k < l {
      OverAfterItsEnd(ws, es, k, l, id, a);
    } else if l < k {
      OverAfterItsEnd(ws, es, l, k, id, b);
    }
  }

  predicate Drains(p: Phase, id: LeaseId) {
    p.Draining? && p.id == id
  }

  lemma NeverDrainsAgain(w: World, e: Event, id: LeaseId)
    requires Enabled(w, e) && id in w.store.leases && w.phase != Working(id) && !Drains(w.phase, id)
    ensures !Drains(Step(w, e).phase, id)
  {
  }

  lemma {:induction false} NotCompletingAfterThrow(ws: seq<World>, es: seq<Event>, k: nat, i: nat, id: LeaseId,
                                                   retryable: bool)
    requires IsRun(ws, es) && k < i < |ws| && ThrowsAt(ws, es, k, id, retryable)
    ensures !Drains(ws[i].phase, id)
    decreases i
  {
    assert StepAt(ws, es, i - 1);
    if i > k + 1 {
      NotCompletingAfterThrow(ws, es, k, i - 1, id, retryable);
      EveryPhaseIsTold(ws, es, k);
      var l: nat :| l < k && EndsAt(ws, es, l, id, Attested);
      OverAfterItsEnd(ws, es, l, i - 1, id, Attested);
      NeverDrainsAgain(ws[i - 1], es[i - 1], id);
    }
  }

  // ---- The job. ----

  /** The job after a settle call on its open lease, told from the outcome of the work. */
  predicate Settled(before: Job, after: Job, outcome: Outcome) {
    && after.lease == None && !after.expired && after.maxAttempts == before.maxAttempts
    && match outcome
       case Attested => after.status == Succeeded && after.attempts == before.attempts
       case Busy => after.status == Retrying && after.attempts + 1 == before.attempts
       case Broken(retryable) =>
         && after.attempts == before.attempts
         && after.status == (if retryable && before.attempts < before.maxAttempts then Retrying else DeadLetter)
  }

  lemma SettlingLeaves(s: Store, p: Phase)
    requires Inv(s) && (p.Draining? || p.FailingAfterComplete?) && Current(s, p.id)
    ensures var j, t := s.leases[p.id].job, SettleIn(s, p.id, KindOf(p));
            && j in t.jobs
            && Settled(s.jobs[j], t.jobs[j], if p.Draining? then p.outcome else Broken(p.retryable))
            && (forall k :: k in s.jobs && k != j ==> k in t.jobs && t.jobs[k] == s.jobs[k])
  {
    assert LeaseInv(s, p.id) && JobInv(s, s.leases[p.id].job);
  }

  /**
   A settle call that reaches the store while the lease is open and unexpired leaves the job as the
   work ended, or, after a completion that threw, as that error says; and no other job changes.
   */
  lemma SettleFollowsOutcome(ws: seq<World>, es: seq<Event>, i: nat) returns (outcome: Outcome)
    requires IsRun(ws, es) && i < |es| && es[i].Settle? && es[i].reached && Holding(ws[i].phase)
    requires var id := ws[i].phase.id; var s := ws[i].store;
             && id in s.leases && s.leases[id].effect == Pending && s.leases[id].job in s.jobs
             && !s.jobs[s.leases[id].job].expired
    ensures var id := ws[i].phase.id;
            if exists r :: Threw(ws, es, i, id, r)
            then outcome.Broken? && Threw(ws, es, i, id, outcome.retryable)
            else Ended(ws, es, i, id, outcome)
    ensures var s, t := ws[i].store, ws[i + 1].store; var j := s.leases[ws[i].phase.id].job;
            && j in t.jobs && Settled(s.jobs[j], t.jobs[j], outcome)
            && (forall k :: k in s.jobs && k != j ==> k in t.jobs && t.jobs[k] == s.jobs[k])
  {
    EveryRunKeepsInv(ws, es, i);
    EveryPhaseIsTold(ws, es, i);
    assert StepAt(ws, es, i);
    var p, s := ws[i].phase, ws[i].store;
    assert LeaseInv(s, p.id) && JobInv(s, s.leases[p.id].job);
    assert Current(s, p.id);
    SettlingLeaves(s, p);
    outcome := if p.Draining? then p.outcome else Broken(p.retryable);
    if r :| Threw(ws, es, i, p.id, r) {
      var k: nat :| k < i && ThrowsAt(ws, es, k, p.id, r);
      NotCompletingAfterThrow(ws, es, k, i, p.id, r);
    }
  }

  // ---- When the worker ends, and when its work is aborted. ----

  /** The loop ends exactly on these: an error that may not be retried, a lost answer, a stop, or a crash. */
  lemma HaltsExactly(w: World, e: Event)
    requires Enabled(w, e) && w.phase != Halted
    ensures Step(w, e).phase == Halted <==>
            || (e.Probe? && !e.ok && !e.retryable)
            || (e.ClaimNext? && !e.answered)
            || (e.Settle? && !e.answered && !(w.phase.Draining? && w.phase.outcome == Attested))
            || e.Stop? || e.Crash?
  {
  }

  /** A heartbeat aborts the work exactly if it finds the lease settled, taken over or expired, or has no answer. */
  lemma HeartbeatAbortsExactly(w: World, reached: bool, answered: bool)
    requires WorldInv(w) && Enabled(w, BeatEnds(reached, answered))
    ensures var s, id := w.store, w.phase.id;
            && id in s.leases && s.leases[id].job in s.jobs
            && (Step(w, BeatEnds(reached, answered)).beat.aborted <==>
                  || w.beat.aborted || !reached || !answered
                  || s.leases[id].effect != Pending || s.jobs[s.leases[id].job].expired)
  {
    var s, id := w.store, w.phase.id;
    assert id in w.mine;
    assert LeaseInv(s, id) && JobInv(s, s.leases[id].job);
  }

  lemma AbortedStep(w: World, e: Event, id: LeaseId)
    requires Enabled(w, e) && Holding(w.phase) && w.phase.id == id && w.beat.aborted
    requires Holding(Step(w, e).phase)
    ensures Step(w, e).beat.aborted && Step(w, e).beat.outstanding <= w.beat.outstanding
  {
  }

  /** Once the work on a lease is aborted no further heartbeat is started while it is in hand. */
  lemma {:induction false} AbortedBeatsNoMore(ws: seq<World>, es: seq<Event>, i: nat, k: nat, id: LeaseId)
    requires IsRun(ws, es) && i <= k < |ws| && ws[i].beat.aborted
    requires forall l :: i <= l <= k ==> Holding(ws[l].phase) && ws[l].phase.id == id
    ensures ws[k].beat.aborted && ws[k].beat.outstanding <= ws[i].beat.outstanding
    decreases k
  {
    if i < k {
      AbortedBeatsNoMore(ws, es, i, k - 1, id);
      assert StepAt(ws, es, k - 1);
      AbortedStep(ws[k - 1], es[k - 1], id);
    }
  }

  lemma StoppingStep(w: World, e: Event)
    requires Enabled(w, e) && (w.stopping && Holding(w.phase) ==> w.beat.aborted)
    ensures Step(w, e).stopping && Holding(Step(w, e).phase) ==> Step(w, e).beat.aborted
    ensures (w.stopping || e.CallerAborts?) <==> Step(w, e).stopping
  {
  }

  /** In every run: after the caller's signal all work is aborted, also work that begins after it. */
  lemma {:induction false} SignalAbortsWork(ws: seq<World>, es: seq<Event>, i: nat)
    requires IsRun(ws, es) && i < |ws|
    ensures ws[i].stopping <==> exists k :: 0 <= k < i && es[k] == CallerAborts
    ensures ws[i].stopping && Holding(ws[i].phase) ==> ws[i].beat.aborted
  {
    if i > 0 {
      SignalAbortsWork(ws, es, i - 1);
      assert StepAt(ws, es, i - 1);
      StoppingStep(ws[i - 1], es[i - 1]);
    }
  }

  // ---- The budget. ----

  lemma BudgetStays(w: World, e: Event)
    requires Enabled(w, e) && forall j :: j in w.store.jobs ==> w.store.jobs[j].maxAttempts == 4
    ensures forall j :: j in Step(w, e).store.jobs ==> Step(w, e).store.jobs[j].maxAttempts == 4
  {
  }

  lemma {:induction false} BudgetIsFour(ws: seq<World>, es: seq<Event>, i: nat)
    requires IsRun(ws, es) && i < |ws|
    ensures forall j :: j in ws[i].store.jobs ==> ws[i].store.jobs[j].maxAttempts == 4
  {
    if i > 0 {
      BudgetIsFour(ws, es, i - 1);
      assert StepAt(ws, es, i - 1);
      BudgetStays(ws[i - 1], es[i - 1]);
    }
  }

  /** In every run a job is claimed at most four times, deferrals not counted, by all workers together. */
  lemma FourClaims(ws: seq<World>, es: seq<Event>, i: nat, j: JobId)
    requires IsRun(ws, es) && i < |ws| && j in ws[i].store.jobs
    ensures |Claims(ws[i].store.leases, j)| <= 4 + |Deferrals(ws[i].store.leases, j)|
  {
    BudgetIsFour(ws, es, i);
    BooksBalance(ws, es, i, j);
  }

  /** A job closed without a claim is dead, its open attempt is closed with it, and nothing else changes. */
  lemma ClosingLeaves(s: Store, j: JobId)
    requires Inv(s) && Candidate(s, j)
    ensures var t := CloseWithoutClaim(s, j);
            && t.jobs == s.jobs[j := Job(DeadLetter, s.jobs[j].attempts, s.jobs[j].maxAttempts, None, false)]
            && t.leases.Keys == s.leases.Keys
            && (forall id :: id in s.leases ==>
                  t.leases[id] ==
                  (if s.jobs[j].lease == Some(id) then s.leases[id].(effect := Reaped) else s.leases[id]))
  {
    CloseClosesOne(s, j, Reaped);
  }

  // ---- Expiry. ----

  lemma ClosedOverWasExpired(s: Store, j: JobId, id: LeaseId)
    requires Inv(s) && Candidate(s, j) && id in s.leases && s.leases[id].effect == Pending
    requires Close(s, j, Reaped)[id].effect == Reaped
    ensures s.leases[id].job == j && s.jobs[j].expired
  {
    CloseClosesOne(s, j, Reaped);
    assert JobInv(s, j);
  }

  lemma OnlyExpiredAreReaped(w: World, e: Event, id: LeaseId)
    requires Enabled(w, e) && Inv(w.store) && id in w.store.leases && w.store.leases[id].effect == Pending
    requires id in Step(w, e).store.leases && Step(w, e).store.leases[id].effect == Reaped
    ensures w.store.leases[id].job in w.store.jobs && w.store.jobs[w.store.leases[id].job].expired
  {
    match e
    case ClaimNext(pick, _, _) => if pick.Some? { ClosedOverWasExpired(w.store, pick.value, id); }
    case OtherClaims(j, _) => ClosedOverWasExpired(w.store, j, id);
    case Closes(j) => ClosedOverWasExpired(w.store, j, id);
    case _ =>
  }

  /** No lease is taken over, nor its job closed over it, before it has expired. */
  lemma NoTakeoverBeforeExpiry(ws: seq<World>, es: seq<Event>, i: nat, id: LeaseId)
    requires IsRun(ws, es) && i < |es| && id in ws[i].store.leases && ws[i].store.leases[id].effect == Pending
    requires id in ws[i + 1].store.leases && ws[i + 1].store.leases[id].effect == Reaped
    ensures ws[i].store.leases[id].job in ws[i].store.jobs && ws[i].store.jobs[ws[i].store.leases[id].job].expired
  {
    EveryRunKeepsInv(ws, es, i);
    assert StepAt(ws, es, i);
    OnlyExpiredAreReaped(ws[i], es[i], id);
  }

  /** When a lease expires its job can be claimed again, if budget is left, and the lease settles nothing any more. */
  lemma ExpiryReopens(s: Store, id: LeaseId, kind: Kind)
    requires Inv(s) && id in s.leases && s.leases[id].effect == Pending
    ensures var j, t := s.leases[id].job, Expire(s, s.leases[id].job);
            && j in s.jobs && j in t.jobs && t.leases == s.leases
            && (Claimable(t, j) <==> s.jobs[j].attempts < s.jobs[j].maxAttempts)
            && SettleIn(t, id, kind) == t
  {
    assert LeaseInv(s, id);
    assert JobInv(s, s.leases[id].job);
  }

  /** A job that is enqueued for the first time can be claimed; enqueueing it again changes nothing. */
  lemma EnqueuedCanBeClaimed(s: Store, j: JobId)
    ensures j !in s.jobs ==> Claimable(Enqueue(s, j), j) && Enqueue(s, j).jobs[j].attempts == 0
    ensures Enqueue(Enqueue(s, j), j) == Enqueue(s, j) && Enqueue(s, j).leases == s.leases
    ensures forall k :: k in s.jobs ==> k in Enqueue(s, j).jobs && Enqueue(s, j).jobs[k] == s.jobs[k]
  {
  }
}
