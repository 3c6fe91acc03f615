/**
 The fenced lease store the extraction worker settles against: one row per job, one attempt per
 claimed lease. A settle call takes effect only while the job still carries its lease.
 */
module LeaseStore {
  import opened Common

  type JobId = nat
  type LeaseId = nat

  datatype Status = Queued | Running | Retrying | Succeeded | DeadLetter | Cancelled

  /** `expired` says that the database clock has passed the lease's expiry. */
  datatype Job = Job(status: Status, attempts: nat, maxAttempts: nat, lease: Option<LeaseId>, expired: bool)

  /** What became of a claimed lease; only a deferral takes its attempt row away again. */
  datatype Effect = Pending | Completed | Failed | Deferred | Reaped | Revoked

  datatype Attempt = Attempt(job: JobId, number: nat, effect: Effect)

  datatype Store = Store(jobs: map<JobId, Job>, leases: map<LeaseId, Attempt>)

  const EMPTY := Store(map[], map[])
  const MAX_ATTEMPTS := 4

  // ---- Operations; each is one transaction. ----

  function Enqueue(s: Store, j: JobId): Store {
    if j in s.jobs then s else s.(jobs := s.jobs[j := Job(Queued, 0, MAX_ATTEMPTS, None, false)])
  }

  /** The database clock passes the expiry of a running lease. */
  function Expire(s: Store, j: JobId): Store {
    if j in s.jobs && s.jobs[j].status == Running then s.(jobs := s.jobs[j := s.jobs[j].(expired := true)]) else s
  }

  /** Jobs the claim query may pick, apart from those that are not due yet. */
  predicate Candidate(s: Store, j: JobId) {
    j in s.jobs && (s.jobs[j].status in {Queued, Retrying} || (s.jobs[j].status == Running && s.jobs[j].expired))
  }

  predicate Claimable(s: Store, j: JobId) {
    Candidate(s, j) && s.jobs[j].attempts < s.jobs[j].maxAttempts
  }

  /** Closes the open attempt of a job, whose lease has expired or is taken away. */
  function Close(s: Store, j: JobId, effect: Effect): map<LeaseId, Attempt>
    requires j in s.jobs
  {
    var previous := s.jobs[j].lease;
    if previous.Some? && previous.value in s.leases && s.leases[previous.value].effect == Pending
    then s.leases[previous.value := s.leases[previous.value].(effect := effect)]
    else s.leases
  }

  function Claim(s: Store, j: JobId, id: LeaseId): Store
    requires Claimable(s, j)
  {
    var job := s.jobs[j];
    var number := job.attempts + 1;
    Store(
      s.jobs[j := job.(status := Running, attempts := number, lease := Some(id), expired := false)],
      Close(s, j, Reaped)[id := Attempt(j, number, Pending)])
  }

  /** A candidate whose budget is spent or whose target is no longer valid is closed without a claim. */
  function CloseWithoutClaim(s: Store, j: JobId): Store
    requires Candidate(s, j)
  {
    Store(s.jobs[j := s.jobs[j].(status := DeadLetter, lease := None, expired := false)], Close(s, j, Reaped))
  }

  /** The statuses in which a job is not finished yet. */
  predicate Cancellable(status: Status) {
    status in {Queued, Running, Retrying}
  }

  /** Deleting a document's custody closes all running attempts of its job and cancels an unfinished job. */
  function Cancel(s: Store, j: JobId): Store {
    if j in s.jobs then
      Store(
        if Cancellable(s.jobs[j].status)
        then s.jobs[j := s.jobs[j].(status := Cancelled, lease := None, expired := false)]
        else s.jobs,
        s.leases + map id | id in s.leases && s.leases[id].job == j && s.leases[id].effect == Pending ::
                     s.leases[id].(effect := Revoked))
    else s
  }

  /** The fence: the job is running under this very lease, which has not expired. */
  predicate Current(s: Store, id: LeaseId) {
    && id in s.leases && s.leases[id].effect == Pending
    && s.leases[id].job in s.jobs
    && var job := s.jobs[s.leases[id].job];
       job.status == Running && job.lease == Some(id) && !job.expired && job.attempts == s.leases[id].number
  }

  function Release(s: Store, id: LeaseId, status: Status, attempts: nat, effect: Effect): Store
    requires Current(s, id)
  {
    var a := s.leases[id];
    Store(
      s.jobs[a.job := s.jobs[a.job].(status := status, attempts := attempts, lease := None, expired := false)],
      s.leases[id := a.(effect := effect)])
  }

  /** A heartbeat moves the expiry of a current lease on, and says whether it did. */
  predicate Retained(s: Store, id: LeaseId) { Current(s, id) }

  function Complete(s: Store, id: LeaseId): Store {
    if Current(s, id) then Release(s, id, Succeeded, s.leases[id].number, Completed) else s
  }

  function Defer(s: Store, id: LeaseId): Store {
    if Current(s, id) && s.leases[id].number >= 1
    then Release(s, id, Retrying, s.leases[id].number - 1, Deferred) else s
  }

  function Fail(s: Store, id: LeaseId, retryable: bool): Store {
    if Current(s, id) then
      var canRetry := retryable && s.leases[id].number < s.jobs[s.leases[id].job].maxAttempts;
      Release(s, id, if canRetry then Retrying else DeadLetter, s.leases[id].number, Failed)
    else s
  }

  // ---- The books. ----

  /** Leases of the job that used up an attempt or may still do so. */
  function Consumed(leases: map<LeaseId, Attempt>, j: JobId): set<LeaseId> {
    set id | id in leases && leases[id].job == j && leases[id].effect != Deferred
  }

  function Claims(leases: map<LeaseId, Attempt>, j: JobId): set<LeaseId> {
    set id | id in leases && leases[id].job == j
  }

  function Deferrals(leases: map<LeaseId, Attempt>, j: JobId): set<LeaseId> {
    set id | id in leases && leases[id].job == j && leases[id].effect == Deferred
  }

  ghost predicate JobInv(s: Store, j: JobId)
    requires j in s.jobs
  {
    var job := s.jobs[j];
    && job.attempts == |Consumed(s.leases, j)| <= job.maxAttempts
    && (job.status == Running <==> job.lease.Some?)
    && (job.lease.Some? ==>
          && job.lease.value in s.leases
          && s.leases[job.lease.value] == Attempt(j, job.attempts, Pending)
          && job.attempts >= 1)
  }

  ghost predicate LeaseInv(s: Store, id: LeaseId)
    requires id in s.leases
  {
    && s.leases[id].job in s.jobs
    && (s.leases[id].effect == Pending ==> s.jobs[s.leases[id].job].lease == Some(id))
  }

  /**
   Per job: the attempt counter is the number of its leases that were not deferred, never above the
   budget; and the only open lease is the one the running job carries.
   */
  ghost predicate Inv(s: Store) {
    && (forall j :: j in s.jobs ==> JobInv(s, j))
    && (forall id :: id in s.leases ==> LeaseInv(s, id))
  }

  /** Claims are consumed attempts plus deferrals. */
  lemma ClaimsBalance(s: Store, j: JobId)
    requires Inv(s) && j in s.jobs
    ensures |Claims(s.leases, j)| == s.jobs[j].attempts + |Deferrals(s.leases, j)|
    ensures s.jobs[j].attempts <= s.jobs[j].maxAttempts
  {
    assert JobInv(s, j);
    assert Claims(s.leases, j) == Consumed(s.leases, j) + Deferrals(s.leases, j);
    assert Consumed(s.leases, j) * Deferrals(s.leases, j) == {};
  }

  lemma EnqueueKeepsInv(s: Store, j: JobId)
    requires Inv(s)
    ensures Inv(Enqueue(s, j))
  {
    if j !in s.jobs {
      var t := Enqueue(s, j);
      forall id | id in s.leases ensures s.leases[id].job != j && LeaseInv(t, id) {
        assert LeaseInv(s, id);
      }
      assert Consumed(t.leases, j) == {};
      forall k | k in t.jobs ensures JobInv(t, k) {
        assert k != j ==> JobInv(s, k);
      }
    }
  }

  lemma ExpireKeepsInv(s: Store, j: JobId)
    requires Inv(s)
    ensures Inv(Expire(s, j))
  {
    var t := Expire(s, j);
    forall k | k in t.jobs ensures JobInv(t, k) {
      assert JobInv(s, k);
    }
    forall id | id in t.leases ensures LeaseInv(t, id) {
      assert LeaseInv(s, id);
    }
  }

  /** Closing ends the job's open lease, if any, and changes nothing else. */
  lemma CloseClosesOne(s: Store, j: JobId, effect: Effect)
    requires Inv(s) && j in s.jobs
    ensures Close(s, j, effect).Keys == s.leases.Keys
    ensures forall id :: id in s.leases ==>
              Close(s, j, effect)[id] ==
              if s.jobs[j].lease == Some(id) then s.leases[id].(effect := effect) else s.leases[id]
  {
    assert JobInv(s, j);
  }

  lemma CloseConsumesNothing(s: Store, j: JobId, effect: Effect, k: JobId)
    requires j in s.jobs && effect != Deferred
    ensures Consumed(Close(s, j, effect), k) == Consumed(s.leases, k)
  {
  }

  lemma ClaimKeepsItsJob(s: Store, j: JobId, id: LeaseId)
    requires Inv(s) && Claimable(s, j) && id !in s.leases
    ensures JobInv(Claim(s, j, id), j)
  {
    CloseConsumesNothing(s, j, Reaped, j);
    CloseClosesOne(s, j, Reaped);
    assert JobInv(s, j);
    assert Consumed(Claim(s, j, id).leases, j) == Consumed(s.leases, j) + {id};
  }

  lemma ClaimKeepsOtherJob(s: Store, j: JobId, id: LeaseId, k: JobId)
    requires Inv(s) && Claimable(s, j) && id !in s.leases && k in s.jobs && k != j
    ensures JobInv(Claim(s, j, id), k)
  {
    CloseConsumesNothing(s, j, Reaped, k);
    assert JobInv(s, k) && JobInv(s, j);
    assert Consumed(Claim(s, j, id).leases, k) == Consumed(s.leases, k);
  }

  lemma ClaimKeepsInv(s: Store, j: JobId, id: LeaseId)
    requires Inv(s) && Claimable(s, j) && id !in s.leases
    ensures Inv(Claim(s, j, id))
  {
    var t := Claim(s, j, id);
    forall k | k in t.jobs ensures JobInv(t, k) {
      if k == j {
        ClaimKeepsItsJob(s, j, id);
      } else {
        ClaimKeepsOtherJob(s, j, id, k);
      }
    }
    CloseClosesOne(s, j, Reaped);
    forall l | l in t.leases ensures LeaseInv(t, l) {
      if l != id {
        assert LeaseInv(s, l);
      }
    }
  }

  lemma CloseKeepsInv(s: Store, j: JobId)
    requires Inv(s) && Candidate(s, j)
    ensures Inv(CloseWithoutClaim(s, j))
  {
    var t := CloseWithoutClaim(s, j);
    CloseClosesOne(s, j, Reaped);
    forall k | k in t.jobs ensures JobInv(t, k) {
      assert JobInv(s, k);
      CloseConsumesNothing(s, j, Reaped, k);
    }
    forall l | l in t.leases ensures LeaseInv(t, l) {
      assert LeaseInv(s, l);
    }
  }

  /** In a store in order, the running attempts of a job are its one open lease, if it has one. */
  lemma CancelClosesTheLease(s: Store, j: JobId)
    requires Inv(s) && j in s.jobs
    ensures Cancel(s, j).leases == Close(s, j, Revoked)
    ensures s.jobs[j].lease.Some? ==> Cancellable(s.jobs[j].status)
  {
    CloseClosesOne(s, j, Revoked);
    assert JobInv(s, j);
    forall id | id in s.leases ensures Cancel(s, j).leases[id] == Close(s, j, Revoked)[id] {
      assert LeaseInv(s, id);
    }
  }

  lemma CancelKeepsInv(s: Store, j: JobId)
    requires Inv(s)
    ensures Inv(Cancel(s, j))
  {
    if j in s.jobs {
      var t := Cancel(s, j);
      CancelClosesTheLease(s, j);
      CloseClosesOne(s, j, Revoked);
      forall k | k in t.jobs ensures JobInv(t, k) {
        assert JobInv(s, k);
        CloseConsumesNothing(s, j, Revoked, k);
      }
      forall l | l in t.leases ensures LeaseInv(t, l) {
        assert LeaseInv(s, l);
      }
    }
  }

  /** A finished or cancelled job is never claimed again. */
  predicate Final(status: Status) {
    status in {Succeeded, DeadLetter, Cancelled}
  }

  lemma ReleaseKeepsOtherJob(s: Store, id: LeaseId, status: Status, attempts: nat, effect: Effect, k: JobId)
    requires Inv(s) && Current(s, id) && effect != Pending && k in s.jobs && k != s.leases[id].job
    ensures JobInv(Release(s, id, status, attempts, effect), k)
  {
    assert JobInv(s, k);
    assert Consumed(Release(s, id, status, attempts, effect).leases, k) == Consumed(s.leases, k);
  }

  lemma ReleaseKeepsItsJob(s: Store, id: LeaseId, status: Status, attempts: nat, effect: Effect)
    requires Inv(s) && Current(s, id) && status != Running && effect != Pending
    requires attempts == if effect == Deferred then s.leases[id].number - 1 else s.leases[id].number
    ensures JobInv(Release(s, id, status, attempts, effect), s.leases[id].job)
  {
    var t, j := Release(s, id, status, attempts, effect), s.leases[id].job;
    assert JobInv(s, j);
    assert Consumed(t.leases, j) == Consumed(s.leases, j) - if effect == Deferred then {id} else {};
  }

  lemma ReleaseKeepsInv(s: Store, id: LeaseId, status: Status, attempts: nat, effect: Effect)
    requires Inv(s) && Current(s, id) && status != Running && effect != Pending
    requires attempts == if effect == Deferred then s.leases[id].number - 1 else s.leases[id].number
    ensures Inv(Release(s, id, status, attempts, effect))
  {
    var t := Release(s, id, status, attempts, effect);
    forall k | k in t.jobs ensures JobInv(t, k) {
      if k == s.leases[id].job {
        ReleaseKeepsItsJob(s, id, status, attempts, effect);
      } else {
        ReleaseKeepsOtherJob(s, id, status, attempts, effect, k);
      }
    }
    forall l | l in t.leases ensures LeaseInv(t, l) {
      assert LeaseInv(s, l);
    }
  }

  lemma SettlingKeepsInv(s: Store, id: LeaseId, retryable: bool)
    requires Inv(s)
    ensures Inv(Complete(s, id)) && Inv(Defer(s, id)) && Inv(Fail(s, id, retryable))
  {
    if Current(s, id) {
      assert JobInv(s, s.leases[id].job);
      ReleaseKeepsInv(s, id, Succeeded, s.leases[id].number, Completed);
      ReleaseKeepsInv(s, id, Retrying, s.leases[id].number - 1, Deferred);
      ReleaseKeepsInv(s, id, Retrying, s.leases[id].number, Failed);
      ReleaseKeepsInv(s, id, DeadLetter, s.leases[id].number, Failed);
    }
  }

  /** A deferral undoes its claim: the job is as claimable as before, with the same attempts left. */
  lemma DeferUndoesClaim(s: Store, j: JobId, id: LeaseId)
    requires Inv(s) && Claimable(s, j) && id !in s.leases
    ensures var t := Defer(Claim(s, j, id), id);
            && t.jobs == s.jobs[j := s.jobs[j].(status := Retrying, lease := None, expired := false)]
            && t.jobs[j].attempts == s.jobs[j].attempts
            && Claimable(t, j)
            && t.leases[id].effect == Deferred
  {
    CloseClosesOne(s, j, Reaped);
    var c := Claim(s, j, id);
    assert Current(c, id);
    assert Defer(c, id).jobs == s.jobs[j := s.jobs[j].(status := Retrying, lease := None, expired := false)];
  }
}
