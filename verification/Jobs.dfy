/**
  Background jobs and job transactions (qemu/job.c, qemu/blockjob.c).  Jobs are known
  by the order of their creation, so that the list of a transaction, which grows at
  its head, runs from the latest job to the earliest.  Driver callbacks are atomic.
 */
module Jobs {
  import opened Wrappers

  type JobId = nat
  type TxnId = nat

  datatype Status =
    Created | Running | Paused | Ready | Standby | Waiting | Pending | Aborting | Concluded | Null

  /** The job state transition table. */
  predicate JobSTT(a: Status, b: Status) {
    match a
    case Created => b.Running? || b.Aborting? || b.Null?
    case Running => b.Paused? || b.Ready? || b.Waiting? || b.Aborting?
    case Paused => b.Running?
    case Ready => b.Standby? || b.Waiting? || b.Aborting?
    case Standby => b.Ready?
    case Waiting => b.Pending? || b.Aborting?
    case Pending => b.Aborting? || b.Concluded?
    case Aborting => b.Aborting? || b.Concluded?
    case Concluded => b.Null?
    case Null => false
  }

  datatype Verb =
    VerbCancel | VerbPause | VerbResume | VerbSetSpeed | VerbComplete | VerbFinalize | VerbDismiss | VerbChange

  /** The verb table. */
  predicate VerbAllowed(v: Verb, s: Status) {
    match v
    case VerbCancel => (s.Created? || s.Running? || s.Paused? || s.Ready? || s.Standby? || s.Waiting? || s.Pending?)
    case VerbPause => (s.Created? || s.Running? || s.Paused? || s.Ready? || s.Standby?)
    case VerbResume => (s.Created? || s.Running? || s.Paused? || s.Ready? || s.Standby?)
    case VerbSetSpeed => (s.Created? || s.Running? || s.Paused? || s.Ready? || s.Standby?)
    case VerbComplete => (s.Ready? || s.Standby?)
    case VerbFinalize => s.Pending?
    case VerbDismiss => s.Concluded?
    case VerbChange => (s.Created? || s.Running? || s.Paused? || s.Ready? || s.Standby?)
  }

  /** job_is_completed_locked */
  predicate Completed(s: Status) {
    s.Waiting? || s.Pending? || s.Aborting? || s.Concluded? || s.Null?
  }

  /** The calls that end a job's life towards its driver. */
  datatype Call = Commit | Abort | Clean

  datatype IoStatus = IoOk | IoFailed | IoNoSpace

  const ECANCELED := 125

  /** `drains` counts the drained sections that pause the job. */
  datatype Pauses = Pauses(count: int, user: bool, iostatus: IoStatus, drains: nat)

  /** `held` counts the references that are not the job list's own. */
  datatype Refs = Refs(count: int, held: nat)

  datatype Job = Job(status: Status, ret: int, cancelled: bool, forceCancel: bool, paused: bool, busy: bool, started: bool,
                     deferred: bool, txn: Option<TxnId>, pauses: Pauses, refs: Refs, autoFinalize: bool, autoDismiss: bool)

  // ---------------------------------------------------------- one job

  /** Pause accounting. */
  predicate PausesOk(j: Job) {
    && j.pauses.count == (if j.started then 0 else 1) + j.pauses.drains + (if j.pauses.user then 1 else 0)
    && (j.pauses.iostatus.IoOk? || j.pauses.user)
  }

  /** What goes with each status.  `deferred` says that the coroutine has returned. */
  predicate StatusOk(j: Job) {
    && (j.forceCancel ==> j.cancelled)
    && match j.status
       case Created => !j.started && j.paused && !j.deferred && j.ret == 0 && j.txn.Some?
       case Running => j.started && !j.paused && (!j.deferred ==> j.ret == 0) && j.txn.Some?
       case Ready => j.started && !j.paused && (!j.deferred ==> j.ret == 0) && j.txn.Some?
       case Paused => j.started && j.paused && !j.deferred && j.ret == 0 && j.txn.Some?
       case Standby => j.started && j.paused && !j.deferred && j.ret == 0 && j.txn.Some?
       case Waiting => j.started && !j.paused && j.deferred && j.ret == 0 && j.txn.Some?
       case Pending => j.started && !j.paused && j.deferred && j.ret == 0 && j.txn.Some?
       case Aborting => (j.started ==> !j.paused && j.deferred) && j.ret != 0 && j.txn.Some?
       case Concluded => j.started && !j.paused && j.deferred && j.txn.None?
       case Null => !j.paused && j.deferred && j.txn.None?
  }

  predicate RefsOk(j: Job) {
    j.refs.count == j.refs.held + (if j.status.Null? then 0 else 1) && j.refs.count > 0
  }

  const COMMITTED: seq<Call> := [Commit, Clean]
  const ABORTED: seq<Call> := [Abort, Clean]

  /** A job that is still in its transaction has had none of the calls; one that has left it has had commit or abort, once,
      and clean, once, unless it failed before it was ever used. */
  predicate CallsOk(j: Job, calls: seq<Call>) {
    if j.txn.Some? then calls == [] else calls == COMMITTED || calls == ABORTED || (calls == [] && j.status.Null? && !j.started)
  }

  predicate JobOk(j: Job, calls: seq<Call>) {
    PausesOk(j) && StatusOk(j) && RefsOk(j) && CallsOk(j, calls)
  }

  // ------------------------------------------------------ all the jobs

  type JobMap = map<JobId, Job>
  type Calls = map<JobId, seq<Call>>

  ghost predicate JobsOk(jobs: JobMap, calls: Calls) {
    forall id | id in jobs :: id in calls && JobOk(jobs[id], calls[id])
  }

  function Members(jobs: JobMap, t: TxnId): set<JobId> {
    set id | id in jobs && jobs[id].txn == Some(t)
  }

  /** Between calls: no transaction with members is aborting, nobody is on the way out, and the members of a transaction
      become pending together. */
  ghost predicate Quiet(jobs: JobMap, aborting: set<TxnId>) {
    && (forall id | id in jobs && jobs[id].txn.Some? :: jobs[id].txn.value !in aborting)
    && (forall id | id in jobs ::
          && !jobs[id].status.Aborting?
          && (jobs[id].status.Waiting? || jobs[id].status.Pending? ==> !jobs[id].forceCancel))
    && (forall i, k | i in jobs && k in jobs && jobs[i].txn.Some? && jobs[i].txn == jobs[k].txn && jobs[i].status.Pending? ::
          jobs[k].status.Pending?)
  }

  /** Nobody comes back from completion, and calls that have been made stay made. */
  ghost predicate Forward(jobs: JobMap, calls: Calls, jobs': JobMap, calls': Calls) {
    && (forall id | id in jobs && id in jobs' && Completed(jobs[id].status) :: Completed(jobs'[id].status))
    && (forall id | id in calls && calls[id] != [] :: id in calls' && calls'[id] == calls[id])
  }

  // ------------------------------------------- what happens to one job

  /** job_state_transition_locked, with its assertion. */
  function Transition(j: Job, s: Status): Job
    requires JobSTT(j.status, s)
  {
    j.(status := s)
  }

  /** The job will be aborted when it is finalized. */
  predicate Fails(j: Job) {
    j.ret != 0 || j.forceCancel
  }

  /** job_update_rc_locked */
  function UpdateRc(j: Job): Job
    requires Fails(j) ==> JobSTT(j.status, Aborting)
  {
    var j1 := if j.ret == 0 && j.forceCancel then j.(ret := -ECANCELED) else j;
    if j1.ret != 0 then Transition(j1, Aborting) else j1
  }

  function DropOne(r: Refs): Refs {
    r.(count := r.count - 1)
  }

  /** job_do_dismiss_locked, up to the freeing of the job. */
  function Dismissed(j: Job): Job
    requires JobSTT(j.status, Null)
  {
    Transition(j.(busy := false, paused := false, deferred := true, txn := None, refs := DropOne(j.refs)), Null)
  }

  /** A job that can be finalized: completed, and pending if it is to be committed. */
  predicate Finalizable(j: Job) {
    Completed(j.status) && j.txn.Some? && (Fails(j) || j.status.Pending?)
  }

  /** job_conclude_locked: dismissed unless that is left to the user. */
  function ConcludedJob(j: Job): Job
    requires JobSTT(j.status, Concluded)
  {
    var c := Transition(j, Concluded);
    if c.autoDismiss || !c.started then Dismissed(c) else c
  }

  /** job_finalize_single_locked: out of the transaction, concluded, and dismissed unless that is left to the user. */
  function Finalized(j: Job): Job
    requires Finalizable(j) && StatusOk(j)
  {
    ConcludedJob(UpdateRc(j).(txn := None))
  }

  lemma FinalizableStatus(j: Job)
    requires StatusOk(j) && Finalizable(j)
    ensures j.status.Waiting? || j.status.Pending? || j.status.Aborting?
  {
  }

  lemma RcStatus(j: Job)
    requires StatusOk(j) && RefsOk(j) && Finalizable(j)
    ensures JobSTT(UpdateRc(j).status, Concluded) && UpdateRc(j).refs.count != 0
    ensures UpdateRc(j).ret == 0 <==> !Fails(j)
  {
    FinalizableStatus(j);
    hide StatusOk, Completed;
    if Fails(j) {
      assert UpdateRc(j).status.Aborting?;
    }
  }

  lemma FinalizedIs(j: Job)
    requires StatusOk(j) && Finalizable(j)
    ensures var f := Finalized(j);
            if j.autoDismiss || !j.started then
              f == j.(status := Null, ret := f.ret, busy := false, paused := false, deferred := true, txn := None,
                      refs := DropOne(j.refs))
            else f == j.(status := Concluded, ret := f.ret, txn := None)
  {
  }

  lemma FinalizedOk(j: Job)
    requires JobOk(j, []) && Finalizable(j)
    ensures var f := Finalized(j);
            && f.txn.None? && (f.status.Concluded? || f.status.Null?) && (f.refs.count == 0 ==> f.status.Null?)
            && (f.ret == 0 <==> !Fails(j))
            && (f.refs.count != 0 ==> JobOk(f, if Fails(j) then ABORTED else COMMITTED))
  {
    FinalizedIs(j);
    hide Finalized;
  }

  /** block_job_user_resume, then the user's pause goes. */
  function Resumed(p: Pauses): Pauses {
    p.(iostatus := IoOk, user := false, count := p.count - 1)
  }

  /** The second half of it. */
  function UserGone(p: Pauses): Pauses {
    p.(user := false, count := p.count - 1)
  }

  /** The first half. */
  function IoReset(j: Job): Job {
    j.(pauses := j.pauses.(iostatus := IoOk))
  }

  lemma ResumeSplit(j: Job)
    requires PausesOk(j) && j.pauses.user
    ensures UserGone(IoReset(j).pauses) == Resumed(j.pauses) && IoReset(j).pauses.count == j.pauses.count > 0
    ensures IoReset(j).(pauses := Resumed(j.pauses)) == j.(pauses := Resumed(j.pauses))
    ensures PausesOk(j.(pauses := Resumed(j.pauses)))
  {
  }

  /** job_cancel_async_locked; `force` is the answer of the driver. */
  function CancelledJob(j: Job, force: bool): Job {
    var j1 := if j.pauses.user then j.(pauses := Resumed(j.pauses)) else j;
    if force || !j.deferred then j1.(cancelled := true, forceCancel := j.forceCancel || force) else j1
  }

  lemma CancelledOk(j: Job, force: bool, calls: seq<Call>)
    requires JobOk(j, calls)
    ensures JobOk(CancelledJob(j, force), calls) && (j.pauses.user ==> j.pauses.count > 0)
  {
  }

  /** A force-cancelled job runs to its end while its transaction is aborting: it leaves a pause, possibly becomes ready,
      returns `r`, and job_exit completes it. */
  function Ended(j: Job, r: int, ready: bool): Job
    requires StatusOk(j) && j.started && j.forceCancel && !Completed(j.status)
  {
    var j1 := if j.paused then Transition(j, if j.status.Standby? then Ready else Running).(paused := false) else j;
    var j2 := if !j1.deferred && ready && j1.status.Running? then Transition(j1, Ready) else j1;
    var j3 := if !j2.deferred then j2.(ret := r, deferred := true) else j2;
    UpdateRc(j3.(busy := false))
  }

  lemma EndedOk(j: Job, r: int, ready: bool)
    requires JobOk(j, []) && j.started && j.forceCancel && !Completed(j.status)
    ensures JobOk(Ended(j, r, ready), []) && Ended(j, r, ready).status.Aborting? && Ended(j, r, ready).txn == j.txn
    ensures Ended(j, r, ready).forceCancel
  {
    var e := Ended(j, r, ready);
    assert e == j.(status := Aborting, paused := false, busy := false, deferred := true, ret := e.ret) && e.ret != 0;
    hide Ended;
  }

  /** The job map after a job has changed: it is freed with its last reference. */
  function Put(jobs: JobMap, id: JobId, j: Job): JobMap {
    if j.refs.count == 0 then jobs - {id} else jobs[id := j]
  }

  /** job_is_ready_locked */
  predicate IsReady(j: Job) {
    j.status.Ready? || j.status.Standby?
  }

  /** The answers of the drivers: .cancel says whether the cancel is forced, .prepare whether the job can be committed. */
  datatype Drivers = Drivers(cancel: (JobId, Job, bool) -> bool, prepare: JobId -> int)

  /** A driver may answer false only to a soft cancel of a job that is ready. */
  ghost predicate CancelRule(drv: Drivers) {
    forall m: JobId, j: Job, force: bool | force || !IsReady(j) :: drv.cancel(m, j, force)
  }

  /** backup_cancel, and the answer for a driver without .cancel. */
  function BackupCancel(j: Job, force: bool): bool {
    true
  }

  /** mirror_cancel and commit_active_cancel */
  function MirrorCancel(j: Job, force: bool): bool {
    force || !IsReady(j)
  }

  /** Any mixture of the block jobs. */
  function BlockJobs(mirrors: set<JobId>, prepare: JobId -> int): Drivers {
    Drivers((m, j, force) => if m in mirrors then MirrorCancel(j, force) else BackupCancel(j, force), prepare)
  }

  lemma BlockJobsKeepRule(mirrors: set<JobId>, prepare: JobId -> int)
    ensures CancelRule(BlockJobs(mirrors, prepare))
  {
    var drv := BlockJobs(mirrors, prepare);
    forall m: JobId, j: Job, force: bool | force || !IsReady(j) ensures drv.cancel(m, j, force) {
      assert drv.cancel(m, j, force) == if m in mirrors then MirrorCancel(j, force) else BackupCancel(j, force);
    }
  }

  class JobSystem {
    var jobs: JobMap
    var calls: Calls
    var aborting: set<TxnId>

    ghost predicate Valid()
      reads this
    {
      JobsOk(jobs, calls) && Quiet(jobs, aborting)
    }

    constructor ()
      ensures Valid() && jobs == map[] && calls == map[] && aborting == {}
    {
      jobs, calls, aborting := map[], map[], {};
    }

    /** job_unref_locked, with its assertions. */
    method Unref(id: JobId)
      requires id in jobs && (jobs[id].refs.count == 1 ==> jobs[id].status.Null? && jobs[id].txn.None?)
      modifies this`jobs
      ensures jobs == Put(old(jobs), id, old(jobs)[id].(refs := DropOne(old(jobs)[id].refs)))
    {
      jobs := jobs[id := jobs[id].(refs := DropOne(jobs[id].refs))];
      if jobs[id].refs.count == 0 {
        jobs := jobs - {id};
      }
    }

    /** job_do_dismiss_locked */
    method DoDismiss(id: JobId)
      requires id in jobs && JobSTT(jobs[id].status, Null)
      modifies this`jobs
      ensures jobs == Put(old(jobs), id, Dismissed(old(jobs)[id]))
    {
      jobs := jobs[id := jobs[id].(busy := false, paused := false, deferred := true, txn := None)];
      jobs := jobs[id := Transition(jobs[id], Null)];
      Unref(id);
    }

    /** job_finalize_single_locked */
    method FinalizeSingle(id: JobId)
      requires id in jobs && id in calls && StatusOk(jobs[id]) && RefsOk(jobs[id]) && calls[id] == [] && Finalizable(jobs[id])
      modifies this`jobs, this`calls
      ensures jobs == Put(old(jobs), id, Finalized(old(jobs)[id]))
      ensures calls == old(calls)[id := if Fails(old(jobs)[id]) then ABORTED else COMMITTED]
    {
      hide UpdateRc, Fails, ConcludedJob;
      RcStatus(jobs[id]);
      jobs := jobs[id := UpdateRc(jobs[id])];
      var made := if jobs[id].ret == 0 then [Commit] else [Abort];
      assert calls[id] + made == made && [Commit] + [Clean] == COMMITTED && [Abort] + [Clean] == ABORTED;
      calls := calls[id := calls[id] + made + [Clean]];
      jobs := jobs[id := jobs[id].(txn := None)];
      Conclude(id);
    }

    /** job_conclude_locked */
    method Conclude(id: JobId)
      requires id in jobs && JobSTT(jobs[id].status, Concluded) && jobs[id].refs.count != 0
      modifies this`jobs
      ensures jobs == Put(old(jobs), id, ConcludedJob(old(jobs)[id]))
    {
      jobs := jobs[id := Transition(jobs[id], Concluded)];
      if jobs[id].autoDismiss || !jobs[id].started {
        DoDismiss(id);
      }
    }

    /** job_cancel_async_locked, with its assertion.  The job is cancelled if it had not returned or the driver forces it, and
        force-cancelled by the driver's answer.  A user pause ends. */
    method CancelAsync(id: JobId, force: bool, drv: Drivers)
      requires id in jobs && id in calls && JobOk(jobs[id], calls[id])
      modifies this`jobs
      ensures jobs == old(jobs)[id := CancelledJob(old(jobs)[id], drv.cancel(id, old(jobs)[id], force))]
      ensures var j, k, f := old(jobs)[id], jobs[id], drv.cancel(id, old(jobs)[id], force);
              && (k.cancelled <==> j.cancelled || f || !j.deferred) && (k.forceCancel <==> j.forceCancel || f)
              && !k.pauses.user && k.pauses.count == j.pauses.count - (if j.pauses.user then 1 else 0)
    {
      assert jobs[id].pauses.user ==> jobs[id].pauses.count > 0;
      hide JobOk;
      var f := drv.cancel(id, jobs[id], force);
      if jobs[id].pauses.user {
        assert jobs[id].pauses.count > 0;
        jobs := jobs[id := jobs[id].(pauses := Resumed(jobs[id].pauses))];
      }
      if f || !jobs[id].deferred {
        jobs := jobs[id := jobs[id].(cancelled := true, forceCancel := jobs[id].forceCancel || f)];
      }
    }

    // ------------------------------------------- a transaction is aborted

    /** What can happen to the members while job_finish_sync_locked waits for `other`: any of those that are still running
        may come to their end, `other` among them. */
    method FinishSync(other: JobId, t: TxnId, ghost committing: set<JobId>, ghost all: set<JobId>)
      requires JobsOk(jobs, calls) && AllStaged(jobs, calls, t, committing, all)
      requires Members(jobs, t) <= all && other in Members(jobs, t) && !Completed(jobs[other].status)
      modifies this`jobs
      ensures JobsOk(jobs, calls) && AllStaged(jobs, calls, t, committing, all)
      ensures jobs - all == old(jobs) - all && Members(jobs, t) == old(Members(jobs, t)) && Completed(jobs[other].status)
    {
      hide JobOk;
      var running := set m | m in Members(jobs, t) && !Completed(jobs[m].status);
      var ending: set<JobId> :| other in ending && ending <= running;
      var todo := ending;
      while todo != {}
        invariant todo <= ending && JobsOk(jobs, calls) && AllStaged(jobs, calls, t, committing, all)
        invariant jobs - all == old(jobs) - all && Members(jobs, t) == old(Members(jobs, t))
        invariant forall m | m in ending :: m in jobs && (m in todo <==> !Completed(jobs[m].status))
      {
        var m :| m in todo;
        todo := todo - {m};
        var r: int, ready: bool := *, *;
        StagedRuns(jobs, calls, t, committing, all, m);
        EndedOk(jobs[m], r, ready);
        StagedEnds(jobs, calls, t, committing, all, m, Ended(jobs[m], r, ready));
        jobs := jobs[m := Ended(jobs[m], r, ready)];
      }
    }

    /** The first loop of job_completed_txn_abort_locked. */
    method CancelOthers(id: JobId, t: TxnId, drv: Drivers)
      requires JobsOk(jobs, calls) && CancelRule(drv)
      modifies this`jobs
      ensures jobs == CancelledAll(old(jobs), Members(old(jobs), t) - {id}) && JobsOk(jobs, calls)
    {
      hide JobOk, CancelledJob;
      ghost var others := Members(jobs, t) - {id};
      var todo := Members(jobs, t) - {id};
      assert others - todo == {};
      while todo != {}
        invariant todo <= others && JobsOk(jobs, calls) && jobs == CancelledAll(old(jobs), others - todo)
      {
        var m :| m in todo;
        assert others - (todo - {m}) == (others - todo) + {m};
        CancelledStep(old(jobs), others - todo, m);
        CancelledOk(jobs[m], true, calls[m]);
        todo := todo - {m};
        CancelAsync(m, true, drv);
      }
      assert others - todo == others;
    }

    /** The second loop: members are drained if they are still running, and finalized, until none is left. */
    method FinalizeAll(t: TxnId, ghost committing: set<JobId>, ghost all: set<JobId>)
      requires JobsOk(jobs, calls) && AllStaged(jobs, calls, t, committing, all) && Members(jobs, t) <= all
      modifies this`jobs, this`calls
      ensures JobsOk(jobs, calls) && AllStaged(jobs, calls, t, committing, all) && Members(jobs, t) == {}
      ensures jobs - all == old(jobs) - all && calls - all == old(calls) - all
    {
      hide JobOk, Finalized, Fails;
      while Members(jobs, t) != {}
        invariant JobsOk(jobs, calls) && AllStaged(jobs, calls, t, committing, all) && Members(jobs, t) <= all
        invariant jobs - all == old(jobs) - all && calls - all == old(calls) - all
        decreases |Members(jobs, t)|
      {
        var other :| other in Members(jobs, t);
        if !Completed(jobs[other].status) {
          StagedCancelled(jobs, calls, t, committing, all, other);
          assert jobs[other].cancelled;
          FinishSync(other, t, committing, all);
        }
        StagedFinalizes(jobs, calls, t, committing, all, other);
        FinalizeSingle(other);
      }
    }

    /** job_completed_txn_abort_locked on a transaction that is not being aborted yet. */
    method TxnAbort(id: JobId, drv: Drivers)
      requires JobsOk(jobs, calls) && id in jobs && jobs[id].txn.Some?
      requires Leaving(jobs[id], jobs[id].txn.value, !Fails(jobs[id]))
      requires Drainable(jobs, jobs[id].txn.value, id) && CancelRule(drv)
      modifies this
      ensures JobsOk(jobs, calls) && aborting == old(aborting) + {old(jobs)[id].txn.value}
      ensures TxnGone(old(jobs), old(calls), jobs, calls, old(jobs)[id].txn.value)
      ensures forall m | m in Members(old(jobs), old(jobs)[id].txn.value) ::
                m in calls && calls[m] == if m == id && !Fails(old(jobs)[id]) then COMMITTED else ABORTED
    {
      hide JobOk, Leaving;
      var t := jobs[id].txn.value;
      ghost var all := Members(jobs, t);
      ghost var committing: set<JobId> := if Fails(jobs[id]) then {} else {id};
      aborting := aborting + {t};
      CancelOthers(id, t, drv);
      CancelledStaged(old(jobs), calls, t, id, committing);
      FinalizeAll(t, committing, all);
      StagedGone(old(jobs), old(calls), jobs, calls, t, committing);
    }

    // ----------------------------------------- a transaction is finalized

    /** job_txn_apply_locked(job_prepare_locked): stops at the first member, in the order of the list, that fails. */
    method PrepareAll(t: TxnId, drv: Drivers) returns (failed: Option<JobId>)
      requires forall m | m in Members(jobs, t) :: jobs[m].status.Pending? && !Fails(jobs[m])
      modifies this`jobs
      ensures failed.None? ==> jobs == old(jobs) && forall m | m in Members(jobs, t) :: drv.prepare(m) == 0
      ensures failed.Some? ==> FirstFailing(drv, Members(old(jobs), t), failed.value) &&
                               jobs == old(jobs)[failed.value := PreparedJob(old(jobs)[failed.value], drv.prepare(failed.value))]
    {
      hide UpdateRc, Fails;
      var todo := Members(jobs, t);
      while todo != {}
        invariant todo <= Members(jobs, t) && jobs == old(jobs)
        invariant forall m | m in Members(jobs, t) && m !in todo :: drv.prepare(m) == 0 && forall k | k in todo :: k < m
      {
        var m := Latest(todo);
        PrepareOne(jobs[m], drv.prepare(m));
        if jobs[m].ret == 0 {
          jobs := jobs[m := UpdateRc(jobs[m].(ret := drv.prepare(m)))];
        }
        if jobs[m].ret != 0 {
          return Some(m);
        }
        todo := todo - {m};
      }
      return None;
    }

    /** job_txn_apply_locked(job_finalize_single_locked) */
    method CommitAll(t: TxnId)
      requires JobsOk(jobs, calls) && forall m | m in Members(jobs, t) :: jobs[m].status.Pending? && !Fails(jobs[m])
      modifies this`jobs, this`calls
      ensures JobsOk(jobs, calls) && TxnGone(old(jobs), old(calls), jobs, calls, t)
      ensures forall m | m in Members(old(jobs), t) :: m in calls && calls[m] == COMMITTED
    {
      ghost var all := Members(jobs, t);
      assert AllStaged(jobs, calls, t, all, all);
      hide JobOk, Finalized, Fails;
      var todo := Members(jobs, t);
      while todo != {}
        invariant JobsOk(jobs, calls) && AllStaged(jobs, calls, t, all, all) && Members(jobs, t) == todo && todo <= all
        invariant jobs - all == old(jobs) - all && calls - all == old(calls) - all
      {
        var m := Latest(todo);
        todo := todo - {m};
        StagedCommits(jobs, calls, t, all, m);
        StagedFinalizes(jobs, calls, t, all, all, m);
        FinalizeSingle(m);
      }
      StagedGone(old(jobs), old(calls), jobs, calls, t, all);
    }

    /** job_do_finalize_locked */
    method DoFinalize(id: JobId, drv: Drivers)
      requires Valid() && id in jobs && jobs[id].status.Pending? && CancelRule(drv)
      modifies this
      ensures Valid() && GroupOutcome(old(jobs), old(calls), jobs, calls, old(jobs)[id].txn.value, id, drv)
    {
      var t := jobs[id].txn.value;
      PendingTogether(jobs, calls, aborting, id);
      hide JobOk, Quiet;
      ghost var all := Members(jobs, t);
      var failed := PrepareAll(t, drv);
      if failed.Some? {
        PreparedReady(old(jobs), calls, aborting, t, id, failed.value, drv.prepare(failed.value));
        OneFirst(drv, all, failed.value, id);
        TxnAbort(id, drv);
        GoneAnyway(old(jobs), old(calls), jobs, calls, t, failed.value,
                   PreparedJob(old(jobs)[failed.value], drv.prepare(failed.value)));
      } else {
        CommitAll(t);
      }
      QuietGone(old(jobs), old(calls), jobs, calls, old(aborting), aborting, t);
    }

    // ----------------------------------------------------- completion

    /** Whether every member of the transaction is completed; none of those has failed. */
    method AllCompleted(t: TxnId) returns (all: bool)
      requires forall m | m in Members(jobs, t) && Completed(jobs[m].status) :: jobs[m].ret == 0
      ensures all <==> forall m | m in Members(jobs, t) :: Completed(jobs[m].status)
    {
      var todo := Members(jobs, t);
      while todo != {}
        invariant todo <= Members(jobs, t)
        invariant forall m | m in Members(jobs, t) && m !in todo :: Completed(jobs[m].status)
      {
        var other :| other in todo;
        todo := todo - {other};
        if !Completed(jobs[other].status) {
          return false;
        }
        assert jobs[other].ret == 0;
      }
      return true;
    }

    /** job_txn_apply_locked(job_transition_to_pending_locked) */
    method AllToPending(t: TxnId)
      requires forall m | m in Members(jobs, t) :: jobs[m].status.Waiting?
      modifies this`jobs
      ensures jobs == WithPending(old(jobs), Members(old(jobs), t))
    {
      ghost var all := Members(jobs, t);
      var todo := Members(jobs, t);
      assert jobs == WithPending(old(jobs), all - todo);
      while todo != {}
        invariant todo <= all && jobs == WithPending(old(jobs), all - todo)
      {
        var m :| m in todo;
        PendingStep(old(jobs), all - todo, m);
        assert all - (todo - {m}) == (all - todo) + {m};
        todo := todo - {m};
        jobs := jobs[m := Transition(jobs[m], Pending)];
      }
      assert all - todo == all;
    }

    /** job_completed_txn_success_locked: the job waits for the others; the last one to complete takes them all further. */
    method TxnSuccess(id: JobId, drv: Drivers)
      requires Valid() && CancelRule(drv) && id in jobs && jobs[id].deferred && !Fails(jobs[id])
      requires jobs[id].status.Running? || jobs[id].status.Ready?
      modifies this
      ensures Valid() && Forward(old(jobs), old(calls), jobs, calls)
      ensures var t := old(jobs)[id].txn.value;
              if forall m | m in Members(old(jobs), t) && m != id :: Completed(old(jobs)[m].status) then
                GroupDone(old(jobs), old(calls), jobs, calls, t, id, drv)
              else calls == old(calls) && jobs == old(jobs)[id := old(jobs)[id].(status := Waiting)]
    {
      var t := jobs[id].txn.value;
      ghost var j0 := jobs;
      ghost var all := Members(jobs, t);
      WaitingOk(jobs, calls, aborting, id);
      hide JobOk, Quiet, Fails, GroupDone, Forward;
      jobs := jobs[id := Transition(jobs[id], Waiting)];
      var last := AllCompleted(t);
      LastIff(j0, t, id);
      if !last {
        ForwardWait(j0, calls, id);
        return;
      }
      GroupCompleted(id, t, drv);
      GroupDoneWait(j0, old(calls), jobs, calls, t, id, drv);
    }

    /** The last part of job_completed_txn_success_locked. */
    method GroupCompleted(id: JobId, t: TxnId, drv: Drivers)
      requires Valid() && CancelRule(drv) && id in Members(jobs, t) && forall m | m in Members(jobs, t) :: jobs[m].status.Waiting?
      modifies this
      ensures Valid() && GroupDone(old(jobs), old(calls), jobs, calls, t, id, drv)
    {
      PendingOk(jobs, calls, aborting, t, id);
      hide JobOk, Quiet, FirstFailing;
      AllToPending(t);
      if exists m :: m in Members(jobs, t) && !jobs[m].autoFinalize {
        return;
      }
      DoFinalize(id, drv);
      PendingOutcome(old(jobs), old(calls), jobs, calls, t, id, drv);
    }

    /** job_completed_txn_abort_locked for a job that has failed or been force-cancelled: every member is aborted. */
    method AbortGroup(id: JobId, t: TxnId, drv: Drivers)
      requires JobsOk(jobs, calls) && Quiet(jobs - Members(jobs, t), aborting) && CancelRule(drv)
      requires id in jobs && Leaving(jobs[id], t, false) && Drainable(jobs, t, id)
      modifies this
      ensures Valid() && AllAborted(old(jobs), old(calls), jobs, calls, t)
    {
      hide JobOk, Quiet, Completed;
      TxnAbort(id, drv);
      QuietGone(old(jobs), old(calls), jobs, calls, old(aborting), aborting, t);
    }

    /** job_completed_locked */
    method JobCompleted(id: JobId, drv: Drivers)
      requires Valid() && CancelRule(drv) && id in jobs && jobs[id].txn.Some? && !Completed(jobs[id].status)
      requires Returned(jobs[id]) || (jobs[id].status.Created? && Fails(jobs[id]))
      requires Fails(jobs[id]) ==> Drainable(jobs, jobs[id].txn.value, id)
      modifies this
      ensures Valid() && Forward(old(jobs), old(calls), jobs, calls)
      ensures CompletionOutcome(old(jobs), old(calls), jobs, calls, id, drv)
    {
      var t := jobs[id].txn.value;
      if Fails(jobs[id]) {
        hide Forward, GroupDone;
        FailedLeaves(jobs, calls, aborting, t, id);
        jobs := jobs[id := UpdateRc(jobs[id])];
        AbortGroup(id, t, drv);
        GoneAnyway(old(jobs), old(calls), jobs, calls, t, id, UpdateRc(old(jobs)[id]));
        ForwardGone(old(jobs), old(calls), jobs, calls, t);
      } else {
        hide Forward, GroupDone, JobOk;
        assert UpdateRc(jobs[id]) == jobs[id];
        TxnSuccess(id, drv);
      }
    }

    /** job_exit, run in the main loop after the coroutine has returned. */
    method JobExit(id: JobId, drv: Drivers)
      requires Valid() && CancelRule(drv) && id in jobs && Returned(jobs[id])
      requires Fails(jobs[id]) ==> Drainable(jobs, jobs[id].txn.value, id)
      modifies this
      ensures Valid() && Forward(old(jobs), old(calls), jobs, calls)
      ensures CompletionOutcome(old(jobs)[id := old(jobs)[id].(busy := false)], old(calls), jobs, calls, id, drv)
    {
      NotBusy(jobs, calls, aborting, id);
      hide JobsOk, Quiet, CompletionOutcome, Forward, Drainable;
      jobs := jobs[id := jobs[id].(busy := false)];
      JobCompleted(id, drv);
      ForwardBusy(old(jobs), old(calls), jobs, calls, id);
    }

    /** job_cancel_locked */
    method Cancel(id: JobId, force: bool, drv: Drivers)
      requires Valid() && CancelRule(drv) && id in jobs && !jobs[id].status.Null?
      requires AbortsGroup(jobs, id, force, drv) ==> Drainable(jobs, jobs[id].txn.value, id)
      modifies this
      ensures Valid() && Forward(old(jobs), old(calls), jobs, calls)
      ensures AbortsGroup(old(jobs), id, force, drv) ==>
                forall m | m in Members(old(jobs), old(jobs)[id].txn.value) :: m in calls && calls[m] == ABORTED
      ensures var j := old(jobs)[id];
              j.txn.Some? && !AbortsGroup(old(jobs), id, force, drv) ==>
                && calls == old(calls)
                && var c := CancelledJob(j, drv.cancel(id, j, force));
                   jobs == old(jobs)[id := if j.deferred then c else c.(busy := true)]
      ensures old(jobs)[id].status.Concluded? ==> jobs == Put(old(jobs), id, Dismissed(old(jobs)[id])) && calls == old(calls)
    {
      hide Forward, Finalizable, JobOk, Quiet, TxnGone, Leaving, CancelledJob, Dismissed, Put, Drainable, JobSTT;
      StatusFacts(jobs[id], calls[id]);
      NotAborting(jobs, aborting, id);
      if jobs[id].status.Concluded? {
        DismissValid(jobs, calls, aborting, id);
        DoDismiss(id);
        return;
      }
      var t := jobs[id].txn.value;
      ghost var f := drv.cancel(id, jobs[id], force);
      ghost var c := CancelledJob(jobs[id], f);
      CancelledIs(jobs[id], f, calls[id]);
      CancelPrep(jobs, calls, aborting, t, id, c);
      CancelAsync(id, force, drv);
      if !jobs[id].started {
        JobCompleted(id, drv);
        AbortedAnyway(old(jobs), old(calls), jobs, calls, t, id, c);
      } else if jobs[id].deferred {
        if jobs[id].forceCancel {
          AbortGroup(id, t, drv);
          AbortedAnyway(old(jobs), old(calls), jobs, calls, t, id, c);
        }
      } else if !jobs[id].busy {
        // job_enter_cond_locked
        BusyValid(old(jobs), calls, aborting, id, c);
        jobs := jobs[id := jobs[id].(busy := true)];
      }
    }

    // --------------------------------------------------- other requests

    /** job_user_cancel_locked */
    method UserCancel(id: JobId, force: bool, drv: Drivers) returns (ok: bool)
      requires Valid() && CancelRule(drv) && id in jobs
      requires VerbAllowed(VerbCancel, jobs[id].status) && AbortsGroup(jobs, id, force, drv) ==>
                 Drainable(jobs, jobs[id].txn.value, id)
      modifies this
      ensures Valid() && Forward(old(jobs), old(calls), jobs, calls)
      ensures ok <==> VerbAllowed(VerbCancel, old(jobs)[id].status)
      ensures !ok ==> jobs == old(jobs) && calls == old(calls)
      ensures ok && AbortsGroup(old(jobs), id, force, drv) ==>
                forall m | m in Members(old(jobs), old(jobs)[id].txn.value) :: m in calls && calls[m] == ABORTED
    {
      hide Quiet, JobOk;
      StatusFacts(jobs[id], calls[id]);
      if !VerbAllowed(VerbCancel, jobs[id].status) {
        return false;
      }
      Cancel(id, force, drv);
      return true;
    }

    /** job_finalize_locked */
    method Finalize(id: JobId, drv: Drivers) returns (ok: bool)
      requires Valid() && CancelRule(drv) && id in jobs
      modifies this
      ensures Valid() && Forward(old(jobs), old(calls), jobs, calls)
      ensures ok <==> old(jobs)[id].status.Pending?
      ensures ok ==> old(jobs)[id].txn.Some? && GroupOutcome(old(jobs), old(calls), jobs, calls, old(jobs)[id].txn.value, id, drv)
      ensures !ok ==> jobs == old(jobs) && calls == old(calls)
    {
      hide Quiet, GroupOutcome, Forward;
      if !VerbAllowed(VerbFinalize, jobs[id].status) {
        ForwardSelf(jobs, calls);
        return false;
      }
      assert JobOk(jobs[id], calls[id]);
      hide JobOk;
      DoFinalize(id, drv);
      OutcomeForward(old(jobs), old(calls), jobs, calls, old(jobs)[id].txn.value, id, drv);
      return true;
    }

    /** job_dismiss_locked */
    method Dismiss(id: JobId) returns (ok: bool)
      requires Valid() && id in jobs
      modifies this`jobs
      ensures Valid() && Forward(old(jobs), old(calls), jobs, calls)
      ensures ok <==> old(jobs)[id].status.Concluded?
      ensures jobs == if ok then Put(old(jobs), id, Dismissed(old(jobs)[id])) else old(jobs)
    {
      if !VerbAllowed(VerbDismiss, jobs[id].status) {
        return false;
      }
      DismissValid(jobs, calls, aborting, id);
      DoDismiss(id);
      return true;
    }

    /** job_early_fail */
    method EarlyFail(id: JobId)
      requires Valid() && id in jobs && jobs[id].status.Created?
      modifies this`jobs
      ensures Valid() && Forward(old(jobs), old(calls), jobs, calls)
      ensures jobs == Put(old(jobs), id, Dismissed(old(jobs)[id]))
    {
      DismissValid(jobs, calls, aborting, id);
      DoDismiss(id);
    }

    // --------------------------------------------- the life of a job

    /** job_create.  The group stays in order exactly if it is neither aborting nor pending. */
    method Create(id: JobId, t: TxnId, autoFinalize: bool, autoDismiss: bool)
      requires Valid() && forall m | m in calls :: m < id
      modifies this`jobs, this`calls
      ensures JobsOk(jobs, calls) && Forward(old(jobs), old(calls), jobs, calls)
      ensures Valid() <==> t !in aborting && forall m | m in Members(old(jobs), t) :: !old(jobs)[m].status.Pending?
      ensures jobs == old(jobs)[id := NewJob(t, autoFinalize, autoDismiss)] && calls == old(calls)[id := []]
    {
      hide JobsOk, Quiet, Forward, NewJob;
      NewJobOk(t, autoFinalize, autoDismiss);
      CreatedOk(jobs, calls, aborting, id, NewJob(t, autoFinalize, autoDismiss), t);
      jobs := jobs[id := NewJob(t, autoFinalize, autoDismiss)];
      calls := calls[id := []];
    }

    /** job_start */
    method Start(id: JobId)
      requires Valid() && id in jobs && !jobs[id].started && jobs[id].paused
      modifies this`jobs
      ensures Valid() && Forward(old(jobs), old(calls), jobs, calls)
      ensures var j := old(jobs)[id];
              jobs == old(jobs)[id := j.(status := Running, started := true, busy := true, paused := false,
                                         pauses := j.pauses.(count := j.pauses.count - 1))]
    {
      hide Quiet, Forward;
      NotAborting(jobs, aborting, id);
      assert JobOk(jobs[id], calls[id]);
      var j := Transition(jobs[id].(started := true, busy := true, paused := false,
                                    pauses := jobs[id].pauses.(count := jobs[id].pauses.count - 1)), Running);
      UpdateValid(jobs, calls, aborting, id, j);
      jobs := jobs[id := j];
    }

    /** job_pause_point_locked, up to the yield. */
    method PausePoint(id: JobId)
      requires Valid() && id in jobs && (jobs[id].status.Running? || jobs[id].status.Ready?) && !jobs[id].deferred
      modifies this`jobs
      ensures Valid() && Forward(old(jobs), old(calls), jobs, calls)
      ensures var j := old(jobs)[id];
              jobs == if j.pauses.count > 0 && !j.forceCancel
                      then old(jobs)[id := j.(status := if j.status.Ready? then Standby else Paused, paused := true, busy := false)]
                      else old(jobs)
    {
      hide Quiet, Forward;
      ForwardSelf(jobs, calls);
      if jobs[id].pauses.count > 0 && !jobs[id].forceCancel {
        assert JobOk(jobs[id], calls[id]);
        var j := Transition(jobs[id], if jobs[id].status.Ready? then Standby else Paused).(paused := true, busy := false);
        UpdateValid(jobs, calls, aborting, id, j);
        jobs := jobs[id := j];
      }
    }

    /** The rest of job_pause_point_locked, after job_enter_cond_locked has woken the coroutine. */
    method LeavePause(id: JobId)
      requires Valid() && id in jobs && jobs[id].started && jobs[id].paused && jobs[id].busy
      modifies this`jobs
      ensures Valid() && Forward(old(jobs), old(calls), jobs, calls)
      ensures var j := old(jobs)[id];
              jobs == old(jobs)[id := j.(status := if j.status.Standby? then Ready else Running, paused := false)]
    {
      hide Quiet, Forward;
      NotAborting(jobs, aborting, id);
      assert JobOk(jobs[id], calls[id]);
      var j := Transition(jobs[id], if jobs[id].status.Standby? then Ready else Running).(paused := false);
      UpdateValid(jobs, calls, aborting, id, j);
      jobs := jobs[id := j];
    }

    /** job_transition_to_ready, called by the driver of a running job. */
    method BecomeReady(id: JobId)
      requires Valid() && id in jobs && jobs[id].status.Running? && !jobs[id].deferred
      modifies this`jobs
      ensures Valid() && Forward(old(jobs), old(calls), jobs, calls)
      ensures jobs == old(jobs)[id := old(jobs)[id].(status := Ready)]
    {
      hide Quiet, Forward;
      assert JobOk(jobs[id], calls[id]);
      UpdateValid(jobs, calls, aborting, id, Transition(jobs[id], Ready));
      jobs := jobs[id := Transition(jobs[id], Ready)];
    }

    /** The end of job_co_entry: the driver's .run has returned `ret`. */
    method RunReturns(id: JobId, ret: int)
      requires Valid() && id in jobs && (jobs[id].status.Running? || jobs[id].status.Ready?) && !jobs[id].deferred
      modifies this`jobs
      ensures Valid() && Forward(old(jobs), old(calls), jobs, calls) && id in jobs && Returned(jobs[id])
      ensures jobs == old(jobs)[id := old(jobs)[id].(ret := ret, deferred := true, busy := true)]
    {
      hide Quiet, Forward;
      assert JobOk(jobs[id], calls[id]);
      UpdateValid(jobs, calls, aborting, id, jobs[id].(ret := ret, deferred := true, busy := true));
      jobs := jobs[id := jobs[id].(ret := ret, deferred := true, busy := true)];
    }

    /** A change of the pauses, after which the coroutine may be woken. */
    method SetPauses(id: JobId, p: Pauses, enter: bool)
      requires Valid() && id in jobs && PausesOk(jobs[id].(pauses := p))
      modifies this`jobs
      ensures Valid() && Forward(old(jobs), old(calls), jobs, calls)
      ensures jobs == old(jobs)[id := Entered(old(jobs)[id].(pauses := p), enter)]
    {
      hide Quiet, Forward;
      NotAborting(jobs, aborting, id);
      QuietForced(jobs, aborting, id);
      assert JobOk(jobs[id], calls[id]);
      UpdateValid(jobs, calls, aborting, id, Entered(jobs[id].(pauses := p), enter));
      jobs := jobs[id := Entered(jobs[id].(pauses := p), enter)];
    }

    /** child_job_drained_begin: job_pause */
    method DrainBegin(id: JobId)
      requires Valid() && id in jobs
      modifies this`jobs
      ensures Valid() && Forward(old(jobs), old(calls), jobs, calls) && id in jobs && jobs[id].pauses.count > 0
      ensures var j := old(jobs)[id];
              jobs == old(jobs)[id := Entered(j.(pauses := Drained(j.pauses, 1)), !j.paused)]
    {
      assert JobOk(jobs[id], calls[id]);
      var p := jobs[id].pauses;
      SetPauses(id, Drained(p, 1), !jobs[id].paused);
    }

    /** child_job_drained_end: job_resume, with its assertion. */
    method DrainEnd(id: JobId, timerPending: bool)
      requires Valid() && id in jobs && jobs[id].pauses.drains > 0
      modifies this`jobs
      ensures Valid() && Forward(old(jobs), old(calls), jobs, calls)
      ensures var j := old(jobs)[id];
              jobs == old(jobs)[id := Entered(j.(pauses := Drained(j.pauses, -1)), j.pauses.count == 1 && !timerPending)]
    {
      assert JobOk(jobs[id], calls[id]);
      var p := jobs[id].pauses;
      assert p.count > 0;
      SetPauses(id, Drained(p, -1), p.count == 1 && !timerPending);
    }

    /** job_user_pause_locked */
    method UserPause(id: JobId) returns (ok: bool)
      requires Valid() && id in jobs
      modifies this`jobs
      ensures Valid() && Forward(old(jobs), old(calls), jobs, calls) && id in jobs
      ensures ok <==> VerbAllowed(VerbPause, old(jobs)[id].status) && !old(jobs)[id].pauses.user
      ensures ok ==> var j := old(jobs)[id];
                     jobs == old(jobs)[id := Entered(j.(pauses := j.pauses.(count := j.pauses.count + 1, user := true)), !j.paused)]
      ensures !ok ==> jobs == old(jobs)
    {
      ForwardSelf(jobs, calls);
      if !VerbAllowed(VerbPause, jobs[id].status) || jobs[id].pauses.user {
        return false;
      }
      assert JobOk(jobs[id], calls[id]);
      var p := jobs[id].pauses;
      SetPauses(id, p.(count := p.count + 1, user := true), !jobs[id].paused);
      return true;
    }

    /** block_job_iostatus_reset_locked, with its assertion. */
    method IostatusReset(id: JobId)
      requires Valid() && id in jobs
      modifies this`jobs
      ensures Valid() && Forward(old(jobs), old(calls), jobs, calls)
      ensures jobs == old(jobs)[id := IoReset(old(jobs)[id])]
    {
      assert JobOk(jobs[id], calls[id]);
      if jobs[id].pauses.iostatus.IoOk? {
        ForwardSelf(jobs, calls);
        return;
      }
      assert jobs[id].pauses.user && jobs[id].pauses.count > 0;
      SetPauses(id, jobs[id].pauses.(iostatus := IoOk), false);
    }

    /** The pause of the user ends, and the coroutine is woken if that was the last pause. */
    method EndUserPause(id: JobId, timerPending: bool)
      requires Valid() && id in jobs && jobs[id].pauses.user
      modifies this`jobs
      ensures Valid() && Forward(old(jobs), old(calls), jobs, calls)
      ensures var j := old(jobs)[id];
              jobs == old(jobs)[id := Entered(j.(pauses := Resumed(j.pauses)), j.pauses.count == 1 && !timerPending)]
    {
      ghost var j := jobs[id];
      assert PausesOk(j);
      ResumeSplit(j);
      hide JobsOk, Quiet, Forward, PausesOk, Resumed, UserGone, IoReset, Entered;
      ghost var p, enter := Resumed(j.pauses), j.pauses.count == 1 && !timerPending;
      ForwardSame(jobs, calls, id, p, enter);
      SecondUpdate(jobs, id, IoReset(j), Entered(j.(pauses := p), enter));
      IostatusReset(id);
      SetPauses(id, UserGone(jobs[id].pauses), jobs[id].pauses.count == 1 && !timerPending);
    }

    /** job_user_resume_locked */
    method UserResume(id: JobId, timerPending: bool) returns (ok: bool)
      requires Valid() && id in jobs
      modifies this`jobs
      ensures Valid() && Forward(old(jobs), old(calls), jobs, calls) && id in jobs
      ensures ok <==> VerbAllowed(VerbResume, old(jobs)[id].status) && old(jobs)[id].pauses.user
      ensures ok ==> var j := old(jobs)[id];
                     jobs == old(jobs)[id := Entered(j.(pauses := Resumed(j.pauses)), j.pauses.count == 1 && !timerPending)]
      ensures !ok ==> jobs == old(jobs)
    {
      ForwardSelf(jobs, calls);
      assert PausesOk(jobs[id]) && (jobs[id].pauses.user ==> jobs[id].pauses.count > 0);
      hide JobsOk, Quiet, Forward, PausesOk, Resumed, Entered;
      if !jobs[id].pauses.user || jobs[id].pauses.count <= 0 || !VerbAllowed(VerbResume, jobs[id].status) {
        return false;
      }
      EndUserPause(id, timerPending);
      return true;
    }

    /** job_complete_locked, for a driver that has .complete or not and accepts or refuses; mirror_complete wakes the job
        unless it is paused. */
    method Complete(id: JobId, hasComplete: bool, accepts: bool) returns (ok: bool)
      requires Valid() && id in jobs
      modifies this`jobs
      ensures Valid() && Forward(old(jobs), old(calls), jobs, calls)
      ensures ok <==> VerbAllowed(VerbComplete, old(jobs)[id].status) && !old(jobs)[id].cancelled && hasComplete && accepts
      ensures jobs == if ok then old(jobs)[id := Entered(old(jobs)[id], !old(jobs)[id].paused)] else old(jobs)
    {
      ForwardSelf(jobs, calls);
      if !VerbAllowed(VerbComplete, jobs[id].status) || jobs[id].cancelled || !hasComplete || !accepts {
        return false;
      }
      assert JobOk(jobs[id], calls[id]);
      SetPauses(id, jobs[id].pauses, !jobs[id].paused);
      return true;
    }

    /** block_job_error_action */
    method ErrorAction(id: JobId, onError: OnError, noSpace: bool) returns (action: Action)
      requires Valid() && id in jobs
      modifies this`jobs
      ensures Valid() && Forward(old(jobs), old(calls), jobs, calls) && id in jobs
      ensures action.ActionStop? <==> onError.OnStop? || ((onError.OnNoSpace? || onError.OnAuto?) && noSpace)
      ensures action.ActionIgnore? <==> onError.OnIgnore?
      ensures action.ActionStop? ==> jobs[id].pauses.user && !jobs[id].pauses.iostatus.IoOk? && jobs[id].pauses.count > 0
      ensures action.ActionStop? ==> StoppedOnly(old(jobs), jobs, id, noSpace)
      ensures !action.ActionStop? ==> jobs == old(jobs)
    {
      hide Quiet, Forward, JobOk;
      ForwardSelf(jobs, calls);
      match onError {
        case OnNoSpace => action := if noSpace then ActionStop else ActionReport;
        case OnAuto => action := if noSpace then ActionStop else ActionReport;
        case OnStop => action := ActionStop;
        case OnReport => action := ActionReport;
        case OnIgnore => action := ActionIgnore;
      }
      if action.ActionStop? {
        StopJob(id, noSpace);
      }
    }

    /** The pause of block_job_error_action, which the user has to end. */
    method StopJob(id: JobId, noSpace: bool)
      requires Valid() && id in jobs
      modifies this`jobs
      ensures Valid() && Forward(old(jobs), old(calls), jobs, calls) && id in jobs
      ensures jobs[id].pauses.user && !jobs[id].pauses.iostatus.IoOk? && jobs[id].pauses.count > 0
      ensures StoppedOnly(old(jobs), jobs, id, noSpace)
    {
      PausesOnError(jobs[id], calls[id], noSpace);
      hide Quiet, Forward, JobOk, PausesOk, OnErrorPauses;
      SetPauses(id, OnErrorPauses(jobs[id].pauses, noSpace), !jobs[id].pauses.user && !jobs[id].paused);
    }

    /** job_ref_locked and the matching job_unref_locked: a job is freed with its last reference, and only in NULL. */
    method Ref(id: JobId)
      requires Valid() && id in jobs
      modifies this`jobs
      ensures Valid()
      ensures var j := old(jobs)[id];
              jobs == old(jobs)[id := j.(refs := Refs(j.refs.count + 1, j.refs.held + 1))]
    {
      hide Quiet;
      NotAborting(jobs, aborting, id);
      QuietForced(jobs, aborting, id);
      assert JobOk(jobs[id], calls[id]);
      var j := jobs[id].(refs := Refs(jobs[id].refs.count + 1, jobs[id].refs.held + 1));
      UpdateValid(jobs, calls, aborting, id, j);
      jobs := jobs[id := j];
    }

    method ReleaseRef(id: JobId)
      requires Valid() && id in jobs && jobs[id].refs.held > 0
      modifies this`jobs
      ensures Valid() && (id !in jobs <==> old(jobs)[id].status.Null? && old(jobs)[id].refs.held == 1)
      ensures jobs == Put(old(jobs), id, Released(old(jobs)[id]))
    {
      hide Quiet, JobOk;
      ReleasedOk(jobs, calls, aborting, id);
      jobs := jobs[id := Released(jobs[id])];
      if jobs[id].refs.count == 0 {
        assert jobs[id].status.Null? && jobs[id].txn.None?;
        jobs := jobs - {id};
      }
      assert jobs == Put(old(jobs), id, Released(old(jobs)[id]));
    }
  }

  // ------------------------------------- on the way out of a transaction

  /** The job is to be finalized next: committed if `commit`, aborted otherwise. */
  predicate Leaving(j: Job, t: TxnId, commit: bool) {
    && j.txn == Some(t)
    && if commit then j.status.Pending? && !Fails(j)
       else Fails(j) && (Completed(j.status) || (j.started && j.forceCancel))
  }

  /** A member of a transaction that is being finalized is about to leave it, or has left it with the right calls. */
  predicate Staged(jobs: JobMap, calls: Calls, t: TxnId, commit: bool, m: JobId) {
    && m in calls
    && if m in jobs && jobs[m].txn.Some? then Leaving(jobs[m], t, commit)
       else calls[m] == (if commit then COMMITTED else ABORTED) && (m in jobs ==> (jobs[m].ret == 0 <==> commit))
  }

  ghost predicate AllStaged(jobs: JobMap, calls: Calls, t: TxnId, committing: set<JobId>, all: set<JobId>) {
    forall m | m in all :: Staged(jobs, calls, t, m in committing, m)
  }

  lemma StagedRuns(jobs: JobMap, calls: Calls, t: TxnId, committing: set<JobId>, all: set<JobId>, m: JobId)
    requires JobsOk(jobs, calls) && AllStaged(jobs, calls, t, committing, all) && m in all && m in Members(jobs, t)
    ensures JobOk(jobs[m], []) && calls[m] == []
    ensures !Completed(jobs[m].status) ==> jobs[m].started && jobs[m].forceCancel
  {
    assert Staged(jobs, calls, t, m in committing, m);
  }

  lemma StagedEnds(jobs: JobMap, calls: Calls, t: TxnId, committing: set<JobId>, all: set<JobId>, m: JobId, e: Job)
    requires JobsOk(jobs, calls) && AllStaged(jobs, calls, t, committing, all) && m in all && m in Members(jobs, t)
    requires !Completed(jobs[m].status) && JobOk(e, calls[m]) && e.status.Aborting? && e.txn == jobs[m].txn && e.forceCancel
    ensures JobsOk(jobs[m := e], calls) && AllStaged(jobs[m := e], calls, t, committing, all)
    ensures jobs[m := e] - all == jobs - all && Members(jobs[m := e], t) == Members(jobs, t)
  {
    hide JobOk;
    assert Staged(jobs, calls, t, m in committing, m);
    forall k | k in all ensures Staged(jobs[m := e], calls, t, k in committing, k) {
      assert Staged(jobs, calls, t, k in committing, k);
    }
  }

  lemma StagedCancelled(jobs: JobMap, calls: Calls, t: TxnId, committing: set<JobId>, all: set<JobId>, m: JobId)
    requires JobsOk(jobs, calls) && AllStaged(jobs, calls, t, committing, all) && m in all && m in Members(jobs, t)
    requires !Completed(jobs[m].status)
    ensures jobs[m].cancelled
  {
    StagedRuns(jobs, calls, t, committing, all, m);
  }

  lemma StagedFinalizes(jobs: JobMap, calls: Calls, t: TxnId, committing: set<JobId>, all: set<JobId>, m: JobId)
    requires JobsOk(jobs, calls) && AllStaged(jobs, calls, t, committing, all) && m in all && m in Members(jobs, t)
    requires Completed(jobs[m].status)
    ensures StatusOk(jobs[m]) && RefsOk(jobs[m]) && calls[m] == [] && Finalizable(jobs[m])
    ensures var jobs' := Put(jobs, m, Finalized(jobs[m]));
            var calls' := calls[m := if Fails(jobs[m]) then ABORTED else COMMITTED];
            && JobsOk(jobs', calls') && AllStaged(jobs', calls', t, committing, all)
            && Members(jobs', t) == Members(jobs, t) - {m} && jobs' - all == jobs - all && calls' - all == calls - all
  {
    StagedRuns(jobs, calls, t, committing, all, m);
    assert Staged(jobs, calls, t, m in committing, m);
    FinalizedOk(jobs[m]);
    var f, made := Finalized(jobs[m]), if Fails(jobs[m]) then ABORTED else COMMITTED;
    FinalizedStaged(jobs, calls, t, committing, all, m, f, made);
  }

  lemma FinalizedStaged(jobs: JobMap, calls: Calls, t: TxnId, committing: set<JobId>, all: set<JobId>, m: JobId, f: Job,
                        made: seq<Call>)
    requires JobsOk(jobs, calls) && AllStaged(jobs, calls, t, committing, all) && m in all && m in Members(jobs, t)
    requires f.txn.None? && (f.refs.count != 0 ==> JobOk(f, made)) && (f.ret == 0 <==> m in committing)
    requires made == if m in committing then COMMITTED else ABORTED
    ensures var jobs', calls' := Put(jobs, m, f), calls[m := made];
            && JobsOk(jobs', calls') && AllStaged(jobs', calls', t, committing, all)
            && Members(jobs', t) == Members(jobs, t) - {m} && jobs' - all == jobs - all && calls' - all == calls - all
  {
    hide JobOk, Leaving;
    var jobs', calls' := Put(jobs, m, f), calls[m := made];
    forall k | k in all ensures Staged(jobs', calls', t, k in committing, k) {
      assert Staged(jobs, calls, t, k in committing, k);
    }
  }

  /** The jobs after the members in `done` have been force-cancelled. */
  function CancelledAll(jobs: JobMap, done: set<JobId>): JobMap {
    map m | m in jobs :: if m in done then CancelledJob(jobs[m], true) else jobs[m]
  }

  lemma CancelledStep(jobs: JobMap, done: set<JobId>, m: JobId)
    requires m in jobs && m !in done
    ensures var cur := CancelledAll(jobs, done);
            m in cur && cur[m] == jobs[m] && cur[m := CancelledJob(cur[m], true)] == CancelledAll(jobs, done + {m})
    ensures CancelledAll(jobs, {}) == jobs
  {
  }

  /** Every other member has been started, or is done. */
  ghost predicate Drainable(jobs: JobMap, t: TxnId, id: JobId) {
    forall m | m in Members(jobs, t) && m != id :: jobs[m].started || Completed(jobs[m].status)
  }

  /** job_cancel_locked aborts the whole transaction: the job has not been started, or it has returned and is
      force-cancelled; any other job is only marked. */
  predicate AbortsGroup(jobs: JobMap, id: JobId, force: bool, drv: Drivers)
    requires id in jobs
  {
    var j := jobs[id];
    j.txn.Some? && (!j.started || (j.deferred && (j.forceCancel || drv.cancel(id, j, force))))
  }

  lemma CancelledStaged(jobs: JobMap, calls: Calls, t: TxnId, id: JobId, committing: set<JobId>)
    requires id in jobs && Leaving(jobs[id], t, id in committing) && committing <= {id}
    requires Drainable(jobs, t, id) && Members(jobs, t) <= calls.Keys
    ensures var jobs' := CancelledAll(jobs, Members(jobs, t) - {id});
            && AllStaged(jobs', calls, t, committing, Members(jobs, t)) && Members(jobs', t) == Members(jobs, t)
            && jobs' - Members(jobs, t) == jobs - Members(jobs, t)
  {
    forall m | m in Members(jobs, t) && m != id ensures Leaving(CancelledJob(jobs[m], true), t, false) {
      CancelledLeaves(jobs[m], t);
    }
    hide Leaving;
    assert forall m | m in jobs :: CancelledJob(jobs[m], true).txn == jobs[m].txn;
    hide CancelledJob;
  }

  lemma CancelledLeaves(j: Job, t: TxnId)
    requires j.txn == Some(t) && (j.started || Completed(j.status))
    ensures Leaving(CancelledJob(j, true), t, false)
  {
  }

  /** The members have left the transaction; nobody else has changed. */
  ghost predicate TxnGone(jobs: JobMap, calls: Calls, jobs': JobMap, calls': Calls, t: TxnId) {
    var all := Members(jobs, t);
    && jobs' - all == jobs - all && calls' - all == calls - all
    && (forall m | m in all :: m in calls' && (calls'[m] == COMMITTED || calls'[m] == ABORTED))
    && forall m | m in all && m in jobs' :: jobs'[m].txn.None? && (jobs'[m].ret == 0 <==> calls'[m] == COMMITTED)
  }

  lemma StagedGone(jobs: JobMap, calls: Calls, jobs': JobMap, calls': Calls, t: TxnId, committing: set<JobId>)
    requires AllStaged(jobs', calls', t, committing, Members(jobs, t)) && Members(jobs', t) == {}
    requires jobs' - Members(jobs, t) == jobs - Members(jobs, t) && calls' - Members(jobs, t) == calls - Members(jobs, t)
    ensures TxnGone(jobs, calls, jobs', calls', t)
    ensures forall m | m in Members(jobs, t) ::
              m in calls' && calls'[m] == if m in committing then COMMITTED else ABORTED
  {
    forall m | m in Members(jobs, t)
      ensures m in calls' && calls'[m] == (if m in committing then COMMITTED else ABORTED)
      ensures m in jobs' ==> jobs'[m].txn.None?
    {
      assert Staged(jobs', calls', t, m in committing, m);
      assert m in jobs' && jobs'[m].txn == Some(t) ==> m in Members(jobs', t);
    }
  }

  // ------------------------------------------------------------ finalizing

  /** How a group is finalized by `id`: with every preparation successful all members are committed.  Otherwise all others
      are aborted, but `id` is aborted only if it is itself the first to fail. */
  ghost predicate GroupOutcome(jobs: JobMap, calls: Calls, jobs': JobMap, calls': Calls, t: TxnId, id: JobId, drv: Drivers) {
    var all := Members(jobs, t);
    && TxnGone(jobs, calls, jobs', calls', t)
    && forall m | m in all :: m in calls' && calls'[m] ==
         if (forall k | k in all :: drv.prepare(k) == 0) || (m == id && !FirstFailing(drv, all, id)) then COMMITTED else ABORTED
  }

  /** What happens once every member has completed: all become pending, and are finalized unless one of them is to be
      finalized by hand. */
  ghost predicate GroupDone(jobs: JobMap, calls: Calls, jobs': JobMap, calls': Calls, t: TxnId, id: JobId, drv: Drivers) {
    if exists m :: m in Members(jobs, t) && !jobs[m].autoFinalize then
      calls' == calls && jobs' == WithPending(jobs, Members(jobs, t))
    else GroupOutcome(jobs, calls, jobs', calls', t, id, drv)
  }

  /** The first member of the list: the one created last. */
  method Latest(s: set<JobId>) returns (m: JobId)
    requires s != {}
    ensures m in s && forall k | k in s :: k <= m
  {
    m :| m in s;
    var todo := s - {m};
    while todo != {}
      invariant m in s && todo <= s && forall k | k in s && k !in todo :: k <= m
    {
      var k :| k in todo;
      todo := todo - {k};
      if k > m { m := k; }
    }
  }

  /** `f` fails to prepare, and nobody before it in the list does. */
  ghost predicate FirstFailing(drv: Drivers, all: set<JobId>, f: JobId) {
    f in all && drv.prepare(f) != 0 && forall m | m in all && m > f :: drv.prepare(m) == 0
  }

  lemma OneFirst(drv: Drivers, all: set<JobId>, f: JobId, g: JobId)
    requires FirstFailing(drv, all, f)
    ensures FirstFailing(drv, all, g) <==> f == g
    ensures !forall k | k in all :: drv.prepare(k) == 0
  {
  }

  function PreparedJob(j: Job, ret: int): Job {
    j.(ret := ret, status := Aborting)
  }

  lemma PrepareOne(j: Job, ret: int)
    requires j.status.Pending? && !Fails(j)
    ensures j.ret == 0 && (Fails(j.(ret := ret)) ==> JobSTT(j.status, Aborting))
    ensures UpdateRc(j.(ret := ret)) == if ret == 0 then j else PreparedJob(j, ret)
  {
  }

  lemma StagedCommits(jobs: JobMap, calls: Calls, t: TxnId, all: set<JobId>, m: JobId)
    requires AllStaged(jobs, calls, t, all, all) && m in all && m in Members(jobs, t)
    ensures Completed(jobs[m].status)
  {
    assert Staged(jobs, calls, t, true, m);
  }

  lemma PendingTogether(jobs: JobMap, calls: Calls, aborting: set<TxnId>, id: JobId)
    requires JobsOk(jobs, calls) && Quiet(jobs, aborting) && id in jobs && jobs[id].status.Pending?
    ensures jobs[id].txn.Some?
    ensures forall m | m in Members(jobs, jobs[id].txn.value) ::
              jobs[m].status.Pending? && !Fails(jobs[m]) && StatusOk(jobs[m]) && jobs[m].txn == jobs[id].txn
    ensures Quiet(jobs - Members(jobs, jobs[id].txn.value), aborting)
  {
  }

  /** After a failed preparation the transaction can be aborted. */
  lemma PreparedReady(jobs: JobMap, calls: Calls, aborting: set<TxnId>, t: TxnId, id: JobId, f: JobId, ret: int)
    requires JobsOk(jobs, calls) && id in Members(jobs, t) && f in Members(jobs, t) && ret != 0
    requires forall m | m in Members(jobs, t) :: jobs[m].status.Pending? && !Fails(jobs[m])
    ensures var jobs' := jobs[f := PreparedJob(jobs[f], ret)];
            && JobsOk(jobs', calls) && Members(jobs', t) == Members(jobs, t) && Drainable(jobs', t, id)
            && Leaving(jobs'[id], t, !Fails(jobs'[id])) && (Fails(jobs'[id]) <==> id == f)
  {
  }

  /** Which members leave does not depend on what one of them looked like. */
  lemma GoneAnyway(jobs: JobMap, calls: Calls, jobs': JobMap, calls': Calls, t: TxnId, f: JobId, j: Job)
    requires f in Members(jobs, t) && j.txn == Some(t)
    ensures Members(jobs[f := j], t) == Members(jobs, t) && jobs[f := j] - Members(jobs, t) == jobs - Members(jobs, t)
    ensures TxnGone(jobs[f := j], calls, jobs', calls', t) ==> TxnGone(jobs, calls, jobs', calls', t)
  {
    assert Members(jobs[f := j], t) == Members(jobs, t);
    assert jobs[f := j] - Members(jobs, t) == jobs - Members(jobs, t);
  }

  /** Once the members of a transaction have left it, everything is quiet if everybody else was. */
  lemma QuietGone(jobs: JobMap, calls: Calls, jobs': JobMap, calls': Calls, aborting: set<TxnId>, aborting': set<TxnId>,
                  t: TxnId)
    requires Quiet(jobs - Members(jobs, t), aborting) && TxnGone(jobs, calls, jobs', calls', t) && JobsOk(jobs', calls')
    requires aborting' <= aborting + {t}
    ensures Quiet(jobs', aborting')
  {
    var rest := jobs - Members(jobs, t);
    forall k | k in jobs'
      ensures (k in rest && jobs'[k] == rest[k] && jobs'[k].txn != Some(t)) ||
              (jobs'[k].txn.None? && (jobs'[k].status.Concluded? || jobs'[k].status.Null?))
    {
      if k !in Members(jobs, t) {
        assert k in jobs' - Members(jobs, t);
        assert k in rest && rest[k] == (jobs' - Members(jobs, t))[k];
      } else {
        assert JobOk(jobs'[k], calls'[k]);
      }
    }
    hide JobOk;
  }

  // ------------------------------------------------------------ completion

  function WithPending(jobs: JobMap, s: set<JobId>): JobMap {
    map m | m in jobs :: if m in s then jobs[m].(status := Pending) else jobs[m]
  }

  lemma PendingStep(jobs: JobMap, done: set<JobId>, m: JobId)
    requires m in jobs && m !in done
    ensures var cur := WithPending(jobs, done);
            m in cur && cur[m] == jobs[m] && cur[m := cur[m].(status := Pending)] == WithPending(jobs, done + {m})
  {
  }

  /** A job that returned 0 can wait for the others. */
  lemma WaitingOk(jobs: JobMap, calls: Calls, aborting: set<TxnId>, id: JobId)
    requires JobsOk(jobs, calls) && Quiet(jobs, aborting) && id in jobs && jobs[id].deferred && !Fails(jobs[id])
    requires jobs[id].status.Running? || jobs[id].status.Ready?
    ensures jobs[id].txn.Some?
    ensures var jobs' := jobs[id := jobs[id].(status := Waiting)];
            && JobsOk(jobs', calls) && Quiet(jobs', aborting)
            && Members(jobs', jobs[id].txn.value) == Members(jobs, jobs[id].txn.value)
            && forall m | m in Members(jobs', jobs[id].txn.value) && Completed(jobs'[m].status) ::
                 jobs'[m].ret == 0 && jobs'[m].status.Waiting?
  {
    var jobs' := jobs[id := jobs[id].(status := Waiting)];
    var t := jobs[id].txn.value;
    forall m | m in Members(jobs', t) && Completed(jobs'[m].status) ensures jobs'[m].ret == 0 && jobs'[m].status.Waiting? {
      assert JobOk(jobs[m], calls[m]);
      assert jobs[m].txn == jobs[id].txn;
    }
  }

  lemma LastIff(jobs: JobMap, t: TxnId, id: JobId)
    requires id in Members(jobs, t)
    ensures var jobs' := jobs[id := jobs[id].(status := Waiting)];
            (forall m | m in Members(jobs', t) :: Completed(jobs'[m].status)) <==>
            forall m | m in Members(jobs, t) && m != id :: Completed(jobs[m].status)
  {
    assert Members(jobs[id := jobs[id].(status := Waiting)], t) == Members(jobs, t);
  }

  lemma ForwardWait(jobs: JobMap, calls: Calls, id: JobId)
    requires id in jobs
    ensures Forward(jobs, calls, jobs[id := jobs[id].(status := Waiting)], calls)
  {
  }

  lemma PendingOk(jobs: JobMap, calls: Calls, aborting: set<TxnId>, t: TxnId, id: JobId)
    requires JobsOk(jobs, calls) && Quiet(jobs, aborting) && id in Members(jobs, t)
    requires forall m | m in Members(jobs, t) :: jobs[m].status.Waiting?
    ensures var jobs' := WithPending(jobs, Members(jobs, t));
            JobsOk(jobs', calls) && Quiet(jobs', aborting) && Members(jobs', t) == Members(jobs, t) && jobs'[id].status.Pending?
  {
  }

  lemma ForwardPending(jobs: JobMap, calls: Calls, t: TxnId)
    ensures Forward(jobs, calls, WithPending(jobs, Members(jobs, t)), calls)
  {
  }

  lemma PendingOutcome(jobs: JobMap, calls: Calls, jobs': JobMap, calls': Calls, t: TxnId, id: JobId, drv: Drivers)
    requires GroupOutcome(WithPending(jobs, Members(jobs, t)), calls, jobs', calls', t, id, drv)
    ensures GroupOutcome(jobs, calls, jobs', calls', t, id, drv)
  {
    assert Members(WithPending(jobs, Members(jobs, t)), t) == Members(jobs, t);
    assert WithPending(jobs, Members(jobs, t)) - Members(jobs, t) == jobs - Members(jobs, t);
  }

  lemma GroupDoneWait(jobs: JobMap, calls: Calls, jobs': JobMap, calls': Calls, t: TxnId, id: JobId, drv: Drivers)
    requires JobsOk(jobs, calls) && JobsOk(jobs', calls') && id in Members(jobs, t)
    requires GroupDone(jobs[id := jobs[id].(status := Waiting)], calls, jobs', calls', t, id, drv)
    ensures GroupDone(jobs, calls, jobs', calls', t, id, drv) && Forward(jobs, calls, jobs', calls')
  {
    hide JobsOk, Forward, GroupOutcome;
    var w := jobs[id := jobs[id].(status := Waiting)];
    SameGroup(jobs, t, id);
    if exists m :: m in Members(w, t) && !w[m].autoFinalize {
      ForwardPending(jobs, calls, t);
    } else {
      WaitOutcome(jobs, calls, jobs', calls', t, id, drv);
    }
  }

  lemma SameGroup(jobs: JobMap, t: TxnId, id: JobId)
    requires id in Members(jobs, t)
    ensures var w := jobs[id := jobs[id].(status := Waiting)];
            && Members(w, t) == Members(jobs, t) && w - Members(jobs, t) == jobs - Members(jobs, t)
            && WithPending(w, Members(w, t)) == WithPending(jobs, Members(jobs, t))
            && ((exists m :: m in Members(w, t) && !w[m].autoFinalize) <==>
                (exists m :: m in Members(jobs, t) && !jobs[m].autoFinalize))
  {
    var w := jobs[id := jobs[id].(status := Waiting)];
    assert Members(w, t) == Members(jobs, t);
    assert forall m | m in jobs :: w[m].autoFinalize == jobs[m].autoFinalize;
    assert forall m | m in jobs :: w[m].(status := Pending) == jobs[m].(status := Pending);
  }

  lemma WaitOutcome(jobs: JobMap, calls: Calls, jobs': JobMap, calls': Calls, t: TxnId, id: JobId, drv: Drivers)
    requires JobsOk(jobs, calls) && JobsOk(jobs', calls') && id in Members(jobs, t)
    requires GroupOutcome(jobs[id := jobs[id].(status := Waiting)], calls, jobs', calls', t, id, drv)
    ensures GroupOutcome(jobs, calls, jobs', calls', t, id, drv) && Forward(jobs, calls, jobs', calls')
  {
    hide JobsOk, Forward, FirstFailing;
    SameGroup(jobs, t, id);
    assert TxnGone(jobs, calls, jobs', calls', t);
    ForwardGone(jobs, calls, jobs', calls', t);
  }

  lemma MembersNoCalls(jobs: JobMap, calls: Calls, t: TxnId)
    requires JobsOk(jobs, calls)
    ensures forall m | m in Members(jobs, t) :: m in calls && calls[m] == []
  {
    forall m | m in Members(jobs, t) ensures m in calls && calls[m] == [] {
      assert JobOk(jobs[m], calls[m]);
    }
  }

  /** A transaction that goes takes its members forward and leaves everybody else. */
  lemma ForwardGone(jobs: JobMap, calls: Calls, jobs': JobMap, calls': Calls, t: TxnId)
    requires JobsOk(jobs, calls) && JobsOk(jobs', calls') && TxnGone(jobs, calls, jobs', calls', t)
    ensures Forward(jobs, calls, jobs', calls')
  {
    var all := Members(jobs, t);
    forall k | k in jobs' ensures if k in all then jobs'[k].status.Concluded? || jobs'[k].status.Null?
                                  else k in jobs && jobs'[k] == jobs[k] {
      if k in all {
        assert JobOk(jobs'[k], calls'[k]);
      } else {
        assert k in jobs' - all && (jobs' - all)[k] == (jobs - all)[k];
      }
    }
    MembersNoCalls(jobs, calls, t);
    forall k | k in calls && calls[k] != [] ensures k in calls' && calls'[k] == calls[k] {
      assert k !in all;
      assert k in calls - all && (calls' - all)[k] == (calls - all)[k];
    }
  }

  // --------------------------------------------------- completion, cancel

  /** The coroutine has returned and job_exit is yet to run. */
  predicate Returned(j: Job) {
    (j.status.Running? || j.status.Ready?) && j.deferred && j.txn.Some?
  }

  ghost predicate AllAborted(jobs: JobMap, calls: Calls, jobs': JobMap, calls': Calls, t: TxnId) {
    && TxnGone(jobs, calls, jobs', calls', t)
    && forall m | m in Members(jobs, t) :: m in calls' && calls'[m] == ABORTED
  }

  /** What job_completed_locked does: a failure aborts the whole group; the last success takes the group further; any
      other job waits. */
  ghost predicate CompletionOutcome(jobs: JobMap, calls: Calls, jobs': JobMap, calls': Calls, id: JobId, drv: Drivers)
    requires id in jobs && jobs[id].txn.Some?
  {
    var t := jobs[id].txn.value;
    if Fails(jobs[id]) then AllAborted(jobs, calls, jobs', calls', t)
    else if forall m | m in Members(jobs, t) && m != id :: Completed(jobs[m].status) then
      GroupDone(jobs, calls, jobs', calls', t, id, drv)
    else calls' == calls && jobs' == jobs[id := jobs[id].(status := Waiting)]
  }

  /** A change of one job that keeps its transaction and does not take it to the end. */
  predicate SmallChange(j: Job, j': Job) {
    && j'.txn == j.txn && !j'.status.Aborting? && (j'.status.Pending? <==> j.status.Pending?)
    && (j'.status.Waiting? || j'.status.Pending? ==> !j'.forceCancel)
    && (Completed(j.status) ==> Completed(j'.status))
  }

  lemma UpdateValid(jobs: JobMap, calls: Calls, aborting: set<TxnId>, id: JobId, j: Job)
    requires JobsOk(jobs, calls) && Quiet(jobs, aborting) && id in jobs && JobOk(j, calls[id]) && SmallChange(jobs[id], j)
    ensures JobsOk(jobs[id := j], calls) && Quiet(jobs[id := j], aborting) && Forward(jobs, calls, jobs[id := j], calls)
  {
    hide JobOk;
  }

  lemma QuietRest(jobs: JobMap, aborting: set<TxnId>, s: set<JobId>)
    requires Quiet(jobs, aborting)
    ensures Quiet(jobs - s, aborting)
  {
  }

  lemma FailedLeaves(jobs: JobMap, calls: Calls, aborting: set<TxnId>, t: TxnId, id: JobId)
    requires JobsOk(jobs, calls) && Quiet(jobs, aborting) && id in jobs && jobs[id].txn == Some(t) && Fails(jobs[id])
    requires Returned(jobs[id]) || jobs[id].status.Created?
    requires Drainable(jobs, t, id)
    ensures JobSTT(jobs[id].status, Aborting) && UpdateRc(jobs[id]).txn == Some(t)
    ensures var jobs' := jobs[id := UpdateRc(jobs[id])];
            && JobsOk(jobs', calls) && Quiet(jobs' - Members(jobs', t), aborting) && Drainable(jobs', t, id)
            && Leaving(jobs'[id], t, false)
  {
    hide JobOk, UpdateRc, Quiet;
    FailedRc(jobs[id], calls[id], t);
    GoneAnyway(jobs, calls, jobs, calls, t, id, UpdateRc(jobs[id]));
    QuietRest(jobs, aborting, Members(jobs, t));
  }

  lemma FailedRc(j: Job, calls: seq<Call>, t: TxnId)
    requires JobOk(j, calls) && j.txn == Some(t) && Fails(j) && (Returned(j) || j.status.Created?)
    ensures JobSTT(j.status, Aborting) && JobOk(UpdateRc(j), calls) && Leaving(UpdateRc(j), t, false)
  {
  }

  lemma StatusFacts(j: Job, calls: seq<Call>)
    requires JobOk(j, calls)
    ensures j.txn.Some? <==> !j.status.Concluded? && !j.status.Null?
    ensures Completed(j.status) && !j.status.Aborting? ==> j.deferred
    ensures !j.started ==> j.status.Created? || j.status.Aborting? || j.status.Null?
    ensures j.started && j.deferred && !Completed(j.status) ==> Returned(j)
  {
  }

  lemma NotAborting(jobs: JobMap, aborting: set<TxnId>, id: JobId)
    requires Quiet(jobs, aborting) && id in jobs
    ensures !jobs[id].status.Aborting?
  {
  }

  lemma CancelledIs(j: Job, force: bool, calls: seq<Call>)
    requires JobOk(j, calls)
    ensures var c := CancelledJob(j, force);
            && JobOk(c, calls) && c.txn == j.txn && c.status == j.status && c.started == j.started && c.deferred == j.deferred
            && c.busy == j.busy
            && (c.forceCancel <==> j.forceCancel || force)
            && (c.forceCancel && j.started && j.txn.Some? ==> Leaving(c, j.txn.value, false))
  {
    CancelledOk(j, force, calls);
    hide JobOk;
  }

  lemma CancelPrep(jobs: JobMap, calls: Calls, aborting: set<TxnId>, t: TxnId, id: JobId, c: Job)
    requires JobsOk(jobs, calls) && Quiet(jobs, aborting) && id in Members(jobs, t)
    requires JobOk(c, calls[id]) && c.txn == Some(t) && c.status == jobs[id].status
    ensures var jobs' := jobs[id := c];
            && JobsOk(jobs', calls) && Quiet(jobs' - Members(jobs', t), aborting)
            && (Drainable(jobs, t, id) ==> Drainable(jobs', t, id))
            && ((jobs[id].status.Waiting? || jobs[id].status.Pending? ==> !c.forceCancel) ==>
                  Quiet(jobs', aborting) && Forward(jobs, calls, jobs', calls))
  {
    GoneAnyway(jobs, calls, jobs, calls, t, id, c);
    QuietRest(jobs, aborting, Members(jobs, t));
    if jobs[id].status.Waiting? || jobs[id].status.Pending? ==> !c.forceCancel {
      UpdateValid(jobs, calls, aborting, id, c);
    }
    hide JobOk, Quiet;
  }

  lemma AbortedAnyway(jobs: JobMap, calls: Calls, jobs': JobMap, calls': Calls, t: TxnId, id: JobId, c: Job)
    requires JobsOk(jobs, calls) && JobsOk(jobs', calls') && id in Members(jobs, t) && c.txn == Some(t)
    requires AllAborted(jobs[id := c], calls, jobs', calls', t)
    ensures AllAborted(jobs, calls, jobs', calls', t) && Forward(jobs, calls, jobs', calls')
  {
    hide JobsOk, TxnGone;
    GoneAnyway(jobs, calls, jobs', calls', t, id, c);
    ForwardGone(jobs, calls, jobs', calls', t);
  }

  lemma NotBusy(jobs: JobMap, calls: Calls, aborting: set<TxnId>, id: JobId)
    requires JobsOk(jobs, calls) && Quiet(jobs, aborting) && id in jobs && Returned(jobs[id])
    ensures var jobs' := jobs[id := jobs[id].(busy := false)];
            && JobsOk(jobs', calls) && Quiet(jobs', aborting)
            && (Drainable(jobs, jobs[id].txn.value, id) ==> Drainable(jobs', jobs[id].txn.value, id))
  {
    UpdateValid(jobs, calls, aborting, id, jobs[id].(busy := false));
    hide JobsOk, Quiet;
  }

  lemma ForwardBusy(jobs: JobMap, calls: Calls, jobs': JobMap, calls': Calls, id: JobId)
    requires id in jobs && Forward(jobs[id := jobs[id].(busy := false)], calls, jobs', calls')
    ensures Forward(jobs, calls, jobs', calls')
  {
  }

  lemma BusyValid(jobs: JobMap, calls: Calls, aborting: set<TxnId>, id: JobId, c: Job)
    requires JobsOk(jobs, calls) && Quiet(jobs, aborting) && id in jobs && JobOk(c, calls[id])
    requires c.txn == jobs[id].txn && c.status == jobs[id].status && !Completed(c.status)
    ensures var jobs' := jobs[id := c.(busy := true)];
            && jobs[id := c][id := c.(busy := true)] == jobs'
            && JobsOk(jobs', calls) && Quiet(jobs', aborting) && Forward(jobs, calls, jobs', calls)
  {
    BusyOk(jobs[id], c, calls[id]);
    UpdateValid(jobs, calls, aborting, id, c.(busy := true));
    assert jobs[id := c][id := c.(busy := true)] == jobs[id := c.(busy := true)];
  }

  lemma BusyOk(j: Job, c: Job, calls: seq<Call>)
    requires JobOk(c, calls) && c.txn == j.txn && c.status == j.status && !Completed(j.status)
    ensures JobOk(c.(busy := true), calls) && SmallChange(j, c.(busy := true))
  {
  }

  lemma DismissValid(jobs: JobMap, calls: Calls, aborting: set<TxnId>, id: JobId)
    requires JobsOk(jobs, calls) && Quiet(jobs, aborting) && id in jobs
    requires jobs[id].status.Concluded? || jobs[id].status.Created?
    ensures var jobs' := Put(jobs, id, Dismissed(jobs[id]));
            JobsOk(jobs', calls) && Quiet(jobs', aborting) && Forward(jobs, calls, jobs', calls)
  {
    hide JobOk, Dismissed;
    DismissedOk(jobs[id], calls[id]);
  }

  lemma DismissedOk(j: Job, calls: seq<Call>)
    requires JobOk(j, calls) && (j.status.Concluded? || j.status.Created?)
    ensures var d := Dismissed(j); d.status.Null? && d.txn.None? && (d.refs.count != 0 ==> JobOk(d, calls))
  {
  }

  lemma ForwardSelf(jobs: JobMap, calls: Calls)
    ensures Forward(jobs, calls, jobs, calls)
  {
  }

  lemma SecondUpdate(jobs: JobMap, id: JobId, a: Job, b: Job)
    ensures jobs[id := a][id := b] == jobs[id := b]
  {
  }

  lemma ForwardSame(jobs: JobMap, calls: Calls, id: JobId, p: Pauses, enter: bool)
    requires id in jobs
    ensures Forward(jobs, calls, jobs[id := Entered(jobs[id].(pauses := p), enter)], calls)
  {
  }

  lemma OutcomeForward(jobs: JobMap, calls: Calls, jobs': JobMap, calls': Calls, t: TxnId, id: JobId, drv: Drivers)
    requires JobsOk(jobs, calls) && JobsOk(jobs', calls') && GroupOutcome(jobs, calls, jobs', calls', t, id, drv)
    ensures Forward(jobs, calls, jobs', calls')
  {
    ForwardGone(jobs, calls, jobs', calls', t);
  }

  // ----------------------------------------------------- the life of a job

  function NewJob(t: TxnId, autoFinalize: bool, autoDismiss: bool): Job {
    Job(Created, 0, false, false, true, false, false, false, Some(t), Pauses(1, false, IoOk, 0), Refs(1, 0),
        autoFinalize, autoDismiss)
  }

  lemma NewJobOk(t: TxnId, autoFinalize: bool, autoDismiss: bool)
    ensures var j := NewJob(t, autoFinalize, autoDismiss); JobOk(j, []) && j.status.Created? && j.txn == Some(t)
  {
  }

  lemma CreatedOk(jobs: JobMap, calls: Calls, aborting: set<TxnId>, id: JobId, j: Job, t: TxnId)
    requires JobsOk(jobs, calls) && Quiet(jobs, aborting) && id !in calls
    requires JobOk(j, []) && j.status.Created? && j.txn == Some(t)
    ensures var jobs', calls' := jobs[id := j], calls[id := []];
            && JobsOk(jobs', calls') && Forward(jobs, calls, jobs', calls')
            && (Quiet(jobs', aborting) <==> t !in aborting && forall m | m in Members(jobs, t) :: !jobs[m].status.Pending?)
  {
    hide JobOk;
    assert id !in jobs;
    CreatedQuiet(jobs, aborting, id, j, t);
    hide Quiet, Members;
  }

  lemma CreatedQuiet(jobs: JobMap, aborting: set<TxnId>, id: JobId, j: Job, t: TxnId)
    requires Quiet(jobs, aborting) && id !in jobs && j.status.Created? && j.txn == Some(t)
    ensures Quiet(jobs[id := j], aborting) <==> t !in aborting && forall m | m in Members(jobs, t) :: !jobs[m].status.Pending?
  {
    var jobs' := jobs[id := j];
    assert id in jobs' && jobs'[id] == j;
    if Quiet(jobs', aborting) {
      forall m | m in Members(jobs, t) ensures !jobs[m].status.Pending? {
        assert m in jobs' && jobs'[m] == jobs[m] && jobs'[m].txn == jobs'[id].txn;
      }
    }
    if t !in aborting && forall m | m in Members(jobs, t) :: !jobs[m].status.Pending? {
      forall k | k in jobs && jobs[k].txn == Some(t) ensures !jobs[k].status.Pending? {
        assert k in Members(jobs, t);
      }
      hide Members;
    }
  }

  /** The drained section of a node begins or ends. */
  function Drained(p: Pauses, k: int): Pauses
    requires p.drains + k >= 0
  {
    p.(count := p.count + k, drains := p.drains + k)
  }

  /** job_enter_cond_locked */
  function Entered(j: Job, enter: bool): Job {
    if enter && j.started && !j.deferred && !j.busy then j.(busy := true) else j
  }

  lemma QuietForced(jobs: JobMap, aborting: set<TxnId>, id: JobId)
    requires Quiet(jobs, aborting) && id in jobs
    ensures jobs[id].status.Waiting? || jobs[id].status.Pending? ==> !jobs[id].forceCancel
  {
  }

  /** Paused for the user's eyes, unless it is already; the first error is the one that is reported. */
  function OnErrorPauses(p: Pauses, noSpace: bool): Pauses {
    var q := if p.user then p else p.(count := p.count + 1, user := true);
    if q.iostatus.IoOk? then q.(iostatus := if noSpace then IoNoSpace else IoFailed) else q
  }

  /** Nothing but the pause of the one job has changed. */
  predicate StoppedOnly(jobs: JobMap, jobs': JobMap, id: JobId, noSpace: bool)
    requires id in jobs
  {
    var j := jobs[id];
    jobs' == jobs[id := Entered(j.(pauses := OnErrorPauses(j.pauses, noSpace)), !j.pauses.user && !j.paused)]
  }

  lemma PausesOnError(j: Job, calls: seq<Call>, noSpace: bool)
    requires JobOk(j, calls)
    ensures var p := OnErrorPauses(j.pauses, noSpace);
            PausesOk(j.(pauses := p)) && p.user && !p.iostatus.IoOk? && p.count > 0
  {
  }

  function Released(j: Job): Job
    requires j.refs.held > 0
  {
    j.(refs := Refs(j.refs.count - 1, j.refs.held - 1))
  }

  lemma ReleasedOk(jobs: JobMap, calls: Calls, aborting: set<TxnId>, id: JobId)
    requires JobsOk(jobs, calls) && Quiet(jobs, aborting) && id in jobs && jobs[id].refs.held > 0
    ensures var j := Released(jobs[id]);
            && (j.refs.count == 0 <==> jobs[id].status.Null? && jobs[id].refs.held == 1)
            && (j.refs.count == 0 ==> jobs[id].txn.None?)
            && var jobs' := Put(jobs, id, j); JobsOk(jobs', calls) && Quiet(jobs', aborting)
  {
    hide Quiet;
    NotAborting(jobs, aborting, id);
    QuietForced(jobs, aborting, id);
    assert JobOk(jobs[id], calls[id]);
    if Released(jobs[id]).refs.count == 0 {
      QuietRest(jobs, aborting, {id});
    } else {
      UpdateValid(jobs, calls, aborting, id, Released(jobs[id]));
    }
  }

  /** BlockdevOnError and BlockErrorAction */
  datatype OnError = OnReport | OnIgnore | OnNoSpace | OnStop | OnAuto
  datatype Action = ActionReport | ActionIgnore | ActionStop

  // -------------------------------------- where the group is not atomic

  /** A group that `id` finalizes has one outcome for all exactly if nobody fails to prepare, or `id` is the first to fail,
      or there is nobody else. */
  lemma GroupAtomic(jobs: JobMap, calls: Calls, jobs': JobMap, calls': Calls, t: TxnId, id: JobId, drv: Drivers)
    requires GroupOutcome(jobs, calls, jobs', calls', t, id, drv) && id in Members(jobs, t)
    ensures (forall i, k | i in Members(jobs, t) && k in Members(jobs, t) :: calls'[i] == calls'[k]) <==>
              || (forall m | m in Members(jobs, t) :: drv.prepare(m) == 0)
              || FirstFailing(drv, Members(jobs, t), id)
              || Members(jobs, t) == {id}
  {
    var all := Members(jobs, t);
    assert COMMITTED[0] != ABORTED[0];
    if !(forall m | m in all :: drv.prepare(m) == 0) && !FirstFailing(drv, all, id) && all != {id} {
      var k :| k in all && k != id;
      assert calls'[k] == ABORTED && calls'[id] == COMMITTED;
    }
  }

  /** The driver has returned 0. */
  function RunJob(j: Job): Job {
    j.(status := Running, started := true, busy := true, paused := false, pauses := Pauses(0, false, IoOk, 0), deferred := true)
  }

  /** Two jobs of one transaction, started. */
  method StartedPair() returns (s: JobSystem)
    ensures fresh(s) && s.Valid() && s.calls == map[0 := [], 1 := []]
    ensures var j := RunJob(NewJob(0, false, false)).(deferred := false); s.jobs == map[0 := j, 1 := j]
  {
    s := new JobSystem();
    hide JobOk, Quiet, Forward;
    s.Create(0, 0, false, false);
    s.Create(1, 0, false, false);
    s.Start(0);
    s.Start(1);
  }

  /** Both have run to their end. */
  method ReturnedPair() returns (s: JobSystem)
    ensures fresh(s) && s.Valid() && s.calls == map[0 := [], 1 := []]
    ensures s.jobs == map[0 := RunJob(NewJob(0, false, false)), 1 := RunJob(NewJob(0, false, false))]
  {
    s := StartedPair();
    hide JobsOk, Quiet, Forward;
    s.RunReturns(0, 0);
    s.RunReturns(1, 0);
  }

  /** They wait to be finalized by hand. */
  method PendingPair(drv: Drivers) returns (s: JobSystem)
    requires CancelRule(drv)
    ensures fresh(s) && s.Valid() && Members(s.jobs, 0) == {0, 1} && s.jobs[0].status.Pending?
    ensures s.calls == map[0 := [], 1 := []]
  {
    s := ReturnedPair();
    hide JobsOk, Quiet, Forward, GroupOutcome, AllAborted;
    ghost var j := s.jobs[0 := s.jobs[0].(busy := false)];
    assert 1 in Members(j, 0) && !Completed(j[1].status);
    s.JobExit(0, drv);
    assert s.jobs == j[0 := j[0].(status := Waiting)];
    ghost var k := s.jobs[1 := s.jobs[1].(busy := false)];
    assert Members(k, 0) == {0, 1} && !k[0].autoFinalize;
    s.JobExit(1, drv);
    assert s.jobs == WithPending(k, {0, 1});
  }

  /** A run with a mixed outcome: the job that did not ask to be finalized fails to prepare and is aborted, the other one is
      committed. */
  method MixedOutcome() returns (s: JobSystem)
    ensures s.Valid() && 0 in s.calls && 1 in s.calls && s.calls[0] == COMMITTED && s.calls[1] == ABORTED
  {
    var drv := Drivers((m, j, force) => true, m => if m == 1 then -5 else 0);
    s := PendingPair(drv);
    assert drv.prepare(1) != 0 && !FirstFailing(drv, {0, 1}, 0);
    var ok := s.Finalize(0, drv);
  }

  /** What job_finalize_single_locked asserts of every member when a group that has prepared well is finalized. */
  ghost predicate FinalizeAsserts(jobs: JobMap, t: TxnId) {
    forall m | m in Members(jobs, t) :: Completed(jobs[m].status)
  }

  /** In a valid system the assertion holds for every job that can be finalized. */
  lemma FinalizeHolds(s: JobSystem, id: JobId)
    requires s.Valid() && id in s.jobs && VerbAllowed(VerbFinalize, s.jobs[id].status)
    ensures s.jobs[id].txn.Some? && FinalizeAsserts(s.jobs, s.jobs[id].txn.value)
  {
    PendingTogether(s.jobs, s.calls, s.aborting, id);
  }

  /** A run in which a job is created in a transaction that is pending: the others can be finalized, and then the assertion
      fails for the newcomer, which is the first of the list. */
  method LateMember(drv: Drivers) returns (s: JobSystem)
    requires CancelRule(drv)
    ensures !s.Valid() && Members(s.jobs, 0) == {0, 1, 2}
    ensures VerbAllowed(VerbFinalize, s.jobs[0].status) && !Completed(s.jobs[2].status) && !FinalizeAsserts(s.jobs, 0)
  {
    s := PendingPair(drv);
    MemberAdded(s.jobs, 0, 2, NewJob(0, true, true));
    hide JobsOk, Quiet, Forward, Members;
    assert 0 in Members(s.jobs, 0);
    s.Create(2, 0, true, true);
    assert 2 in Members(s.jobs, 0);
  }

  lemma MemberAdded(jobs: JobMap, t: TxnId, id: JobId, j: Job)
    requires j.txn == Some(t)
    ensures Members(jobs[id := j], t) == Members(jobs, t) + {id}
  {
  }

  // ------------------------------------- where the abort does not come to an end

  /** What goes on in the loop of job_completed_txn_abort_locked: while job_finish_sync_locked waits, jobs are entered and
      force-cancelled members come to their end; members that are completed are finalized. */
  datatype AbortStep = Enter(id: JobId) | End(id: JobId, ret: int, ready: bool) | Finish(id: JobId)

  ghost predicate AbortEnabled(jobs: JobMap, calls: Calls, t: TxnId, a: AbortStep) {
    && a.id in jobs
    && (!a.Enter? ==> a.id in calls && JobOk(jobs[a.id], calls[a.id]) && jobs[a.id].txn == Some(t))
    && (a.End? ==> jobs[a.id].started && jobs[a.id].forceCancel && !Completed(jobs[a.id].status))
    && (a.Finish? ==> Finalizable(jobs[a.id]))
  }

  ghost function JobsAfter(jobs: JobMap, calls: Calls, t: TxnId, a: AbortStep): JobMap
    requires AbortEnabled(jobs, calls, t, a)
  {
    match a
    case Enter(id) => jobs[id := Entered(jobs[id], true)]
    case End(id, ret, ready) => jobs[id := Ended(jobs[id], ret, ready)]
    case Finish(id) => Put(jobs, id, Finalized(jobs[id]))
  }

  ghost function CallsAfter(jobs: JobMap, calls: Calls, t: TxnId, a: AbortStep): Calls
    requires AbortEnabled(jobs, calls, t, a)
  {
    if a.Finish? then calls[a.id := if Fails(jobs[a.id]) then ABORTED else COMMITTED] else calls
  }

  /** `after` comes from `jobs` by the steps of `run`. */
  ghost predicate AbortRun(jobs: JobMap, calls: Calls, t: TxnId, run: seq<AbortStep>, after: JobMap)
    decreases |run|
  {
    if run == [] then after == jobs
    else
      && AbortEnabled(jobs, calls, t, run[0])
      && AbortRun(JobsAfter(jobs, calls, t, run[0]), CallsAfter(jobs, calls, t, run[0]), t, run[1..], after)
  }

  /** No step touches a job that has neither been started nor completed. */
  lemma {:induction false} UnstartedStays(jobs: JobMap, calls: Calls, t: TxnId, run: seq<AbortStep>, after: JobMap, u: JobId)
    requires AbortRun(jobs, calls, t, run, after) && u in jobs && !jobs[u].started && !Completed(jobs[u].status)
    ensures u in after && after[u] == jobs[u]
    decreases |run|
  {
    hide JobOk, Ended, Finalized;
    if run != [] {
      UnstartedStays(JobsAfter(jobs, calls, t, run[0]), CallsAfter(jobs, calls, t, run[0]), t, run[1..], after, u);
    }
  }

  /** The loop never ends: `u` stays on the list of the transaction, and the wait for it goes on for ever. */
  ghost predicate HangsOn(jobs: JobMap, calls: Calls, t: TxnId, u: JobId) {
    forall run, after: JobMap | AbortRun(jobs, calls, t, run, after) :: u in Members(after, t) && !Completed(after[u].status)
  }

  /** If another member has neither been started nor completed, job_completed_txn_abort_locked does not return. */
  lemma AbortHangs(jobs: JobMap, calls: Calls, t: TxnId, id: JobId) returns (u: JobId)
    requires !Drainable(jobs, t, id)
    ensures u in Members(jobs, t) && u != id && HangsOn(CancelledAll(jobs, Members(jobs, t) - {id}), calls, t, u)
  {
    u :| u in Members(jobs, t) && u != id && !jobs[u].started && !Completed(jobs[u].status);
    var cancelled := CancelledAll(jobs, Members(jobs, t) - {id});
    forall run, after: JobMap | AbortRun(cancelled, calls, t, run, after)
      ensures u in Members(after, t) && !Completed(after[u].status)
    {
      UnstartedStays(cancelled, calls, t, run, after, u);
    }
  }

  /** Two jobs of one transaction, neither of them started. */
  method CreatedPair() returns (s: JobSystem)
    ensures fresh(s) && s.Valid() && s.calls == map[0 := [], 1 := []]
    ensures var j := NewJob(0, true, true); s.jobs == map[0 := j, 1 := j]
  {
    s := new JobSystem();
    hide JobOk, Quiet, Forward;
    s.Create(0, 0, true, true);
    s.Create(1, 0, true, true);
  }

  lemma CancelledNew(t: TxnId, autoFinalize: bool, autoDismiss: bool)
    ensures var c := CancelledJob(NewJob(t, autoFinalize, autoDismiss), true);
            && JobSTT(c.status, Aborting) && JobOk(UpdateRc(c), []) && UpdateRc(c).status.Aborting? && UpdateRc(c).txn == Some(t)
  {
  }

  /** The first of the two is cancelled, as job_cancel_locked and job_completed_locked do it up to the abort. */
  method CancelledPair(drv: Drivers) returns (s: JobSystem)
    requires CancelRule(drv)
    ensures fresh(s) && JobsOk(s.jobs, s.calls) && Members(s.jobs, 0) == {0, 1} && s.jobs[0].status.Aborting?
    ensures s.jobs[1] == NewJob(0, true, true) && !Drainable(s.jobs, 0, 0)
  {
    s := CreatedPair();
    assert AbortsGroup(s.jobs, 0, true, drv);
    CancelledNew(0, true, true);
    hide Quiet, JobOk, CancelledJob, UpdateRc;
    s.CancelAsync(0, true, drv);
    s.jobs := s.jobs[0 := UpdateRc(s.jobs[0])];
    assert 1 in Members(s.jobs, 0) && !s.jobs[1].started && !Completed(s.jobs[1].status);
  }

  /** A run that comes to such an abort, up to the second loop: it does not end. */
  method HangingAbort(drv: Drivers) returns (s: JobSystem)
    requires CancelRule(drv)
    ensures Members(s.jobs, 0) == {0, 1} && s.jobs[0].status.Aborting? && s.jobs[1].forceCancel
    ensures HangsOn(s.jobs, s.calls, 0, 1)
  {
    s := CancelledPair(drv);
    hide JobsOk, HangsOn, Drainable;
    ghost var jobs := s.jobs;
    s.CancelOthers(0, 0, drv);
    ghost var u := AbortHangs(jobs, s.calls, 0, 0);
    assert u == 1;
  }
}
