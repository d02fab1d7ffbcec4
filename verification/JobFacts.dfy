/**
  What the operations on jobs (qemu/job.c, qemu/blockjob.c) come to, said field by
  field, and what follows for sequences of them.
 */
module JobFacts {
  import opened Wrappers
  import opened Jobs

  // ------------------------------------------------------------ the tables

  /** The columns of both tables. */
  const STATUSES := [Created, Running, Paused, Ready, Standby, Waiting, Pending, Aborting, Concluded, Null]

  /** Which status may follow which, row by row. */
  const TRANSITIONS := [
    "0100000101",   // Created
    "0011010100",   // Running
    "0100000000",   // Paused
    "0000110100",   // Ready
    "0001000000",   // Standby
    "0000001100",   // Waiting
    "0000000110",   // Pending
    "0000000110",   // Aborting
    "0000000001",   // Concluded
    "0000000000"    // Null
  ]

  const VERBS := [VerbCancel, VerbPause, VerbResume, VerbSetSpeed, VerbComplete, VerbFinalize, VerbDismiss, VerbChange]

  /** Which verb is allowed in which status. */
  const ALLOWED := [
    "1111111000",   // cancel
    "1111100000",   // pause
    "1111100000",   // resume
    "1111100000",   // set speed
    "0001100000",   // complete
    "0000001000",   // finalize
    "0000000010",   // dismiss
    "1111100000"    // change
  ]

  lemma TransitionTable(i: nat, j: nat)
    requires i < |STATUSES| && j < |STATUSES|
    ensures JobSTT(STATUSES[i], STATUSES[j]) <==> TRANSITIONS[i][j] == '1'
  {
  }

  lemma VerbTable(i: nat, j: nat)
    requires i < |VERBS| && j < |STATUSES|
    ensures VerbAllowed(VERBS[i], STATUSES[j]) <==> ALLOWED[i][j] == '1'
  {
  }

  /** The last five statuses are those of a completed job. */
  lemma CompletedTable(i: nat)
    requires i < |STATUSES|
    ensures Completed(STATUSES[i]) <==> i >= 5
  {
  }

  /** A soft cancel is turned down as such by mirrors that are ready or in standby, and by nobody else. */
  lemma SoftCancels(mirrors: set<JobId>, prepare: JobId -> int, m: JobId, j: Job, force: bool)
    ensures BlockJobs(mirrors, prepare).cancel(m, j, force) <==>
            force || m !in mirrors || (j.status != Ready && j.status != Standby)
  {
    assert BlockJobs(mirrors, prepare).cancel(m, j, force) ==
           if m in mirrors then MirrorCancel(j, force) else BackupCancel(j, force);
  }

  /** No status is missing from the table, and a job that is completed stays so by every step of it. */
  lemma TableCloses(a: Status, b: Status)
    ensures a in STATUSES
    ensures JobSTT(a, b) && Completed(a) ==> Completed(b)
    ensures JobSTT(a, b) && Completed(b) && !Completed(a) ==> b.Waiting? || b.Aborting? || (a.Created? && b.Null?)
    ensures !JobSTT(a, Created) && !JobSTT(Null, b)
  {
    assert STATUSES[0] == Created && STATUSES[1] == Running && STATUSES[2] == Paused && STATUSES[3] == Ready;
    assert STATUSES[4] == Standby && STATUSES[5] == Waiting && STATUSES[6] == Pending && STATUSES[7] == Aborting;
    assert STATUSES[8] == Concluded && STATUSES[9] == Null;
  }

  // ------------------------------------------------------------- one job

  /** A new job has not been started, is paused once, is not cancelled, and keeps the two flags apart. */
  lemma NewJobIs(t: TxnId, autoFinalize: bool, autoDismiss: bool)
    ensures var j := NewJob(t, autoFinalize, autoDismiss);
            && j.status == Created && j.ret == 0 && !j.cancelled && !j.forceCancel && j.paused && !j.busy && !j.started
            && !j.deferred && j.txn == Some(t) && j.pauses == Pauses(1, false, IoOk, 0) && j.refs == Refs(1, 0)
            && j.autoFinalize == autoFinalize && j.autoDismiss == autoDismiss
  {
  }

  /** What a cancel leaves of a job: cancelled if the job had not returned or the driver forced it, force-cancelled exactly by
      the driver's answer or an earlier one, no user pause any more, and nothing else changed. */
  lemma CancelMeans(j: Job, force: bool)
    ensures var k := CancelledJob(j, force);
            && (k.cancelled <==> j.cancelled || force || !j.deferred)
            && (k.forceCancel <==> j.forceCancel || force)
            && !k.pauses.user && k.pauses.count == j.pauses.count - (if j.pauses.user then 1 else 0)
            && k.pauses.iostatus == (if j.pauses.user then IoOk else j.pauses.iostatus) && k.pauses.drains == j.pauses.drains
            && k.status == j.status && k.ret == j.ret && k.paused == j.paused && k.busy == j.busy && k.started == j.started
            && k.deferred == j.deferred && k.txn == j.txn && k.refs == j.refs
            && k.autoFinalize == j.autoFinalize && k.autoDismiss == j.autoDismiss
  {
  }

  /** Entering wakes the coroutine of a job that has been started, has not returned and is not busy, and does nothing else. */
  lemma EnterMeans(j: Job, enter: bool)
    ensures Entered(j, enter).busy <==> j.busy || (enter && j.started && !j.deferred)
    ensures Entered(j, enter) == j.(busy := Entered(j, enter).busy)
  {
  }

  /** What a finalized job carries away: its own return value, or -ECANCELED if it was force-cancelled and had none. */
  lemma FinalMeans(j: Job)
    requires StatusOk(j) && Finalizable(j)
    ensures var f := Finalized(j);
            && f.ret == (if j.ret != 0 then j.ret else if j.forceCancel then -125 else 0)
            && f.status == (if j.autoDismiss || !j.started then Null else Concluded)
            && f.refs.count == j.refs.count - (if f.status.Null? then 1 else 0) && f.refs.held == j.refs.held
            && f.txn.None? && f.cancelled == j.cancelled && f.forceCancel == j.forceCancel && f.pauses == j.pauses
            && f.started == j.started && f.autoFinalize == j.autoFinalize && f.autoDismiss == j.autoDismiss
  {
    FinalizedIs(j);
  }

  /** A force-cancelled job that comes to its end has failed: with what it returned, or else with -ECANCELED. */
  lemma EndMeans(j: Job, r: int, ready: bool)
    requires StatusOk(j) && j.started && j.forceCancel && !Completed(j.status)
    ensures var e := Ended(j, r, ready);
            var ret := if j.deferred then j.ret else r;
            && e.status == Aborting && e.ret == (if ret != 0 then ret else -125) && e.deferred && !e.busy && !e.paused
            && e.txn == j.txn && e.cancelled && e.forceCancel && e.pauses == j.pauses && e.refs == j.refs
  {
  }

  /** Stopped by an error: paused for the user once, and the first error stays on record. */
  lemma ErrorMeans(p: Pauses, noSpace: bool)
    ensures var q := OnErrorPauses(p, noSpace);
            && q.user && q.count == p.count + (if p.user then 0 else 1) && q.drains == p.drains
            && q.iostatus == (if p.iostatus != IoOk then p.iostatus else if noSpace then IoNoSpace else IoFailed)
  {
  }

  /** The end of the user's pause takes the error status with it. */
  lemma ResumeMeans(p: Pauses)
    ensures Resumed(p) == Pauses(p.count - 1, false, IoOk, p.drains)
  {
  }

  lemma DrainMeans(p: Pauses)
    requires p.drains > 0
    ensures Drained(p, 1) == Pauses(p.count + 1, p.user, p.iostatus, p.drains + 1)
    ensures Drained(Drained(p, 1), -1) == p && Drained(Drained(p, -1), 1) == p
  {
  }

  /** Dismissing lets go of the job list's own reference. */
  lemma DismissMeans(j: Job)
    requires j.status.Concluded? || j.status.Created?
    ensures var d := Dismissed(j);
            && d.status == Null && d.txn.None? && d.deferred && !d.busy && !d.paused && d.ret == j.ret
            && d.refs == Refs(j.refs.count - 1, j.refs.held)
  {
  }

  /** A reference taken and released again is no change. */
  lemma RefMeans(j: Job)
    ensures Released(j.(refs := Refs(j.refs.count + 1, j.refs.held + 1))) == j
  {
  }

  // --------------------------------------------------------- sequences

  /** A soft cancel of a ready job, which its driver does not force, is on record: the job cannot be completed any more. */
  method SoftCancelStopsComplete(s: JobSystem, id: JobId, drv: Drivers) returns (ok: bool)
    requires s.Valid() && CancelRule(drv) && id in s.jobs && s.jobs[id].status.Ready? && !s.jobs[id].deferred
    requires !drv.cancel(id, s.jobs[id], false)
    modifies s
    ensures s.Valid() && !ok && id in s.jobs && s.jobs[id].cancelled && s.jobs[id].status.Ready?
    ensures s.jobs[id].forceCancel == old(s.jobs)[id].forceCancel
  {
    assert JobOk(s.jobs[id], s.calls[id]);
    CancelMeans(s.jobs[id], false);
    s.Cancel(id, false, drv);
    ok := s.Complete(id, true, true);
  }

  /** A drained section leaves the pauses as they were. */
  method DrainAndBack(s: JobSystem, id: JobId, timerPending: bool)
    requires s.Valid() && id in s.jobs
    modifies s
    ensures s.Valid() && id in s.jobs && s.jobs[id].pauses == old(s.jobs)[id].pauses
    ensures s.jobs[id].status == old(s.jobs)[id].status
  {
    s.DrainBegin(id);
    s.DrainEnd(id, timerPending);
  }

  lemma VerbsAgree(s: Status)
    ensures VerbAllowed(VerbPause, s) <==> VerbAllowed(VerbResume, s)
  {
  }

  /** A user pause and the resume after it leave the pauses as they were, for a job without an error on record. */
  method PauseAndBack(s: JobSystem, id: JobId, timerPending: bool) returns (ok: bool)
    requires s.Valid() && id in s.jobs && VerbAllowed(VerbPause, s.jobs[id].status) && !s.jobs[id].pauses.user
    modifies s
    ensures s.Valid() && ok && id in s.jobs && s.jobs[id].pauses == old(s.jobs)[id].pauses
    ensures s.jobs[id].status == old(s.jobs)[id].status
  {
    assert JobOk(s.jobs[id], s.calls[id]);
    hide JobsOk, JobOk, Quiet, Forward, VerbAllowed;
    VerbsAgree(s.jobs[id].status);
    ok := s.UserPause(id);
    ok := s.UserResume(id, timerPending);
  }
}
