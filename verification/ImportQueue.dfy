/** The lease-based import job queue: the job table and what each service call
    does to it in one atomic step. */
module ImportQueue {
  import opened Wrappers

  type JobId = nat
  type Time = int

  datatype Status = Queued | Processing | Retry | Completed | Failed | Cancelled

  datatype Job = Job(
    id: JobId, importId: nat, fileId: nat,
    status: Status, attempts: nat, maxAttempts: nat, checkpoint: nat, error: Option<string>,
    lockedBy: Option<nat>, lockedAt: Option<Time>,
    createdAt: Time, nextAttemptAt: Time, completedAt: Option<Time>)

  type Table = map<JobId, Job>

  datatype Config = Config(leaseMs: nat, staleMs: nat, maxJobAttempts: nat, retryBaseMs: nat)
  {
    /** How long a holder may be silent before its job is up for grabs. */
    function Expiry(): nat { if leaseMs >= staleMs then leaseMs else staleMs }
  }

  function Pow2(n: nat): (p: nat)
    ensures p >= 1
  {
    if n == 0 then 1 else 2 * Pow2(n - 1)
  }

  predicate Waiting(j: Job) { j.status.Queued? || j.status.Retry? }

  predicate Live(j: Job) { Waiting(j) || j.status.Processing? }

  predicate Claimable(c: Config, j: Job, now: Time)
  {
    || (Waiting(j) && j.nextAttemptAt <= now)
    || (j.status.Processing? && j.lockedAt.Some? && j.lockedAt.value < now - c.Expiry())
  }

  /** `id` is a claimable job with the smallest creation time. */
  predicate Oldest(c: Config, t: Table, now: Time, id: JobId)
  {
    && id in t && Claimable(c, t[id], now)
    && forall o :: o in t && Claimable(c, t[o], now) ==> t[id].createdAt <= t[o].createdAt
  }

  lemma {:induction false} OldestOf(t: Table, ids: set<JobId>) returns (id: JobId)
    requires ids != {} && ids <= t.Keys
    ensures id in ids && forall o :: o in ids ==> t[id].createdAt <= t[o].createdAt
  {
    id :| id in ids;
    if ids == {id} {
    } else {
      var other := OldestOf(t, ids - {id});
      if t[other].createdAt < t[id].createdAt {
        id := other;
      }
    }
  }

  lemma {:induction false} NewestOf(t: Table, ids: set<JobId>) returns (id: JobId)
    requires ids != {} && ids <= t.Keys
    ensures id in ids && forall o :: o in ids ==> t[o].createdAt <= t[id].createdAt
  {
    id :| id in ids;
    if ids == {id} {
    } else {
      var other := NewestOf(t, ids - {id});
      if t[id].createdAt < t[other].createdAt {
        id := other;
      }
    }
  }

  // ---------------------------------------------------- the effect of each call

  function NewJob(c: Config, id: JobId, importId: nat, fileId: nat, now: Time): Job
  {
    Job(id, importId, fileId, Queued, 0, c.maxJobAttempts, 0, None, None, None, now, now, None)
  }

  function ClaimedBy(j: Job, worker: nat, now: Time): Job
  {
    j.(status := Processing, lockedBy := Some(worker), lockedAt := Some(now), attempts := j.attempts + 1, error := None)
  }

  function Delay(c: Config, attempts: nat): nat
  {
    c.retryBaseMs * Pow2(if attempts == 0 then 0 else attempts - 1)
  }

  /** A failure reported with the holder's own copy of the job. */
  function FailedAs(c: Config, current: Job, held: Job, message: string, now: Time): Job
  {
    if current.status.Cancelled? then current else
      var retry := held.attempts < held.maxAttempts;
      current.(status := if retry then Retry else Failed, error := Some(message), lockedAt := None, lockedBy := None,
               nextAttemptAt := now + Delay(c, held.attempts), completedAt := if retry then None else Some(now))
  }

  datatype Call =
    | Enqueue(id: JobId, importId: nat, fileId: nat)
    | Claim(worker: nat, id: JobId)
    | Checkpoint(id: JobId, checkpoint: nat)
    | Complete(held: Job)
    | Fail(held: Job, message: string)
    | FailPermanent(held: Job, message: string)
    | RequeueRecovered(held: Job)
    | Cancel(importId: nat)
    | ManualRetry(id: JobId)

  /** One row after a call made at `now`; rows the call does not address stay. */
  function Row(c: Config, j: Job, call: Call, now: Time): Job
  {
    match call
    case Enqueue(_, _, _) => j
    case Claim(worker, id) => if id == j.id then ClaimedBy(j, worker, now) else j
    case Checkpoint(id, checkpoint) => if id == j.id then j.(checkpoint := checkpoint, lockedAt := Some(now)) else j
    case Complete(held) =>
      if held.id == j.id then j.(status := Completed, completedAt := Some(now), lockedAt := None, lockedBy := None, error := None) else j
    case Fail(held, message) => if held.id == j.id then FailedAs(c, j, held, message, now) else j
    case FailPermanent(held, message) =>
      if held.id == j.id then j.(status := Failed, error := Some(message), lockedAt := None, lockedBy := None, completedAt := Some(now)) else j
    case RequeueRecovered(held) =>
      if held.id == j.id && Live(held) then
        j.(status := Queued, lockedAt := None, lockedBy := None, nextAttemptAt := now, completedAt := None)
      else j
    case Cancel(importId) =>
      if importId == j.importId && Live(j) then
        j.(status := Cancelled, completedAt := Some(now), lockedAt := None, lockedBy := None)
      else j
    case ManualRetry(id) =>
      if id == j.id then j.(status := Queued, attempts := 0, error := None, nextAttemptAt := now, completedAt := None) else j
  }

  ghost predicate Keyed(t: Table)
  {
    forall id :: id in t ==> t[id].id == id
  }

  function Next(c: Config, t: Table, call: Call, now: Time): Table
  {
    var rows := map id | id in t :: Row(c, t[id], call, now);
    if call.Enqueue? then rows[call.id := NewJob(c, call.id, call.importId, call.fileId, now)] else rows
  }

  /** A job that a claim may take: waiting and due, or in hand for too long without a
      heartbeat. */
  ghost predicate Due(c: Config, j: Job, now: Time)
  {
    || (j.status in {Queued, Retry} && j.nextAttemptAt <= now)
    || (j.status == Processing && j.lockedAt.Some? && now - j.lockedAt.value > c.leaseMs && now - j.lockedAt.value > c.staleMs)
  }

  ghost predicate OnlyChanged(t: Table, t': Table, id: JobId)
  {
    t'.Keys == t.Keys && forall o :: o in t && o != id ==> t'[o] == t[o]
  }

  // ------------------------------------------------------------- the service

  class Queue {
    const config: Config
    var jobs: Table

    constructor (config: Config)
      ensures this.config == config && jobs == map[]
    {
      this.config := config;
      jobs := map[];
    }

    /** `id` is the random identifier of the new job. */
    method EnqueueJob(id: JobId, importId: nat, fileId: nat, now: Time) returns (job: Job)
      requires Keyed(jobs) && id !in jobs
      modifies this`jobs
      ensures jobs == Next(config, old(jobs), Enqueue(id, importId, fileId), now) && Keyed(jobs)
      ensures jobs == old(jobs)[id := job]
      ensures job == Job(id, importId, fileId, Queued, 0, config.maxJobAttempts, 0, None, None, None, now, now, None)
    {
      job := Job(id, importId, fileId, Queued, 0, config.maxJobAttempts, 0, None, None, None, now, now, None);
      jobs := jobs[id := job];
    }

    /** Takes the oldest claimable job, if there is one. */
    method ClaimJob(worker: nat, now: Time) returns (job: Option<Job>)
      requires Keyed(jobs)
      modifies this`jobs
      ensures Keyed(jobs)
      ensures job.None? <==> forall id :: id in old(jobs) ==> !Claimable(config, old(jobs)[id], now)
      ensures job.None? ==> jobs == old(jobs)
      ensures job.Some? ==>
        && Oldest(config, old(jobs), now, job.value.id)
        && jobs == Next(config, old(jobs), Claim(worker, job.value.id), now)
        && job.value == jobs[job.value.id]
      ensures job.Some? ==> var was := old(jobs)[job.value.id];
        && jobs == old(jobs)[was.id := was.(status := Processing, lockedBy := Some(worker), lockedAt := Some(now),
                                            attempts := was.attempts + 1, error := None)]
        && forall o :: o in old(jobs) && Due(config, old(jobs)[o], now) ==> was.createdAt <= old(jobs)[o].createdAt
      ensures job.Some? <==> exists o :: o in old(jobs) && Due(config, old(jobs)[o], now)
    {
      var ids := set o | o in jobs && Claimable(config, jobs[o], now);
      if ids != {} {
        ghost var first := OldestOf(jobs, ids);
        assert Oldest(config, jobs, now, first);
        var id :| id in jobs && Oldest(config, jobs, now, id);
        var row := jobs[id];
        row := row.(status := Processing, lockedBy := Some(worker), lockedAt := Some(now), attempts := row.attempts + 1, error := None);
        jobs := jobs[id := row];
        job := Some(row);
      } else {
        assert forall id :: id in jobs && Claimable(config, jobs[id], now) ==> id in ids;
        job := None;
      }
    }

    method CheckpointJob(id: JobId, checkpoint: nat, now: Time)
      requires Keyed(jobs)
      modifies this`jobs
      ensures jobs == Next(config, old(jobs), Checkpoint(id, checkpoint), now) && Keyed(jobs)
      ensures OnlyChanged(old(jobs), jobs, id)
      ensures id in jobs ==> jobs[id] == old(jobs)[id].(checkpoint := checkpoint, lockedAt := Some(now))
    {
      if id in jobs {
        jobs := jobs[id := jobs[id].(checkpoint := checkpoint, lockedAt := Some(now))];
      }
    }

    method CompleteJob(held: Job, now: Time)
      requires Keyed(jobs)
      modifies this`jobs
      ensures jobs == Next(config, old(jobs), Complete(held), now) && Keyed(jobs)
      ensures OnlyChanged(old(jobs), jobs, held.id)
      ensures held.id in jobs ==> jobs[held.id] == old(jobs)[held.id].(
        status := Completed, completedAt := Some(now), lockedAt := None, lockedBy := None, error := None)
    {
      if held.id in jobs {
        jobs := jobs[held.id := jobs[held.id].(status := Completed, completedAt := Some(now), lockedAt := None, lockedBy := None, error := None)];
      }
    }

    method FailJob(held: Job, message: string, now: Time)
      requires Keyed(jobs)
      modifies this`jobs
      ensures jobs == Next(config, old(jobs), Fail(held, message), now) && Keyed(jobs)
      ensures OnlyChanged(old(jobs), jobs, held.id)
      ensures held.id in jobs && old(jobs)[held.id].status == Cancelled ==> jobs == old(jobs)
      ensures held.id in jobs && old(jobs)[held.id].status != Cancelled && held.attempts >= held.maxAttempts ==>
        var due := if held.attempts == 0 then now + config.retryBaseMs else now + config.retryBaseMs * Pow2(held.attempts - 1);
        jobs[held.id] == old(jobs)[held.id].(status := Failed, error := Some(message), lockedAt := None, lockedBy := None,
                                             nextAttemptAt := due, completedAt := Some(now))
      ensures held.id in jobs && old(jobs)[held.id].status != Cancelled && held.attempts < held.maxAttempts ==>
        var due := if held.attempts == 0 then now + config.retryBaseMs else now + config.retryBaseMs * Pow2(held.attempts - 1);
        jobs[held.id] == old(jobs)[held.id].(status := Retry, error := Some(message), lockedAt := None, lockedBy := None,
                                             nextAttemptAt := due, completedAt := None)
    {
      if held.id in jobs {
        var current := jobs[held.id];
        if current.status.Cancelled? {
          return;
        }
        var retry := held.attempts < held.maxAttempts;
        var delay := config.retryBaseMs * Pow2(if held.attempts == 0 then 0 else held.attempts - 1);
        jobs := jobs[held.id := current.(
          status := if retry then Retry else Failed, error := Some(message), lockedAt := None, lockedBy := None,
          nextAttemptAt := now + delay, completedAt := if retry then None else Some(now))];
      }
    }

    method FailJobPermanently(held: Job, message: string, now: Time)
      requires Keyed(jobs)
      modifies this`jobs
      ensures jobs == Next(config, old(jobs), FailPermanent(held, message), now) && Keyed(jobs)
      ensures OnlyChanged(old(jobs), jobs, held.id)
      ensures held.id in jobs ==> jobs[held.id] == old(jobs)[held.id].(
        status := Failed, error := Some(message), lockedAt := None, lockedBy := None, completedAt := Some(now))
    {
      if held.id in jobs {
        jobs := jobs[held.id := jobs[held.id].(status := Failed, error := Some(message), lockedAt := None, lockedBy := None, completedAt := Some(now))];
      }
    }

    method RequeueRecoveredJob(held: Job, now: Time)
      requires Keyed(jobs)
      modifies this`jobs
      ensures jobs == Next(config, old(jobs), RequeueRecovered(held), now) && Keyed(jobs)
      ensures OnlyChanged(old(jobs), jobs, held.id)
      ensures held.id in jobs && held.status in {Queued, Retry, Processing} ==> jobs[held.id] == old(jobs)[held.id].(
        status := Queued, lockedAt := None, lockedBy := None, nextAttemptAt := now, completedAt := None)
      ensures held.status !in {Queued, Retry, Processing} ==> jobs == old(jobs)
    {
      if !Live(held) {
        return;
      }
      if held.id in jobs {
        jobs := jobs[held.id := jobs[held.id].(status := Queued, lockedAt := None, lockedBy := None, nextAttemptAt := now, completedAt := None)];
      }
    }

    method CancelImport(importId: nat, now: Time)
      requires Keyed(jobs)
      modifies this`jobs
      ensures jobs == Next(config, old(jobs), Cancel(importId), now) && Keyed(jobs)
      ensures jobs.Keys == old(jobs).Keys
      ensures forall id :: id in jobs ==> var was := old(jobs)[id];
        if was.importId == importId && was.status in {Queued, Retry, Processing} then
          jobs[id] == was.(status := Cancelled, completedAt := Some(now), lockedAt := None, lockedBy := None)
        else jobs[id] == was
    {
      jobs := map id | id in jobs ::
        if jobs[id].importId == importId && Live(jobs[id]) then
          jobs[id].(status := Cancelled, completedAt := Some(now), lockedAt := None, lockedBy := None)
        else jobs[id];
    }

    /** Retries the newest job of a file, or enqueues one if the file has none. */
    method RetryFile(importId: nat, fileId: nat, freshId: JobId, now: Time) returns (job: Job)
      requires Keyed(jobs) && freshId !in jobs
      modifies this`jobs
      ensures Keyed(jobs)
      ensures job.importId == importId && job.fileId == fileId && job.id in jobs && job == jobs[job.id]
      ensures jobs == old(jobs)[job.id := job]
      ensures job == if job.id in old(jobs) then
          old(jobs)[job.id].(status := Queued, attempts := 0, error := None, nextAttemptAt := now, completedAt := None)
        else Job(freshId, importId, fileId, Queued, 0, config.maxJobAttempts, 0, None, None, None, now, now, None)
      ensures jobs == Next(config, old(jobs), if job.id in old(jobs) then ManualRetry(job.id) else Enqueue(freshId, importId, fileId), now)
      ensures forall id :: id in old(jobs) && old(jobs)[id].importId == importId && old(jobs)[id].fileId == fileId ==>
        job.id in old(jobs) && old(jobs)[id].createdAt <= old(jobs)[job.id].createdAt
    {
      var ids := set id | id in jobs && jobs[id].importId == importId && jobs[id].fileId == fileId;
      if ids == {} {
        assert forall id :: id in jobs && jobs[id].importId == importId && jobs[id].fileId == fileId ==> id in ids;
        job := EnqueueJob(freshId, importId, fileId, now);
      } else {
        ghost var last := NewestOf(jobs, ids);
        var id :| id in ids && forall o :: o in ids ==> jobs[o].createdAt <= jobs[id].createdAt;
        job := jobs[id].(status := Queued, attempts := 0, error := None, nextAttemptAt := now, completedAt := None);
        jobs := jobs[id := job];
      }
    }
  }
}
