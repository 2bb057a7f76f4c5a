/** The server as one sequential state machine: the jobs and DLQ tables, the
    FIFO job queue and the two global tunables, with one method per request
    handler (each handler taken as one atomic step) and one for the worker
    function a handler runs. */
module QueueServer {
  import opened Jobs
  import Retry
  import Recovery
  import Dispatch

  /** A job the dispatcher is waiting on: one from the initial batch, or one
      submitted by the refill branch (which omits the worker's `db` argument,
      so the call fails before running anything). */
  datatype Slot = Claimed(job: Descriptor) | Refilled(job: Descriptor)

  /** One completion observed by the dispatcher: which in-flight job finished
      (an index taken modulo the number in flight) and the outcomes its command
      executions had. */
  datatype Completion = Completion(slot: nat, outcomes: seq<bool>)

  /** Marking a failed job's DLQ entry as retried: state `pending`, 0 attempts. */
  function ResetJob(jobs: map<JobId, Job>, id: JobId): (r: map<JobId, Job>)
    ensures r.Keys == jobs.Keys
    ensures id in jobs ==> r[id] == jobs[id].(state := Pending, attempts := 0)
    ensures forall k | k in jobs && k != id :: r[k] == jobs[k]
  {
    SetAttempts(SetState(jobs, id, Pending), id, 0)
  }

  class Server {
    var jobs: map<JobId, Job>
    var dlq: map<JobId, DlqEntry>
    var queue: seq<Descriptor>
    var maxRetries: int
    var baseTime: int

    /** Every queued descriptor and every DLQ entry refers to a stored job. */
    ghost predicate Valid()
      reads this
    {
      && (forall i | 0 <= i < |queue| :: queue[i].id in jobs)
      && dlq.Keys <= jobs.Keys
    }

    /** Server startup: the tables as stored, the default tunables, and the
        queue refilled with the stored jobs left pending or processing. */
    constructor Start(rows: seq<Row>, stored: map<JobId, DlqEntry>)
      requires forall i, j | 0 <= i < j < |rows| :: rows[i].id != rows[j].id
      ensures jobs.Keys == set i | 0 <= i < |rows| :: rows[i].id
      ensures forall i | 0 <= i < |rows| :: jobs[rows[i].id] == rows[i].job
      ensures dlq == stored
      ensures queue == Recovery.Recover(rows)
      ensures maxRetries == 3 && baseTime == 2
      ensures stored.Keys <= jobs.Keys ==> Valid()
    {
      jobs := map i | 0 <= i < |rows| :: rows[i].id := rows[i].job;
      dlq := stored;
      queue := Recovery.Recover(rows);
      maxRetries, baseTime := 3, 2;
      new;
      forall k | 0 <= k < |queue| ensures queue[k].id in jobs {
        assert queue[k] in Recovery.Recover(rows);
        var r :| r in rows && Recovery.Unfinished(r) && queue[k] == Recovery.Restore(r);
        var i :| 0 <= i < |rows| && rows[i] == r;
      }
    }

    /** `enqueue_job`: the descriptor is queued first; the insert then fails
        on an existing id, leaving that job's row as it was. The handler sets
        only id, command and ceiling; state `pending`, 0 attempts and the
        creation time `now` are the table's assumed column defaults. */
    method Enqueue(id: JobId, command: string, now: int) returns (res: Response)
      modifies this
      ensures queue == old(queue) + [Descriptor(id, command, old(maxRetries), 0)]
      ensures id in old(jobs) ==> res == IdExists && jobs == old(jobs)
      ensures id !in old(jobs) ==> res == Success && jobs == old(jobs)[id := Job(command, Pending, 0, old(maxRetries), now)]
      ensures dlq == old(dlq) && maxRetries == old(maxRetries) && baseTime == old(baseTime)
      ensures old(Valid()) ==> Valid()
    {
      queue := queue + [Descriptor(id, command, maxRetries, 0)];
      if id in jobs {
        return IdExists;
      }
      jobs := jobs[id := Job(command, Pending, 0, maxRetries, now)];
      res := Success;
    }

    /** `worker_function`: runs the retry loop against the global ceiling and
        base as they stand when the run starts, writing each new attempts count
        to the job's row. */
    method RunJob(job: Descriptor, outcomes: seq<bool>) returns (ok: bool, done: Descriptor, delays: seq<int>)
      modifies this
      ensures var r := Retry.Retry(job.attempts, old(maxRetries), old(baseTime), outcomes);
        && ok == r.ok && done == job.(attempts := r.attempts) && delays == r.delays
        && jobs == if r.attempts == job.attempts then old(jobs) else SetAttempts(old(jobs), job.id, r.attempts)
      ensures dlq == old(dlq) && queue == old(queue)
      ensures maxRetries == old(maxRetries) && baseTime == old(baseTime)
      ensures old(Valid()) ==> Valid()
    {
      ghost var whole := Retry.Retry(job.attempts, maxRetries, baseTime, outcomes);
      var a: nat := job.attempts;
      var rest := outcomes;
      delays := [];
      while a < maxRetries
        invariant job.attempts <= a
        invariant var r := Retry.Retry(a, maxRetries, baseTime, rest);
          whole.ok == r.ok && whole.attempts == r.attempts && whole.delays == delays + r.delays
        invariant jobs == if a == job.attempts then old(jobs) else SetAttempts(old(jobs), job.id, a)
        invariant dlq == old(dlq) && queue == old(queue)
        invariant maxRetries == old(maxRetries) && baseTime == old(baseTime)
        decreases maxRetries - a
      {
        ghost var step := Retry.Retry(a, maxRetries, baseTime, rest);
        a := a + 1;
        var succeeded := Retry.Succeeds(rest, 0);
        assert SetAttempts(jobs, job.id, a) == SetAttempts(old(jobs), job.id, a);
        jobs := SetAttempts(jobs, job.id, a);
        if succeeded {
          assert step == Retry.Run(true, a, []);
          assert delays + [] == delays;
          return true, job.(attempts := a), delays;
        }
        ghost var next := Retry.Retry(a, maxRetries, baseTime, Retry.Tail(rest));
        assert step == next.(delays := [Pow(baseTime, a)] + next.delays);
        assert delays + step.delays == (delays + [Pow(baseTime, a)]) + next.delays;
        delays := delays + [Pow(baseTime, a)];
        rest := Retry.Tail(rest);
      }
      ok, done := false, job.(attempts := a);
    }

    /** The initial batch of `start_workers`: take up to the worker count of
        descriptors from the queue head and mark each job `processing`. */
    method Claim(numWorkers: int) returns (batch: seq<Descriptor>)
      modifies this
      ensures var n := Dispatch.BatchSize(numWorkers, |old(queue)|);
        batch == old(queue)[..n] && queue == old(queue)[n..]
      ensures jobs == Dispatch.MarkProcessing(old(jobs), batch)
      ensures dlq == old(dlq) && maxRetries == old(maxRetries) && baseTime == old(baseTime)
      ensures old(Valid()) ==> Valid()
    {
      var n := Dispatch.BatchSize(numWorkers, |queue|);
      batch := [];
      for k := 0 to n
        invariant batch == old(queue)[..k] && queue == old(queue)[k..]
        invariant jobs == Dispatch.MarkProcessing(old(jobs), batch)
        invariant dlq == old(dlq) && maxRetries == old(maxRetries) && baseTime == old(baseTime)
      {
        var job := queue[0];
        queue := queue[1..];
        batch := batch + [job];
        assert batch[..|batch| - 1] == old(queue)[..k];
        jobs := SetState(jobs, job.id, Processing);
      }
      Dispatch.MarkProcessingEffect(old(jobs), batch);
    }

    /** Applying one finished job's result: `completed` on success; on failure
        `failed` plus a DLQ entry copying the job's command and creation time.
        Looking up a missing job or inserting a second DLQ entry for an id
        raises, and the uncommitted writes are rolled back. */
    method ApplyOutcome(job: Descriptor, success: bool) returns (res: Response)
      modifies this
      ensures success ==> res == Success && jobs == SetState(old(jobs), job.id, Completed) && dlq == old(dlq)
      ensures !success && (job.id !in old(jobs) || job.id in old(dlq)) ==>
        res == Crashed && jobs == old(jobs) && dlq == old(dlq)
      ensures !success && job.id in old(jobs) && job.id !in old(dlq) ==>
        && res == Success
        && jobs == SetState(old(jobs), job.id, Failed)
        && dlq == old(dlq)[job.id := DlqEntry(job.command, old(jobs)[job.id].createdAt)]
      ensures queue == old(queue) && maxRetries == old(maxRetries) && baseTime == old(baseTime)
      ensures old(Valid()) ==> Valid()
    {
      if success {
        jobs := SetState(jobs, job.id, Completed);
        return Success;
      }
      if job.id !in jobs || job.id in dlq {
        return Crashed;
      }
      dlq := dlq[job.id := DlqEntry(job.command, jobs[job.id].createdAt)];
      jobs := SetState(jobs, job.id, Failed);
      res := Success;
    }

    /** One claimed job from start to outcome: the worker function runs it,
        then its result is applied. A successful run leaves the job
        `completed`; a failed one leaves it `failed` with a DLQ entry, or
        crashes when the row is missing or the id already has an entry. No job
        row or DLQ entry is removed. */
    method Finish(job: Descriptor, outcomes: seq<bool>) returns (res: Response)
      modifies this
      ensures res == Success || res == Crashed
      ensures jobs.Keys == old(jobs).Keys && old(dlq).Keys <= dlq.Keys
      ensures res == Success && job.id in old(jobs) ==> jobs[job.id].state in {Completed, Failed}
      ensures var r := Retry.Retry(job.attempts, old(maxRetries), old(baseTime), outcomes);
        && (r.ok ==> res == Success && dlq == old(dlq) && (job.id in old(jobs) ==> jobs[job.id].state == Completed))
        && (!r.ok && job.id in old(jobs) && job.id !in old(dlq) ==>
              && res == Success
              && jobs[job.id].state == Failed
              && dlq == old(dlq)[job.id := DlqEntry(job.command, old(jobs)[job.id].createdAt)])
        && (!r.ok && (job.id !in old(jobs) || job.id in old(dlq)) ==> res == Crashed)
      ensures var r := Retry.Retry(job.attempts, old(maxRetries), old(baseTime), outcomes);
        var ran := if r.attempts == job.attempts then old(jobs) else SetAttempts(old(jobs), job.id, r.attempts);
        && (res == Crashed ==> jobs == ran && dlq == old(dlq))
        && (r.ok ==> jobs == SetState(ran, job.id, Completed))
        && (!r.ok && res == Success ==> jobs == SetState(ran, job.id, Failed))
      ensures queue == old(queue) && maxRetries == old(maxRetries) && baseTime == old(baseTime)
      ensures old(Valid()) ==> Valid()
    {
      var ok, done, delays := RunJob(job, outcomes);
      res := ApplyOutcome(done, ok);
    }

    /** The refill branch: take the queue head, if any, without marking it. */
    method Refill() returns (next: Option<Descriptor>)
      modifies this
      ensures old(queue) == [] ==> next == None && queue == []
      ensures old(queue) != [] ==> next == Some(old(queue)[0]) && queue == old(queue)[1..]
      ensures jobs == old(jobs) && dlq == old(dlq)
      ensures maxRetries == old(maxRetries) && baseTime == old(baseTime)
      ensures old(Valid()) ==> Valid()
    {
      if queue == [] {
        return None;
      }
      next := Some(queue[0]);
      queue := queue[1..];
    }

    /** `start_workers`: claim the initial batch, then handle completions in
        the given order; each claimed job runs the worker function and has its
        outcome applied, after which one more descriptor is taken from the
        queue. A refilled job's completion raises, as does a failed outcome
        write, and either ends the handler. */
    method StartWorkers(numWorkers: int, schedule: seq<Completion>) returns (res: Response)
      modifies this
      ensures res == Success || res == Crashed
      ensures |queue| + Dispatch.BatchSize(numWorkers, |old(queue)|) <= |old(queue)|
      ensures queue == old(queue)[|old(queue)| - |queue|..]
      ensures jobs.Keys == old(jobs).Keys && old(dlq).Keys <= dlq.Keys
      ensures maxRetries == old(maxRetries) && baseTime == old(baseTime)
      ensures old(Valid()) ==> Valid()
    {
      ghost var q0 := queue;
      var batch := Claim(numWorkers);
      var inflight := seq(|batch|, k requires 0 <= k < |batch| => Claimed(batch[k]));
      var i := 0;
      while i < |schedule| && inflight != []
        invariant |queue| + Dispatch.BatchSize(numWorkers, |q0|) <= |q0|
        invariant queue == q0[|q0| - |queue|..]
        invariant jobs.Keys == old(jobs).Keys && old(dlq).Keys <= dlq.Keys
        invariant maxRetries == old(maxRetries) && baseTime == old(baseTime)
        invariant old(Valid()) ==> Valid()
        decreases |schedule| - i
      {
        var c := schedule[i];
        i := i + 1;
        var k := c.slot % |inflight|;
        var slot := inflight[k];
        inflight := inflight[..k] + inflight[k + 1..];
        if slot.Refilled? {
          return Crashed;
        }
        var applied := Finish(slot.job, c.outcomes);
        if applied == Crashed {
          return Crashed;
        }
        var next := Refill();
        if next.Some? {
          inflight := inflight + [Refilled(next.value)];
        }
      }
      res := Success;
    }

    /** `dlq_retry`: an unknown id answers 404 and changes nothing; a known one
        loses its DLQ entry, its job goes back to `pending` with 0 attempts, and
        a fresh descriptor with the current global ceiling is queued. */
    method DlqRetry(id: JobId) returns (res: Response)
      modifies this
      ensures id !in old(dlq) ==> res == NotFound && jobs == old(jobs) && dlq == old(dlq) && queue == old(queue)
      ensures id in old(dlq) ==>
        && res == Success
        && dlq == old(dlq) - {id}
        && jobs == ResetJob(old(jobs), id)
        && queue == old(queue) + [Descriptor(id, old(dlq)[id].command, old(maxRetries), 0)]
      ensures maxRetries == old(maxRetries) && baseTime == old(baseTime)
      ensures old(Valid()) ==> Valid()
    {
      if id !in dlq {
        return NotFound;
      }
      var entry := dlq[id];
      jobs := ResetJob(jobs, id);
      dlq := dlq - {id};
      queue := queue + [Descriptor(id, entry.command, maxRetries, 0)];
      res := Success;
    }

    /** `update_config`: a `max_retries` field wins over a `base_time` field;
        a zero value keeps the old setting; the reply is always success. */
    method UpdateConfig(maxRetriesField: Option<int>, baseTimeField: Option<int>) returns (res: Response)
      modifies this
      ensures res == Success
      ensures maxRetriesField.Some? ==>
        && maxRetries == (if maxRetriesField.value == 0 then old(maxRetries) else maxRetriesField.value)
        && baseTime == old(baseTime)
      ensures maxRetriesField.None? && baseTimeField.Some? ==>
        && baseTime == (if baseTimeField.value == 0 then old(baseTime) else baseTimeField.value)
        && maxRetries == old(maxRetries)
      ensures maxRetriesField.None? && baseTimeField.None? ==>
        maxRetries == old(maxRetries) && baseTime == old(baseTime)
      ensures jobs == old(jobs) && dlq == old(dlq) && queue == old(queue)
    {
      res := Success;
      match maxRetriesField
      case Some(v) =>
        if v != 0 { maxRetries := v; }
      case None =>
        match baseTimeField
        case Some(v) =>
          if v != 0 { baseTime := v; }
        case None =>
    }
  }
}
