# QueueCTL job lifecycle, in Dafny

QueueCTL is a job-execution queue: clients submit shell commands with an id,
workers run them, failed runs are retried with exponential backoff, and jobs
that run out of retries are parked in a dead-letter queue (DLQ) from which an
operator can send them back.

This project models the job lifecycle of the server (`queuectl/server.py`) as
one sequential state machine, the class `QueueServer.Server`, whose state is

- `jobs`: the jobs table, a map from id to command, state, attempts, stored
  ceiling (`max_retries` at creation) and creation time;
- `dlq`: the DLQ table, a map from id to command and creation time;
- `queue`: the FIFO job queue of descriptors (id, command, ceiling, attempts);
- `maxRetries` and `baseTime`: the two global tunables (defaults 3 and 2).

Each request handler is one method, taken as one atomic step:

- `Start` is server startup: the stored tables, the default tunables, and the
  queue refilled by `Recovery.Recover` with the stored jobs whose state is
  `pending` or `processing`, in query order, their attempts and ceiling copied.
- `Enqueue` is `enqueue_job`. The descriptor (attempts 0, the current global
  ceiling) is queued before the insert, so a duplicate id answers 500 and
  leaves the stored row alone, but its descriptor stays queued. The handler
  sets only id, command and ceiling. The state `pending`, 0 attempts and the
  creation time come from column defaults, which are assumed because the
  schema is not part of this model.
- `RunJob` is `worker_function`, a `while` loop proved against the
  specification function `Retry.Retry`. The loop uses the global ceiling and
  base as read when the run starts, not the job's stored ceiling. It adds one
  attempt per command run and writes the count to the job's row. It returns on the first success, and
  after every failure it sleeps `base ** attempts`, also after the last
  failure. Command outcomes are an input sequence. The sleeps come out as a
  list of delays.
- `Claim` is the initial batch of `start_workers`: `min(num_workers or 3,
  queue size)` descriptors leave the queue head in FIFO order and their jobs
  become `processing`.
- `ApplyOutcome` applies one finished job's result. Success gives `completed`.
  Failure gives `failed` plus a DLQ entry with the same id, the run's command
  and the job's original creation time. A failure for a job with no row, or
  for an id that already has a DLQ entry, raises in the handler. The
  uncommitted writes are then rolled back.
- `Refill` is the refill branch: it dequeues without changing any state.
- `StartWorkers` is the whole `start_workers` handler. Completions come in a
  given order, not from real concurrency. A refilled job was submitted without
  the worker's `db` argument, so its completion raises and ends the handler.
- `DlqRetry` is `dlq_retry`: 404 with nothing changed for an unknown id;
  otherwise the entry goes, the job becomes `pending` with 0 attempts, and a
  descriptor with the current global ceiling is queued.
- `UpdateConfig` is `update_config`: a `max_retries` field wins over a
  `base_time` field, a zero value keeps the old setting, and any other integer
  is accepted.
- `Listing.Status`, `Listing.ListJobs` and `Listing.ListDlq` are `get_status`,
  `get_jobs` and `get_dlq`.

Every state-changing method keeps `Server.Valid()`: each queued descriptor
and each DLQ entry refers to a stored job. It is a preserved invariant only:
no method requires it, and no other contract depends on it.

The model keeps these behaviours of the code, which depart from what its
comments, routes and stored fields suggest:

- each job row stores its own `max_retries`, but the retry loop uses the
  global ceiling and base instead, so a job can end with more attempts than
  its stored ceiling (`Scenarios.GlobalCeilingOverridesStored`);
- the loop sleeps after the final failed attempt too;
- a duplicate enqueue answers 500 but still queues its descriptor, so the
  refused command can later run under the existing job's id
  (`Scenarios.DuplicateEnqueueStillQueues`);
- `update_config` does not reject unknown keys or non-positive values;
- a DLQ retry queues the current global ceiling, not the job's stored one;
- dispatch is one pass inside the start request, and refilled jobs never run.

`Scenarios` holds client methods that follow request sequences through the
contracts alone. One of them is the always-failing job: attempts 3, delays
`[2, 4, 8]`, `failed` with a DLQ entry. Another sends a failed job back to
`pending` from the DLQ.

## Model

| member | source | states |
|---|---|---|
| `Retry.RetryMatchesExpected` | queuectl/server.py:49-65 | the retry loop equals an independent closed form: success exactly when one of the budgeted runs succeeds, attempts = start + runs made, one delay per failed run |
| `Retry.AttemptsBound` | queuectl/server.py:51-52 | attempts never drop, grow by at most the budget `ceiling - start`, and end at most at max(start, ceiling) |
| `Retry.AtCeiling` | queuectl/server.py:51 | a job already at or above the ceiling returns False with no command run, no delay and attempts unchanged |
| `Retry.StopsAtFirstSuccess` | queuectl/server.py:51-57 | returns True iff some budgeted run succeeds; it stops at the first success; every earlier run failed; a failed run ends at start + budget |
| `Retry.ExactDelays` | queuectl/server.py:58-62 | one delay per failed run, the i-th equal to `base ** (start + i + 1)`, including after the final failure |
| `Retry.AlwaysFailing` | queuectl/server.py:51-65 | an always-failing job started at 0 fails with attempts = ceiling and delays base^1 .. base^ceiling |
| `Retry.SucceedsOnSecondAttempt` | queuectl/server.py:51-63 | failing once then succeeding returns True with attempts 2 and the single delay `base` |
| `Retry.Retry` | queuectl/server.py:51-63 | one pass of the loop per call: attempts never drop and stay within the ceiling once a run is made, a success needs at least one run, and there is one delay per failed run |
| `Retry.BackoffNeverShrinks` | queuectl/server.py:58-62 | with a base of at least 1 every delay of a run is at least 1 and the delays never shrink; with a base of at least 2 each delay is longer than the one before |
| `Recovery.Recover` | queuectl/server.py:71-75 | every pending or processing row is queued, and every queued descriptor comes from such a row, copying its id, command, stored ceiling and stored attempts unchanged (`Restore`) |
| `Recovery.RecoverKeepsOrder` | queuectl/server.py:72-75 | recovered descriptors keep the query order of their rows |
| `Recovery.RecoverCount` | queuectl/server.py:72-75 | the number of recovered descriptors equals the number of pending or processing rows, so completed and failed jobs add nothing |
| `Dispatch.BatchSize` | queuectl/server.py:101-104 | the initial batch is min(num_workers, queue size), 3 workers when num_workers is 0, none when it is negative |
| `Dispatch.MarkProcessing` | queuectl/server.py:104-109 | the marking loop keeps every job id, and each row either stays as it was or changes only its state, to processing |
| `Dispatch.MarkProcessingEffect` | queuectl/server.py:104-109 | claiming changes only the state of claimed jobs, to processing; no other field or job changes |
| `QueueServer.Server.Start` | queuectl/server.py:71-76 | startup holds the stored tables, tunables 3 and 2, and the recovered queue |
| `QueueServer.Server.Enqueue` | queuectl/server.py:80-95 | a descriptor with attempts 0 and the current ceiling is always appended; a new id is inserted as pending; a duplicate answers 500 with the jobs table unchanged |
| `QueueServer.Server.RunJob` | queuectl/server.py:49-65 | result, final attempts and delays are those of `Retry.Retry` on the tunables read when the run starts; the row's attempts equal the local count whenever a run was made; nothing else changes |
| `QueueServer.Server.Claim` | queuectl/server.py:99-109 | the batch is the queue's first BatchSize descriptors in FIFO order, the queue keeps the rest, and the jobs are marked processing |
| `QueueServer.Server.ApplyOutcome` | queuectl/server.py:114-131 | success gives completed (a no-op for a missing job); failure gives failed plus a DLQ entry with the same id and command and the job's created_at; on failure, a missing job or an existing DLQ entry raises and changes nothing |
| `QueueServer.Server.Finish` | queuectl/server.py:106-131 | one claimed job run by the worker function and then its outcome applied: if `Retry.Retry` succeeds the job ends completed and the DLQ is unchanged; if it fails the job ends failed with a DLQ entry holding its command and created_at, or the handler crashes when the row is missing or the id already has an entry; the jobs table is the run's attempts write followed by that one state update, and a crash leaves the tables as the run left them; no other row changes; queue and tunables unchanged |
| `QueueServer.Server.Refill` | queuectl/server.py:133-138 | dequeues the head, if any, with no table change |
| `QueueServer.Server.StartWorkers` | queuectl/server.py:99-141 | the handler only removes descriptors from the queue head (at least the initial batch), keeps the job ids and tunables, only adds DLQ ids, and keeps `Valid()` |
| `QueueServer.Server.DlqRetry` | queuectl/server.py:170-181 | unknown id: 404 and nothing changes; known id: entry removed, job pending with 0 attempts, descriptor with attempts 0 and the current ceiling appended |
| `QueueServer.ResetJob` | queuectl/server.py:175 | the retried job's row becomes pending with 0 attempts; no other row or field changes |
| `QueueServer.Server.UpdateConfig` | queuectl/server.py:151-159 | max_retries wins over base_time; a zero value keeps the old one; tables and queue unchanged; always success |
| `Listing.Status` | queuectl/server.py:185-188 | exactly one view per stored job, with its id, command, state, attempts and created_at |
| `Listing.ListJobs` | queuectl/server.py:192-197 | exactly the views of the jobs whose state name equals the query, compared as exact strings; a null query selects nothing |
| `Listing.ListDlq` | queuectl/server.py:163-166 | exactly one view per DLQ entry, with its id, command and created_at |
| `Listing.ListingsPartitionStatus` | queuectl/server.py:185-197 | the four state listings together give the status listing and do not overlap |
| `Listing.UnknownStateListsNothing` | queuectl/server.py:194-196 | with states compared as exact strings, a query equal to none of the four names lists nothing |
| `Jobs.SetState` | queuectl/server.py:108 | an `UPDATE … SET state WHERE id` changes only that row's state and is a no-op for an absent id; used for the updates at lines 108, 120, 124 and 175 |
| `Jobs.SetAttempts` | queuectl/server.py:54 | an `UPDATE … SET attempts WHERE id` changes only that row's attempts and is a no-op for an absent id; used at lines 54 and 175 |
| `Jobs.Response.Status` | queuectl/server.py:93-95 | 200 only for success, 404 only for not found, 500 for a duplicate id and for an escaping exception |

## Left out

- Flask routing, JSON bodies and CORS: each handler takes its request fields
  as parameters and answers with a `Response`. A request missing a field, or
  holding a field of the wrong type, is not modelled.
- SQLAlchemy sessions and commits: each handler is one atomic step on
  in-memory maps. The per-iteration attempts writes of the worker, which are
  committed together at its end, are applied as they happen.
- `updated_at`: the database maintains it, and the model has no such field.
  The listings report the other fields.
- `subprocess.run`: a foreign call, replaced by a sequence of outcomes.
  Executions past the end of the sequence count as failures.
- `time.sleep`: the delay is recorded instead. A negative `base_time` with an
  odd attempt count gives a negative delay, which raises in `time.sleep`.
  This is not modelled.
- The thread pool, `wait(..., FIRST_COMPLETED)`, `executor._max_workers`,
  `stop_workers` and `executor_reset`: their point is concurrency and thread
  lifecycle. Completions come one at a time from a given schedule.
- QueueServer.Server.RunJob: the source reads `max_retries` on every pass of
  the loop and `base_time` after every failure, so a config request that
  lands during a backoff sleep changes the remaining ceiling and later delays
  of a running job. The model reads both once, when the run starts, and
  cannot show this.
- Listing.ListJobs: the state filter is compared as an exact string. The
  database compares it by the column's collation, which may ignore case, so
  a query such as `PENDING` may list the pending jobs there. The schema is
  not part of this model.
- QueueServer.Server.StartWorkers: once the handler raises, the model drops
  the jobs still running, although their threads would still write their
  attempts. A schedule shorter than the in-flight set stops where the
  schedule ends. The contract states how the queue, keys and invariant
  evolve, not the final state of every job.
- Log lines, `queuectl/queuectl.py` (an HTTP client with no state) and
  `setup.py` (packaging).
