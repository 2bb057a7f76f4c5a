/** The records of the job queue: the two stored tables (jobs and the dead-letter
    queue), the in-memory descriptors held by the FIFO job queue, and the
    result codes the request handlers answer with. */
module Jobs {

  /** Jobs are identified by the integer id the client supplies. */
  type JobId = int

  datatype Option<T> = None | Some(value: T)

  /** The four values of the `state` column. */
  datatype JobState = Pending | Processing | Completed | Failed {
    /** The string stored in the `state` column. */
    function Name(): string {
      match this
      case Pending => "pending"
      case Processing => "processing"
      case Completed => "completed"
      case Failed => "failed"
    }
  }

  /** One row of the jobs table, without its key. `maxRetries` is the global
      ceiling captured when the row was inserted. */
  datatype Job = Job(command: string, state: JobState, attempts: nat, maxRetries: int, createdAt: int)

  /** One row of the DLQ table, without its key. */
  datatype DlqEntry = DlqEntry(command: string, createdAt: int)

  /** The dictionary put on the job queue and handed to a worker. */
  datatype Descriptor = Descriptor(id: JobId, command: string, maxRetries: int, attempts: nat)

  /** A row of the jobs table together with its key, as a query returns it. */
  datatype Row = Row(id: JobId, job: Job)

  /** How a request handler ends: a reply it builds itself, or an exception that
      escapes it (which the web framework answers with status 500). */
  datatype Response = Success | IdExists | NotFound | Crashed {
    function Status(): (code: int)
      ensures code == 200 <==> Success?
      ensures code == 404 <==> NotFound?
      ensures code == 500 <==> (IdExists? || Crashed?)
    {
      match this
      case Success => 200
      case IdExists => 500
      case NotFound => 404
      case Crashed => 500
    }
  }

  /** Python's `b ** e` for an integer base and a non-negative exponent. */
  function Pow(b: int, e: nat): int {
    if e == 0 then 1 else b * Pow(b, e - 1)
  }

  /** `UPDATE jobs SET state = s WHERE id = id`: no row matches an absent id. */
  function SetState(jobs: map<JobId, Job>, id: JobId, s: JobState): (r: map<JobId, Job>)
    ensures r.Keys == jobs.Keys
    ensures id in jobs ==> r[id] == jobs[id].(state := s)
    ensures forall k | k in jobs && k != id :: r[k] == jobs[k]
  {
    if id in jobs then jobs[id := jobs[id].(state := s)] else jobs
  }

  /** `UPDATE jobs SET attempts = a WHERE id = id`. */
  function SetAttempts(jobs: map<JobId, Job>, id: JobId, a: nat): (r: map<JobId, Job>)
    ensures r.Keys == jobs.Keys
    ensures id in jobs ==> r[id] == jobs[id].(attempts := a)
    ensures forall k | k in jobs && k != id :: r[k] == jobs[k]
  {
    if id in jobs then jobs[id := jobs[id].(attempts := a)] else jobs
  }
}
