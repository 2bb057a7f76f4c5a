/** The read-only views over the tables: `get_status` (every job),
    `get_jobs` (jobs whose state equals the query) and `get_dlq` (every DLQ
    entry). A query returns rows in no promised order, so each is a set. */
module Listing {
  import opened Jobs

  /** The fields a job listing reports; the stored ceiling is not among them. */
  datatype JobView = JobView(id: JobId, command: string, state: string, attempts: nat, createdAt: int)

  datatype DlqView = DlqView(id: JobId, command: string, createdAt: int)

  function ViewOf(id: JobId, j: Job): JobView {
    JobView(id, j.command, j.state.Name(), j.attempts, j.createdAt)
  }

  /** `get_status`: one view per stored job, and nothing else. */
  function Status(jobs: map<JobId, Job>): (r: set<JobView>)
    ensures forall id | id in jobs :: ViewOf(id, jobs[id]) in r
    ensures forall v | v in r :: v.id in jobs && v == ViewOf(v.id, jobs[v.id])
  {
    set id | id in jobs :: ViewOf(id, jobs[id])
  }

  /** `get_jobs`: the views of the jobs whose state column equals the query.
      A JSON null query (what the command-line client sends when no state is
      given) renders as `IS NULL`, which selects no row because every row
      holds a state (the assumed `pending` default at insert). A body without the
      `status` key raises in the handler (status 500), which is not modelled.
      States are compared as exact strings. */
  function ListJobs(jobs: map<JobId, Job>, query: Option<string>): (r: set<JobView>)
    ensures forall v | v in r :: v in Status(jobs) && query == Some(v.state)
    ensures forall id | id in jobs && query == Some(jobs[id].state.Name()) :: ViewOf(id, jobs[id]) in r
  {
    match query
    case None => {}
    case Some(q) => set id | id in jobs && jobs[id].state.Name() == q :: ViewOf(id, jobs[id])
  }

  /** `get_dlq`: one view per DLQ entry, and nothing else. */
  function ListDlq(dlq: map<JobId, DlqEntry>): (r: set<DlqView>)
    ensures forall id | id in dlq :: DlqView(id, dlq[id].command, dlq[id].createdAt) in r
    ensures forall v | v in r :: v.id in dlq && v.command == dlq[v.id].command && v.createdAt == dlq[v.id].createdAt
  {
    set id | id in dlq :: DlqView(id, dlq[id].command, dlq[id].createdAt)
  }

  /** The four state listings split the full status listing: together they
      cover it, and no view appears under two states. */
  lemma ListingsPartitionStatus(jobs: map<JobId, Job>)
    ensures Status(jobs) == ListJobs(jobs, Some("pending")) + ListJobs(jobs, Some("processing"))
                          + ListJobs(jobs, Some("completed")) + ListJobs(jobs, Some("failed"))
    ensures forall s, t | s in {"pending", "processing", "completed", "failed"} && t in {"pending", "processing", "completed", "failed"} && s != t ::
              ListJobs(jobs, Some(s)) !! ListJobs(jobs, Some(t))
  {
    forall v | v in Status(jobs)
      ensures v in ListJobs(jobs, Some(v.state))
    {
    }
  }

  /** A query naming no state selects nothing. */
  lemma UnknownStateListsNothing(jobs: map<JobId, Job>, q: string)
    requires q !in {"pending", "processing", "completed", "failed"}
    ensures ListJobs(jobs, Some(q)) == {}
  {
    forall id | id in jobs ensures jobs[id].state.Name() != q {
    }
  }
}
