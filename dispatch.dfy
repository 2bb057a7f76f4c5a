/** The claim step of `start_workers`: how many descriptors the initial batch
    takes from the queue head, and the `processing` marks it writes. */
module Dispatch {
  import opened Jobs

  /** `min(num_workers or 3, qsize)`, taken as a `range` bound (so a negative
      value claims nothing). */
  function BatchSize(numWorkers: int, queued: nat): (n: nat)
    ensures n <= queued
    ensures numWorkers == 0 ==> n == if queued < 3 then queued else 3
    ensures numWorkers > 0 ==> n == if queued < numWorkers then queued else numWorkers
    ensures numWorkers < 0 ==> n == 0
  {
    var workers := if numWorkers == 0 then 3 else numWorkers;
    var m := if workers < queued then workers else queued;
    if m < 0 then 0 else m
  }

  /** The ids of a batch of descriptors. */
  function Ids(batch: seq<Descriptor>): set<JobId> {
    set i | 0 <= i < |batch| :: batch[i].id
  }

  /** The table after marking each claimed job `processing`, in claim order. */
  function MarkProcessing(jobs: map<JobId, Job>, batch: seq<Descriptor>): (r: map<JobId, Job>)
    ensures r.Keys == jobs.Keys
    ensures forall id | id in jobs :: r[id] == jobs[id] || r[id] == jobs[id].(state := Processing)
  {
    if batch == [] then jobs
    else SetState(MarkProcessing(jobs, batch[..|batch| - 1]), batch[|batch| - 1].id, Processing)
  }

  /** Claiming changes only the state of the claimed jobs, to `processing`;
      every other field and every other job is left as it was. */
  lemma {:induction false} MarkProcessingEffect(jobs: map<JobId, Job>, batch: seq<Descriptor>)
    ensures var r := MarkProcessing(jobs, batch);
      && r.Keys == jobs.Keys
      && (forall id | id in jobs && id in Ids(batch) :: r[id] == jobs[id].(state := Processing))
      && (forall id | id in jobs && id !in Ids(batch) :: r[id] == jobs[id])
  {
    if batch != [] {
      var front := batch[..|batch| - 1];
      MarkProcessingEffect(jobs, front);
      assert Ids(batch) == Ids(front) + {batch[|batch| - 1].id} by {
        forall id | id in Ids(batch) ensures id in Ids(front) + {batch[|batch| - 1].id} {
          var i :| 0 <= i < |batch| && batch[i].id == id;
          if i < |batch| - 1 { assert front[i] == batch[i]; }
        }
        forall id | id in Ids(front) ensures id in Ids(batch) {
          var i :| 0 <= i < |front| && front[i].id == id;
          assert batch[i] == front[i];
        }
      }
    }
  }
}
