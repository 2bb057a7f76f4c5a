/** Clients of the server model: request sequences whose outcome follows from
    the handlers' contracts alone. */
module Scenarios {
  import opened Jobs
  import Retry
  import Dispatch
  import opened QueueServer

  /** A job whose command always fails, under the default tunables: three
      attempts, a sleep after each of them (including the last), and the job
      marked failed with a DLQ entry. */
  method AlwaysFailingJobGoesToDlq() {
    var s := new Server.Start([], map[]);
    var r := s.Enqueue(7, "false", 100);
    assert r == Success && s.queue == [Descriptor(7, "false", 3, 0)];

    var batch := s.Claim(0);
    assert batch == [Descriptor(7, "false", 3, 0)] && s.queue == [];
    Dispatch.MarkProcessingEffect(map[7 := Job("false", Pending, 0, 3, 100)], batch);
    assert 7 in Dispatch.Ids(batch);
    assert s.jobs == map[7 := Job("false", Processing, 0, 3, 100)];

    var ok, done, delays := s.RunJob(batch[0], []);
    Retry.AlwaysFailing(3, 2, []);
    assert delays == [Pow(2, 1), Pow(2, 2), Pow(2, 3)];
    assert !ok && done == Descriptor(7, "false", 3, 3) && delays == [2, 4, 8];
    assert s.jobs == map[7 := Job("false", Processing, 3, 3, 100)];

    var applied := s.ApplyOutcome(done, ok);
    assert applied == Success;
    assert s.jobs == map[7 := Job("false", Failed, 3, 3, 100)];
    assert s.dlq == map[7 := DlqEntry("false", 100)];
  }

  /** After a restart, a failed job with its DLQ entry is not recovered; a DLQ
      retry puts it back on the queue, and a second retry of the same id
      finds nothing. */
  method DlqRetryPutsFailedJobBack() {
    var rows := [Row(7, Job("false", Failed, 3, 3, 100))];
    var s := new Server.Start(rows, map[7 := DlqEntry("false", 100)]);
    assert s.queue == [];
    assert s.jobs == map[7 := Job("false", Failed, 3, 3, 100)];

    var back := s.DlqRetry(7);
    assert back == Success && s.dlq == map[];
    assert s.jobs == map[7 := Job("false", Pending, 0, 3, 100)];
    assert s.queue == [Descriptor(7, "false", 3, 0)];

    var missing := s.DlqRetry(7);
    assert missing.Status() == 404 && s.queue == [Descriptor(7, "false", 3, 0)];
  }

  /** A duplicate id is refused with status 500 and the stored row keeps its
      command, but the second command has already been queued under that id. */
  method DuplicateEnqueueStillQueues() {
    var s := new Server.Start([], map[]);
    var first := s.Enqueue(1, "echo a", 0);
    var second := s.Enqueue(1, "echo b", 5);
    assert first.Status() == 200 && second.Status() == 500;
    assert s.jobs == map[1 := Job("echo a", Pending, 0, 3, 0)];
    assert s.queue == [Descriptor(1, "echo a", 3, 0), Descriptor(1, "echo b", 3, 0)];
  }

  /** Raising the global ceiling after a job was created lets the running
      loop go past the ceiling stored with the job. */
  method GlobalCeilingOverridesStored() {
    var s := new Server.Start([], map[]);
    var r := s.Enqueue(2, "false", 0);
    var c := s.UpdateConfig(Some(5), None);
    assert s.maxRetries == 5 && s.jobs[2].maxRetries == 3;
    var batch := s.Claim(1);
    assert batch == [Descriptor(2, "false", 3, 0)];
    var ok, done, delays := s.RunJob(batch[0], []);
    Retry.AlwaysFailing(5, 2, []);
    assert !ok && done.attempts == 5 && done.attempts > done.maxRetries;
  }
}
