/** Startup recovery: the stored jobs left `pending` or `processing` by a
    previous run are turned into queue descriptors, in the order the query
    returns them. */
module Recovery {
  import opened Jobs

  /** Whether the startup query selects a row. */
  predicate Unfinished(r: Row) {
    r.job.state == Pending || r.job.state == Processing
  }

  /** The descriptor built from a stored row. */
  function Restore(r: Row): Descriptor
  {
    Descriptor(r.id, r.job.command, r.job.maxRetries, r.job.attempts)
  }

  /** The descriptors put on the queue at startup, in query order. Each one
      copies a selected row's id, command, stored ceiling and stored attempts,
      so an interrupted job resumes its count. */
  function Recover(rows: seq<Row>): (q: seq<Descriptor>)
    ensures |q| <= |rows|
    ensures forall r | r in rows && Unfinished(r) :: Restore(r) in q
    ensures forall d | d in q :: exists r | r in rows :: Unfinished(r) && d == Restore(r)
  {
    if rows == [] then []
    else
      var rest := Recover(rows[1..]);
      assert forall r | r in rows :: r == rows[0] || r in rows[1..];
      if Unfinished(rows[0]) then [Restore(rows[0])] + rest else rest
  }

  /** Recovery keeps the query order: the queue is the subsequence of the rows'
      descriptors picked by the state filter, so if row i precedes row j and
      both are unfinished, row i's descriptor is queued first. */
  lemma {:induction false} RecoverKeepsOrder(rows: seq<Row>, i: nat, j: nat)
    requires i < j < |rows| && Unfinished(rows[i]) && Unfinished(rows[j])
    ensures exists a, b :: 0 <= a < b < |Recover(rows)| && Recover(rows)[a] == Restore(rows[i]) && Recover(rows)[b] == Restore(rows[j])
  {
    var rest := Recover(rows[1..]);
    if i == 0 {
      assert rows[j] == rows[1..][j - 1];
      assert Restore(rows[j]) in rest;
      var b :| 0 <= b < |rest| && rest[b] == Restore(rows[j]);
      assert Recover(rows)[0] == Restore(rows[i]) && Recover(rows)[b + 1] == Restore(rows[j]);
    } else {
      assert rows[i] == rows[1..][i - 1] && rows[j] == rows[1..][j - 1];
      RecoverKeepsOrder(rows[1..], i - 1, j - 1);
      var a, b :| 0 <= a < b < |rest| && rest[a] == Restore(rows[i]) && rest[b] == Restore(rows[j]);
      var off := if Unfinished(rows[0]) then 1 else 0;
      assert Recover(rows)[a + off] == Restore(rows[i]) && Recover(rows)[b + off] == Restore(rows[j]);
    }
  }

  /** Recovery of a concatenation is the concatenation of the recoveries. */
  lemma {:induction false} RecoverAppend(a: seq<Row>, b: seq<Row>)
    ensures Recover(a + b) == Recover(a) + Recover(b)
  {
    if a == [] {
      assert a + b == b;
    } else {
      assert (a + b)[0] == a[0] && (a + b)[1..] == a[1..] + b;
      RecoverAppend(a[1..], b);
    }
  }

  /** Exactly the unfinished rows are recovered: the queue's length is their
      number, so no row is queued twice and completed or failed jobs add nothing. */
  lemma {:induction false} RecoverCount(rows: seq<Row>, n: nat)
    requires n <= |rows|
    ensures |Recover(rows[..n])| == |UnfinishedIndices(rows, n)|
  {
    if n > 0 {
      RecoverCount(rows, n - 1);
      assert rows[..n] == rows[..n - 1] + [rows[n - 1]];
      RecoverAppend(rows[..n - 1], [rows[n - 1]]);
      assert |Recover([rows[n - 1]])| == if Unfinished(rows[n - 1]) then 1 else 0 by {
        assert [rows[n - 1]][1..] == [];
      }
      IndicesStep(rows, n);
    }
  }

  /** The positions among the first n rows that the startup query selects. */
  function UnfinishedIndices(rows: seq<Row>, n: nat): set<nat>
    requires n <= |rows|
  {
    set i: nat | i < n && Unfinished(rows[i])
  }

  lemma IndicesStep(rows: seq<Row>, n: nat)
    requires 0 < n <= |rows|
    ensures |UnfinishedIndices(rows, n)| == |UnfinishedIndices(rows, n - 1)| + if Unfinished(rows[n - 1]) then 1 else 0
  {
    var before := UnfinishedIndices(rows, n - 1);
    if Unfinished(rows[n - 1]) {
      assert UnfinishedIndices(rows, n) == before + {n - 1};
      assert n - 1 !in before;
    } else {
      assert UnfinishedIndices(rows, n) == before;
    }
  }
}
