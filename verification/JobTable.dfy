/** The Queue object of internal/jobs/queue.go: its methods on the table, against `JobQueue`. */
module JobTable {
  import opened JobQueue

  const DEFAULT_MAX_ATTEMPTS: nat := 3

  class Queue {
    var rows: Table
    var nextId: Id

    constructor ()
      ensures rows == map[] && nextId == 1
    {
      rows, nextId := map[], 1;
    }

    method EnqueueAt(jobType: JobType, runAt: int, now: int) returns (id: Id)
      modifies this
      ensures id == old(nextId) && nextId == id + 1
      ensures rows == old(rows)[id := Job("default", jobType, Pending, 0, 0, DEFAULT_MAX_ATTEMPTS, runAt, None, now)]
      ensures NewRow(rows[id])
      ensures forall queue, later :: Claimable(rows, queue, later, id) <==> queue == "default" && runAt <= later
    {
      id := nextId;
      nextId := nextId + 1;
      rows := rows[id := Job("default", jobType, Pending, 0, 0, DEFAULT_MAX_ATTEMPTS, runAt, None, now)];
    }

    /** Claims a due row that no other due row of the queue precedes; none is claimed only if none is due. */
    method ClaimNext(queue: string, now: int) returns (claimed: Option<Id>)
      modifies this`rows
      ensures claimed.Some? ==> IsNext(old(rows), queue, now, claimed.value)
                                && rows == Claim(old(rows), claimed.value, now)
      ensures claimed.None? ==> rows == old(rows) && forall id :: !Claimable(rows, queue, now, id)
      ensures claimed.Some? ==>
        rows == old(rows)[claimed.value := old(rows)[claimed.value].(status := Running, startedAt := Some(now))]
    {
      claimed := None;
      var todo := rows.Keys;
      while todo != {}
        invariant todo <= rows.Keys
        invariant claimed.None? ==> forall id :: Claimable(rows, queue, now, id) ==> id in todo
        invariant claimed.Some? ==> Claimable(rows, queue, now, claimed.value)
        invariant claimed.Some? ==>
          forall id :: Claimable(rows, queue, now, id) && id !in todo ==> NotBehind(rows[claimed.value], rows[id])
        decreases |todo|
      {
        var id :| id in todo;
        todo := todo - {id};
        if Claimable(rows, queue, now, id) && (claimed.None? || !NotBehind(rows[claimed.value], rows[id])) {
          claimed := Some(id);
        }
      }
      if claimed.Some? {
        rows := Claim(rows, claimed.value, now);
      }
    }

    method Complete(id: Id)
      modifies this`rows
      ensures rows == JobQueue.Complete(old(rows), id)
      ensures rows == if id in old(rows) then old(rows)[id := old(rows)[id].(status := Completed)] else old(rows)
    {
      if id in rows {
        rows := rows[id := rows[id].(status := Completed)];
      }
    }

    /** Fail with nobody in between: a missing row is an error, any other one is retried or dead. */
    method Fail(id: Id, now: int) returns (ok: bool)
      modifies this`rows
      ensures ok == (id in old(rows))
      ensures ok ==> rows == FailWrite(old(rows), id, old(rows)[id].attempts, old(rows)[id].maxAttempts, now)
      ensures !ok ==> rows == old(rows)
      ensures ok && old(rows)[id].attempts + 1 >= old(rows)[id].maxAttempts ==>
        rows == old(rows)[id := old(rows)[id].(status := Dead, attempts := old(rows)[id].attempts + 1)]
      ensures ok && old(rows)[id].attempts + 1 < old(rows)[id].maxAttempts ==>
        rows == old(rows)[id := old(rows)[id].(status := Pending, attempts := old(rows)[id].attempts + 1,
                                               runAt := now + Backoff(old(rows)[id].attempts + 1) / NANOS_PER_SECOND)]
    {
      if id !in rows { return false; }
      var job := rows[id];
      var newAttempts := job.attempts + 1;
      if newAttempts >= job.maxAttempts {
        rows := rows[id := job.(status := Dead, attempts := newAttempts)];
      } else {
        rows := rows[id := job.(status := Pending, attempts := newAttempts,
                                runAt := now + Backoff(newAttempts) / NANOS_PER_SECOND)];
      }
      return true;
    }

    method Retry(id: Id, now: int)
      modifies this`rows
      ensures rows == Retried(old(rows), id, now)
      ensures id in old(rows) && old(rows)[id].status == Dead ==>
        rows == old(rows)[id := old(rows)[id].(status := Pending, runAt := now)]
      ensures !(id in old(rows) && old(rows)[id].status == Dead) ==> rows == old(rows)
    {
      if id in rows && rows[id].status == Dead {
        rows := rows[id := rows[id].(status := Pending, runAt := now)];
      }
    }

    /** Reclaims every orphaned row and reports how many; `olderThan <= 0` takes all running rows. */
    method ReapOrphaned(olderThan: int, now: int) returns (reclaimed: nat)
      modifies this`rows
      ensures var cutoff := if olderThan > 0 then Some(now - olderThan) else None;
              && rows == ReapRetryable(ReapExhausted(old(rows), cutoff), cutoff, now)
              && reclaimed == |set id | id in old(rows) && Orphaned(old(rows)[id], cutoff)|
              && forall id :: id in rows ==> !Orphaned(rows[id], cutoff)
    {
      var cutoff := if olderThan > 0 then Some(now - olderThan) else None;
      var dead := set id | id in rows && Orphaned(rows[id], cutoff) && rows[id].attempts + 1 >= rows[id].maxAttempts;
      rows := ReapExhausted(rows, cutoff);
      var retried := set id | id in rows && Orphaned(rows[id], cutoff) && rows[id].attempts + 1 < rows[id].maxAttempts;
      rows := ReapRetryable(rows, cutoff, now);
      assert dead !! retried;
      assert dead + retried == set id | id in old(rows) && Orphaned(old(rows)[id], cutoff);
      reclaimed := |dead| + |retried|;
    }
  }
}
