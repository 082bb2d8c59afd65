/**
 How a job ends and how it goes on (internal/jobs): a settled job is never claimed again,
 a reclaimed or failed one is due when it should be, start-up leaves nothing running, and
 a schedule with nothing live enqueues.
 */
module JobLife {
  import opened JobQueue

  // -------------------------------------------------------------------------
  // A settled job stays settled
  // -------------------------------------------------------------------------

  /** The job was completed or buried, and perhaps pruned. */
  ghost predicate Over(s: State, id: Id) {
    id in s.ledger && id < s.nextId && (id in s.rows ==> !Live(s.rows[id]))
  }

  lemma {:induction false} StaysOver(scheduled: set<JobType>, s: State, a: Action, id: Id)
    requires Inv(scheduled, s) && Enabled(scheduled, s, a) && Over(s, id)
    ensures var t := Next(scheduled, s, a); Over(t, id) && t.ledger[id] == s.ledger[id]
    ensures a.Poll? ==> a.id != id
  {
    if a.EnqueueOther? || a.InsertScheduled? || a.CountLive? || a.Crash? || a.Err? || a.ReadFailing? {
      hide Inv;
    } else {
      UpdateInv(scheduled, s, a);
      hide Inv;
      assert a.Poll? ==> Live(s.rows[a.id]);
    }
  }

  lemma {:induction false} OverForGood(scheduled: set<JobType>, s: State, run: seq<Action>, id: Id)
    requires Inv(scheduled, s) && Legal(scheduled, s, run) && Over(s, id)
    ensures var t := Exec(scheduled, s, run); Over(t, id) && t.ledger[id] == s.ledger[id]
    ensures forall i :: 0 <= i < |run| && run[i].Poll? ==> run[i].id != id
    decreases |run|
  {
    hide Next, Enabled, Inv, Over;
    if run != [] {
      StaysOver(scheduled, s, run[0], id);
      NextInv(scheduled, s, run[0]);
      OverForGood(scheduled, Next(scheduled, s, run[0]), run[1..], id);
    }
  }

  /** From the completion of its handler on, a job is completed and never claimed again. */
  lemma {:induction false} CompletedForGood(scheduled: set<JobType>, run: seq<Action>, later: seq<Action>)
    requires Legal(scheduled, INITIAL, run) && Exec(scheduled, INITIAL, run).worker.Handling?
    requires Legal(scheduled, Next(scheduled, Exec(scheduled, INITIAL, run), Succeed(true)), later)
    ensures var s := Exec(scheduled, INITIAL, run);
      var id, t := s.worker.id, Next(scheduled, s, Succeed(true));
      && (id in t.rows <==> id in s.rows)
      && (id in t.rows ==> t.rows[id].status == Completed)
      && (id in Exec(scheduled, t, later).rows ==> !Live(Exec(scheduled, t, later).rows[id]))
      && forall i :: 0 <= i < |later| && later[i].Poll? ==> later[i].id != id
  {
    ExecInv(scheduled, INITIAL, run);
    var s := Exec(scheduled, INITIAL, run);
    NextInv(scheduled, s, Succeed(true));
    var t := Next(scheduled, s, Succeed(true));
    assert Over(t, s.worker.id);
    hide Exec, Legal, Inv, Next, Enabled;
    OverForGood(scheduled, t, later, s.worker.id);
  }

  /** The same from any point at which a job is found completed or dead. */
  lemma {:induction false} SettledForGood(scheduled: set<JobType>, run: seq<Action>, later: seq<Action>, id: Id)
    requires Legal(scheduled, INITIAL, run) && Legal(scheduled, Exec(scheduled, INITIAL, run), later)
    requires id in Exec(scheduled, INITIAL, run).rows && !Live(Exec(scheduled, INITIAL, run).rows[id])
    ensures var t := Exec(scheduled, Exec(scheduled, INITIAL, run), later); id in t.rows ==> !Live(t.rows[id])
    ensures forall i :: 0 <= i < |later| && later[i].Poll? ==> later[i].id != id
  {
    ExecInv(scheduled, INITIAL, run);
    var s := Exec(scheduled, INITIAL, run);
    assert Over(s, id);
    hide Exec, Legal, Inv;
    OverForGood(scheduled, s, later, id);
  }

  // -------------------------------------------------------------------------
  // Where a job goes on
  // -------------------------------------------------------------------------

  /**
   What the reaper makes of a row: an orphan with an attempt left can be claimed exactly
   from `now` on, one without is dead, and every other row is as it was.
   */
  lemma {:induction false} ReapedRow(rows: Table, cutoff: Option<int>, now: int, id: Id, later: int)
    requires id in rows
    ensures var r := ReapRetryable(ReapExhausted(rows, cutoff), cutoff, now);
      && r.Keys == rows.Keys
      && (!Orphaned(rows[id], cutoff) ==> r[id] == rows[id])
      && (Orphaned(rows[id], cutoff) ==> r[id].attempts == rows[id].attempts + 1)
      && (Orphaned(rows[id], cutoff) && rows[id].attempts + 1 >= rows[id].maxAttempts ==> r[id].status == Dead)
      && (Orphaned(rows[id], cutoff) && rows[id].attempts + 1 < rows[id].maxAttempts ==>
            (Claimable(r, rows[id].queue, later, id) <==> now <= later))
  {
    var first := ReapExhausted(rows, cutoff);
    assert first.Keys == rows.Keys;
    assert ReapRetryable(first, cutoff, now).Keys == first.Keys;
  }

  /** Which rows the reaper takes for orphans: running ones, at start-up all, later those claimed before the deadline. */
  lemma {:induction false} OrphanedRow(rows: Table, id: Id, claimed: int, cutoff: Option<int>)
    requires id in rows
    ensures Orphaned(Claim(rows, id, claimed)[id], cutoff) <==> cutoff.None? || claimed < cutoff.value
    ensures rows[id].status != Running ==> !Orphaned(rows[id], cutoff)
  {
  }

  /** Due: a pending row of the queue whose time has come. */
  predicate DueRow(j: Job, queue: string, now: int) {
    j.queue == queue && j.status == Pending && now >= j.runAt
  }

  /** A claim takes a due row of the highest priority there is, and of those the oldest. */
  lemma {:induction false} ClaimsFirst(rows: Table, queue: string, now: int, id: Id)
    requires id in rows
    ensures IsNext(rows, queue, now, id) <==>
      && DueRow(rows[id], queue, now)
      && (forall other :: other in rows && DueRow(rows[other], queue, now) ==> rows[other].priority <= rows[id].priority)
      && (forall other :: other in rows && DueRow(rows[other], queue, now) && rows[other].priority == rows[id].priority ==>
            rows[id].createdAt <= rows[other].createdAt)
  {
    forall other
      ensures Claimable(rows, queue, now, other) <==> other in rows && DueRow(rows[other], queue, now)
    {
    }
  }

  /** None is there to claim only if no row of the queue is due. */
  lemma {:induction false} NoneDue(rows: Table, queue: string, now: int)
    ensures (forall id :: !Claimable(rows, queue, now, id)) <==> forall id :: id in rows ==> !DueRow(rows[id], queue, now)
  {
    if exists id :: id in rows && DueRow(rows[id], queue, now) {
      var id :| id in rows && DueRow(rows[id], queue, now);
      assert Claimable(rows, queue, now, id);
    }
    if exists id :: Claimable(rows, queue, now, id) {
      var id :| Claimable(rows, queue, now, id);
      assert DueRow(rows[id], queue, now);
    }
  }

  /** The failure that uses up the attempts is final. */
  lemma {:induction false} LastFailureBuries(rows: Table, id: Id, failed: int)
    requires id in rows
    ensures var r := FailWrite(rows, id, rows[id].attempts, rows[id].maxAttempts, failed);
      && r.Keys == rows.Keys && r[id].attempts == rows[id].attempts + 1
      && (forall other :: other in rows && other != id ==> r[other] == rows[other])
      && (r[id].status == Dead <==> rows[id].attempts + 1 >= rows[id].maxAttempts)
      && (r[id].status == Pending <==> rows[id].attempts + 1 < rows[id].maxAttempts)
  {
    assert rows[id := rows[id]].Keys == rows.Keys;
  }

  /** Pruning takes no live job and leaves no settled one older than the cutoff. */
  lemma {:induction false} PrunedRow(rows: Table, cutoff: int, id: Id)
    requires id in rows
    ensures var r := Prune(rows, cutoff);
      && (Live(rows[id]) || rows[id].createdAt >= cutoff ==> id in r && r[id] == rows[id])
      && (!Live(rows[id]) && rows[id].createdAt < cutoff ==> id !in r)
  {
  }

  // -------------------------------------------------------------------------
  // Start-up and schedules
  // -------------------------------------------------------------------------

  /** However the process before died, start-up leaves nothing running, and no job is lost. */
  lemma {:induction false} StartUpReclaims(scheduled: set<JobType>, run: seq<Action>, now: int)
    requires Legal(scheduled, INITIAL, run)
    ensures var s := Next(scheduled, Exec(scheduled, INITIAL, run), Crash);
      && Enabled(scheduled, s, BootFirst(now, true))
      && var s1 := Next(scheduled, s, BootFirst(now, true));
      && Enabled(scheduled, s1, BootSecond(true))
      && var s2 := Next(scheduled, s1, BootSecond(true));
      && s2.phase == Up && s2.rows.Keys == s.rows.Keys
      && forall id :: id in s2.rows ==> s2.rows[id].status != Running
  {
  }

  /** A schedule whose type has nothing live enqueues, and then has exactly one live job. */
  lemma {:induction false} ScheduleFires(scheduled: set<JobType>, run: seq<Action>, job: Job)
    requires Legal(scheduled, INITIAL, run) && Exec(scheduled, INITIAL, run).phase == Up
    requires job.jobType in scheduled && NewRow(job) && job.jobType !in Exec(scheduled, INITIAL, run).counted
    requires NoneLive(Exec(scheduled, INITIAL, run).rows, job.jobType)
    ensures var s := Exec(scheduled, INITIAL, run);
      && Enabled(scheduled, s, CountLive(job.jobType))
      && var s1 := Next(scheduled, s, CountLive(job.jobType));
      && Enabled(scheduled, s1, InsertScheduled(job, true))
      && var s2 := Next(scheduled, s1, InsertScheduled(job, true));
      && s.nextId in s2.rows && s2.rows[s.nextId] == job
      && forall id :: LiveOf(s2.rows, job.jobType, id) <==> id == s.nextId
  {
    hide Exec, Legal;
  }

  /** A schedule whose type has something live does not. */
  lemma {:induction false} ScheduleWaits(scheduled: set<JobType>, s: State, jobType: JobType, id: Id)
    requires Enabled(scheduled, s, CountLive(jobType)) && LiveOf(s.rows, jobType, id)
    ensures Next(scheduled, s, CountLive(jobType)) == s
  {
  }
}
