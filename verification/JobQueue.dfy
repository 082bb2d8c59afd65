/**
 The persistent job queue (internal/jobs): the jobs table, its one worker, the
 periodic reaper and the recurring schedules, as a state machine.

 A step is one SQL statement or transaction, or a change of one goroutine's
 position; any statement may fail, leaving the table as it was.  The process may
 crash at any point and boot again.  Times are integers (seconds).
 */
module JobQueue {

  type Id = nat

  type JobType = string

  datatype Status = Pending | Running | Completed | Dead

  datatype Option<T> = None | Some(value: T)

  datatype Job = Job(
    queue: string, jobType: JobType, status: Status, priority: int,
    attempts: nat, maxAttempts: nat,
    runAt: int, startedAt: Option<int>, createdAt: int)

  type Table = map<Id, Job>

  // -------------------------------------------------------------------------
  // Statements on the table
  // -------------------------------------------------------------------------

  predicate Claimable(rows: Table, queue: string, now: int, id: Id) {
    id in rows && rows[id].queue == queue && rows[id].status == Pending && rows[id].runAt <= now
  }

  /** ORDER BY priority DESC, created_at ASC */
  predicate NotBehind(a: Job, b: Job) {
    a.priority > b.priority || (a.priority == b.priority && a.createdAt <= b.createdAt)
  }

  /** A row that ClaimNext's SELECT may return. */
  ghost predicate IsNext(rows: Table, queue: string, now: int, id: Id) {
    && Claimable(rows, queue, now, id)
    && forall other :: Claimable(rows, queue, now, other) ==> NotBehind(rows[id], rows[other])
  }

  function Claim(rows: Table, id: Id, now: int): Table
    requires id in rows
  {
    rows[id := rows[id].(status := Running, startedAt := Some(now))]
  }

  /** Complete's UPDATE has no condition on the status. */
  function Complete(rows: Table, id: Id): Table {
    if id in rows then rows[id := rows[id].(status := Completed)] else rows
  }

  /** Fail's UPDATE, computed from the row it read earlier. */
  function FailWrite(rows: Table, id: Id, readAttempts: nat, readMax: nat, now: int): Table {
    if id !in rows then rows
    else if readAttempts + 1 >= readMax
    then rows[id := rows[id].(status := Dead, attempts := readAttempts + 1)]
    else rows[id := rows[id].(status := Pending, attempts := readAttempts + 1,
                              runAt := now + Backoff(readAttempts + 1) / NANOS_PER_SECOND)]
  }

  /** `cutoff` None reclaims every running row, as at boot. */
  predicate Orphaned(j: Job, cutoff: Option<int>) {
    j.status == Running && (cutoff.None? || j.startedAt.None? || j.startedAt.value < cutoff.value)
  }

  /** The first of ReapOrphaned's two statements. */
  function ReapExhausted(rows: Table, cutoff: Option<int>): Table {
    map id | id in rows ::
      if Orphaned(rows[id], cutoff) && rows[id].attempts + 1 >= rows[id].maxAttempts
      then rows[id].(status := Dead, attempts := rows[id].attempts + 1) else rows[id]
  }

  /** The second one. */
  function ReapRetryable(rows: Table, cutoff: Option<int>, now: int): Table {
    map id | id in rows ::
      if Orphaned(rows[id], cutoff) && rows[id].attempts + 1 < rows[id].maxAttempts
      then rows[id].(status := Pending, attempts := rows[id].attempts + 1, runAt := now) else rows[id]
  }

  function Prune(rows: Table, cutoff: int): Table {
    map id | id in rows && !((rows[id].status == Completed || rows[id].status == Dead) && rows[id].createdAt < cutoff)
      :: rows[id]
  }

  /** Retry's UPDATE: a dead job becomes pending, with the attempts it has. */
  function Retried(rows: Table, id: Id, now: int): Table {
    if id in rows && rows[id].status == Dead then rows[id := rows[id].(status := Pending, runAt := now)] else rows
  }

  predicate Live(j: Job) { j.status == Pending || j.status == Running }

  /** maybeEnqueue's COUNT(*) is zero. */
  ghost predicate NoneLive(rows: Table, jobType: JobType) {
    forall id :: id in rows && rows[id].jobType == jobType ==> !Live(rows[id])
  }

  // --- the retry delay --------------------------------------------------------

  const NANOS_PER_SECOND: int := 1_000_000_000
  const MAX_BACKOFF: int := 300 * NANOS_PER_SECOND

  function Pow2(n: nat): nat { if n == 0 then 1 else 2 * Pow2(n - 1) }

  /** Two's-complement reading of a 64-bit result. */
  function Int64(x: int): int {
    var r := x % 0x1_0000_0000_0000_0000;
    if r < 0x8000_0000_0000_0000 then r else r - 0x1_0000_0000_0000_0000
  }

  /** time.Duration(1<<uint(n)) * 5 * time.Second, capped. */
  function Backoff(n: nat): int {
    var b := Int64(Pow2(n) * 5 * NANOS_PER_SECOND);
    if b > MAX_BACKOFF then MAX_BACKOFF else b
  }

  // -------------------------------------------------------------------------
  // The processes
  // -------------------------------------------------------------------------

  datatype Worker =
    | Idle
    | Handling(id: Id)                                     // its handler runs
    | Failing(id: Id)                                      // Fail, before its SELECT
    | Rewriting(id: Id, attempts: nat, maxAttempts: nat)   // Fail, between SELECT and UPDATE

  datatype Reaper = Sleeping | HalfDone(cutoff: int, now: int)

  datatype Phase = Down | Booting(now: int) | Up

  /**
   `counted` holds the schedules that have counted no live job of their type and
   are about to insert one.  `ledger` records, for every id ever inserted, how
   often it was claimed and its max_attempts.
   */
  datatype Account = Account(claims: nat, budget: nat)

  datatype State = State(
    rows: Table, nextId: Id, phase: Phase, worker: Worker, reaper: Reaper, counted: set<JobType>,
    ledger: map<Id, Account>)

  const INITIAL := State(map[], 1, Down, Idle, Sleeping, {}, map[])

  /** `ok` tells whether the step's statement succeeded. */
  datatype Action =
    | EnqueueOther(job: Job)                               // a job of a type no schedule owns
    | Poll(queue: string, now: int, id: Id, fetched: bool) // ClaimNext; fetched: its final SELECT succeeded
    | Succeed(ok: bool)                                    // the handler returned nil: Complete
    | Err                                                  // the handler failed, or there is none
    | ReadFailing(ok: bool)
    | WriteFailing(now: int, ok: bool)
    | ReapFirst(cutoff: int, now: int, ok: bool)
    | ReapSecond(ok: bool)
    | CountLive(jobType: JobType)
    | InsertScheduled(job: Job, ok: bool)
    | PruneOld(cutoff: int)
    | Crash
    | BootFirst(now: int, ok: bool)
    | BootSecond(ok: bool)

  /** Newly inserted rows: pending, untried, with a budget. */
  predicate NewRow(j: Job) {
    j.status == Pending && j.attempts == 0 && j.maxAttempts >= 1
  }

  ghost predicate Enabled(scheduled: set<JobType>, s: State, a: Action) {
    match a
    case EnqueueOther(job) => NewRow(job) && job.jobType !in scheduled
    case Poll(queue, now, id, _) => s.phase == Up && s.worker == Idle && IsNext(s.rows, queue, now, id)
    case Succeed(_) => s.worker.Handling?
    case Err => s.worker.Handling?
    case ReadFailing(ok) => s.worker.Failing? && (ok ==> s.worker.id in s.rows)
    case WriteFailing(_, _) => s.worker.Rewriting?
    case ReapFirst(_, _, _) => s.phase == Up && s.reaper == Sleeping
    case ReapSecond(_) => s.reaper.HalfDone?
    case CountLive(jobType) => s.phase == Up && jobType in scheduled && jobType !in s.counted
    case InsertScheduled(job, _) => NewRow(job) && job.jobType in s.counted
    case PruneOld(_) => true
    case Crash => true
    case BootFirst(_, _) => s.phase == Down
    case BootSecond(_) => s.phase.Booting?
  }

  function Insert(s: State, job: Job): State {
    s.(rows := s.rows[s.nextId := job], nextId := s.nextId + 1,
       ledger := s.ledger[s.nextId := Account(0, job.maxAttempts)])
  }

  function Charge(ledger: map<Id, Account>, id: Id): map<Id, Account> {
    if id in ledger then ledger[id := Account(ledger[id].claims + 1, ledger[id].budget)] else ledger
  }

  ghost function Next(scheduled: set<JobType>, s: State, a: Action): State
    requires Enabled(scheduled, s, a)
  {
    match a
    case EnqueueOther(job) => Insert(s, job)
    case Poll(queue, now, id, fetched) =>
      s.(rows := Claim(s.rows, id, now), worker := if fetched then Handling(id) else Idle,
         ledger := Charge(s.ledger, id))
    case Succeed(ok) => s.(rows := if ok then Complete(s.rows, s.worker.id) else s.rows, worker := Idle)
    case Err => s.(worker := Failing(s.worker.id))
    case ReadFailing(ok) =>
      s.(worker := if ok
                   then Rewriting(s.worker.id, s.rows[s.worker.id].attempts, s.rows[s.worker.id].maxAttempts)
                   else Idle)
    case WriteFailing(now, ok) =>
      var w := s.worker;
      s.(rows := if ok then FailWrite(s.rows, w.id, w.attempts, w.maxAttempts, now) else s.rows, worker := Idle)
    case ReapFirst(cutoff, now, ok) =>
      if ok then s.(rows := ReapExhausted(s.rows, Some(cutoff)), reaper := HalfDone(cutoff, now)) else s
    case ReapSecond(ok) =>
      s.(rows := if ok then ReapRetryable(s.rows, Some(s.reaper.cutoff), s.reaper.now) else s.rows, reaper := Sleeping)
    case CountLive(jobType) =>
      if NoneLive(s.rows, jobType) then s.(counted := s.counted + {jobType}) else s
    case InsertScheduled(job, ok) =>
      (if ok then Insert(s, job) else s).(counted := s.counted - {job.jobType})
    case PruneOld(cutoff) => s.(rows := Prune(s.rows, cutoff))
    case Crash => s.(phase := Down, worker := Idle, reaper := Sleeping, counted := {})
    case BootFirst(now, ok) =>
      if ok then s.(rows := ReapExhausted(s.rows, None), phase := Booting(now)) else s.(phase := Up)
    case BootSecond(ok) =>
      s.(rows := if ok then ReapRetryable(s.rows, None, s.phase.now) else s.rows, phase := Up)
  }

  // -------------------------------------------------------------------------
  // Retry budget
  // -------------------------------------------------------------------------

  /** What a row's status says of its attempts and claims. */
  ghost predicate RowInv(j: Job, acc: Account) {
    && j.maxAttempts == acc.budget
    && match j.status
       case Pending => j.attempts < acc.budget && acc.claims <= j.attempts
       case Running => j.attempts < acc.budget && acc.claims <= j.attempts + 1
       case Completed => true
       case Dead => j.attempts >= acc.budget
  }

  ghost predicate TableInv(rows: Table, ledger: map<Id, Account>) {
    && (forall id :: id in ledger ==> ledger[id].claims <= ledger[id].budget)
    && (forall id :: id in rows ==> id in ledger && RowInv(rows[id], ledger[id]))
  }

  /** A job in the worker's hands is not completed behind its back, and a half-made Fail still fits its row. */
  ghost predicate WorkerInv(w: Worker, rows: Table, ledger: map<Id, Account>) {
    match w
    case Idle => true
    case Handling(id) => id in ledger && (id in rows ==> rows[id].status != Completed)
    case Failing(id) => id in ledger && (id in rows ==> rows[id].status != Completed)
    case Rewriting(id, attempts, maxAttempts) =>
      && id in ledger && maxAttempts == ledger[id].budget && ledger[id].claims <= attempts + 1
      && (id in rows ==>
            && rows[id].status != Completed
            && (rows[id].status == Running ==> rows[id].attempts == attempts)
            && (attempts + 1 < maxAttempts ==> Live(rows[id])))
  }

  ghost predicate Fresh(s: State) {
    && (forall id :: id in s.ledger ==> id < s.nextId)
    && (forall id :: id in s.rows ==> id < s.nextId)
  }

  // -------------------------------------------------------------------------
  // One live job per schedule
  // -------------------------------------------------------------------------

  predicate LiveOf(rows: Table, jobType: JobType, id: Id) {
    id in rows && rows[id].jobType == jobType && Live(rows[id])
  }

  ghost predicate AtMostOneLive(rows: Table, jobType: JobType) {
    forall a, b :: LiveOf(rows, jobType, a) && LiveOf(rows, jobType, b) ==> a == b
  }

  ghost predicate ScheduleInv(scheduled: set<JobType>, rows: Table, counted: set<JobType>) {
    && counted <= scheduled
    && (forall jobType :: jobType in scheduled ==> AtMostOneLive(rows, jobType))
    && (forall jobType :: jobType in counted ==> NoneLive(rows, jobType))
  }

  ghost predicate Inv(scheduled: set<JobType>, s: State) {
    && TableInv(s.rows, s.ledger)
    && WorkerInv(s.worker, s.rows, s.ledger)
    && ScheduleInv(scheduled, s.rows, s.counted)
    && Fresh(s)
  }

  /** No row is added, changes its type or comes back to life. */
  ghost predicate Settles(rows: Table, rows': Table) {
    forall id :: id in rows' ==>
      id in rows && rows'[id].jobType == rows[id].jobType && (Live(rows'[id]) ==> Live(rows[id]))
  }

  lemma {:induction false} SettlesSchedule(scheduled: set<JobType>, rows: Table, rows': Table, counted: set<JobType>)
    requires Settles(rows, rows') && ScheduleInv(scheduled, rows, counted)
    ensures ScheduleInv(scheduled, rows', counted)
  {
    forall jobType, id | LiveOf(rows', jobType, id)
      ensures LiveOf(rows, jobType, id)
    {
    }
  }

  // --- the statements ---------------------------------------------------------

  lemma {:induction false} ReapExhaustedKeeps(w: Worker, rows: Table, ledger: map<Id, Account>, cutoff: Option<int>)
    requires TableInv(rows, ledger) && WorkerInv(w, rows, ledger)
    ensures var r := ReapExhausted(rows, cutoff); TableInv(r, ledger) && WorkerInv(w, r, ledger) && Settles(rows, r)
  {
  }

  lemma {:induction false} ReapRetryableKeeps(w: Worker, rows: Table, ledger: map<Id, Account>, cutoff: Option<int>, now: int)
    requires TableInv(rows, ledger) && WorkerInv(w, rows, ledger)
    ensures var r := ReapRetryable(rows, cutoff, now); TableInv(r, ledger) && WorkerInv(w, r, ledger) && Settles(rows, r)
  {
  }

  lemma {:induction false} PruneKeeps(w: Worker, rows: Table, ledger: map<Id, Account>, cutoff: int)
    requires TableInv(rows, ledger) && WorkerInv(w, rows, ledger)
    ensures var r := Prune(rows, cutoff); TableInv(r, ledger) && WorkerInv(w, r, ledger) && Settles(rows, r)
  {
  }

  lemma {:induction false} ClaimKeeps(rows: Table, ledger: map<Id, Account>, queue: string, now: int, id: Id)
    requires TableInv(rows, ledger) && Claimable(rows, queue, now, id)
    ensures var r, l := Claim(rows, id, now), Charge(ledger, id);
            TableInv(r, l) && WorkerInv(Handling(id), r, l) && Settles(rows, r)
  {
  }

  lemma {:induction false} CompleteKeeps(rows: Table, ledger: map<Id, Account>, id: Id)
    requires TableInv(rows, ledger)
    ensures var r := Complete(rows, id); TableInv(r, ledger) && Settles(rows, r)
  {
  }

  /** A late Fail neither overdraws the budget nor revives its job. */
  lemma {:induction false} FailKeeps(w: Worker, rows: Table, ledger: map<Id, Account>, now: int)
    requires w.Rewriting? && TableInv(rows, ledger) && WorkerInv(w, rows, ledger)
    ensures var r := FailWrite(rows, w.id, w.attempts, w.maxAttempts, now); TableInv(r, ledger) && Settles(rows, r)
  {
  }

  lemma {:induction false} ReadKeeps(rows: Table, ledger: map<Id, Account>, id: Id)
    requires TableInv(rows, ledger) && WorkerInv(Failing(id), rows, ledger) && id in rows
    ensures WorkerInv(Rewriting(id, rows[id].attempts, rows[id].maxAttempts), rows, ledger)
  {
  }

  lemma {:induction false} InsertKeeps(s: State, job: Job)
    requires TableInv(s.rows, s.ledger) && WorkerInv(s.worker, s.rows, s.ledger) && Fresh(s) && NewRow(job)
    ensures var t := Insert(s, job); TableInv(t.rows, t.ledger) && WorkerInv(t.worker, t.rows, t.ledger) && Fresh(t)
  {
  }

  lemma {:induction false} InsertSchedule(scheduled: set<JobType>, s: State, job: Job, counted: set<JobType>)
    requires ScheduleInv(scheduled, s.rows, counted) && Fresh(s)
    requires job.jobType in scheduled ==> job.jobType in counted
    ensures ScheduleInv(scheduled, Insert(s, job).rows, counted - {job.jobType})
  {
    forall jobType, id | LiveOf(Insert(s, job).rows, jobType, id)
      ensures LiveOf(s.rows, jobType, id) || (id == s.nextId && jobType == job.jobType)
    {
    }
    assert forall id :: job.jobType in counted ==> !LiveOf(s.rows, job.jobType, id);
  }

  // -------------------------------------------------------------------------
  // Every step
  // -------------------------------------------------------------------------

  lemma {:induction false} NextInv(scheduled: set<JobType>, s: State, a: Action)
    requires Inv(scheduled, s) && Enabled(scheduled, s, a)
    ensures Inv(scheduled, Next(scheduled, s, a))
  {
    if a.EnqueueOther? || a.InsertScheduled? {
      InsertsInv(scheduled, s, a);
    } else if a.CountLive? || a.Crash? || a.Err? || a.ReadFailing? {
      MovesInv(scheduled, s, a);
    } else {
      UpdateInv(scheduled, s, a);
    }
  }

  lemma {:induction false} InsertsInv(scheduled: set<JobType>, s: State, a: Action)
    requires Inv(scheduled, s) && Enabled(scheduled, s, a) && (a.EnqueueOther? || a.InsertScheduled?)
    ensures Inv(scheduled, Next(scheduled, s, a))
  {
    InsertKeeps(s, a.job);
    InsertSchedule(scheduled, s, a.job, s.counted);
    hide TableInv, WorkerInv, Fresh;
    if a.EnqueueOther? {
      assert s.counted - {a.job.jobType} == s.counted;
    }
  }

  lemma {:induction false} MovesInv(scheduled: set<JobType>, s: State, a: Action)
    requires Inv(scheduled, s) && Enabled(scheduled, s, a)
    requires a.CountLive? || a.Crash? || a.Err? || a.ReadFailing?
    ensures Inv(scheduled, Next(scheduled, s, a))
  {
    if a.ReadFailing? && a.ok {
      ReadKeeps(s.rows, s.ledger, s.worker.id);
    }
    hide TableInv, Fresh;
  }

  lemma {:induction false} UpdateInv(scheduled: set<JobType>, s: State, a: Action)
    requires Inv(scheduled, s) && Enabled(scheduled, s, a)
    requires !(a.EnqueueOther? || a.InsertScheduled? || a.CountLive? || a.Crash? || a.Err? || a.ReadFailing?)
    ensures Inv(scheduled, Next(scheduled, s, a))
    ensures Settles(s.rows, Next(scheduled, s, a).rows)
  {
    var t := Next(scheduled, s, a);
    hide TableInv, ScheduleInv;
    match a {
      case Poll(queue, now, id, _) => ClaimKeeps(s.rows, s.ledger, queue, now, id);
      case Succeed(ok) => CompleteKeeps(s.rows, s.ledger, s.worker.id);
      case WriteFailing(now, ok) => FailKeeps(s.worker, s.rows, s.ledger, now);
      case ReapFirst(cutoff, now, ok) => ReapExhaustedKeeps(s.worker, s.rows, s.ledger, Some(cutoff));
      case ReapSecond(ok) => ReapRetryableKeeps(s.worker, s.rows, s.ledger, Some(s.reaper.cutoff), s.reaper.now);
      case PruneOld(cutoff) => PruneKeeps(s.worker, s.rows, s.ledger, cutoff);
      case BootFirst(now, ok) => ReapExhaustedKeeps(s.worker, s.rows, s.ledger, None);
      case BootSecond(ok) => ReapRetryableKeeps(s.worker, s.rows, s.ledger, None, s.phase.now);
    }
    hide WorkerInv;
    SettlesSchedule(scheduled, s.rows, t.rows, s.counted);
  }

  // -------------------------------------------------------------------------
  // Every run
  // -------------------------------------------------------------------------

  ghost predicate Legal(scheduled: set<JobType>, s: State, run: seq<Action>)
    decreases |run|
  {
    run != [] ==> Enabled(scheduled, s, run[0]) && Legal(scheduled, Next(scheduled, s, run[0]), run[1..])
  }

  ghost function Exec(scheduled: set<JobType>, s: State, run: seq<Action>): State
    requires Legal(scheduled, s, run)
    decreases |run|
  {
    if run == [] then s else Exec(scheduled, Next(scheduled, s, run[0]), run[1..])
  }

  lemma {:induction false} ExecInv(scheduled: set<JobType>, s: State, run: seq<Action>)
    requires Legal(scheduled, s, run) && Inv(scheduled, s)
    ensures Inv(scheduled, Exec(scheduled, s, run))
    decreases |run|
  {
    hide Inv, Next, Enabled;
    if run != [] {
      NextInv(scheduled, s, run[0]);
      ExecInv(scheduled, Next(scheduled, s, run[0]), run[1..]);
    }
  }

  /** No job is claimed more than max_attempts times, and every pending or running one has an attempt left. */
  lemma {:induction false} BudgetRespected(scheduled: set<JobType>, run: seq<Action>)
    requires Legal(scheduled, INITIAL, run)
    ensures var s := Exec(scheduled, INITIAL, run);
            && (forall id :: id in s.ledger ==> s.ledger[id].claims <= s.ledger[id].budget)
            && (forall id :: id in s.rows ==> id in s.ledger && s.rows[id].maxAttempts == s.ledger[id].budget)
            && (forall id :: id in s.rows && Live(s.rows[id]) ==> s.rows[id].attempts < s.rows[id].maxAttempts)
  {
    ExecInv(scheduled, INITIAL, run);
  }

  /** A type that only its schedule enqueues has at most one pending or running job. */
  lemma {:induction false} OneLivePerSchedule(scheduled: set<JobType>, run: seq<Action>, jobType: JobType)
    requires Legal(scheduled, INITIAL, run) && jobType in scheduled
    ensures AtMostOneLive(Exec(scheduled, INITIAL, run).rows, jobType)
  {
    ExecInv(scheduled, INITIAL, run);
  }

  /** No step brings a completed or dead job back. */
  lemma {:induction false} NeverRevived(scheduled: set<JobType>, run: seq<Action>, a: Action, id: Id)
    requires Legal(scheduled, INITIAL, run) && Enabled(scheduled, Exec(scheduled, INITIAL, run), a)
    requires id in Exec(scheduled, INITIAL, run).rows && !Live(Exec(scheduled, INITIAL, run).rows[id])
    ensures var t := Next(scheduled, Exec(scheduled, INITIAL, run), a); id in t.rows ==> !Live(t.rows[id])
  {
    ExecInv(scheduled, INITIAL, run);
    var s := Exec(scheduled, INITIAL, run);
    if a.EnqueueOther? || a.InsertScheduled? {
      assert id < s.nextId;
    } else if !(a.CountLive? || a.Crash? || a.Err? || a.ReadFailing?) {
      UpdateInv(scheduled, s, a);
      hide Next, Inv;
    }
  }

  // -------------------------------------------------------------------------
  // The retry delay
  // -------------------------------------------------------------------------

  /** The reaper leaves a job alone whose claim is not older than its deadline. */
  lemma {:induction false} FreshClaimSurvives(rows: Table, id: Id, claimed: int, cutoff: int, now: int)
    requires id in rows && cutoff <= claimed
    ensures var r := Claim(rows, id, claimed);
      && id in ReapRetryable(ReapExhausted(r, Some(cutoff)), Some(cutoff), now)
      && ReapRetryable(ReapExhausted(r, Some(cutoff)), Some(cutoff), now)[id] == r[id]
  {
    var r := Claim(rows, id, claimed);
    assert !Orphaned(r[id], Some(cutoff));
    assert ReapExhausted(r, Some(cutoff))[id] == r[id];
  }

  /** A failed job with an attempt left can be claimed again exactly from the end of its delay on. */
  lemma {:induction false} FailedJobWaits(rows: Table, id: Id, failed: int, later: int)
    requires id in rows && rows[id].attempts + 1 < rows[id].maxAttempts <= 31
    ensures var r := FailWrite(rows, id, rows[id].attempts, rows[id].maxAttempts, failed);
      Claimable(r, rows[id].queue, later, id) <==>
        later >= failed + IntendedBackoff(rows[id].attempts + 1) / NANOS_PER_SECOND
  {
    BackoffFits(rows[id].attempts + 1);
  }

  /**
   Retry gives no attempt back: it keeps the attempt budget exactly when it changes
   nothing.  The dead job it revives is due at once, and its next claim is one too many
   exactly when it had used its budget up.
   */
  lemma {:induction false} RetryOverdraws(rows: Table, ledger: map<Id, Account>, id: Id, now: int)
    requires TableInv(rows, ledger)
    ensures TableInv(Retried(rows, id, now), ledger) <==> !(id in rows && rows[id].status == Dead)
    ensures id in rows && rows[id].status == Dead ==>
      && Claimable(Retried(rows, id, now), rows[id].queue, now, id)
      && (Charge(ledger, id)[id].claims > ledger[id].budget <==> ledger[id].claims == ledger[id].budget)
  {
    if id in rows && rows[id].status == Dead {
      var r := Retried(rows, id, now);
      assert r[id].status == Pending && r[id].attempts >= ledger[id].budget;
      assert !RowInv(r[id], ledger[id]);
    }
  }

  const ONE_SHOT: Job := Job("default", "report", Pending, 0, 0, 1, 0, None, 0)

  lemma {:induction false} Prepend(scheduled: set<JobType>, s: State, a: Action, rest: seq<Action>) returns (run: seq<Action>)
    requires Enabled(scheduled, s, a) && Legal(scheduled, Next(scheduled, s, a), rest)
    ensures Legal(scheduled, s, run) && Exec(scheduled, s, run) == Exec(scheduled, Next(scheduled, s, a), rest)
  {
    hide Next, Enabled;
    run := [a] + rest;
    assert run[1..] == rest;
  }

  const ENQUEUED := State(map[1 := ONE_SHOT], 2, Up, Idle, Sleeping, {}, map[1 := Account(0, 1)])

  lemma {:induction false} Enqueues() returns (run: seq<Action>)
    ensures Legal({}, INITIAL, run) && Exec({}, INITIAL, run) == ENQUEUED
  {
    var s1 := Next({}, INITIAL, BootFirst(0, true));
    assert s1 == INITIAL.(phase := Booting(0));
    var s2 := Next({}, s1, BootSecond(true));
    assert s2 == INITIAL.(phase := Up);
    assert Next({}, s2, EnqueueOther(ONE_SHOT)) == ENQUEUED;
    run := Prepend({}, s2, EnqueueOther(ONE_SHOT), []);
    hide Next, Enabled;
    run := Prepend({}, s1, BootSecond(true), run);
    run := Prepend({}, INITIAL, BootFirst(0, true), run);
  }

  lemma {:induction false} Fails() returns (run: seq<Action>)
    ensures Legal({}, ENQUEUED, run)
    ensures Exec({}, ENQUEUED, run) == ENQUEUED.(
      rows := map[1 := ONE_SHOT.(status := Dead, attempts := 1, startedAt := Some(0))], ledger := map[1 := Account(1, 1)])
  {
    var s4 := Next({}, ENQUEUED, Poll("default", 0, 1, true));
    assert s4.rows == map[1 := ONE_SHOT.(status := Running, startedAt := Some(0))];
    assert s4.ledger == map[1 := Account(1, 1)];
    var s5 := Next({}, s4, Err);
    var s6 := Next({}, s5, ReadFailing(true));
    var s7 := Next({}, s6, WriteFailing(0, true));
    assert s7.rows == map[1 := ONE_SHOT.(status := Dead, attempts := 1, startedAt := Some(0))];
    run := Prepend({}, s6, WriteFailing(0, true), []);
    hide Next, Enabled;
    run := Prepend({}, s5, ReadFailing(true), run);
    run := Prepend({}, s4, Err, run);
    run := Prepend({}, ENQUEUED, Poll("default", 0, 1, true), run);
  }

  lemma {:induction false} ExecConcat(scheduled: set<JobType>, s: State, a: seq<Action>, b: seq<Action>)
    requires Legal(scheduled, s, a) && Legal(scheduled, Exec(scheduled, s, a), b)
    ensures Legal(scheduled, s, a + b) && Exec(scheduled, s, a + b) == Exec(scheduled, Exec(scheduled, s, a), b)
    decreases |a|
  {
    hide Next, Enabled;
    if a == [] {
      assert a + b == b;
    } else {
      assert (a + b)[1..] == a[1..] + b;
      ExecConcat(scheduled, Next(scheduled, s, a[0]), a[1..], b);
    }
  }

  /** A run after which job 1 is dead, having been claimed as often as it may. */
  lemma {:induction false} UsedUp() returns (run: seq<Action>)
    ensures Legal({}, INITIAL, run)
    ensures var s := Exec({}, INITIAL, run);
      && s.rows == map[1 := ONE_SHOT.(status := Dead, attempts := 1, startedAt := Some(0))]
      && s.ledger == map[1 := Account(1, 1)] && s.phase == Up && s.worker == Idle
  {
    hide Exec, Legal;
    var a := Enqueues();
    var b := Fails();
    ExecConcat({}, INITIAL, a, b);
    run := a + b;
  }

  /** With Retry the budget does fail: the run above, Retry, and the poll that follows make two claims of a job that has one. */
  lemma {:induction false} RetriedTooOften() returns (run: seq<Action>)
    ensures Legal({}, INITIAL, run)
    ensures var s := Exec({}, INITIAL, run);
      var t := s.(rows := Retried(s.rows, 1, 0));
      && Enabled({}, t, Poll("default", 0, 1, true))
      && 1 in Next({}, t, Poll("default", 0, 1, true)).ledger
      && var acc := Next({}, t, Poll("default", 0, 1, true)).ledger[1]; acc.claims > acc.budget
  {
    run := UsedUp();
    hide Exec, Legal;
    var s := Exec({}, INITIAL, run);
    assert Retried(s.rows, 1, 0) == map[1 := ONE_SHOT.(attempts := 1, startedAt := Some(0))];
  }

  lemma {:induction false} Pow2Bounds(n: nat, m: nat)
    requires n <= m
    ensures 1 <= Pow2(n) <= Pow2(m)
    decreases m
  {
    if n < m {
      Pow2Bounds(n, m - 1);
    } else if n > 0 {
      Pow2Bounds(n - 1, m - 1);
    }
  }

  lemma {:induction false} Pow2At30()
    ensures Pow2(30) == 1_073_741_824
  {
    assert Pow2(10) == 1024;
    assert Pow2(20) == 1024 * 1024;
  }

  /** The documented delay: 2^n * 5s, at most five minutes. */
  function IntendedBackoff(n: nat): int {
    var b := Pow2(n) * 5 * NANOS_PER_SECOND;
    if b > MAX_BACKOFF then MAX_BACKOFF else b
  }

  lemma {:induction false} BackoffFits(n: nat)
    requires n <= 30
    ensures Backoff(n) == IntendedBackoff(n) && 0 < Backoff(n) <= MAX_BACKOFF
  {
    Pow2Bounds(n, 30);
    Pow2At30();
    hide Pow2;
    assert Int64(Pow2(n) * 5 * NANOS_PER_SECOND) == Pow2(n) * 5 * NANOS_PER_SECOND;
  }

  /** Every delay of a job is the documented one exactly when its max_attempts is at most 31: beyond, 64 bits overflow. */
  lemma {:induction false} BackoffExact(maxAttempts: nat)
    ensures (forall n :: 1 <= n < maxAttempts ==> Backoff(n) == IntendedBackoff(n)) <==> maxAttempts <= 31
  {
    if maxAttempts <= 31 {
      forall n | 1 <= n < maxAttempts
        ensures Backoff(n) == IntendedBackoff(n)
      {
        BackoffFits(n);
      }
    } else {
      BackoffOverflows();
    }
  }

  lemma {:induction false} BackoffOverflows()
    ensures Backoff(31) < 0 < IntendedBackoff(31)
  {
    Pow2At30();
    assert Pow2(31) == 2_147_483_648;
    hide Pow2;
  }
}
