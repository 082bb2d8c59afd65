/**
 The asynchronous ingest queue (internal/ingest/queue.go) as a state machine.

 Any number of goroutines call Enqueue, Flush and Stop beside the background
 flush loop.  A step is one section under `mu`, one BatchInsert, one counter
 update, or one channel operation, taken by one goroutine; a failed BatchInsert
 stores nothing.
 */
module IngestQueue {
  import opened Sums

  type LogEntry = int

  type Batch = seq<LogEntry>

  const FLUSH_MAX_ATTEMPTS: nat := 3

  datatype Config = Config(maxQueueSize: int, maxBatchSize: int) {
    predicate Valid() { maxQueueSize > 0 && maxBatchSize > 0 }
  }

  /** NewQueue replaces non-positive sizes by the defaults. */
  function NewConfig(maxQueueSize: int, maxBatchSize: int): (cfg: Config)
    ensures cfg.Valid()
    ensures maxQueueSize > 0 ==> cfg.maxQueueSize == maxQueueSize
    ensures maxBatchSize > 0 ==> cfg.maxBatchSize == maxBatchSize
    ensures maxQueueSize <= 0 ==> cfg.maxQueueSize == 10000
    ensures maxBatchSize <= 0 ==> cfg.maxBatchSize == 1000
  {
    Config(if maxQueueSize <= 0 then 10000 else maxQueueSize, if maxBatchSize <= 0 then 1000 else maxBatchSize)
  }

  // -------------------------------------------------------------------------
  // The sections under mu
  // -------------------------------------------------------------------------

  /** What mu guards. */
  datatype Core = Core(buffer: Batch, stopped: bool)

  predicate Fits(cfg: Config, c: Core, batch: Batch) {
    cfg.maxQueueSize - |c.buffer| >= |batch|
  }

  function Buffered(c: Core, batch: Batch): Core {
    c.(buffer := c.buffer + batch)
  }

  function Taken(c: Core): Core {
    c.(buffer := [])
  }

  predicate Requeues(cfg: Config, c: Core, chunk: Batch) {
    !c.stopped && Fits(cfg, c, chunk)
  }

  function Requeued(c: Core, chunk: Batch): Core {
    c.(buffer := chunk + c.buffer)
  }

  // -------------------------------------------------------------------------
  // Goroutines
  // -------------------------------------------------------------------------

  /** What a goroutine does once its flush is over. */
  datatype Then = Return | Again(batch: Batch) | LoopOn | LoopExit

  datatype Pc =
    | Calling(batch: Batch)                                                // Enqueue, at its first section
    | Flushing(then_: Then)                                                // Flush, before it takes the buffer
    | Inserting(chunk: Batch, rest: Batch, attempt: nat, then_: Then)      // at the attempt-th BatchInsert
    | Failing(chunk: Batch, rest: Batch, then_: Then)                      // at requeueOrDrop
    | Dropping(chunk: Batch, rest: Batch, then_: Then)                     // about to count the drop
    | Retrying(batch: Batch)                                               // Enqueue, at its second section
    | Syncing(batch: Batch)                                                // Enqueue, at its own BatchInsert
    | Ticking                                                              // the flush loop, in its select
    | Stopping                                                             // Stop, at its section
    | Closing                                                              // Stop, at close(stopCh)
    | Waiting                                                              // Stop, at wg.Wait
    | StopReturned                                                         // the Stop that shut the queue down
    | Finished

  /** Where flushBatch goes with `entries` left to write. */
  function NextChunk(cfg: Config, entries: Batch, then_: Then): Pc
    requires cfg.Valid()
  {
    if entries == [] then
      match then_
      case Return => Finished
      case Again(batch) => Retrying(batch)
      case LoopOn => Ticking
      case LoopExit => Finished
    else
      var end := if cfg.maxBatchSize > |entries| then |entries| else cfg.maxBatchSize;
      Inserting(entries[..end], entries[end..], 1, then_)
  }

  /**
   What the goroutines share.  `persisted`, `dropped`, `offered`, `accepted` and
   `rejected` log the entries' fate; of these the program keeps only the number
   of dropped ones.
   */
  datatype Shared = Shared(
    core: Core, closed: bool, dropCount: int,
    persisted: Batch, dropped: Batch, offered: Batch, accepted: Batch, rejected: Batch)

  datatype State = State(sh: Shared, threads: seq<Pc>)

  /** Goroutine 0 is the flush loop that NewQueue starts. */
  const INITIAL := State(Shared(Core([], false), false, 0, [], [], [], [], []), [Ticking])

  datatype Move = Move(sh: Shared, pc: Pc)

  /** tryBuffer succeeded: the batch is accepted, and flushed if it filled a batch. */
  function Accept(cfg: Config, sh: Shared, batch: Batch): Move {
    var core := Buffered(sh.core, batch);
    Move(sh.(core := core, accepted := sh.accepted + batch),
         if |core.buffer| >= cfg.maxBatchSize then Flushing(Return) else Finished)
  }

  /** One step of an Enqueue call; `ok` is the outcome of its BatchInsert. */
  function EnqueueMove(cfg: Config, sh: Shared, pc: Pc, ok: bool): Move
    requires pc.Calling? || pc.Retrying? || pc.Syncing?
  {
    match pc
    case Calling(batch) =>
      if sh.core.stopped then Move(sh, Syncing(batch))
      else if Fits(cfg, sh.core, batch) then Accept(cfg, sh, batch)
      else Move(sh, Flushing(Again(batch)))
    case Retrying(batch) =>
      if !sh.core.stopped && Fits(cfg, sh.core, batch) then Accept(cfg, sh, batch)
      else Move(sh, Syncing(batch))
    case Syncing(batch) =>
      if ok
      then Move(sh.(accepted := sh.accepted + batch, persisted := sh.persisted + batch), Finished)
      else Move(sh.(rejected := sh.rejected + batch), Finished)
  }

  /** One step of a flush; `ok` is the outcome of its BatchInsert. */
  function FlushMove(cfg: Config, sh: Shared, pc: Pc, ok: bool): Move
    requires cfg.Valid() && InFlush(pc)
  {
    match pc
    case Flushing(then_) =>
      Move(sh.(core := Taken(sh.core)), NextChunk(cfg, sh.core.buffer, then_))
    case Inserting(chunk, rest, attempt, then_) =>
      if ok then Move(sh.(persisted := sh.persisted + chunk), NextChunk(cfg, rest, then_))
      else if attempt < FLUSH_MAX_ATTEMPTS then Move(sh, Inserting(chunk, rest, attempt + 1, then_))
      else Move(sh, Failing(chunk, rest, then_))
    case Failing(chunk, rest, then_) =>
      if Requeues(cfg, sh.core, chunk)
      then Move(sh.(core := Requeued(sh.core, chunk)), NextChunk(cfg, rest, then_))
      else Move(sh, Dropping(chunk, rest, then_))
    case Dropping(chunk, rest, then_) =>
      Move(sh.(dropCount := sh.dropCount + |chunk|, dropped := sh.dropped + chunk),
           NextChunk(cfg, rest, then_))
  }

  /** One step of the flush loop's select or of Stop; `ok` picks the ticker over stopCh. */
  function ControlMove(sh: Shared, pc: Pc, ok: bool): Move
    requires pc.Ticking? || pc.Stopping? || pc.Closing? || pc.Waiting?
  {
    match pc
    case Ticking => Move(sh, Flushing(if ok then LoopOn else LoopExit))
    case Stopping =>
      if sh.core.stopped then Move(sh, Finished)
      else Move(sh.(core := sh.core.(stopped := true)), Closing)
    case Closing => Move(sh.(closed := true), Waiting)
    case Waiting => Move(sh, StopReturned)
  }

  predicate InFlush(pc: Pc) {
    pc.Flushing? || pc.Inserting? || pc.Failing? || pc.Dropping?
  }

  predicate InEnqueue(pc: Pc) {
    pc.Calling? || pc.Retrying? || pc.Syncing?
  }

  predicate Done(pc: Pc) {
    pc.Finished? || pc.StopReturned?
  }

  function StepMove(cfg: Config, sh: Shared, pc: Pc, ok: bool): Move
    requires cfg.Valid() && !Done(pc)
  {
    if InEnqueue(pc) then EnqueueMove(cfg, sh, pc, ok)
    else if InFlush(pc) then FlushMove(cfg, sh, pc, ok)
    else ControlMove(sh, pc, ok)
  }

  datatype Action = CallEnqueue(batch: Batch) | CallFlush | CallStop | Run(t: nat, ok: bool)

  predicate Enabled(s: State, a: Action) {
    a.Run? ==>
      && a.t < |s.threads|
      && !Done(s.threads[a.t])
      && (s.threads[a.t].Waiting? ==> s.threads[0] == Finished)
      && (s.threads[a.t].Ticking? ==> a.ok || s.sh.closed)
  }

  function Next(cfg: Config, s: State, a: Action): State
    requires cfg.Valid() && Enabled(s, a)
  {
    match a
    case CallEnqueue(batch) =>
      State(s.sh.(offered := s.sh.offered + batch),
            s.threads + [if batch == [] then Finished else Calling(batch)])
    case CallFlush => State(s.sh, s.threads + [Flushing(Return)])
    case CallStop => State(s.sh, s.threads + [Stopping])
    case Run(t, ok) =>
      var m := StepMove(cfg, s.sh, s.threads[t], ok);
      State(m.sh, s.threads[t := m.pc])
  }

  // -------------------------------------------------------------------------
  // Invariant
  // -------------------------------------------------------------------------

  ghost function Count(s: Batch, e: LogEntry): nat {
    if s == [] then 0 else (if s[0] == e then 1 else 0) + Count(s[1..], e)
  }

  /** Entries a flush has taken from the buffer and not yet placed. */
  function Held(pc: Pc): Batch {
    if pc.Inserting? || pc.Failing? || pc.Dropping? then pc.chunk + pc.rest else []
  }

  function Pending(then_: Then): Batch {
    if then_.Again? then then_.batch else []
  }

  /** Entries whose Enqueue call has yet to be decided. */
  function Undecided(pc: Pc): Batch {
    if InEnqueue(pc) then pc.batch else if InFlush(pc) then Pending(pc.then_) else []
  }

  ghost function HeldOf(e: LogEntry): Pc -> int { pc => Count(Held(pc), e) }

  ghost function UndecidedOf(e: LogEntry): Pc -> int { pc => Count(Undecided(pc), e) }

  /** Entry e's ledger, given how often the goroutines hold it and have it to decide. */
  ghost predicate Balanced(sh: Shared, e: LogEntry, held: int, undecided: int) {
    && Count(sh.accepted, e) == Count(sh.persisted, e) + Count(sh.core.buffer, e) + held + Count(sh.dropped, e)
    && Count(sh.offered, e) == Count(sh.accepted, e) + undecided + Count(sh.rejected, e)
  }

  ghost predicate Conserved(s: State) {
    && s.sh.dropCount == |s.sh.dropped|
    && forall e :: BalancedIn(s, e)
  }

  /** Only goroutine 0 is the flush loop. */
  ghost predicate Role(t: nat, pc: Pc) {
    && (t == 0 ==> pc.Ticking? || pc.Finished? || (InFlush(pc) && (pc.then_.LoopOn? || pc.then_.LoopExit?)))
    && (t > 0 ==> !pc.Ticking? && (InFlush(pc) ==> pc.then_.Return? || pc.then_.Again?))
  }

  /** The flush loop has seen stopCh closed. */
  predicate LoopLeaving(pc: Pc) {
    pc.Finished? || (InFlush(pc) && pc.then_.LoopExit?)
  }

  ghost predicate LoopInv(sh: Shared, loop: Pc) {
    && Role(0, loop)
    && (LoopLeaving(loop) ==> sh.closed)
    && (LoopLeaving(loop) && !loop.Flushing? ==> sh.core.buffer == [])
  }

  ghost predicate CallerInv(sh: Shared, loop: Pc, t: nat, pc: Pc) {
    && Role(t, pc)
    && (pc.Closing? ==> sh.core.stopped)
    && (pc.Waiting? ==> sh.closed)
    && (pc.StopReturned? ==> loop.Finished?)
  }

  ghost predicate Shutdown(s: State) {
    && |s.threads| > 0
    && (s.sh.closed ==> s.sh.core.stopped)
    && LoopInv(s.sh, s.threads[0])
    && (forall t :: 0 < t < |s.threads| ==> CallerInv(s.sh, s.threads[0], t, s.threads[t]))
  }

  ghost predicate Inv(cfg: Config, s: State) {
    Conserved(s) && Shutdown(s) && |s.sh.core.buffer| <= cfg.maxQueueSize
  }

  // --- conservation -------------------------------------------------------------

  lemma {:induction false} CountConcat(a: Batch, b: Batch, e: LogEntry)
    ensures Count(a + b, e) == Count(a, e) + Count(b, e)
  {
    if a == [] {
      assert a + b == b;
    } else {
      assert (a + b)[1..] == a[1..] + b;
      CountConcat(a[1..], b, e);
    }
  }

  lemma {:induction false} NextChunkHolds(cfg: Config, entries: Batch, then_: Then)
    requires cfg.Valid()
    ensures Held(NextChunk(cfg, entries, then_)) == entries
    ensures Undecided(NextChunk(cfg, entries, then_)) == Pending(then_)
  {
  }

  /** A goroutine's step moves entries without creating or losing any. */
  lemma {:induction false} MoveBalances(cfg: Config, sh: Shared, pc: Pc, ok: bool, e: LogEntry, held: int, undecided: int)
    requires cfg.Valid() && !Done(pc)
    requires Balanced(sh, e, held + Count(Held(pc), e), undecided + Count(Undecided(pc), e))
    ensures var m := StepMove(cfg, sh, pc, ok);
            Balanced(m.sh, e, held + Count(Held(m.pc), e), undecided + Count(Undecided(m.pc), e))
  {
    hide Count, Balanced, StepMove;
    if pc.Syncing? {
      SyncBalances(cfg, sh, pc, ok, e, held, undecided);
    } else if InEnqueue(pc) {
      if sh.core.stopped || !Fits(cfg, sh.core, pc.batch) {
        DeferBalances(cfg, sh, pc, ok, e, held, undecided);
      } else {
        AcceptBalances(cfg, sh, pc, ok, e, held, undecided);
      }
    } else if pc.Flushing? {
      TakeBalances(cfg, sh, pc, ok, e, held, undecided);
    } else if pc.Inserting? {
      InsertBalances(cfg, sh, pc, ok, e, held, undecided);
    } else if pc.Failing? {
      RequeueBalances(cfg, sh, pc, ok, e, held, undecided);
    } else if pc.Dropping? {
      DropBalances(cfg, sh, pc, ok, e, held, undecided);
    } else {
      ControlBalances(cfg, sh, pc, ok, e, held, undecided);
    }
  }

  lemma {:induction false} DeferBalances(cfg: Config, sh: Shared, pc: Pc, ok: bool, e: LogEntry, held: int, undecided: int)
    requires cfg.Valid() && (pc.Calling? || pc.Retrying?)
    requires sh.core.stopped || !Fits(cfg, sh.core, pc.batch)
    requires Balanced(sh, e, held + Count(Held(pc), e), undecided + Count(Undecided(pc), e))
    ensures var m := StepMove(cfg, sh, pc, ok);
            Balanced(m.sh, e, held + Count(Held(m.pc), e), undecided + Count(Undecided(m.pc), e))
  {
    assert StepMove(cfg, sh, pc, ok).sh == sh;
  }

  lemma {:induction false} AcceptBalances(cfg: Config, sh: Shared, pc: Pc, ok: bool, e: LogEntry, held: int, undecided: int)
    requires cfg.Valid() && (pc.Calling? || pc.Retrying?)
    requires !sh.core.stopped && Fits(cfg, sh.core, pc.batch)
    requires Balanced(sh, e, held + Count(Held(pc), e), undecided + Count(Undecided(pc), e))
    ensures var m := StepMove(cfg, sh, pc, ok);
            Balanced(m.sh, e, held + Count(Held(m.pc), e), undecided + Count(Undecided(m.pc), e))
  {
    assert StepMove(cfg, sh, pc, ok) == Accept(cfg, sh, pc.batch);
    CountConcat(sh.core.buffer, pc.batch, e);
    CountConcat(sh.accepted, pc.batch, e);
  }

  lemma {:induction false} SyncBalances(cfg: Config, sh: Shared, pc: Pc, ok: bool, e: LogEntry, held: int, undecided: int)
    requires cfg.Valid() && pc.Syncing?
    requires Balanced(sh, e, held + Count(Held(pc), e), undecided + Count(Undecided(pc), e))
    ensures var m := StepMove(cfg, sh, pc, ok);
            Balanced(m.sh, e, held + Count(Held(m.pc), e), undecided + Count(Undecided(m.pc), e))
  {
    if ok {
      CountConcat(sh.accepted, pc.batch, e);
      CountConcat(sh.persisted, pc.batch, e);
    } else {
      CountConcat(sh.rejected, pc.batch, e);
    }
  }

  lemma {:induction false} TakeBalances(cfg: Config, sh: Shared, pc: Pc, ok: bool, e: LogEntry, held: int, undecided: int)
    requires cfg.Valid() && pc.Flushing?
    requires Balanced(sh, e, held + Count(Held(pc), e), undecided + Count(Undecided(pc), e))
    ensures var m := StepMove(cfg, sh, pc, ok);
            Balanced(m.sh, e, held + Count(Held(m.pc), e), undecided + Count(Undecided(m.pc), e))
  {
    assert Count([], e) == 0;
    NextChunkHolds(cfg, sh.core.buffer, pc.then_);
  }

  lemma {:induction false} InsertBalances(cfg: Config, sh: Shared, pc: Pc, ok: bool, e: LogEntry, held: int, undecided: int)
    requires cfg.Valid() && pc.Inserting?
    requires Balanced(sh, e, held + Count(Held(pc), e), undecided + Count(Undecided(pc), e))
    ensures var m := StepMove(cfg, sh, pc, ok);
            Balanced(m.sh, e, held + Count(Held(m.pc), e), undecided + Count(Undecided(m.pc), e))
  {
    assert Count([], e) == 0;
    NextChunkHolds(cfg, pc.rest, pc.then_);
    CountConcat(pc.chunk, pc.rest, e);
    CountConcat(sh.persisted, pc.chunk, e);
    var m := FlushMove(cfg, sh, pc, ok);
    assert !ok ==> m.sh == sh && Held(m.pc) == Held(pc) && Undecided(m.pc) == Undecided(pc);
  }

  lemma {:induction false} RequeueBalances(cfg: Config, sh: Shared, pc: Pc, ok: bool, e: LogEntry, held: int, undecided: int)
    requires cfg.Valid() && pc.Failing?
    requires Balanced(sh, e, held + Count(Held(pc), e), undecided + Count(Undecided(pc), e))
    ensures var m := StepMove(cfg, sh, pc, ok);
            Balanced(m.sh, e, held + Count(Held(m.pc), e), undecided + Count(Undecided(m.pc), e))
  {
    if Requeues(cfg, sh.core, pc.chunk) {
      NextChunkHolds(cfg, pc.rest, pc.then_);
      CountConcat(pc.chunk, pc.rest, e);
      CountConcat(pc.chunk, sh.core.buffer, e);
      assert StepMove(cfg, sh, pc, ok)
          == Move(sh.(core := Requeued(sh.core, pc.chunk)), NextChunk(cfg, pc.rest, pc.then_));
    } else {
      assert StepMove(cfg, sh, pc, ok) == Move(sh, Dropping(pc.chunk, pc.rest, pc.then_));
    }
  }

  lemma {:induction false} DropBalances(cfg: Config, sh: Shared, pc: Pc, ok: bool, e: LogEntry, held: int, undecided: int)
    requires cfg.Valid() && pc.Dropping?
    requires Balanced(sh, e, held + Count(Held(pc), e), undecided + Count(Undecided(pc), e))
    ensures var m := StepMove(cfg, sh, pc, ok);
            Balanced(m.sh, e, held + Count(Held(m.pc), e), undecided + Count(Undecided(m.pc), e))
  {
    assert Count([], e) == 0;
    NextChunkHolds(cfg, pc.rest, pc.then_);
    CountConcat(pc.chunk, pc.rest, e);
    CountConcat(sh.dropped, pc.chunk, e);
    assert Held(pc) == pc.chunk + pc.rest && Undecided(pc) == Pending(pc.then_);
  }

  lemma {:induction false} ControlBalances(cfg: Config, sh: Shared, pc: Pc, ok: bool, e: LogEntry, held: int, undecided: int)
    requires cfg.Valid() && !Done(pc) && !InEnqueue(pc) && !InFlush(pc)
    requires Balanced(sh, e, held + Count(Held(pc), e), undecided + Count(Undecided(pc), e))
    ensures var m := StepMove(cfg, sh, pc, ok);
            Balanced(m.sh, e, held + Count(Held(m.pc), e), undecided + Count(Undecided(m.pc), e))
  {
    hide EnqueueMove, FlushMove;
    assert Count([], e) == 0;
  }

  lemma {:induction false} MoveCountsDrops(cfg: Config, sh: Shared, pc: Pc, ok: bool)
    requires cfg.Valid() && !Done(pc) && sh.dropCount == |sh.dropped|
    ensures var m := StepMove(cfg, sh, pc, ok); m.sh.dropCount == |m.sh.dropped|
  {
  }

  ghost predicate BalancedIn(s: State, e: LogEntry) {
    Balanced(s.sh, e, Total(s.threads, HeldOf(e)), Total(s.threads, UndecidedOf(e)))
  }

  lemma {:induction false} RunBalances(cfg: Config, s: State, t: nat, ok: bool, e: LogEntry)
    requires cfg.Valid() && Enabled(s, Run(t, ok)) && BalancedIn(s, e)
    ensures BalancedIn(Next(cfg, s, Run(t, ok)), e)
  {
    hide Balanced, StepMove, Held, Undecided, Count;
    var pc, pc' := s.threads[t], StepMove(cfg, s.sh, s.threads[t], ok).pc;
    TotalUpdate(s.threads, t, pc', HeldOf(e));
    TotalUpdate(s.threads, t, pc', UndecidedOf(e));
    MoveBalances(cfg, s.sh, pc, ok, e, Total(s.threads, HeldOf(e)) - Count(Held(pc), e),
                 Total(s.threads, UndecidedOf(e)) - Count(Undecided(pc), e));
  }

  lemma {:induction false} CallBalances(cfg: Config, s: State, a: Action, e: LogEntry)
    requires cfg.Valid() && !a.Run? && BalancedIn(s, e)
    ensures BalancedIn(Next(cfg, s, a), e)
  {
    assert Count([], e) == 0;
    var pc := Next(cfg, s, a).threads[|s.threads|];
    TotalAppend(s.threads, pc, HeldOf(e));
    TotalAppend(s.threads, pc, UndecidedOf(e));
    if a.CallEnqueue? {
      CountConcat(s.sh.offered, a.batch, e);
    }
  }

  lemma {:induction false} NextConserves(cfg: Config, s: State, a: Action)
    requires cfg.Valid() && Enabled(s, a) && Conserved(s)
    ensures Conserved(Next(cfg, s, a))
  {
    if a.Run? {
      MoveCountsDrops(cfg, s.sh, s.threads[a.t], a.ok);
    }
    hide BalancedIn, StepMove;
    forall e
      ensures BalancedIn(Next(cfg, s, a), e)
    {
      assert BalancedIn(s, e);
      if a.Run? {
        RunBalances(cfg, s, a.t, a.ok, e);
      } else {
        CallBalances(cfg, s, a, e);
      }
    }
  }

  // --- shutdown -----------------------------------------------------------------

  /** What one goroutine's step may do to the others' assumptions. */
  ghost predicate Progress(sh: Shared, sh': Shared) {
    && (sh.core.stopped ==> sh'.core.stopped)
    && (sh.closed ==> sh'.closed)
    && (sh.core.stopped && sh.core.buffer == [] ==> sh'.core.buffer == [])
  }

  lemma {:induction false} MoveProgress(cfg: Config, sh: Shared, pc: Pc, ok: bool)
    requires cfg.Valid() && !Done(pc) && |sh.core.buffer| <= cfg.maxQueueSize
    ensures Progress(sh, StepMove(cfg, sh, pc, ok).sh)
    ensures |StepMove(cfg, sh, pc, ok).sh.core.buffer| <= cfg.maxQueueSize
    ensures pc.Closing? || StepMove(cfg, sh, pc, ok).sh.closed == sh.closed
  {
    hide NextChunk;
  }

  lemma {:induction false} LoopMove(cfg: Config, sh: Shared, pc: Pc, ok: bool)
    requires cfg.Valid() && !Done(pc) && LoopInv(sh, pc) && (sh.closed ==> sh.core.stopped)
    requires pc.Ticking? ==> ok || sh.closed
    ensures LoopInv(StepMove(cfg, sh, pc, ok).sh, StepMove(cfg, sh, pc, ok).pc)
  {
  }

  lemma {:induction false} CallerMove(cfg: Config, sh: Shared, loop: Pc, t: nat, pc: Pc, ok: bool)
    requires cfg.Valid() && !Done(pc) && t > 0 && CallerInv(sh, loop, t, pc)
    requires pc.Waiting? ==> loop.Finished?
    ensures CallerInv(StepMove(cfg, sh, pc, ok).sh, loop, t, StepMove(cfg, sh, pc, ok).pc)
    ensures StepMove(cfg, sh, pc, ok).sh.closed ==> sh.closed || sh.core.stopped
  {
  }

  lemma {:induction false} NextShutdown(cfg: Config, s: State, a: Action)
    requires cfg.Valid() && Enabled(s, a) && Shutdown(s) && |s.sh.core.buffer| <= cfg.maxQueueSize
    ensures Shutdown(Next(cfg, s, a)) && |Next(cfg, s, a).sh.core.buffer| <= cfg.maxQueueSize
  {
    if a.Run? {
      MoveProgress(cfg, s.sh, s.threads[a.t], a.ok);
      if a.t == 0 {
        LoopMove(cfg, s.sh, s.threads[0], a.ok);
      } else {
        CallerMove(cfg, s.sh, s.threads[0], a.t, s.threads[a.t], a.ok);
      }
      hide StepMove;
    }
  }

  lemma {:induction false} NextInv(cfg: Config, s: State, a: Action)
    requires cfg.Valid() && Enabled(s, a) && Inv(cfg, s)
    ensures Inv(cfg, Next(cfg, s, a))
  {
    hide Conserved, Shutdown, Next;
    NextConserves(cfg, s, a);
    NextShutdown(cfg, s, a);
  }

  // -------------------------------------------------------------------------
  // Every run
  // -------------------------------------------------------------------------

  ghost predicate Legal(cfg: Config, s: State, run: seq<Action>)
    requires cfg.Valid()
    decreases |run|
  {
    run != [] ==> Enabled(s, run[0]) && Legal(cfg, Next(cfg, s, run[0]), run[1..])
  }

  function Exec(cfg: Config, s: State, run: seq<Action>): State
    requires cfg.Valid() && Legal(cfg, s, run)
    decreases |run|
  {
    if run == [] then s else Exec(cfg, Next(cfg, s, run[0]), run[1..])
  }

  lemma {:induction false} InitialBalanced(e: LogEntry)
    ensures BalancedIn(INITIAL, e)
  {
    assert Count([], e) == 0;
    assert HeldOf(e)(Ticking) == 0 && UndecidedOf(e)(Ticking) == 0;
    hide Count, HeldOf, UndecidedOf;
    TotalZero([Ticking], HeldOf(e));
    TotalZero([Ticking], UndecidedOf(e));
    hide Total;
  }

  lemma {:induction false} InitialInv(cfg: Config)
    requires cfg.Valid()
    ensures Inv(cfg, INITIAL)
  {
    hide BalancedIn;
    forall e
      ensures BalancedIn(INITIAL, e)
    {
      InitialBalanced(e);
    }
  }

  lemma {:induction false} ExecInv(cfg: Config, s: State, run: seq<Action>)
    requires cfg.Valid() && Legal(cfg, s, run) && Inv(cfg, s)
    ensures Inv(cfg, Exec(cfg, s, run))
    decreases |run|
  {
    if run != [] {
      NextInv(cfg, s, run[0]);
      ExecInv(cfg, Next(cfg, s, run[0]), run[1..]);
    }
  }

  lemma {:induction false} ReachableInv(cfg: Config, run: seq<Action>)
    requires cfg.Valid() && Legal(cfg, INITIAL, run)
    ensures Inv(cfg, Exec(cfg, INITIAL, run))
  {
    hide Inv;
    InitialInv(cfg);
    ExecInv(cfg, INITIAL, run);
  }

  /** Conservation at every step of every interleaving, and the capacity bound. */
  lemma {:induction false} Conservation(cfg: Config, run: seq<Action>)
    requires cfg.Valid() && Legal(cfg, INITIAL, run)
    ensures Conserved(Exec(cfg, INITIAL, run))
    ensures |Exec(cfg, INITIAL, run).sh.core.buffer| <= cfg.maxQueueSize
  {
    ReachableInv(cfg, run);
  }

  /**
   Of what was offered, only what no Enqueue call turned away or has yet to decide is
   anywhere; an entry all of whose calls returned an error has left no trace.
   */
  lemma {:induction false} RejectedNowhere(cfg: Config, run: seq<Action>, e: LogEntry)
    requires cfg.Valid() && Legal(cfg, INITIAL, run)
    ensures var s := Exec(cfg, INITIAL, run); var sh := s.sh;
      && Count(sh.persisted, e) + Count(sh.core.buffer, e) + Total(s.threads, HeldOf(e)) + Count(sh.dropped, e)
           == Count(sh.offered, e) - Count(sh.rejected, e) - Total(s.threads, UndecidedOf(e))
      && (Count(sh.rejected, e) == Count(sh.offered, e) ==>
            && e !in sh.persisted && e !in sh.core.buffer && e !in sh.dropped
            && forall t :: 0 <= t < |s.threads| ==> e !in Held(s.threads[t]))
  {
    ReachableInv(cfg, run);
    var s := Exec(cfg, INITIAL, run);
    hide Exec, Shutdown;
    assert BalancedIn(s, e);
    if Count(s.sh.rejected, e) == Count(s.sh.offered, e) {
      NoTrace(s, e);
    }
  }

  lemma {:induction false} NoTrace(s: State, e: LogEntry)
    requires BalancedIn(s, e) && Count(s.sh.rejected, e) == Count(s.sh.offered, e)
    ensures e !in s.sh.persisted && e !in s.sh.core.buffer && e !in s.sh.dropped
    ensures forall t :: 0 <= t < |s.threads| ==> e !in Held(s.threads[t])
  {
    TotalNonNegative(s.threads, HeldOf(e));
    TotalNonNegative(s.threads, UndecidedOf(e));
    CountsMembers(s.sh.persisted, e);
    CountsMembers(s.sh.core.buffer, e);
    CountsMembers(s.sh.dropped, e);
    forall t | 0 <= t < |s.threads|
      ensures e !in Held(s.threads[t])
    {
      TotalAtLeast(s.threads, t, HeldOf(e));
      CountsMembers(Held(s.threads[t]), e);
    }
  }

  lemma {:induction false} CountsMembers(s: Batch, e: LogEntry)
    ensures e in s <==> Count(s, e) > 0
    ensures Count(s, e) == multiset(s)[e]
  {
    if s != [] {
      assert s == [s[0]] + s[1..];
      CountsMembers(s[1..], e);
    }
  }

  /** From the return of the Stop that shut the queue down, the buffer is empty for good. */
  lemma {:induction false} StopLeavesBufferEmpty(cfg: Config, run: seq<Action>, later: seq<Action>, t: nat)
    requires cfg.Valid() && Legal(cfg, INITIAL, run) && Legal(cfg, Exec(cfg, INITIAL, run), later)
    requires t < |Exec(cfg, INITIAL, run).threads| && Exec(cfg, INITIAL, run).threads[t] == StopReturned
    ensures Exec(cfg, Exec(cfg, INITIAL, run), later).sh.core.buffer == []
  {
    ReachableInv(cfg, run);
    assert Exec(cfg, INITIAL, run).threads[0].Finished?;
    hide Inv;
    StaysDrained(cfg, Exec(cfg, INITIAL, run), later);
  }

  lemma {:induction false} StaysDrained(cfg: Config, s: State, run: seq<Action>)
    requires cfg.Valid() && Legal(cfg, s, run) && Inv(cfg, s) && s.threads[0].Finished?
    ensures Exec(cfg, s, run).sh.core.buffer == []
    decreases |run|
  {
    if run != [] {
      NextInv(cfg, s, run[0]);
      StaysDrained(cfg, Next(cfg, s, run[0]), run[1..]);
    }
  }

  predicate Quiescent(s: State) {
    forall t :: 0 <= t < |s.threads| ==> Done(s.threads[t])
  }

  /** Once every goroutine is done, each accepted entry is persisted or was counted as dropped. */
  lemma {:induction false} NothingStranded(cfg: Config, run: seq<Action>)
    requires cfg.Valid() && Legal(cfg, INITIAL, run) && Quiescent(Exec(cfg, INITIAL, run))
    ensures var sh := Exec(cfg, INITIAL, run).sh;
            && multiset(sh.accepted) == multiset(sh.persisted) + multiset(sh.dropped)
            && multiset(sh.offered) == multiset(sh.accepted) + multiset(sh.rejected)
            && sh.dropCount == |sh.dropped|
  {
    ReachableInv(cfg, run);
    var s := Exec(cfg, INITIAL, run);
    assert LoopLeaving(s.threads[0]);
    hide Exec, Shutdown;
    forall e
      ensures multiset(s.sh.accepted)[e] == multiset(s.sh.persisted)[e] + multiset(s.sh.dropped)[e]
      ensures multiset(s.sh.offered)[e] == multiset(s.sh.accepted)[e] + multiset(s.sh.rejected)[e]
    {
      SettledEntry(s, e);
    }
  }

  lemma {:induction false} SettledEntry(s: State, e: LogEntry)
    requires BalancedIn(s, e) && Quiescent(s) && s.sh.core.buffer == []
    ensures multiset(s.sh.accepted)[e] == multiset(s.sh.persisted)[e] + multiset(s.sh.dropped)[e]
    ensures multiset(s.sh.offered)[e] == multiset(s.sh.accepted)[e] + multiset(s.sh.rejected)[e]
  {
    TotalZero(s.threads, HeldOf(e));
    TotalZero(s.threads, UndecidedOf(e));
    CountsMembers(s.sh.accepted, e);
    CountsMembers(s.sh.persisted, e);
    CountsMembers(s.sh.dropped, e);
    CountsMembers(s.sh.offered, e);
    CountsMembers(s.sh.rejected, e);
  }
}
