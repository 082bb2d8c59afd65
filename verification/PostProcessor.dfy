/**
 The side-effect pool behind ingest (internal/ingest/postprocess.go) as a state
 machine: request goroutines hand batches to a bounded channel, workers drain it,
 and the pool may be stopped and started again at any time.

 A step is one channel operation, one atomic-counter operation, one run of
 processAfterInsert, one RLock/RUnlock, or one section under the write lock.
 Writers exclude readers, so a write section needs no reader to be inside.
 */
module PostProcessor {
  import opened Sums

  const MAX_QUEUED_ENTRIES: nat := 5000

  /** A batch of `size` entries; `id` names it. */
  datatype Batch = Batch(id: nat, size: nat)

  datatype Option<T> = None | Some(value: T)

  /** One postProcessor; `worker` is the goroutine number of its first worker. */
  datatype Pool = Pool(jobs: seq<Batch>, capacity: nat, closed: bool, queued: int, worker: nat)

  datatype Pc =
    | Entering(batch: Batch)                          // enqueuePostprocess, before RLock
    | Checking(batch: Batch, pool: Option<nat>)       // read-locked, about to look at queued
    | Sending(batch: Batch, i: nat)                   // read-locked, at the select
    | Adding(batch: Batch, i: nat)                    // read-locked, sent, about to add to queued
    | Leaving(then_: Option<Batch>)                   // read-locked, at RUnlock
    | Inline(batch: Batch)                            // processing on the caller
    | Receiving(i: nat)                               // worker, at the channel
    | Processing(i: nat, batch: Batch)                // worker, running the side effects
    | Subtracting(i: nat, batch: Batch)               // worker, about to subtract from queued
    | Exited(i: nat)                                  // worker, after the channel was closed and drained
    | Awaiting(i: nat)                                // StopPostProcessor, waiting for the workers
    | Drained(i: nat)                                 // StopPostProcessor returned nil
    | Finished

  datatype Shared = Shared(pools: seq<Pool>, current: Option<nat>, offered: seq<Batch>, processed: seq<Batch>)

  datatype State = State(sh: Shared, threads: seq<Pc>)

  const INITIAL := State(Shared([], None, [], []), [])

  predicate Reading(pc: Pc) {
    pc.Checking? || pc.Sending? || pc.Adding? || pc.Leaving?
  }

  predicate Working(pc: Pc, i: nat) {
    (pc.Receiving? || pc.Processing? || pc.Subtracting?) && pc.i == i
  }

  predicate Done(pc: Pc) {
    pc.Finished? || pc.Exited? || pc.Drained?
  }

  datatype Action =
    | Call(batch: Batch)
    | Start(workers: int, queueSize: int)
    | Stop
    | Run(t: nat, giveUp: bool)                       // giveUp: a waiting Stop's context expired

  function SetPool(sh: Shared, i: nat, p: Pool): Shared
    requires i < |sh.pools|
  {
    sh.(pools := sh.pools[i := p])
  }

  /** The pools a goroutine refers to exist. */
  predicate Refers(sh: Shared, pc: Pc) {
    match pc
    case Checking(_, pool) => pool.Some? ==> pool.value < |sh.pools|
    case Sending(_, i) => i < |sh.pools|
    case Adding(_, i) => i < |sh.pools|
    case Receiving(i) => i < |sh.pools|
    case Processing(i, _) => i < |sh.pools|
    case Subtracting(i, _) => i < |sh.pools|
    case Exited(i) => i < |sh.pools|
    case Awaiting(i) => i < |sh.pools|
    case Drained(i) => i < |sh.pools|
    case _ => true
  }

  predicate Enabled(s: State, a: Action) {
    match a
    case Call(_) => true
    case Start(_, _) => forall t :: 0 <= t < |s.threads| ==> !Reading(s.threads[t])
    case Stop => forall t :: 0 <= t < |s.threads| ==> !Reading(s.threads[t])
    case Run(t, giveUp) =>
      && t < |s.threads|
      && !Done(s.threads[t])
      && Refers(s.sh, s.threads[t])
      && match s.threads[t]
         case Receiving(i) => s.sh.pools[i].jobs != [] || s.sh.pools[i].closed
         case Awaiting(i) => giveUp || forall u :: 0 <= u < |s.threads| ==> !Working(s.threads[u], i)
         case _ => true
  }

  datatype Move = Move(sh: Shared, pc: Pc)

  function StepMove(sh: Shared, pc: Pc, giveUp: bool): Move
    requires Refers(sh, pc) && !Done(pc)
  {
    match pc
    case Entering(batch) => Move(sh, Checking(batch, sh.current))
    case Checking(batch, pool) =>
      if pool.Some? && sh.pools[pool.value].queued + batch.size <= MAX_QUEUED_ENTRIES
      then Move(sh, Sending(batch, pool.value))
      else Move(sh, Leaving(Some(batch)))
    case Sending(batch, i) =>
      var p := sh.pools[i];
      if |p.jobs| < p.capacity
      then Move(SetPool(sh, i, p.(jobs := p.jobs + [batch])), Adding(batch, i))
      else Move(sh, Leaving(Some(batch)))
    case Adding(batch, i) =>
      var p := sh.pools[i];
      Move(SetPool(sh, i, p.(queued := p.queued + batch.size)), Leaving(None))
    case Leaving(then_) => Move(sh, if then_.Some? then Inline(then_.value) else Finished)
    case Inline(batch) => Move(sh.(processed := sh.processed + [batch]), Finished)
    case Receiving(i) =>
      var p := sh.pools[i];
      if p.jobs != []
      then Move(SetPool(sh, i, p.(jobs := p.jobs[1..])), Processing(i, p.jobs[0]))
      else Move(sh, Exited(i))
    case Processing(i, batch) => Move(sh.(processed := sh.processed + [batch]), Subtracting(i, batch))
    case Subtracting(i, batch) =>
      var p := sh.pools[i];
      Move(SetPool(sh, i, p.(queued := p.queued - batch.size)), Receiving(i))
    case Awaiting(i) => Move(sh, if giveUp then Finished else Drained(i))
  }

  function Max(a: int, b: int): int { if a < b then b else a }

  function Workers(n: nat, i: nat): (ws: seq<Pc>)
    ensures |ws| == n && forall k :: 0 <= k < n ==> ws[k] == Receiving(i)
  {
    seq(n, _ => Receiving(i))
  }

  function Next(s: State, a: Action): State
    requires Enabled(s, a)
  {
    match a
    case Call(batch) =>
      State(s.sh.(offered := s.sh.offered + [batch]), s.threads + [Entering(batch)])
    case Start(workers, queueSize) =>
      if s.sh.current.Some? then s
      else
        var i := |s.sh.pools|;
        State(s.sh.(pools := s.sh.pools + [Pool([], Max(1, queueSize), false, 0, |s.threads|)], current := Some(i)),
              s.threads + Workers(Max(1, workers), i))
    case Stop =>
      if s.sh.current.Some? && s.sh.current.value < |s.sh.pools| then
        var i := s.sh.current.value;
        State(SetPool(s.sh, i, s.sh.pools[i].(closed := true)).(current := None), s.threads + [Awaiting(i)])
      else s
    case Run(t, giveUp) =>
      var m := StepMove(s.sh, s.threads[t], giveUp);
      State(m.sh, s.threads[t := m.pc])
  }

  // -------------------------------------------------------------------------
  // Lock discipline and shutdown
  // -------------------------------------------------------------------------

  /** The pool a reader works on. */
  function Used(pc: Pc): Option<nat> {
    if pc.Checking? then pc.pool else if pc.Sending? || pc.Adding? then Some(pc.i) else None
  }

  ghost predicate ThreadInv(sh: Shared, pc: Pc) {
    && Refers(sh, pc)
    && (Used(pc).Some? ==> sh.current == Used(pc))
    && (pc.Exited? ==> sh.pools[pc.i].closed && sh.pools[pc.i].jobs == [])
    && (pc.Awaiting? || pc.Drained? ==> sh.pools[pc.i].closed)
    && (pc.Drained? ==> sh.pools[pc.i].jobs == [])
  }

  ghost predicate PoolInv(s: State, i: nat)
    requires i < |s.sh.pools|
  {
    && (s.sh.pools[i].closed <==> s.sh.current != Some(i))
    && s.sh.pools[i].worker < |s.threads|
    && (Working(s.threads[s.sh.pools[i].worker], i) || s.threads[s.sh.pools[i].worker] == Exited(i))
  }

  ghost predicate Safe(s: State) {
    && (s.sh.current.Some? ==> s.sh.current.value < |s.sh.pools|)
    && (forall t :: 0 <= t < |s.threads| ==> ThreadInv(s.sh, s.threads[t]))
    && (forall i :: 0 <= i < |s.sh.pools| ==> PoolInv(s, i))
  }

  /** What a running goroutine may change of the pools: no pool is closed or forgotten, a closed one gets no jobs. */
  ghost predicate Gentle(sh: Shared, sh': Shared) {
    && sh'.current == sh.current && |sh'.pools| == |sh.pools|
    && (forall i :: 0 <= i < |sh.pools| ==>
          && sh'.pools[i].closed == sh.pools[i].closed
          && sh'.pools[i].worker == sh.pools[i].worker
          && (sh.pools[i].closed && sh.pools[i].jobs == [] ==> sh'.pools[i].jobs == []))
  }

  ghost predicate CurrentOpen(sh: Shared) {
    sh.current.Some? ==> sh.current.value < |sh.pools| && !sh.pools[sh.current.value].closed
  }

  lemma {:induction false} MoveGentle(sh: Shared, pc: Pc, giveUp: bool)
    requires ThreadInv(sh, pc) && !Done(pc) && CurrentOpen(sh)
    ensures Gentle(sh, StepMove(sh, pc, giveUp).sh)
  {
  }

  lemma {:induction false} MoveThreadInv(sh: Shared, pc: Pc, giveUp: bool)
    requires ThreadInv(sh, pc) && !Done(pc) && CurrentOpen(sh)
    requires pc.Receiving? ==> sh.pools[pc.i].jobs != [] || sh.pools[pc.i].closed
    requires pc.Awaiting? ==> giveUp || sh.pools[pc.i].jobs == []
    ensures ThreadInv(StepMove(sh, pc, giveUp).sh, StepMove(sh, pc, giveUp).pc)
  {
  }

  lemma {:induction false} GentleThread(sh: Shared, sh': Shared, pc: Pc)
    requires Gentle(sh, sh') && ThreadInv(sh, pc)
    ensures ThreadInv(sh', pc)
  {
  }

  lemma {:induction false} SafeOpen(s: State)
    requires Safe(s)
    ensures CurrentOpen(s.sh)
  {
    if s.sh.current.Some? {
      assert PoolInv(s, s.sh.current.value);
    }
  }

  lemma {:induction false} AwaitedIsDrained(s: State, i: nat)
    requires Safe(s) && i < |s.sh.pools|
    requires forall u :: 0 <= u < |s.threads| ==> !Working(s.threads[u], i)
    ensures s.sh.pools[i].closed && s.sh.pools[i].jobs == []
  {
    assert PoolInv(s, i);
    assert ThreadInv(s.sh, s.threads[s.sh.pools[i].worker]);
  }

  lemma {:induction false} RunSafe(s: State, t: nat, giveUp: bool)
    requires Safe(s) && Enabled(s, Run(t, giveUp))
    ensures Safe(Next(s, Run(t, giveUp)))
  {
    var pc := s.threads[t];
    SafeOpen(s);
    if pc.Awaiting? && !giveUp {
      AwaitedIsDrained(s, pc.i);
    }
    assert ThreadInv(s.sh, pc);
    MoveGentle(s.sh, pc, giveUp);
    MoveThreadInv(s.sh, pc, giveUp);
    var m := StepMove(s.sh, pc, giveUp);
    assert forall i :: Working(pc, i) ==> Working(m.pc, i) || m.pc == Exited(i);
    hide StepMove, ThreadInv;
    var s' := State(m.sh, s.threads[t := m.pc]);
    forall u | 0 <= u < |s'.threads|
      ensures ThreadInv(s'.sh, s'.threads[u])
    {
      if u != t {
        assert ThreadInv(s.sh, s.threads[u]);
        GentleThread(s.sh, m.sh, s.threads[u]);
      }
    }
    forall i | 0 <= i < |s'.sh.pools|
      ensures PoolInv(s', i)
    {
      assert PoolInv(s, i);
    }
  }

  lemma {:induction false} CallSafe(s: State, batch: Batch)
    requires Safe(s)
    ensures Safe(Next(s, Call(batch)))
  {
    var s' := Next(s, Call(batch));
    forall u | 0 <= u < |s'.threads|
      ensures ThreadInv(s'.sh, s'.threads[u])
    {
      assert u < |s.threads| ==> ThreadInv(s.sh, s.threads[u]);
    }
    forall i | 0 <= i < |s'.sh.pools|
      ensures PoolInv(s', i)
    {
      assert PoolInv(s, i);
    }
  }

  lemma {:induction false} StartSafe(s: State, workers: int, queueSize: int)
    requires Safe(s) && Enabled(s, Start(workers, queueSize))
    ensures Safe(Next(s, Start(workers, queueSize)))
  {
    if s.sh.current.None? {
      var s' := Next(s, Start(workers, queueSize));
      forall u | 0 <= u < |s'.threads|
        ensures ThreadInv(s'.sh, s'.threads[u])
      {
        assert u < |s.threads| ==> ThreadInv(s.sh, s.threads[u]) && !Reading(s.threads[u]);
      }
      forall i | 0 <= i < |s'.sh.pools|
        ensures PoolInv(s', i)
      {
        assert i < |s.sh.pools| ==> PoolInv(s, i);
      }
    }
  }

  lemma {:induction false} StopSafe(s: State)
    requires Safe(s) && Enabled(s, Stop)
    ensures Safe(Next(s, Stop))
  {
    if s.sh.current.Some? {
      var s' := Next(s, Stop);
      forall u | 0 <= u < |s'.threads|
        ensures ThreadInv(s'.sh, s'.threads[u])
      {
        assert u < |s.threads| ==> ThreadInv(s.sh, s.threads[u]) && !Reading(s.threads[u]);
      }
      forall i | 0 <= i < |s'.sh.pools|
        ensures PoolInv(s', i)
      {
        assert PoolInv(s, i);
      }
    }
  }

  // -------------------------------------------------------------------------
  // Exactly-once processing and the entry counter
  // -------------------------------------------------------------------------

  ghost function Count(bs: seq<Batch>, b: Batch): nat {
    if bs == [] then 0 else (if bs[0] == b then 1 else 0) + Count(bs[1..], b)
  }

  lemma {:induction false} CountConcat(a: seq<Batch>, c: seq<Batch>, b: Batch)
    ensures Count(a + c, b) == Count(a, b) + Count(c, b)
  {
    if a == [] {
      assert a + c == c;
    } else {
      assert (a + c)[1..] == a[1..] + c;
      CountConcat(a[1..], c, b);
    }
  }

  ghost function Sizes(bs: seq<Batch>): nat {
    if bs == [] then 0 else bs[0].size + Sizes(bs[1..])
  }

  lemma {:induction false} SizesAppend(a: seq<Batch>, b: Batch)
    ensures Sizes(a + [b]) == Sizes(a) + b.size
  {
    if a == [] {
      assert a + [b] == [b];
    } else {
      assert (a + [b])[1..] == a[1..] + [b];
      SizesAppend(a[1..], b);
    }
  }

  /** The batch a goroutine still has to place or process. */
  function Carried(pc: Pc): Option<Batch> {
    match pc
    case Entering(batch) => Some(batch)
    case Checking(batch, _) => Some(batch)
    case Sending(batch, _) => Some(batch)
    case Leaving(then_) => then_
    case Inline(batch) => Some(batch)
    case Processing(_, batch) => Some(batch)
    case _ => None
  }

  ghost function Carries(b: Batch): Pc -> int { pc => if Carried(pc) == Some(b) then 1 else 0 }

  ghost function Waits(b: Batch): Pool -> int { (p: Pool) => Count(p.jobs, b) }

  /** Every call's batch is processed, queued or carried: b is so often offered. */
  ghost predicate Accounted(s: State, b: Batch) {
    Count(s.sh.offered, b) == Count(s.sh.processed, b) + Total(s.sh.pools, Waits(b)) + Total(s.threads, Carries(b))
  }

  /** What the counter of pool i owes: received and not yet subtracted, less sent and not yet added. */
  ghost function Owes(i: nat): Pc -> int {
    (pc: Pc) =>
      if (pc.Processing? || pc.Subtracting?) && pc.i == i then pc.batch.size
      else if pc.Adding? && pc.i == i then 0 - pc.batch.size
      else 0
  }

  ghost predicate Metered(s: State, i: nat)
    requires i < |s.sh.pools|
  {
    s.sh.pools[i].queued == Sizes(s.sh.pools[i].jobs) + Total(s.threads, Owes(i))
  }

  /** Where a Stop saw the pool drained, its workers are gone for good. */
  ghost predicate Abandoned(s: State) {
    forall t, u :: 0 <= t < |s.threads| && 0 <= u < |s.threads| && s.threads[t].Drained?
      ==> !Working(s.threads[u], s.threads[t].i)
  }

  ghost predicate Inv(s: State) {
    && Safe(s)
    && Abandoned(s)
    && (forall b :: Accounted(s, b))
    && (forall i :: 0 <= i < |s.sh.pools| ==> Metered(s, i))
  }

  lemma {:induction false} RunAccounted(s: State, t: nat, giveUp: bool, b: Batch)
    requires Enabled(s, Run(t, giveUp)) && Accounted(s, b)
    ensures Accounted(Next(s, Run(t, giveUp)), b)
  {
    var pc, m := s.threads[t], StepMove(s.sh, s.threads[t], giveUp);
    TotalUpdate(s.threads, t, m.pc, Carries(b));
    MoveAccounted(s.sh, pc, giveUp, b);
    hide StepMove, Accounted;
    assert Next(s, Run(t, giveUp)) == State(m.sh, s.threads[t := m.pc]);
  }

  lemma {:induction false} MoveAccounted(sh: Shared, pc: Pc, giveUp: bool, b: Batch)
    requires Refers(sh, pc) && !Done(pc)
    ensures var m := StepMove(sh, pc, giveUp);
            && m.sh.offered == sh.offered
            && Count(m.sh.processed, b) + Total(m.sh.pools, Waits(b)) + Carries(b)(m.pc)
            == Count(sh.processed, b) + Total(sh.pools, Waits(b)) + Carries(b)(pc)
  {
    if pc.Sending? || pc.Adding? || pc.Receiving? || pc.Subtracting? {
      PoolMoveAccounted(sh, pc, giveUp, b);
    } else if pc.Inline? || pc.Processing? {
      CountConcat(sh.processed, [pc.batch], b);
    }
  }

  lemma {:induction false} PoolMoveAccounted(sh: Shared, pc: Pc, giveUp: bool, b: Batch)
    requires Refers(sh, pc) && !Done(pc)
    requires pc.Sending? || pc.Adding? || pc.Receiving? || pc.Subtracting?
    ensures var m := StepMove(sh, pc, giveUp);
            && m.sh.offered == sh.offered
            && Count(m.sh.processed, b) + Total(m.sh.pools, Waits(b)) + Carries(b)(m.pc)
            == Count(sh.processed, b) + Total(sh.pools, Waits(b)) + Carries(b)(pc)
  {
    var m := StepMove(sh, pc, giveUp);
    assert m.sh.pools == sh.pools[pc.i := m.sh.pools[pc.i]];
    JobsMoved(sh, pc, giveUp, b);
    hide StepMove, Count;
    TotalUpdate(sh.pools, pc.i, m.sh.pools[pc.i], Waits(b));
  }

  /** What leaves a goroutine's hands enters its pool's channel, and the other way round. */
  lemma {:induction false} JobsMoved(sh: Shared, pc: Pc, giveUp: bool, b: Batch)
    requires Refers(sh, pc) && !Done(pc)
    requires pc.Sending? || pc.Adding? || pc.Receiving? || pc.Subtracting?
    ensures var m := StepMove(sh, pc, giveUp);
            && pc.i < |m.sh.pools| && m.sh.offered == sh.offered && m.sh.processed == sh.processed
            && Count(m.sh.pools[pc.i].jobs, b) + Carries(b)(m.pc) == Count(sh.pools[pc.i].jobs, b) + Carries(b)(pc)
  {
    if pc.Sending? {
      CountConcat(sh.pools[pc.i].jobs, [pc.batch], b);
    }
  }

  lemma {:induction false} CallAccounted(s: State, a: Action, b: Batch)
    requires !a.Run? && Enabled(s, a) && Accounted(s, b)
    ensures Accounted(Next(s, a), b)
  {
    hide Accounted;
    match a
    case Call(batch) => CalledAccounted(s, batch, b);
    case Start(workers, queueSize) => StartedAccounted(s, workers, queueSize, b);
    case Stop => StoppedAccounted(s, b);
  }

  lemma {:induction false} CalledAccounted(s: State, batch: Batch, b: Batch)
    requires Accounted(s, b)
    ensures Accounted(Next(s, Call(batch)), b)
  {
    CountConcat(s.sh.offered, [batch], b);
    TotalAppend(s.threads, Entering(batch), Carries(b));
  }

  lemma {:induction false} StartedAccounted(s: State, workers: int, queueSize: int, b: Batch)
    requires Enabled(s, Start(workers, queueSize)) && Accounted(s, b)
    ensures Accounted(Next(s, Start(workers, queueSize)), b)
  {
    if s.sh.current.None? {
      var s' := Next(s, Start(workers, queueSize));
      var ws := Workers(Max(1, workers), |s.sh.pools|);
      TotalConcat(s.threads, ws, Carries(b));
      TotalZero(ws, Carries(b));
      TotalAppend(s.sh.pools, s'.sh.pools[|s.sh.pools|], Waits(b));
    }
  }

  lemma {:induction false} StoppedAccounted(s: State, b: Batch)
    requires Enabled(s, Stop) && Accounted(s, b)
    ensures Accounted(Next(s, Stop), b)
  {
    var s' := Next(s, Stop);
    if s' != s {
      var i := s.sh.current.value;
      TotalAppend(s.threads, Awaiting(i), Carries(b));
      TotalUpdate(s.sh.pools, i, s'.sh.pools[i], Waits(b));
    }
  }

  lemma {:induction false} MoveMetered(sh: Shared, pc: Pc, giveUp: bool, i: nat)
    requires Refers(sh, pc) && !Done(pc) && i < |sh.pools|
    ensures var m := StepMove(sh, pc, giveUp);
            && |m.sh.pools| == |sh.pools|
            && m.sh.pools[i].queued - Sizes(m.sh.pools[i].jobs) - Owes(i)(m.pc)
            == sh.pools[i].queued - Sizes(sh.pools[i].jobs) - Owes(i)(pc)
  {
    if pc.Sending? {
      SizesAppend(sh.pools[pc.i].jobs, pc.batch);
    }
  }

  lemma {:induction false} NextMetered(s: State, a: Action, i: nat)
    requires Enabled(s, a) && i < |Next(s, a).sh.pools|
    requires i < |s.sh.pools| ==> Metered(s, i)
    requires forall t :: 0 <= t < |s.threads| ==> Refers(s.sh, s.threads[t])
    ensures Metered(Next(s, a), i)
  {
    match a
    case Call(batch) =>
      TotalAppend(s.threads, Entering(batch), Owes(i));
    case Start(workers, queueSize) =>
      if s.sh.current.None? {
        var ws := Workers(Max(1, workers), |s.sh.pools|);
        TotalConcat(s.threads, ws, Owes(i));
        TotalZero(ws, Owes(i));
        if i == |s.sh.pools| {
          TotalZero(s.threads, Owes(i));
        }
      }
    case Stop =>
      if Next(s, a) != s {
        TotalAppend(s.threads, Awaiting(s.sh.current.value), Owes(i));
      }
    case Run(t, giveUp) =>
      RunMetered(s, t, giveUp, i);
  }

  lemma {:induction false} RunMetered(s: State, t: nat, giveUp: bool, i: nat)
    requires Enabled(s, Run(t, giveUp)) && i < |s.sh.pools| && Metered(s, i)
    ensures i < |Next(s, Run(t, giveUp)).sh.pools| && Metered(Next(s, Run(t, giveUp)), i)
  {
    var m := StepMove(s.sh, s.threads[t], giveUp);
    MoveMetered(s.sh, s.threads[t], giveUp, i);
    TotalUpdate(s.threads, t, m.pc, Owes(i));
    hide StepMove, Owes, Sizes;
  }

  lemma {:induction false} NextAbandoned(s: State, a: Action)
    requires Enabled(s, a) && Abandoned(s) && Safe(s)
    ensures Abandoned(Next(s, a))
  {
    assert forall t :: 0 <= t < |s.threads| ==> Refers(s.sh, s.threads[t]);
    if a.Run? {
      var pc, m := s.threads[a.t], StepMove(s.sh, s.threads[a.t], a.giveUp);
      assert forall i :: Working(m.pc, i) ==> Working(pc, i);
      assert m.pc.Drained? ==> pc == Awaiting(m.pc.i) && !a.giveUp;
      hide StepMove, Safe;
    } else {
      hide Safe;
    }
  }

  lemma {:induction false} NextInv(s: State, a: Action)
    requires Inv(s) && Enabled(s, a)
    ensures Inv(Next(s, a))
  {
    match a {
      case Call(batch) => CallSafe(s, batch);
      case Start(workers, queueSize) => StartSafe(s, workers, queueSize);
      case Stop => StopSafe(s);
      case Run(t, giveUp) => RunSafe(s, t, giveUp);
    }
    NextAbandoned(s, a);
    assert forall t :: 0 <= t < |s.threads| ==> Refers(s.sh, s.threads[t]);
    var s' := Next(s, a);
    hide Safe, Next, Abandoned, Enabled, Refers;
    forall b
      ensures Accounted(s', b)
    {
      assert Accounted(s, b);
      if a.Run? {
        RunAccounted(s, a.t, a.giveUp, b);
      } else {
        CallAccounted(s, a, b);
      }
    }
    forall i | 0 <= i < |s'.sh.pools|
      ensures Metered(s', i)
    {
      NextMetered(s, a, i);
    }
  }

  // -------------------------------------------------------------------------
  // Every run
  // -------------------------------------------------------------------------

  ghost predicate Legal(s: State, run: seq<Action>)
    decreases |run|
  {
    run != [] ==> Enabled(s, run[0]) && Legal(Next(s, run[0]), run[1..])
  }

  function Exec(s: State, run: seq<Action>): State
    requires Legal(s, run)
    decreases |run|
  {
    if run == [] then s else Exec(Next(s, run[0]), run[1..])
  }

  lemma {:induction false} ExecInv(s: State, run: seq<Action>)
    requires Legal(s, run) && Inv(s)
    ensures Inv(Exec(s, run))
    decreases |run|
  {
    hide Inv, Next, Enabled;
    if run != [] {
      NextInv(s, run[0]);
      ExecInv(Next(s, run[0]), run[1..]);
    }
  }

  lemma {:induction false} ReachableInv(run: seq<Action>)
    requires Legal(INITIAL, run)
    ensures Inv(Exec(INITIAL, run))
  {
    ExecInv(INITIAL, run);
  }

  /** No send ever meets a closed channel. */
  lemma {:induction false} NoSendOnClosed(run: seq<Action>, t: nat)
    requires Legal(INITIAL, run)
    requires t < |Exec(INITIAL, run).threads| && Exec(INITIAL, run).threads[t].Sending?
    ensures var s := Exec(INITIAL, run);
            s.threads[t].i < |s.sh.pools| && !s.sh.pools[s.threads[t].i].closed
  {
    ReachableInv(run);
    var s := Exec(INITIAL, run);
    assert ThreadInv(s.sh, s.threads[t]);
    SafeOpen(s);
  }

  /** No batch is processed more often than it was handed over. */
  lemma {:induction false} NeverTwice(run: seq<Action>, b: Batch)
    requires Legal(INITIAL, run)
    ensures Count(Exec(INITIAL, run).sh.processed, b) <= Count(Exec(INITIAL, run).sh.offered, b)
  {
    ReachableInv(run);
    var s := Exec(INITIAL, run);
    assert Accounted(s, b);
    TotalNonNegative(s.sh.pools, Waits(b));
    TotalNonNegative(s.threads, Carries(b));
  }

  /** Every goroutine is done, or is a worker waiting at an empty channel. */
  predicate Quiescent(s: State) {
    forall t :: 0 <= t < |s.threads| ==>
      || Done(s.threads[t])
      || (s.threads[t].Receiving? && Refers(s.sh, s.threads[t]) && s.sh.pools[s.threads[t].i].jobs == [])
  }

  lemma {:induction false} QuiescentPool(s: State, i: nat)
    requires Inv(s) && Quiescent(s) && i < |s.sh.pools|
    ensures s.sh.pools[i].jobs == [] && s.sh.pools[i].queued == 0
  {
    assert PoolInv(s, i) && Metered(s, i);
    assert ThreadInv(s.sh, s.threads[s.sh.pools[i].worker]);
    TotalZero(s.threads, Owes(i));
  }

  /** At rest every batch was processed exactly as often as it was handed over, and every counter is zero. */
  lemma {:induction false} ExactlyOnce(run: seq<Action>, b: Batch)
    requires Legal(INITIAL, run) && Quiescent(Exec(INITIAL, run))
    ensures Count(Exec(INITIAL, run).sh.processed, b) == Count(Exec(INITIAL, run).sh.offered, b)
    ensures forall i :: 0 <= i < |Exec(INITIAL, run).sh.pools| ==> Exec(INITIAL, run).sh.pools[i].queued == 0
  {
    hide Exec, Inv, Quiescent;
    ReachableInv(run);
    var s := Exec(INITIAL, run);
    forall i | 0 <= i < |s.sh.pools|
      ensures s.sh.pools[i].queued == 0
    {
      QuiescentPool(s, i);
    }
    QuiescentBatch(s, b);
  }

  lemma {:induction false} QuiescentBatch(s: State, b: Batch)
    requires Inv(s) && Quiescent(s)
    ensures Count(s.sh.processed, b) == Count(s.sh.offered, b)
  {
    assert Accounted(s, b);
    forall i | 0 <= i < |s.sh.pools|
      ensures Waits(b)(s.sh.pools[i]) == 0
    {
      QuiescentPool(s, i);
    }
    hide Inv, Safe;
    TotalZero(s.sh.pools, Waits(b));
    TotalZero(s.threads, Carries(b));
  }

  /** When Stop reports success, its pool has no job left, no worker and nothing on its counter. */
  lemma {:induction false} StopDrains(run: seq<Action>, t: nat)
    requires Legal(INITIAL, run)
    requires t < |Exec(INITIAL, run).threads| && Exec(INITIAL, run).threads[t].Drained?
    ensures var s := Exec(INITIAL, run); var i := s.threads[t].i;
            && i < |s.sh.pools| && s.sh.pools[i].jobs == [] && s.sh.pools[i].queued == 0
            && forall u :: 0 <= u < |s.threads| ==> !Working(s.threads[u], i)
  {
    ReachableInv(run);
    var s := Exec(INITIAL, run);
    var i := s.threads[t].i;
    assert ThreadInv(s.sh, s.threads[t]);
    assert PoolInv(s, i) && Metered(s, i);
    forall u | 0 <= u < |s.threads|
      ensures Owes(i)(s.threads[u]) == 0
    {
      assert ThreadInv(s.sh, s.threads[u]);
    }
    TotalZero(s.threads, Owes(i));
  }

  // -------------------------------------------------------------------------
  // The cap on queued entries
  // -------------------------------------------------------------------------

  predicate BetweenCheckAndAdd(pc: Pc) {
    pc.Sending? || pc.Adding?
  }

  ghost predicate OneEnqueuer(s: State) {
    forall t, u :: 0 <= t < u < |s.threads| ==>
      !(BetweenCheckAndAdd(s.threads[t]) && BetweenCheckAndAdd(s.threads[u]))
  }

  /** No two calls are ever between their look at the counter and their addition to it. */
  ghost predicate Serialised(s: State, run: seq<Action>)
    requires Legal(s, run)
    decreases |run|
  {
    OneEnqueuer(s) && (run != [] ==> Serialised(Next(s, run[0]), run[1..]))
  }

  ghost predicate Capped(s: State) {
    && (forall i :: 0 <= i < |s.sh.pools| ==> s.sh.pools[i].queued <= MAX_QUEUED_ENTRIES)
    && (forall t :: 0 <= t < |s.threads| && BetweenCheckAndAdd(s.threads[t]) && Refers(s.sh, s.threads[t])
          ==> s.sh.pools[s.threads[t].i].queued + s.threads[t].batch.size <= MAX_QUEUED_ENTRIES)
  }

  lemma {:induction false} NextCapped(s: State, a: Action)
    requires Enabled(s, a) && Capped(s) && OneEnqueuer(s)
    ensures Capped(Next(s, a))
  {
    if a.Run? {
      var m := StepMove(s.sh, s.threads[a.t], a.giveUp);
      RunCapped(s.sh, s.threads[a.t], a.giveUp);
      hide StepMove;
      var s' := State(m.sh, s.threads[a.t := m.pc]);
      forall u | 0 <= u < |s'.threads| && BetweenCheckAndAdd(s'.threads[u]) && Refers(s'.sh, s'.threads[u])
        ensures s'.sh.pools[s'.threads[u].i].queued + s'.threads[u].batch.size <= MAX_QUEUED_ENTRIES
      {
        assert u != a.t ==> !BetweenCheckAndAdd(s.threads[a.t]) && s'.threads[u] == s.threads[u];
      }
    }
  }

  /** A step raises a counter only from between look and addition, and only by what the look allowed. */
  lemma {:induction false} RunCapped(sh: Shared, pc: Pc, giveUp: bool)
    requires Refers(sh, pc) && !Done(pc)
    requires forall i :: 0 <= i < |sh.pools| ==> sh.pools[i].queued <= MAX_QUEUED_ENTRIES
    requires BetweenCheckAndAdd(pc) ==> sh.pools[pc.i].queued + pc.batch.size <= MAX_QUEUED_ENTRIES
    ensures var m := StepMove(sh, pc, giveUp);
            && |m.sh.pools| == |sh.pools|
            && (forall i :: 0 <= i < |sh.pools| ==> m.sh.pools[i].queued <= MAX_QUEUED_ENTRIES)
            && (!BetweenCheckAndAdd(pc) ==>
                  forall i :: 0 <= i < |sh.pools| ==> m.sh.pools[i].queued <= sh.pools[i].queued)
            && (BetweenCheckAndAdd(m.pc) ==>
                  m.pc.i < |sh.pools| && m.sh.pools[m.pc.i].queued + m.pc.batch.size <= MAX_QUEUED_ENTRIES)
  {
  }

  lemma {:induction false} ExecCapped(s: State, run: seq<Action>)
    requires Legal(s, run) && Serialised(s, run) && Capped(s)
    ensures Capped(Exec(s, run))
    decreases |run|
  {
    hide Capped, Next, Enabled;
    if run != [] {
      NextCapped(s, run[0]);
      ExecCapped(Next(s, run[0]), run[1..]);
    }
  }

  /** One enqueuer at a time keeps every counter within the cap. */
  lemma {:induction false} CapHolds(run: seq<Action>, i: nat)
    requires Legal(INITIAL, run) && Serialised(INITIAL, run) && i < |Exec(INITIAL, run).sh.pools|
    ensures Exec(INITIAL, run).sh.pools[i].queued <= MAX_QUEUED_ENTRIES
  {
    ExecCapped(INITIAL, run);
  }

  lemma {:induction false} Prepend(s: State, a: Action, rest: seq<Action>) returns (run: seq<Action>)
    requires Enabled(s, a) && Legal(Next(s, a), rest)
    ensures Legal(s, run) && Exec(s, run) == Exec(Next(s, a), rest)
  {
    run := [a] + rest;
    assert run[1..] == rest;
  }

  /**
   The look and the addition are not one step: two calls that both passed the look
   and find room in the channel push the counter past the cap whenever their
   batches together do.
   */
  lemma {:induction false} CapBreaks(s: State, t: nat, u: nat, i: nat) returns (run: seq<Action>)
    requires t < |s.threads| && u < |s.threads| && t != u && i < |s.sh.pools|
    requires s.threads[t].Sending? && s.threads[t].i == i && s.threads[u].Sending? && s.threads[u].i == i
    requires |s.sh.pools[i].jobs| + 2 <= s.sh.pools[i].capacity
    requires s.sh.pools[i].queued + s.threads[t].batch.size + s.threads[u].batch.size > MAX_QUEUED_ENTRIES
    ensures Legal(s, run)
    ensures i < |Exec(s, run).sh.pools| && Exec(s, run).sh.pools[i].queued > MAX_QUEUED_ENTRIES
    ensures Exec(s, run).sh.offered == s.sh.offered
  {
    var b, c := s.threads[t].batch, s.threads[u].batch;
    var s1 := Next(s, Run(t, false));
    assert s1.threads[t] == Adding(b, i) && s1.threads[u] == s.threads[u];
    var s2 := Next(s1, Run(u, false));
    assert s2.threads[t] == Adding(b, i) && s2.threads[u] == Adding(c, i);
    var s3 := Next(s2, Run(t, false));
    assert s3.threads[u] == Adding(c, i) && s3.sh.pools[i].queued == s.sh.pools[i].queued + b.size;
    var s4 := Next(s3, Run(u, false));
    assert s4.sh.pools[i].queued == s.sh.pools[i].queued + b.size + c.size;
    run := Prepend(s3, Run(u, false), []);
    run := Prepend(s2, Run(t, false), run);
    run := Prepend(s1, Run(u, false), run);
    run := Prepend(s, Run(t, false), run);
  }

  /** Both calls have looked, neither has added. */
  const BOTH_LOOKED := State(
    Shared([Pool([], 2, false, 0, 0)], Some(0), [Batch(0, 5000), Batch(1, 5000)], []),
    [Receiving(0), Sending(Batch(0, 5000), 0), Sending(Batch(1, 5000), 0)])

  lemma {:induction false} BothLook(s: State) returns (run: seq<Action>)
    requires s == BOTH_LOOKED.(threads := [Receiving(0), Entering(Batch(0, 5000)), Entering(Batch(1, 5000))])
    ensures Legal(s, run) && Exec(s, run) == BOTH_LOOKED
  {
    var s4 := Next(s, Run(1, false));
    var s5 := Next(s4, Run(2, false));
    assert s5.threads == [Receiving(0), Checking(Batch(0, 5000), Some(0)), Checking(Batch(1, 5000), Some(0))];
    var s6 := Next(s5, Run(1, false));
    assert s6.threads == [Receiving(0), Sending(Batch(0, 5000), 0), Checking(Batch(1, 5000), Some(0))];
    assert Next(s6, Run(2, false)) == BOTH_LOOKED;
    run := Prepend(s6, Run(2, false), []);
    hide Next, Exec, Legal, Enabled;
    run := Prepend(s5, Run(1, false), run);
    run := Prepend(s4, Run(2, false), run);
    run := Prepend(s, Run(1, false), run);
  }

  lemma {:induction false} ExecConcat(s: State, a: seq<Action>, b: seq<Action>)
    requires Legal(s, a) && Legal(Exec(s, a), b)
    ensures Legal(s, a + b) && Exec(s, a + b) == Exec(Exec(s, a), b)
    decreases |a|
  {
    hide Next, Enabled;
    if a == [] {
      assert a + b == b;
    } else {
      assert (a + b)[1..] == a[1..] + b;
      ExecConcat(Next(s, a[0]), a[1..], b);
    }
  }

  /** Two concurrent calls of 5000 entries each reach such a state from start-up. */
  lemma {:induction false} CapExceeded() returns (run: seq<Action>)
    ensures Legal(INITIAL, run)
    ensures |Exec(INITIAL, run).sh.pools| > 0 && Exec(INITIAL, run).sh.pools[0].queued > MAX_QUEUED_ENTRIES
    ensures |Exec(INITIAL, run).sh.offered| == 2
  {
    var b, c := Batch(0, 5000), Batch(1, 5000);
    var s1 := Next(INITIAL, Start(1, 2));
    assert s1.sh.pools == [Pool([], 2, false, 0, 0)] && s1.sh.current == Some(0) && s1.threads == [Receiving(0)];
    var s2 := Next(s1, Call(b));
    var s3 := Next(s2, Call(c));
    assert s3 == BOTH_LOOKED.(threads := [Receiving(0), Entering(b), Entering(c)]);
    hide Next, Exec, Legal, Enabled;
    var looks := BothLook(s3);
    run := CapBreaks(BOTH_LOOKED, 1, 2, 0);
    ExecConcat(s3, looks, run);
    run := Prepend(s2, Call(c), looks + run);
    run := Prepend(s1, Call(b), run);
    run := Prepend(INITIAL, Start(1, 2), run);
  }
}
