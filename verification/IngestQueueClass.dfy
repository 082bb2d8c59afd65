/**
 The queue object: the source's fields, methods and loops.  A call that no other
 goroutine interrupts leaves the queue exactly where the state machine's
 goroutine, stepped alone, leaves it.
 */
module IngestQueueClass {
  import opened IngestQueue

  // -------------------------------------------------------------------------
  // One goroutine stepped alone
  // -------------------------------------------------------------------------

  /** The queue and the fates of the BatchInsert calls still to come (none left: they fail). */
  datatype Alone = Alone(sh: Shared, fates: seq<bool>)

  predicate Inserts(pc: Pc) { pc.Inserting? || pc.Syncing? }

  predicate NextFate(fates: seq<bool>) { fates != [] && fates[0] }

  function LaterFates(fates: seq<bool>): seq<bool> { if fates == [] then [] else fates[1..] }

  predicate WellFormed(pc: Pc) {
    && !(pc.Ticking? || pc.Stopping? || pc.Closing? || pc.Waiting?)
    && (InFlush(pc) ==> pc.then_.Return? || pc.then_.Again?)
    && (pc.Inserting? || pc.Failing? || pc.Dropping? ==> pc.chunk != [])
    && (pc.Inserting? ==> 1 <= pc.attempt <= FLUSH_MAX_ATTEMPTS)
  }

  function Stage(pc: Pc): nat {
    match pc
    case Calling(_) => 6
    case Retrying(_) => 3
    case Syncing(_) => 1
    case Flushing(then_) => if then_.Again? then 5 else 2
    case Inserting(_, _, _, then_) => if then_.Again? then 4 else 1
    case Failing(_, _, then_) => if then_.Again? then 4 else 1
    case Dropping(_, _, then_) => if then_.Again? then 4 else 1
    case _ => 0
  }

  function Rank(pc: Pc): nat {
    if pc.Inserting? then 6 - (if pc.attempt > 4 then 4 else pc.attempt)
    else if pc.Failing? then 2 else if pc.Dropping? then 1 else 0
  }

  /** Runs goroutine `pc` to its end. */
  function Solo(cfg: Config, sh: Shared, pc: Pc, fates: seq<bool>): Alone
    requires cfg.Valid() && WellFormed(pc)
    decreases Stage(pc), |Held(pc)|, Rank(pc)
  {
    if Done(pc) then Alone(sh, fates)
    else
      var m := StepMove(cfg, sh, pc, Inserts(pc) && NextFate(fates));
      Solo(cfg, m.sh, m.pc, if Inserts(pc) then LaterFates(fates) else fates)
  }

  // -------------------------------------------------------------------------
  // The objects
  // -------------------------------------------------------------------------

  class LogStore {
    var persisted: Batch
    var fates: seq<bool>

    constructor (fates: seq<bool>)
      ensures persisted == [] && this.fates == fates
    {
      persisted, this.fates := [], fates;
    }

    method BatchInsert(entries: Batch) returns (ok: bool)
      modifies this
      ensures ok == NextFate(old(fates)) && fates == LaterFates(old(fates))
      ensures persisted == if ok then old(persisted) + entries else old(persisted)
    {
      ok := NextFate(fates);
      fates := LaterFates(fates);
      if ok { persisted := persisted + entries; }
    }
  }

  class Queue {
    const cfg: Config
    const logStore: LogStore
    var buffer: Batch
    var stopped: bool
    var dropCount: int
    var flushCount: nat
    var overflowCount: nat
    ghost var dropped: Batch
    ghost var offered: Batch
    ghost var accepted: Batch
    ghost var rejected: Batch

    constructor (maxQueueSize: int, maxBatchSize: int, logStore: LogStore)
      ensures cfg == NewConfig(maxQueueSize, maxBatchSize) && this.logStore == logStore
      ensures logStore.persisted == [] ==> View() == INITIAL.sh
    {
      cfg := NewConfig(maxQueueSize, maxBatchSize);
      this.logStore := logStore;
      buffer, stopped, dropCount, flushCount, overflowCount := [], false, 0, 0, 0;
      dropped, offered, accepted, rejected := [], [], [], [];
    }

    ghost function View(): Shared
      reads this, logStore
    {
      Shared(Core(buffer, stopped), false, dropCount, logStore.persisted, dropped, offered, accepted, rejected)
    }

    /** Where goroutine `pc` would end from here. */
    ghost function From(pc: Pc): Alone
      requires cfg.Valid() && WellFormed(pc)
      reads this, logStore
    {
      Solo(cfg, View(), pc, logStore.fates)
    }

    method TryBuffer(entries: Batch) returns (enqueued: nat, depth: nat, ok: bool)
      modifies this`buffer
      ensures ok == Fits(cfg, old(View()).core, entries)
      ensures View().core == if ok then Buffered(old(View()).core, entries) else old(View()).core
      ensures ok <==> |old(buffer)| + |entries| <= cfg.maxQueueSize
      ensures buffer == if ok then old(buffer) + entries else old(buffer)
      ensures enqueued == if ok then |entries| else 0
      ensures depth == |buffer|
    {
      if cfg.maxQueueSize - |buffer| < |entries| {
        return 0, |buffer|, false;
      }
      buffer := buffer + entries;
      return |entries|, |buffer|, true;
    }

    /** Up to FLUSH_MAX_ATTEMPTS inserts of one chunk. */
    method InsertWithRetry(chunk: Batch, ghost rest: Batch, ghost then_: Then) returns (ok: bool)
      requires cfg.Valid() && WellFormed(Inserting(chunk, rest, 1, then_))
      modifies this`flushCount, logStore
      ensures ok ==> From(NextChunk(cfg, rest, then_)) == old(From(Inserting(chunk, rest, 1, then_)))
      ensures !ok ==> From(Failing(chunk, rest, then_)) == old(From(Inserting(chunk, rest, 1, then_)))
    {
      var attempt := 1;
      while attempt <= FLUSH_MAX_ATTEMPTS
        invariant 1 <= attempt <= FLUSH_MAX_ATTEMPTS + 1
        invariant From(if attempt <= FLUSH_MAX_ATTEMPTS then Inserting(chunk, rest, attempt, then_)
                       else Failing(chunk, rest, then_))
               == old(From(Inserting(chunk, rest, 1, then_)))
      {
        ok := logStore.BatchInsert(chunk);
        flushCount := flushCount + 1;
        if ok { return; }
        attempt := attempt + 1;
      }
      return false;
    }

    method RequeueOrDrop(chunk: Batch, ghost rest: Batch, ghost then_: Then)
      requires cfg.Valid() && WellFormed(Failing(chunk, rest, then_))
      modifies this`buffer, this`dropCount, this`dropped
      ensures From(NextChunk(cfg, rest, then_)) == old(From(Failing(chunk, rest, then_)))
      ensures old(Requeues(cfg, View().core, chunk)) ==> View() == old(View()).(core := Requeued(old(View()).core, chunk))
      ensures !old(Requeues(cfg, View().core, chunk)) ==>
                View() == old(View()).(dropCount := old(dropCount) + |chunk|, dropped := old(dropped) + chunk)
      ensures buffer == if !stopped && |old(buffer)| + |chunk| <= cfg.maxQueueSize then chunk + old(buffer) else old(buffer)
      ensures dropCount == old(dropCount) + if buffer == old(buffer) then |chunk| else 0
    {
      var requeued := !stopped && cfg.maxQueueSize - |buffer| >= |chunk|;
      if requeued {
        buffer := chunk + buffer;
        return;
      }
      assert From(Dropping(chunk, rest, then_)) == old(From(Failing(chunk, rest, then_)));
      dropCount := dropCount + |chunk|;
      dropped := dropped + chunk;
    }

    method FlushBatch(entries: Batch, ghost then_: Then)
      requires cfg.Valid() && (then_.Return? || then_.Again?)
      modifies this`buffer, this`dropCount, this`dropped, this`flushCount, logStore
      ensures From(NextChunk(cfg, [], then_)) == old(From(NextChunk(cfg, entries, then_)))
    {
      var left := entries;
      while |left| > 0
        invariant From(NextChunk(cfg, left, then_)) == old(From(NextChunk(cfg, entries, then_)))
        decreases |left|
      {
        var end := cfg.maxBatchSize;
        if end > |left| { end := |left|; }
        var chunk := left[..end];
        left := left[end..];
        var ok := InsertWithRetry(chunk, left, then_);
        if !ok {
          RequeueOrDrop(chunk, left, then_);
        }
      }
    }

    method Flush(ghost then_: Then)
      requires cfg.Valid() && (then_.Return? || then_.Again?)
      modifies this`buffer, this`dropCount, this`dropped, this`flushCount, logStore
      ensures From(NextChunk(cfg, [], then_)) == old(From(Flushing(then_)))
    {
      if |buffer| == 0 {
        return;
      }
      var batch := buffer;
      buffer := [];
      FlushBatch(batch, then_);
    }

    /** An error means the whole batch was turned away, success that all of it was taken. */
    method Enqueue(entries: Batch) returns (enqueued: nat, ok: bool)
      requires cfg.Valid()
      modifies this, logStore
      ensures Alone(View(), logStore.fates)
           == Solo(cfg, old(View()).(offered := old(offered) + entries),
                   if entries == [] then Finished else Calling(entries), old(logStore.fates))
      ensures accepted == if ok then old(accepted) + entries else old(accepted)
      ensures rejected == if ok then old(rejected) else old(rejected) + entries
      ensures enqueued == if ok then |entries| else 0
    {
      hide Solo, FlushMove, ControlMove;
      offered := offered + entries;
      SoloDone(cfg, View(), logStore.fates);
      if |entries| == 0 {
        return 0, true;
      }
      SoloStep(cfg, View(), Calling(entries), logStore.fates);
      ghost var goal := From(Calling(entries));
      if stopped {
        assert From(Syncing(entries)) == goal;
        enqueued, ok := InsertNow(entries);
        return;
      }
      var depth;
      enqueued, depth, ok := TryBuffer(entries);
      if ok {
        accepted := accepted + entries;
        assert From(if depth >= cfg.maxBatchSize then Flushing(Return) else Finished) == goal;
        if depth >= cfg.maxBatchSize { Flush(Return); }
        SoloDone(cfg, View(), logStore.fates);
        return;
      }
      assert From(Flushing(Again(entries))) == goal;
      overflowCount := overflowCount + 1;
      Flush(Again(entries));
      assert From(Retrying(entries)) == goal;
      enqueued, ok := Retry(entries);
    }

    /** Enqueue's second try, once the flush has made what room it could. */
    method Retry(entries: Batch) returns (enqueued: nat, ok: bool)
      requires cfg.Valid()
      modifies this, logStore
      ensures Alone(View(), logStore.fates) == old(From(Retrying(entries)))
      ensures accepted == if ok then old(accepted) + entries else old(accepted)
      ensures rejected == if ok then old(rejected) else old(rejected) + entries
      ensures enqueued == if ok then |entries| else 0
    {
      ghost var goal := From(Retrying(entries));
      if !stopped {
        var depth;
        enqueued, depth, ok := TryBuffer(entries);
        if ok {
          accepted := accepted + entries;
          assert From(if depth >= cfg.maxBatchSize then Flushing(Return) else Finished) == goal;
          if depth >= cfg.maxBatchSize { Flush(Return); }
          return;
        }
      }
      assert From(Syncing(entries)) == goal;
      enqueued, ok := InsertNow(entries);
    }

    /** Enqueue's synchronous insert. */
    method InsertNow(entries: Batch) returns (enqueued: nat, ok: bool)
      requires cfg.Valid()
      modifies this`accepted, this`rejected, logStore
      ensures Alone(View(), logStore.fates) == old(From(Syncing(entries)))
      ensures accepted == if ok then old(accepted) + entries else old(accepted)
      ensures rejected == if ok then old(rejected) else old(rejected) + entries
      ensures enqueued == if ok then |entries| else 0
      ensures ok == NextFate(old(logStore.fates)) && logStore.fates == LaterFates(old(logStore.fates))
      ensures logStore.persisted == if ok then old(logStore.persisted) + entries else old(logStore.persisted)
    {
      ok := logStore.BatchInsert(entries);
      if ok {
        accepted := accepted + entries;
        enqueued := |entries|;
      } else {
        rejected := rejected + entries;
        enqueued := 0;
      }
      assert From(Finished) == old(From(Syncing(entries)));
    }
  }

  // -------------------------------------------------------------------------
  // What a call alone does to the entries
  // -------------------------------------------------------------------------

  /** Lexicographic progress. */
  predicate Shrinks(pc: Pc, pc': Pc) {
    || Stage(pc') < Stage(pc)
    || (Stage(pc') == Stage(pc) && |Held(pc')| < |Held(pc)|)
    || (Stage(pc') == Stage(pc) && |Held(pc')| == |Held(pc)| && Rank(pc') < Rank(pc))
  }

  lemma {:induction false} ChunkShrinks(cfg: Config, entries: Batch, then_: Then)
    requires cfg.Valid() && (then_.Return? || then_.Again?)
    ensures var pc := NextChunk(cfg, entries, then_);
      && WellFormed(pc) && Held(pc) == entries
      && Stage(pc) <= (if then_.Again? then 4 else 1)
      && (entries == [] ==> Stage(pc) < (if then_.Again? then 4 else 1))
  {
    NextChunkHolds(cfg, entries, then_);
  }

  lemma {:induction false} FlushShrinks(cfg: Config, sh: Shared, pc: Pc, ok: bool)
    requires cfg.Valid() && WellFormed(pc) && InFlush(pc)
    ensures var m := StepMove(cfg, sh, pc, ok); WellFormed(m.pc) && Shrinks(pc, m.pc)
  {
    hide NextChunk;
    if pc.Flushing? {
      ChunkShrinks(cfg, sh.core.buffer, pc.then_);
    } else {
      ChunkShrinks(cfg, pc.rest, pc.then_);
    }
  }

  lemma {:induction false} StepShrinks(cfg: Config, sh: Shared, pc: Pc, ok: bool)
    requires cfg.Valid() && WellFormed(pc) && !Done(pc)
    ensures var m := StepMove(cfg, sh, pc, ok); WellFormed(m.pc) && Shrinks(pc, m.pc)
  {
    if InFlush(pc) {
      FlushShrinks(cfg, sh, pc, ok);
    } else {
      hide FlushMove;
      assert InEnqueue(pc);
    }
  }

  /** One step of a goroutine run alone. */
  lemma {:induction false} SoloStep(cfg: Config, sh: Shared, pc: Pc, fates: seq<bool>)
    requires cfg.Valid() && WellFormed(pc) && !Done(pc)
    ensures var m := StepMove(cfg, sh, pc, Inserts(pc) && NextFate(fates));
      WellFormed(m.pc) && Solo(cfg, sh, pc, fates) == Solo(cfg, m.sh, m.pc, if Inserts(pc) then LaterFates(fates) else fates)
  {
    hide StepMove;
    StepShrinks(cfg, sh, pc, Inserts(pc) && NextFate(fates));
  }

  lemma {:induction false} SoloDone(cfg: Config, sh: Shared, fates: seq<bool>)
    requires cfg.Valid()
    ensures Solo(cfg, sh, Finished, fates) == Alone(sh, fates)
  {
  }

  /** A call keeps every entry's ledger. */
  lemma {:induction false} SoloBalances(cfg: Config, sh: Shared, pc: Pc, fates: seq<bool>, e: LogEntry, held: int, undecided: int)
    requires cfg.Valid() && WellFormed(pc)
    requires Balanced(sh, e, held + Count(Held(pc), e), undecided + Count(Undecided(pc), e))
    ensures Balanced(Solo(cfg, sh, pc, fates).sh, e, held, undecided)
    decreases Stage(pc), |Held(pc)|, Rank(pc)
  {
    hide StepMove, Balanced;
    if Done(pc) {
      assert Held(pc) == Undecided(pc) == [];
    } else {
      var ok := Inserts(pc) && NextFate(fates);
      MoveBalances(cfg, sh, pc, ok, e, held, undecided);
      var m := StepMove(cfg, sh, pc, ok);
      StepShrinks(cfg, sh, pc, ok);
      hide Stage, Rank, Held, Undecided, WellFormed;
      SoloBalances(cfg, m.sh, m.pc, if Inserts(pc) then LaterFates(fates) else fates, e, held, undecided);
    }
  }
}
