/**
 The order of entries in the ingest queue (internal/ingest/queue.go), for calls that no
 other goroutine interrupts.

 With a store that works, entries are persisted in the order in which they were accepted.
 With a store that fails, requeueOrDrop prepends each chunk as older than anything in the
 buffer; that is so of the first chunk of a flush only.
 */
module IngestOrder {
  import opened IngestQueue
  import opened IngestQueueClass

  // -------------------------------------------------------------------------
  // A store that works
  // -------------------------------------------------------------------------

  /** Whoever is at an insert of its own, or inside a flush, has the buffer empty. */
  predicate BufferTaken(pc: Pc) {
    pc.Inserting? || pc.Failing? || pc.Dropping? || pc.Retrying? || pc.Syncing?
  }

  predicate InOrder(cfg: Config, sh: Shared, pc: Pc) {
    && !sh.core.stopped
    && !(pc.Failing? || pc.Dropping?)
    && (InEnqueue(pc) ==> pc.batch != [])
    && (InFlush(pc) && pc.then_.Again? ==> pc.then_.batch != [])
    && (BufferTaken(pc) ==> sh.core.buffer == [])
    && (Done(pc) ==> |sh.core.buffer| < cfg.maxBatchSize)
    && sh.accepted == sh.persisted + Held(pc) + sh.core.buffer
  }

  /** An upper bound on the inserts still to come: each writes an entry at least. */
  function Writes(sh: Shared, pc: Pc): nat {
    |sh.core.buffer| + |Held(pc)| + |Undecided(pc)|
  }

  lemma {:induction false} NextChunkOrder(cfg: Config, sh: Shared, entries: Batch, then_: Then)
    requires cfg.Valid() && (then_.Return? || (then_.Again? && then_.batch != []))
    requires !sh.core.stopped && sh.core.buffer == [] && sh.accepted == sh.persisted + entries
    ensures InOrder(cfg, sh, NextChunk(cfg, entries, then_))
    ensures Writes(sh, NextChunk(cfg, entries, then_)) == |entries| + |Pending(then_)|
  {
    NextChunkHolds(cfg, entries, then_);
    assert sh.persisted + entries + [] == sh.persisted + entries;
  }

  /** What a step leaves alone: no entry is rejected or dropped, and a batch is accepted as a whole. */
  predicate Takes(sh: Shared, pc: Pc, sh': Shared, pc': Pc) {
    && sh'.accepted + Undecided(pc') == sh.accepted + Undecided(pc)
    && sh'.rejected == sh.rejected && sh'.dropped == sh.dropped
  }

  /** Every step of a call keeps acceptance order. */
  lemma {:induction false} StepInOrder(cfg: Config, sh: Shared, pc: Pc)
    requires cfg.Valid() && WellFormed(pc) && !Done(pc) && InOrder(cfg, sh, pc)
    ensures var m := StepMove(cfg, sh, pc, Inserts(pc));
      && InOrder(cfg, m.sh, m.pc) && Takes(sh, pc, m.sh, m.pc)
      && Writes(m.sh, m.pc) + (if Inserts(pc) then 1 else 0) <= Writes(sh, pc)
  {
    if InFlush(pc) {
      FlushInOrder(cfg, sh, pc);
    } else {
      EnqueueInOrder(cfg, sh, pc);
    }
  }

  lemma {:induction false} FlushInOrder(cfg: Config, sh: Shared, pc: Pc)
    requires cfg.Valid() && WellFormed(pc) && InFlush(pc) && InOrder(cfg, sh, pc)
    ensures var m := StepMove(cfg, sh, pc, Inserts(pc));
      && InOrder(cfg, m.sh, m.pc) && Takes(sh, pc, m.sh, m.pc)
      && Writes(m.sh, m.pc) + (if Inserts(pc) then 1 else 0) <= Writes(sh, pc)
  {
    hide NextChunk, EnqueueMove, ControlMove;
    var m := StepMove(cfg, sh, pc, Inserts(pc));
    if pc.Flushing? {
      assert sh.persisted + [] + sh.core.buffer == sh.persisted + sh.core.buffer;
      NextChunkOrder(cfg, m.sh, sh.core.buffer, pc.then_);
      NextChunkHolds(cfg, sh.core.buffer, pc.then_);
    } else {
      assert sh.persisted + (pc.chunk + pc.rest) + [] == sh.persisted + pc.chunk + pc.rest;
      NextChunkOrder(cfg, m.sh, pc.rest, pc.then_);
      NextChunkHolds(cfg, pc.rest, pc.then_);
    }
  }

  lemma {:induction false} EnqueueInOrder(cfg: Config, sh: Shared, pc: Pc)
    requires cfg.Valid() && InEnqueue(pc) && InOrder(cfg, sh, pc)
    ensures var m := StepMove(cfg, sh, pc, Inserts(pc));
      && InOrder(cfg, m.sh, m.pc) && Takes(sh, pc, m.sh, m.pc)
      && Writes(m.sh, m.pc) + (if Inserts(pc) then 1 else 0) <= Writes(sh, pc)
  {
    hide FlushMove, ControlMove;
    AcceptInOrder(sh, pc.batch);
    assert pc.Syncing? ==> sh.persisted + [] + [] + pc.batch == sh.persisted + pc.batch + [] + [];
  }

  lemma {:induction false} AcceptInOrder(sh: Shared, batch: Batch)
    ensures sh.persisted + [] + sh.core.buffer + batch == sh.persisted + [] + (sh.core.buffer + batch)
    ensures sh.accepted + batch + [] == sh.accepted + batch
  {
  }

  ghost predicate AllSucceed(fates: seq<bool>) {
    forall i :: 0 <= i < |fates| ==> fates[i]
  }

  /** The entries are where the order of acceptance puts them: persisted, then, less than a batch, buffered. */
  predicate Settled(cfg: Config, sh: Shared) {
    sh.accepted == sh.persisted + sh.core.buffer && |sh.core.buffer| < cfg.maxBatchSize && !sh.core.stopped
  }

  /** A call on a store that works ends in order, with its batch accepted behind all others. */
  lemma {:induction false} SoloInOrder(cfg: Config, sh: Shared, pc: Pc, fates: seq<bool>)
    requires cfg.Valid() && WellFormed(pc) && InOrder(cfg, sh, pc)
    requires AllSucceed(fates) && Writes(sh, pc) <= |fates|
    ensures var end := Solo(cfg, sh, pc, fates);
      && Settled(cfg, end.sh) && Takes(sh, pc, end.sh, Finished)
      && AllSucceed(end.fates) && |fates| + |end.sh.core.buffer| <= |end.fates| + Writes(sh, pc)
    decreases Stage(pc), |Held(pc)|, Rank(pc)
  {
    hide StepMove, InOrder, Settled;
    if Done(pc) {
      DoneInOrder(cfg, sh, pc);
    } else {
      StepInOrder(cfg, sh, pc);
      InsertNeedsFate(cfg, sh, pc);
      assert NextFate(fates) || !Inserts(pc);
      var m := StepMove(cfg, sh, pc, Inserts(pc));
      StepShrinks(cfg, sh, pc, Inserts(pc));
      hide Stage, Rank, Held, Undecided, Writes, WellFormed;
      SoloInOrder(cfg, m.sh, m.pc, if Inserts(pc) then LaterFates(fates) else fates);
    }
  }

  lemma {:induction false} DoneInOrder(cfg: Config, sh: Shared, pc: Pc)
    requires Done(pc) && InOrder(cfg, sh, pc)
    ensures Settled(cfg, sh) && Takes(sh, pc, sh, Finished) && |sh.core.buffer| <= Writes(sh, pc)
  {
    assert sh.persisted + [] + sh.core.buffer == sh.persisted + sh.core.buffer;
  }

  lemma {:induction false} InsertNeedsFate(cfg: Config, sh: Shared, pc: Pc)
    requires WellFormed(pc) && InOrder(cfg, sh, pc)
    ensures Inserts(pc) ==> Writes(sh, pc) >= 1
  {
  }

  // --- one call after another ---------------------------------------------------------

  datatype Op = Add(batch: Batch) | FlushNow

  function Call(cfg: Config, sh: Shared, op: Op, fates: seq<bool>): Alone
    requires cfg.Valid()
  {
    match op
    case Add(batch) =>
      Solo(cfg, sh.(offered := sh.offered + batch), if batch == [] then Finished else Calling(batch), fates)
    case FlushNow => Solo(cfg, sh, Flushing(Return), fates)
  }

  function Calls(cfg: Config, sh: Shared, ops: seq<Op>, fates: seq<bool>): Alone
    requires cfg.Valid()
    decreases |ops|
  {
    if ops == [] then Alone(sh, fates)
    else
      var a := Call(cfg, sh, ops[0], fates);
      Calls(cfg, a.sh, ops[1..], a.fates)
  }

  function Given(op: Op): Batch { if op.Add? then op.batch else [] }

  function Offered(ops: seq<Op>): Batch {
    if ops == [] then [] else Given(ops[0]) + Offered(ops[1..])
  }

  lemma {:induction false} CallInOrder(cfg: Config, sh: Shared, op: Op, fates: seq<bool>)
    requires cfg.Valid() && Settled(cfg, sh) && AllSucceed(fates) && |sh.core.buffer| + |Given(op)| <= |fates|
    ensures var end := Call(cfg, sh, op, fates);
      && Settled(cfg, end.sh) && end.sh.accepted == sh.accepted + Given(op)
      && end.sh.rejected == sh.rejected && end.sh.dropped == sh.dropped
      && AllSucceed(end.fates) && |fates| + |end.sh.core.buffer| <= |end.fates| + |sh.core.buffer| + |Given(op)|
  {
    hide Solo;
    assert sh.persisted + [] + sh.core.buffer == sh.persisted + sh.core.buffer;
    assert sh.accepted + [] == sh.accepted;
    match op
    case FlushNow =>
      SoloInOrder(cfg, sh, Flushing(Return), fates);
      var end := Solo(cfg, sh, Flushing(Return), fates).sh;
      assert end.accepted + [] == end.accepted;
    case Add(batch) =>
      var sh1, pc := sh.(offered := sh.offered + batch), if batch == [] then Finished else Calling(batch);
      SoloInOrder(cfg, sh1, pc, fates);
      var end := Solo(cfg, sh1, pc, fates).sh;
      assert end.accepted + [] == end.accepted;
  }

  lemma {:induction false} CallsInOrder(cfg: Config, sh: Shared, ops: seq<Op>, fates: seq<bool>)
    requires cfg.Valid() && Settled(cfg, sh) && AllSucceed(fates) && |sh.core.buffer| + |Offered(ops)| <= |fates|
    ensures var end := Calls(cfg, sh, ops, fates).sh;
      && Settled(cfg, end) && end.accepted == sh.accepted + Offered(ops)
      && end.rejected == sh.rejected && end.dropped == sh.dropped
    decreases |ops|
  {
    hide Call, Settled;
    if ops == [] {
      assert sh.accepted + [] == sh.accepted;
    } else {
      CallInOrder(cfg, sh, ops[0], fates);
      var a := Call(cfg, sh, ops[0], fates);
      CallsInOrder(cfg, a.sh, ops[1..], a.fates);
      assert sh.accepted + Given(ops[0]) + Offered(ops[1..]) == sh.accepted + (Given(ops[0]) + Offered(ops[1..]));
    }
  }

  /**
   From start-up, any sequence of Enqueue and Flush calls on a store that works takes every
   entry it is given: what is persisted, followed by what is buffered, is all of them in
   order, and less than a batch is left waiting.
   */
  lemma {:induction false} FirstInFirstOut(cfg: Config, ops: seq<Op>, fates: seq<bool>)
    requires cfg.Valid() && AllSucceed(fates) && |Offered(ops)| <= |fates|
    ensures var end := Calls(cfg, INITIAL.sh, ops, fates).sh;
      && end.persisted + end.core.buffer == end.accepted == Offered(ops)
      && |end.core.buffer| < cfg.maxBatchSize
      && end.rejected == [] && end.dropped == []
  {
    CallsInOrder(cfg, INITIAL.sh, ops, fates);
    assert [] + Offered(ops) == Offered(ops);
  }

  // -------------------------------------------------------------------------
  // A store that fails
  // -------------------------------------------------------------------------

  datatype ChunkEnd = ChunkEnd(stored: bool, fates: seq<bool>)

  /** One chunk: inserts until one succeeds or FLUSH_MAX_ATTEMPTS have failed. */
  function ChunkFate(fates: seq<bool>, attempt: nat): ChunkEnd
    requires attempt <= FLUSH_MAX_ATTEMPTS
    decreases FLUSH_MAX_ATTEMPTS - attempt
  {
    if NextFate(fates) then ChunkEnd(true, LaterFates(fates))
    else if attempt < FLUSH_MAX_ATTEMPTS then ChunkFate(LaterFates(fates), attempt + 1)
    else ChunkEnd(false, LaterFates(fates))
  }

  function ChunkLength(n: nat, entries: Batch): nat { if n > |entries| then |entries| else n }

  /** What a flush stores, and the chunks it fails on, both in the order of the buffer. */
  datatype Outcome = Outcome(stored: Batch, failed: seq<Batch>, fates: seq<bool>)

  function Flushed(n: nat, entries: Batch, fates: seq<bool>): Outcome
    requires n > 0
    decreases |entries|
  {
    if entries == [] then Outcome([], [], fates)
    else
      var k := ChunkLength(n, entries);
      var c := ChunkFate(fates, 1);
      var rest := Flushed(n, entries[k..], c.fates);
      if c.stored then Outcome(entries[..k] + rest.stored, rest.failed, rest.fates)
      else Outcome(rest.stored, [entries[..k]] + rest.failed, rest.fates)
  }

  function Flat(chunks: seq<Batch>): Batch {
    if chunks == [] then [] else chunks[0] + Flat(chunks[1..])
  }

  /** The chunks in reverse order, each in its own order. */
  function Reversed(chunks: seq<Batch>): Batch {
    if chunks == [] then [] else Reversed(chunks[1..]) + chunks[0]
  }

  /** A running queue takes failed chunks back, the later ones in front; a stopped one drops them. */
  function AfterFlush(sh: Shared, o: Outcome): Shared {
    if sh.core.stopped
    then sh.(persisted := sh.persisted + o.stored, dropped := sh.dropped + Flat(o.failed),
             dropCount := sh.dropCount + |Flat(o.failed)|)
    else sh.(persisted := sh.persisted + o.stored, core := sh.core.(buffer := Reversed(o.failed) + sh.core.buffer))
  }

  lemma {:induction false} AttemptsEnd(cfg: Config, sh: Shared, chunk: Batch, rest: Batch, attempt: nat, then_: Then, fates: seq<bool>)
    requires cfg.Valid() && (then_.Return? || then_.Again?) && chunk != [] && 1 <= attempt <= FLUSH_MAX_ATTEMPTS
    ensures var c := ChunkFate(fates, attempt);
      WellFormed(NextChunk(cfg, rest, then_)) &&
      Solo(cfg, sh, Inserting(chunk, rest, attempt, then_), fates)
        == if c.stored then Solo(cfg, sh.(persisted := sh.persisted + chunk), NextChunk(cfg, rest, then_), c.fates)
           else Solo(cfg, sh, Failing(chunk, rest, then_), c.fates)
    decreases FLUSH_MAX_ATTEMPTS - attempt
  {
    hide Solo;
    SoloStep(cfg, sh, Inserting(chunk, rest, attempt, then_), fates);
    if !NextFate(fates) && attempt < FLUSH_MAX_ATTEMPTS {
      AttemptsEnd(cfg, sh, chunk, rest, attempt + 1, then_, LaterFates(fates));
    }
  }

  /** Where a failed chunk goes. */
  function Refused(sh: Shared, chunk: Batch): Shared {
    if sh.core.stopped then sh.(dropCount := sh.dropCount + |chunk|, dropped := sh.dropped + chunk)
    else sh.(core := Requeued(sh.core, chunk))
  }

  lemma {:induction false} FailingEnds(cfg: Config, sh: Shared, chunk: Batch, rest: Batch, then_: Then, fates: seq<bool>)
    requires cfg.Valid() && (then_.Return? || then_.Again?) && chunk != [] && (!sh.core.stopped ==> Fits(cfg, sh.core, chunk))
    ensures WellFormed(NextChunk(cfg, rest, then_))
    ensures Solo(cfg, sh, Failing(chunk, rest, then_), fates) == Solo(cfg, Refused(sh, chunk), NextChunk(cfg, rest, then_), fates)
  {
    hide Solo;
    SoloStep(cfg, sh, Failing(chunk, rest, then_), fates);
    if sh.core.stopped {
      SoloStep(cfg, sh, Dropping(chunk, rest, then_), fates);
    }
  }

  lemma {:induction false} StoredFirst(sh: Shared, chunk: Batch, rest: Outcome)
    ensures AfterFlush(sh.(persisted := sh.persisted + chunk), rest)
         == AfterFlush(sh, Outcome(chunk + rest.stored, rest.failed, rest.fates))
  {
    assert sh.persisted + chunk + rest.stored == sh.persisted + (chunk + rest.stored);
  }

  lemma {:induction false} RefusedFirst(sh: Shared, chunk: Batch, rest: Outcome)
    ensures AfterFlush(Refused(sh, chunk), rest)
         == AfterFlush(sh, Outcome(rest.stored, [chunk] + rest.failed, rest.fates))
  {
    var failed := [chunk] + rest.failed;
    assert failed[1..] == rest.failed;
    assert Flat(failed) == chunk + Flat(rest.failed) && Reversed(failed) == Reversed(rest.failed) + chunk;
    assert sh.dropped + chunk + Flat(rest.failed) == sh.dropped + (chunk + Flat(rest.failed));
    assert Reversed(rest.failed) + (chunk + sh.core.buffer) == Reversed(rest.failed) + chunk + sh.core.buffer;
  }

  lemma {:induction false} ChunksEnd(cfg: Config, sh: Shared, entries: Batch, then_: Then, fates: seq<bool>)
    requires cfg.Valid() && (then_.Return? || then_.Again?)
    requires !sh.core.stopped ==> |sh.core.buffer| + |entries| <= cfg.maxQueueSize
    ensures WellFormed(NextChunk(cfg, entries, then_)) && WellFormed(NextChunk(cfg, [], then_))
    ensures var o := Flushed(cfg.maxBatchSize, entries, fates);
      Solo(cfg, sh, NextChunk(cfg, entries, then_), fates) == Solo(cfg, AfterFlush(sh, o), NextChunk(cfg, [], then_), o.fates)
    decreases |entries|
  {
    hide Solo, AfterFlush, ChunkFate;
    if entries == [] {
      NothingLeft(sh, fates);
    } else {
      var k := ChunkLength(cfg.maxBatchSize, entries);
      var chunk, rest := entries[..k], entries[k..];
      var c := ChunkFate(fates, 1);
      var o := Flushed(cfg.maxBatchSize, rest, c.fates);
      AttemptsEnd(cfg, sh, chunk, rest, 1, then_, fates);
      if c.stored {
        ChunksEnd(cfg, sh.(persisted := sh.persisted + chunk), rest, then_, c.fates);
        StoredFirst(sh, chunk, o);
      } else {
        FailingEnds(cfg, sh, chunk, rest, then_, c.fates);
        ChunksEnd(cfg, Refused(sh, chunk), rest, then_, c.fates);
        RefusedFirst(sh, chunk, o);
      }
    }
  }

  lemma {:induction false} NothingLeft(sh: Shared, fates: seq<bool>)
    ensures AfterFlush(sh, Outcome([], [], fates)) == sh
  {
    assert sh.persisted + [] == sh.persisted && sh.dropped + [] == sh.dropped && [] + sh.core.buffer == sh.core.buffer;
  }

  /** A flush inside a call: what it leaves for the rest of the call. */
  lemma {:induction false} FlushGoesOn(cfg: Config, sh: Shared, then_: Then, fates: seq<bool>)
    requires cfg.Valid() && |sh.core.buffer| <= cfg.maxQueueSize && (then_.Return? || then_.Again?)
    ensures WellFormed(NextChunk(cfg, [], then_))
    ensures var o := Flushed(cfg.maxBatchSize, sh.core.buffer, fates);
      Solo(cfg, sh, Flushing(then_), fates)
        == Solo(cfg, AfterFlush(sh.(core := Taken(sh.core)), o), NextChunk(cfg, [], then_), o.fates)
  {
    hide Solo, AfterFlush, Flushed;
    SoloStep(cfg, sh, Flushing(then_), fates);
    ChunksEnd(cfg, sh.(core := Taken(sh.core)), sh.core.buffer, then_, fates);
  }

  /** Whatever inserts fail: where every entry of the buffer is after an uninterrupted flush, and in which order. */
  lemma {:induction false} FlushEnds(cfg: Config, sh: Shared, fates: seq<bool>)
    requires cfg.Valid() && |sh.core.buffer| <= cfg.maxQueueSize
    ensures var o := Flushed(cfg.maxBatchSize, sh.core.buffer, fates);
      Solo(cfg, sh, Flushing(Return), fates) == Alone(AfterFlush(sh.(core := Taken(sh.core)), o), o.fates)
  {
    hide Solo, AfterFlush, Flushed;
    FlushGoesOn(cfg, sh, Return, fates);
    var o := Flushed(cfg.maxBatchSize, sh.core.buffer, fates);
    SoloDone(cfg, AfterFlush(sh.(core := Taken(sh.core)), o), o.fates);
  }

  // --- all inserts fail -------------------------------------------------------------------

  /** The chunks of n entries in reverse order, each in its own order. */
  function ChunksReversed(n: nat, entries: Batch): (r: Batch)
    requires n > 0
    ensures |r| == |entries|
  {
    if |entries| <= n then entries else ChunksReversed(n, entries[n..]) + entries[..n]
  }

  lemma {:induction false} AllFail(n: nat, entries: Batch)
    requires n > 0
    ensures var o := Flushed(n, entries, []); o.stored == [] && Reversed(o.failed) == ChunksReversed(n, entries)
    decreases |entries|
  {
    if entries != [] {
      var k := ChunkLength(n, entries);
      AttemptsFail();
      AllFail(n, entries[k..]);
      var o := Flushed(n, entries, []);
      assert o.failed[1..] == Flushed(n, entries[k..], []).failed;
      if |entries| <= n {
        assert entries[k..] == [] && entries[..k] == entries && [] + entries == entries;
      }
    }
  }

  lemma {:induction false} AttemptsFail()
    ensures ChunkFate([], 1) == ChunkEnd(false, [])
  {
    assert ChunkFate([], 2) == ChunkFate([], 3);
  }

  function WithBuffer(sh: Shared, buffer: Batch): Shared {
    sh.(core := sh.core.(buffer := buffer))
  }

  /** A flush that fails throughout puts everything back, but the chunks in reverse order. */
  lemma {:induction false} FailedFlush(cfg: Config, sh: Shared)
    requires cfg.Valid() && !sh.core.stopped && |sh.core.buffer| <= cfg.maxQueueSize
    ensures Solo(cfg, sh, Flushing(Return), []).sh
         == WithBuffer(sh, ChunksReversed(cfg.maxBatchSize, sh.core.buffer))
  {
    hide Solo, ChunksReversed, Flushed, Reversed;
    FlushEnds(cfg, sh, []);
    AllFail(cfg.maxBatchSize, sh.core.buffer);
    var r := ChunksReversed(cfg.maxBatchSize, sh.core.buffer);
    assert r + [] == r && sh.persisted + [] == sh.persisted;
  }

  ghost predicate Distinct(entries: Batch) {
    forall i, j :: 0 <= i < j < |entries| ==> entries[i] != entries[j]
  }

  /** So the failed flush leaves the queue as it was exactly when the buffer is a single chunk. */
  lemma {:induction false} FailedFlushRestores(cfg: Config, sh: Shared)
    requires cfg.Valid() && !sh.core.stopped && |sh.core.buffer| <= cfg.maxQueueSize && Distinct(sh.core.buffer)
    ensures Solo(cfg, sh, Flushing(Return), []).sh == sh <==> |sh.core.buffer| <= cfg.maxBatchSize
  {
    hide Solo;
    FailedFlush(cfg, sh);
    var n, b := cfg.maxBatchSize, sh.core.buffer;
    if |b| > n {
      var r := ChunksReversed(n, b);
      assert r == ChunksReversed(n, b[n..]) + b[..n];
      assert r[|b| - 1] == b[n - 1] != b[|b| - 1];
    }
  }
}
