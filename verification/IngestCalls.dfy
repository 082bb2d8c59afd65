/**
 Where one uninterrupted Enqueue call of internal/ingest/queue.go leaves its batch: buffered,
 flushed, inserted on its own or turned away, with the number of inserts it took.
 */
module IngestCalls {
  import opened IngestQueue
  import opened IngestQueueClass
  import opened IngestOrder

  /** How many inserts of at most n entries k entries take. */
  function Chunks(n: nat, k: nat): (c: nat)
    requires n > 0
    ensures k == 0 <==> c == 0
    ensures k <= c * n && (k > 0 ==> (c - 1) * n < k)
    decreases k
  {
    if k == 0 then 0 else if k <= n then 1 else 1 + Chunks(n, k - n)
  }

  lemma {:induction false} AllStored(n: nat, entries: Batch, fates: seq<bool>)
    requires n > 0 && AllSucceed(fates) && Chunks(n, |entries|) <= |fates|
    ensures Flushed(n, entries, fates) == Outcome(entries, [], fates[Chunks(n, |entries|)..])
    decreases |entries|
  {
    if entries == [] {
      assert fates[0..] == fates;
    } else {
      var k := ChunkLength(n, entries);
      assert ChunkFate(fates, 1) == ChunkEnd(true, fates[1..]);
      AllStored(n, entries[k..], fates[1..]);
      assert fates[1..][Chunks(n, |entries[k..]|)..] == fates[Chunks(n, |entries|)..];
      assert entries[..k] + entries[k..] == entries;
    }
  }

  /** A flush on a store that works stores the buffer, in as few inserts as there are chunks. */
  lemma {:induction false} FlushStores(cfg: Config, sh: Shared, then_: Then, fates: seq<bool>)
    requires cfg.Valid() && |sh.core.buffer| <= cfg.maxQueueSize && (then_.Return? || then_.Again?)
    requires AllSucceed(fates) && Chunks(cfg.maxBatchSize, |sh.core.buffer|) <= |fates|
    ensures WellFormed(NextChunk(cfg, [], then_))
    ensures Solo(cfg, sh, Flushing(then_), fates)
         == Solo(cfg, sh.(core := Taken(sh.core), persisted := sh.persisted + sh.core.buffer), NextChunk(cfg, [], then_),
                 fates[Chunks(cfg.maxBatchSize, |sh.core.buffer|)..])
  {
    hide Solo, Flushed;
    FlushGoesOn(cfg, sh, then_, fates);
    AllStored(cfg.maxBatchSize, sh.core.buffer, fates);
    assert sh.dropped + Flat([]) == sh.dropped && Reversed([]) + Taken(sh.core).buffer == Taken(sh.core).buffer;
  }

  // -------------------------------------------------------------------------
  // A batch that there is room for
  // -------------------------------------------------------------------------

  function Added(sh: Shared, batch: Batch): Shared {
    sh.(core := sh.core.(buffer := sh.core.buffer + batch), accepted := sh.accepted + batch)
  }

  lemma {:induction false} AcceptGoesOn(cfg: Config, sh: Shared, pc: Pc, fates: seq<bool>)
    requires cfg.Valid() && (pc.Calling? || pc.Retrying?) && !sh.core.stopped
    requires |sh.core.buffer| + |pc.batch| <= cfg.maxQueueSize
    ensures |sh.core.buffer| + |pc.batch| < cfg.maxBatchSize ==>
      Solo(cfg, sh, pc, fates) == Alone(Added(sh, pc.batch), fates)
    ensures |sh.core.buffer| + |pc.batch| >= cfg.maxBatchSize ==>
      Solo(cfg, sh, pc, fates) == Solo(cfg, Added(sh, pc.batch), Flushing(Return), fates)
  {
    hide Solo;
    SoloStep(cfg, sh, pc, fates);
    SoloDone(cfg, Added(sh, pc.batch), fates);
  }

  /** Where there is room the batch is taken whatever the store does, and flushed once a batch is full. */
  lemma {:induction false} RoomIsEnough(cfg: Config, sh: Shared, batch: Batch, fates: seq<bool>)
    requires cfg.Valid() && batch != [] && !sh.core.stopped && |sh.core.buffer| + |batch| <= cfg.maxQueueSize
    ensures var end := Solo(cfg, sh, Calling(batch), fates);
      && end.sh.accepted == sh.accepted + batch && end.sh.rejected == sh.rejected
      && (|sh.core.buffer| + |batch| < cfg.maxBatchSize ==> end == Alone(Added(sh, batch), fates))
      && (|sh.core.buffer| + |batch| >= cfg.maxBatchSize ==>
            var o := Flushed(cfg.maxBatchSize, sh.core.buffer + batch, fates);
            end.fates == o.fates && end.sh.persisted == sh.persisted + o.stored && end.sh.core.buffer == Reversed(o.failed))
  {
    hide Solo, Flushed, Reversed;
    AcceptGoesOn(cfg, sh, Calling(batch), fates);
    if |sh.core.buffer| + |batch| >= cfg.maxBatchSize {
      FlushEnds(cfg, Added(sh, batch), fates);
      var o := Flushed(cfg.maxBatchSize, sh.core.buffer + batch, fates);
      assert Reversed(o.failed) + [] == Reversed(o.failed);
    }
  }

  // -------------------------------------------------------------------------
  // A batch that there is no room for at first
  // -------------------------------------------------------------------------

  lemma {:induction false} OverflowGoesOn(cfg: Config, sh: Shared, batch: Batch, fates: seq<bool>)
    requires cfg.Valid() && batch != [] && !sh.core.stopped
    requires |sh.core.buffer| <= cfg.maxQueueSize < |sh.core.buffer| + |batch|
    requires AllSucceed(fates) && Chunks(cfg.maxBatchSize, |sh.core.buffer|) <= |fates|
    ensures Solo(cfg, sh, Calling(batch), fates)
         == Solo(cfg, sh.(core := Taken(sh.core), persisted := sh.persisted + sh.core.buffer), Retrying(batch),
                 fates[Chunks(cfg.maxBatchSize, |sh.core.buffer|)..])
  {
    hide Solo, Chunks;
    SoloStep(cfg, sh, Calling(batch), fates);
    FlushStores(cfg, sh, Again(batch), fates);
  }

  /**
   On a store that works, a batch that fits an empty queue is buffered after a flush, not
   inserted on its own: the call makes the inserts of the chunks it flushes and no other.
   */
  lemma {:induction false} OverflowIsBuffered(cfg: Config, sh: Shared, batch: Batch, fates: seq<bool>)
    requires cfg.Valid() && batch != [] && !sh.core.stopped
    requires |sh.core.buffer| <= cfg.maxQueueSize < |sh.core.buffer| + |batch| && |batch| <= cfg.maxQueueSize
    requires AllSucceed(fates)
    requires Chunks(cfg.maxBatchSize, |sh.core.buffer|) + Chunks(cfg.maxBatchSize, |batch|) <= |fates|
    ensures var end := Solo(cfg, sh, Calling(batch), fates);
      var c, d := Chunks(cfg.maxBatchSize, |sh.core.buffer|), Chunks(cfg.maxBatchSize, |batch|);
      && end.sh.accepted == sh.accepted + batch && end.sh.rejected == sh.rejected && end.sh.dropped == sh.dropped
      && (|batch| < cfg.maxBatchSize ==>
            end.sh.persisted == sh.persisted + sh.core.buffer && end.sh.core.buffer == batch && end.fates == fates[c..])
      && (|batch| >= cfg.maxBatchSize ==>
            && end.sh.persisted == sh.persisted + sh.core.buffer + batch && end.sh.core.buffer == []
            && end.fates == fates[c..][d..])
  {
    hide Solo, Chunks;
    OverflowGoesOn(cfg, sh, batch, fates);
    var mid := sh.(core := Taken(sh.core), persisted := sh.persisted + sh.core.buffer);
    var left := fates[Chunks(cfg.maxBatchSize, |sh.core.buffer|)..];
    AcceptGoesOn(cfg, mid, Retrying(batch), left);
    assert [] + batch == batch;
    if |batch| >= cfg.maxBatchSize {
      FlushStores(cfg, Added(mid, batch), Return, left);
      var end := Added(mid, batch);
      SoloDone(cfg, end.(core := Taken(end.core), persisted := end.persisted + end.core.buffer),
               left[Chunks(cfg.maxBatchSize, |batch|)..]);
    }
  }

  lemma {:induction false} SyncingEnds(cfg: Config, sh: Shared, batch: Batch, fates: seq<bool>)
    requires cfg.Valid()
    ensures Solo(cfg, sh, Syncing(batch), fates)
         == Alone(if NextFate(fates) then sh.(accepted := sh.accepted + batch, persisted := sh.persisted + batch)
                  else sh.(rejected := sh.rejected + batch), LaterFates(fates))
  {
    hide Solo;
    SoloStep(cfg, sh, Syncing(batch), fates);
    var m := StepMove(cfg, sh, Syncing(batch), NextFate(fates));
    SoloDone(cfg, m.sh, LaterFates(fates));
  }

  /** A batch larger than the whole queue goes to the store intact, behind what was buffered. */
  lemma {:induction false} OversizeIsInserted(cfg: Config, sh: Shared, batch: Batch, fates: seq<bool>)
    requires cfg.Valid() && !sh.core.stopped && |sh.core.buffer| <= cfg.maxQueueSize < |batch|
    requires AllSucceed(fates) && Chunks(cfg.maxBatchSize, |sh.core.buffer|) < |fates|
    ensures var end := Solo(cfg, sh, Calling(batch), fates);
      && end.sh.accepted == sh.accepted + batch && end.sh.rejected == sh.rejected && end.sh.dropped == sh.dropped
      && end.sh.persisted == sh.persisted + sh.core.buffer + batch && end.sh.core.buffer == []
      && end.fates == fates[Chunks(cfg.maxBatchSize, |sh.core.buffer|)..][1..]
  {
    hide Solo, Chunks;
    OverflowGoesOn(cfg, sh, batch, fates);
    var mid := sh.(core := Taken(sh.core), persisted := sh.persisted + sh.core.buffer);
    var left := fates[Chunks(cfg.maxBatchSize, |sh.core.buffer|)..];
    SoloStep(cfg, mid, Retrying(batch), left);
    SyncingEnds(cfg, mid, batch, left);
  }

  /** A stopped queue passes the batch to the store: it is taken exactly if that one insert succeeds. */
  lemma {:induction false} StoppedInserts(cfg: Config, sh: Shared, batch: Batch, fates: seq<bool>)
    requires cfg.Valid() && batch != [] && sh.core.stopped
    ensures var end := Solo(cfg, sh, Calling(batch), fates);
      && end.sh.core == sh.core && end.fates == LaterFates(fates)
      && (NextFate(fates) ==> end.sh.accepted == sh.accepted + batch && end.sh.persisted == sh.persisted + batch)
      && (!NextFate(fates) ==> end.sh.rejected == sh.rejected + batch && end.sh.persisted == sh.persisted)
  {
    hide Solo;
    SoloStep(cfg, sh, Calling(batch), fates);
    SyncingEnds(cfg, sh, batch, fates);
  }
}
