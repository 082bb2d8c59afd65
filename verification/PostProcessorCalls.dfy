/**
 What one call of enqueuePostprocess, StartPostProcessor or StopPostProcessor
 (internal/ingest/postprocess.go) does when nobody interferes, and that the pool goes on:
 a stop can always succeed.
 */
module PostProcessorCalls {
  import opened PostProcessor

  // -------------------------------------------------------------------------
  // The channel
  // -------------------------------------------------------------------------

  ghost predicate Roomy(s: State) {
    forall i :: 0 <= i < |s.sh.pools| ==> 1 <= s.sh.pools[i].capacity && |s.sh.pools[i].jobs| <= s.sh.pools[i].capacity
  }

  lemma {:induction false} NextRoomy(s: State, a: Action)
    requires Enabled(s, a) && Roomy(s)
    ensures Roomy(Next(s, a))
  {
  }

  lemma {:induction false} ExecRoomy(s: State, run: seq<Action>)
    requires Legal(s, run) && Roomy(s)
    ensures Roomy(Exec(s, run))
    decreases |run|
  {
    hide Next, Enabled, Roomy;
    if run != [] {
      NextRoomy(s, run[0]);
      ExecRoomy(Next(s, run[0]), run[1..]);
    }
  }

  /** No channel ever holds more batches than it was made for. */
  lemma {:induction false} ChannelBound(run: seq<Action>, i: nat)
    requires Legal(INITIAL, run) && i < |Exec(INITIAL, run).sh.pools|
    ensures |Exec(INITIAL, run).sh.pools[i].jobs| <= Exec(INITIAL, run).sh.pools[i].capacity
  {
    ExecRoomy(INITIAL, run);
  }

  // -------------------------------------------------------------------------
  // One call
  // -------------------------------------------------------------------------

  /** There is a pool, its counter has room for the batch and its channel for one more. */
  predicate Room(s: State, batch: Batch) {
    && s.sh.current.Some? && s.sh.current.value < |s.sh.pools|
    && var p := s.sh.pools[s.sh.current.value];
    && p.queued + batch.size <= MAX_QUEUED_ENTRIES && |p.jobs| < p.capacity
  }

  lemma {:induction false} PassesLook(s: State, t: nat, batch: Batch) returns (run: seq<Action>)
    requires t < |s.threads| && s.threads[t] == Entering(batch) && Room(s, batch)
    ensures Legal(s, run) && Exec(s, run) == s.(threads := s.threads[t := Sending(batch, s.sh.current.value)])
  {
    var s1 := Next(s, Run(t, false));
    assert s1 == s.(threads := s.threads[t := Checking(batch, s.sh.current)]);
    var s2 := Next(s1, Run(t, false));
    assert s2.threads == s.threads[t := Sending(batch, s.sh.current.value)];
    run := Prepend(s1, Run(t, false), []);
    hide Next, Exec, Legal, Enabled;
    run := Prepend(s, Run(t, false), run);
  }

  lemma {:induction false} Sends(s: State, t: nat, batch: Batch, i: nat) returns (run: seq<Action>)
    requires t < |s.threads| && s.threads[t] == Sending(batch, i) && i < |s.sh.pools|
    requires |s.sh.pools[i].jobs| < s.sh.pools[i].capacity
    ensures var p := s.sh.pools[i];
      && Legal(s, run)
      && Exec(s, run) == State(SetPool(s.sh, i, p.(jobs := p.jobs + [batch], queued := p.queued + batch.size)),
                               s.threads[t := Finished])
  {
    var p := s.sh.pools[i];
    var s1 := Next(s, Run(t, false));
    assert s1 == State(SetPool(s.sh, i, p.(jobs := p.jobs + [batch])), s.threads[t := Adding(batch, i)]);
    var s2 := Next(s1, Run(t, false));
    assert s2.threads == s.threads[t := Leaving(None)];
    assert s2.sh.pools == s.sh.pools[i := p.(jobs := p.jobs + [batch], queued := p.queued + batch.size)];
    var s3 := Next(s2, Run(t, false));
    assert s3.threads == s.threads[t := Finished];
    run := Prepend(s2, Run(t, false), []);
    hide Next, Exec, Legal, Enabled;
    run := Prepend(s1, Run(t, false), run);
    run := Prepend(s, Run(t, false), run);
  }

  /** Where there is room the batch goes to the pool, is counted, and is not processed by the caller. */
  lemma {:induction false} QueuedWithRoom(s: State, t: nat, batch: Batch) returns (run: seq<Action>)
    requires t < |s.threads| && s.threads[t] == Entering(batch) && Room(s, batch)
    ensures var i := s.sh.current.value; var p := s.sh.pools[i];
      && Legal(s, run)
      && Exec(s, run) == State(SetPool(s.sh, i, p.(jobs := p.jobs + [batch], queued := p.queued + batch.size)),
                               s.threads[t := Finished])
  {
    hide Next, Exec, Legal, Enabled;
    var look := PassesLook(s, t, batch);
    var s1 := Exec(s, look);
    var send := Sends(s1, t, batch, s.sh.current.value);
    ExecConcat(s, look, send);
    run := look + send;
    assert s1.threads[t := Finished] == s.threads[t := Finished];
  }

  /** Where there is none, the pool missing, the counter or the channel full, the caller processes it. */
  lemma {:induction false} InlineWithoutRoom(s: State, t: nat, batch: Batch) returns (run: seq<Action>)
    requires t < |s.threads| && s.threads[t] == Entering(batch) && !Room(s, batch)
    requires s.sh.current.Some? ==> s.sh.current.value < |s.sh.pools|
    ensures Legal(s, run)
    ensures Exec(s, run) == State(s.sh.(processed := s.sh.processed + [batch]), s.threads[t := Finished])
  {
    var s1 := Next(s, Run(t, false));
    assert s1 == s.(threads := s.threads[t := Checking(batch, s.sh.current)]);
    var s2 := Next(s1, Run(t, false));
    if s2.threads[t].Leaving? {
      assert s2 == s.(threads := s.threads[t := Leaving(Some(batch))]);
      run := LeavesInline(s2, t, batch);
    } else {
      assert s2 == s.(threads := s.threads[t := Sending(batch, s.sh.current.value)]);
      var s3 := Next(s2, Run(t, false));
      assert s3 == s.(threads := s.threads[t := Leaving(Some(batch))]);
      run := LeavesInline(s3, t, batch);
      run := Prepend(s2, Run(t, false), run);
    }
    assert s2.threads[t := Finished] == s.threads[t := Finished];
    hide Next, Exec, Legal, Enabled;
    run := Prepend(s1, Run(t, false), run);
    run := Prepend(s, Run(t, false), run);
  }

  lemma {:induction false} LeavesInline(s: State, t: nat, batch: Batch) returns (run: seq<Action>)
    requires t < |s.threads| && s.threads[t] == Leaving(Some(batch))
    ensures Legal(s, run)
    ensures Exec(s, run) == State(s.sh.(processed := s.sh.processed + [batch]), s.threads[t := Finished])
  {
    var s1 := Next(s, Run(t, false));
    assert s1 == s.(threads := s.threads[t := Inline(batch)]);
    assert Next(s1, Run(t, false)) == State(s.sh.(processed := s.sh.processed + [batch]), s.threads[t := Finished]);
    run := Prepend(s1, Run(t, false), []);
    hide Next, Exec, Legal, Enabled;
    run := Prepend(s, Run(t, false), run);
  }

  /** A first start makes an open pool with at least one worker and room for at least one batch; a second one does nothing. */
  lemma {:induction false} Starts(s: State, workers: int, queueSize: int)
    requires Enabled(s, Start(workers, queueSize))
    ensures var s' := Next(s, Start(workers, queueSize));
      && (s.sh.current.Some? ==> s' == s)
      && (s.sh.current.None? ==>
            && s'.sh.current == Some(|s.sh.pools|) && |s'.sh.pools| == |s.sh.pools| + 1
            && var p := s'.sh.pools[|s.sh.pools|];
            && p.jobs == [] && !p.closed && p.queued == 0 && p.capacity == (if queueSize < 1 then 1 else queueSize)
            && |s'.threads| == |s.threads| + (if workers < 1 then 1 else workers)
            && forall t :: |s.threads| <= t < |s'.threads| ==> s'.threads[t] == Receiving(|s.sh.pools|))
  {
  }

  // -------------------------------------------------------------------------
  // A stop can succeed
  // -------------------------------------------------------------------------

  function Phase(pc: Pc): nat {
    if pc.Processing? then 2 else if pc.Subtracting? then 1 else 0
  }

  /** Only goroutine t has moved, and pool i is as closed as it was. */
  ghost predicate WorkerMoved(s: State, s': State, t: nat, i: nat) {
    && |s'.threads| == |s.threads| && (forall u :: 0 <= u < |s.threads| && u != t ==> s'.threads[u] == s.threads[u])
    && |s'.sh.pools| == |s.sh.pools| && (i < |s.sh.pools| ==> s'.sh.pools[i].closed == s.sh.pools[i].closed)
  }

  /** A worker of a closed pool works off what is left and exits. */
  lemma {:induction false} WorkerExits(s: State, t: nat, i: nat) returns (run: seq<Action>)
    requires t < |s.threads| && Working(s.threads[t], i) && i < |s.sh.pools| && s.sh.pools[i].closed
    ensures Legal(s, run) && WorkerMoved(s, Exec(s, run), t, i) && Exec(s, run).threads[t] == Exited(i)
    decreases |s.sh.pools[i].jobs|, Phase(s.threads[t])
  {
    var a := Run(t, false);
    var s1 := Next(s, a);
    assert WorkerMoved(s, s1, t, i);
    if s1.threads[t] == Exited(i) {
      run := Prepend(s, a, []);
    } else {
      var rest := WorkerExits(s1, t, i);
      hide Next, Exec, Legal, Enabled;
      run := Prepend(s, a, rest);
    }
  }

  /** So do all of them. */
  lemma {:induction false} WorkersExit(s: State, n: nat, i: nat) returns (run: seq<Action>)
    requires n <= |s.threads| && i < |s.sh.pools| && s.sh.pools[i].closed
    requires forall u :: n <= u < |s.threads| ==> !Working(s.threads[u], i)
    ensures Legal(s, run)
    ensures var e := Exec(s, run);
      && |e.threads| == |s.threads| && |e.sh.pools| == |s.sh.pools|
      && (forall u :: 0 <= u < |s.threads| && !Working(s.threads[u], i) ==> e.threads[u] == s.threads[u])
      && forall u :: 0 <= u < |s.threads| ==> !Working(e.threads[u], i)
    decreases n
  {
    if n == 0 {
      run := [];
    } else if Working(s.threads[n - 1], i) {
      var first := WorkerExits(s, n - 1, i);
      var s1 := Exec(s, first);
      hide Exec, Legal;
      var rest := WorkersExit(s1, n - 1, i);
      ExecConcat(s, first, rest);
      run := first + rest;
    } else {
      run := WorkersExit(s, n - 1, i);
    }
  }

  /** Whatever is queued and whoever is at work, a waiting stop can succeed. */
  lemma {:induction false} StopCanSucceed(run: seq<Action>, t: nat) returns (later: seq<Action>)
    requires Legal(INITIAL, run) && t < |Exec(INITIAL, run).threads| && Exec(INITIAL, run).threads[t].Awaiting?
    ensures Legal(Exec(INITIAL, run), later)
    ensures t < |Exec(Exec(INITIAL, run), later).threads|
    ensures Exec(Exec(INITIAL, run), later).threads[t] == Drained(Exec(INITIAL, run).threads[t].i)
  {
    ReachableInv(run);
    var s := Exec(INITIAL, run);
    var i := s.threads[t].i;
    assert ThreadInv(s.sh, s.threads[t]);
    hide Exec, Legal, Inv;
    var work := WorkersExit(s, |s.threads|, i);
    var s1 := Exec(s, work);
    var last := Awaited(s1, t, i);
    ExecConcat(s, work, last);
    later := work + last;
  }

  lemma {:induction false} Awaited(s: State, t: nat, i: nat) returns (run: seq<Action>)
    requires t < |s.threads| && s.threads[t] == Awaiting(i) && i < |s.sh.pools|
    requires forall u :: 0 <= u < |s.threads| ==> !Working(s.threads[u], i)
    ensures Legal(s, run) && t < |Exec(s, run).threads| && Exec(s, run).threads[t] == Drained(i)
  {
    run := Prepend(s, Run(t, false), []);
  }
}
