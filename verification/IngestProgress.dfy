/**
 The ingest queue (internal/ingest/queue.go) goes on: a tick of the flush loop can drain the
 buffer, and from every reachable state the queue can be shut down with every goroutine done.
 */
module IngestProgress {
  import opened IngestQueue

  /** Only goroutine t has moved. */
  ghost predicate OnlyMoved(s: State, s': State, t: nat) {
    |s'.threads| == |s.threads| && forall u :: 0 <= u < |s.threads| && u != t ==> s'.threads[u] == s.threads[u]
  }

  lemma {:induction false} Prepend(cfg: Config, s: State, a: Action, rest: seq<Action>) returns (run: seq<Action>)
    requires cfg.Valid() && Enabled(s, a) && Legal(cfg, Next(cfg, s, a), rest)
    ensures Legal(cfg, s, run) && Exec(cfg, s, run) == Exec(cfg, Next(cfg, s, a), rest)
  {
    hide Next, Enabled;
    run := [a] + rest;
    assert run[1..] == rest;
  }

  lemma {:induction false} Join(cfg: Config, s: State, a: seq<Action>, b: seq<Action>) returns (run: seq<Action>)
    requires cfg.Valid() && Legal(cfg, s, a) && Legal(cfg, Exec(cfg, s, a), b)
    ensures Legal(cfg, s, run) && Exec(cfg, s, run) == Exec(cfg, Exec(cfg, s, a), b)
    decreases |a|
  {
    hide Next, Enabled;
    if a == [] {
      run := b;
    } else {
      var rest := Join(cfg, Next(cfg, s, a[0]), a[1..], b);
      run := Prepend(cfg, s, a[0], rest);
    }
  }

  // -------------------------------------------------------------------------
  // A tick
  // -------------------------------------------------------------------------

  function Stored(sh: Shared, entries: Batch): Shared {
    sh.(persisted := sh.persisted + entries)
  }

  /** A flush whose inserts succeed writes out what it holds. */
  lemma {:induction false} WritesOut(cfg: Config, s: State, t: nat, entries: Batch, then_: Then) returns (run: seq<Action>)
    requires cfg.Valid() && t < |s.threads| && s.threads[t] == NextChunk(cfg, entries, then_)
    ensures Legal(cfg, s, run)
    ensures Exec(cfg, s, run) == State(Stored(s.sh, entries), s.threads[t := NextChunk(cfg, [], then_)])
    decreases |entries|
  {
    if entries == [] {
      run := [];
      assert s.sh.persisted + entries == s.sh.persisted && s.threads[t := s.threads[t]] == s.threads;
    } else {
      var pc := s.threads[t];
      var a := Run(t, true);
      var s1 := Next(cfg, s, a);
      assert s1 == State(Stored(s.sh, pc.chunk), s.threads[t := NextChunk(cfg, pc.rest, then_)]);
      var rest := WritesOut(cfg, s1, t, pc.rest, then_);
      assert s.sh.persisted + pc.chunk + pc.rest == s.sh.persisted + entries;
      hide Exec, Legal, StepMove, NextChunk;
      run := Prepend(cfg, s, a, rest);
    }
  }

  /** A tick of the flush loop on a store that works moves the buffer to the store, in order, and ticks on. */
  lemma {:induction false} TickDrains(cfg: Config, s: State) returns (run: seq<Action>)
    requires cfg.Valid() && |s.threads| > 0 && s.threads[0] == Ticking
    ensures Legal(cfg, s, run)
    ensures Exec(cfg, s, run) == s.(sh := s.sh.(core := s.sh.core.(buffer := []), persisted := s.sh.persisted + s.sh.core.buffer))
  {
    var s1 := Next(cfg, s, Run(0, true));
    assert s1.threads[0] == Flushing(LoopOn) && s1.sh == s.sh;
    var s2 := Next(cfg, s1, Run(0, true));
    assert s2.threads[0] == NextChunk(cfg, s.sh.core.buffer, LoopOn) && s2.sh == s.sh.(core := s.sh.core.(buffer := []));
    run := WritesOut(cfg, s2, 0, s.sh.core.buffer, LoopOn);
    assert NextChunk(cfg, [], LoopOn) == Ticking;
    assert s2.threads[0 := Ticking] == s.threads;
    hide Exec, Legal, StepMove, NextChunk;
    run := Prepend(cfg, s1, Run(0, true), run);
    run := Prepend(cfg, s, Run(0, true), run);
  }

  // -------------------------------------------------------------------------
  // Every goroutine can finish
  // -------------------------------------------------------------------------

  function Stage(pc: Pc): nat {
    match pc
    case Calling(_) => 9
    case Flushing(then_) => if then_.Again? || then_.LoopOn? then 8 else 4
    case Inserting(_, _, _, then_) => if then_.Again? || then_.LoopOn? then 7 else 3
    case Failing(_, _, then_) => if then_.Again? || then_.LoopOn? then 7 else 3
    case Dropping(_, _, then_) => if then_.Again? || then_.LoopOn? then 7 else 3
    case Retrying(_) => 6
    case Ticking => 6
    case Stopping => 3
    case Closing => 2
    case Waiting => 1
    case Syncing(_) => 1
    case Finished => 0
    case StopReturned => 0
  }

  function Left(pc: Pc): nat {
    if pc.Inserting? || pc.Failing? || pc.Dropping? then |pc.rest| else 0
  }

  function Rank(pc: Pc): nat {
    if pc.Inserting? then 3 else if pc.Failing? then 2 else if pc.Dropping? then 1 else 0
  }

  predicate Nearer(pc: Pc, pc': Pc) {
    || Stage(pc') < Stage(pc)
    || (Stage(pc') == Stage(pc) && Left(pc') < Left(pc))
    || (Stage(pc') == Stage(pc) && Left(pc') == Left(pc) && Rank(pc') < Rank(pc))
  }

  lemma {:induction false} ChunkNearer(cfg: Config, pc: Pc)
    requires cfg.Valid() && (pc.Inserting? || pc.Failing? || pc.Dropping?)
    ensures Nearer(pc, NextChunk(cfg, pc.rest, pc.then_))
  {
  }

  /** With inserts that succeed, and the loop told to leave, every step brings its goroutine nearer to its end. */
  lemma {:induction false} StepNearer(cfg: Config, sh: Shared, pc: Pc)
    requires cfg.Valid() && !Done(pc)
    ensures Nearer(pc, StepMove(cfg, sh, pc, !pc.Ticking?).pc)
  {
    if pc.Inserting? || pc.Failing? || pc.Dropping? {
      ChunkNearer(cfg, pc);
      hide NextChunk;
    }
  }

  /** The goroutine may be run to its end: the loop is told to leave, and a Stop finds the loop gone. */
  ghost predicate Free(s: State, t: nat) {
    t < |s.threads| && s.sh.closed && (t > 0 ==> s.threads[0] == Finished)
  }

  lemma {:induction false} CanFinish(cfg: Config, s: State, t: nat) returns (run: seq<Action>)
    requires cfg.Valid() && Inv(cfg, s) && Free(s, t)
    ensures Legal(cfg, s, run)
    ensures var e := Exec(cfg, s, run); Inv(cfg, e) && e.sh.closed && OnlyMoved(s, e, t) && Done(e.threads[t])
    decreases Stage(s.threads[t]), Left(s.threads[t]), Rank(s.threads[t])
  {
    if Done(s.threads[t]) {
      run := [];
    } else {
      var a := Run(t, !s.threads[t].Ticking?);
      assert Enabled(s, a);
      NextInv(cfg, s, a);
      StepNearer(cfg, s.sh, s.threads[t]);
      StaysClosed(cfg, s.sh, s.threads[t], a.ok);
      var s1 := Next(cfg, s, a);
      hide Inv, StepMove, Exec, Legal;
      var rest := CanFinish(cfg, s1, t);
      run := Prepend(cfg, s, a, rest);
    }
  }

  lemma {:induction false} StaysClosed(cfg: Config, sh: Shared, pc: Pc, ok: bool)
    requires cfg.Valid() && !Done(pc) && sh.closed
    ensures StepMove(cfg, sh, pc, ok).sh.closed
  {
  }

  lemma {:induction false} AllCanFinish(cfg: Config, s: State, n: nat) returns (run: seq<Action>)
    requires cfg.Valid() && Inv(cfg, s) && s.sh.closed && |s.threads| > 0 && s.threads[0] == Finished && n <= |s.threads|
    requires forall t :: n <= t < |s.threads| ==> Done(s.threads[t])
    ensures Legal(cfg, s, run) && Quiescent(Exec(cfg, s, run))
    decreases n
  {
    if n <= 1 {
      run := [];
    } else {
      var first := CanFinish(cfg, s, n - 1);
      var s1 := Exec(cfg, s, first);
      hide Exec, Legal, Inv;
      var rest := AllCanFinish(cfg, s1, n - 1);
      run := Join(cfg, s, first, rest);
    }
  }

  // -------------------------------------------------------------------------
  // The queue can be shut down
  // -------------------------------------------------------------------------

  /** A stopped queue has its channel closed, or somebody about to close it. */
  ghost predicate WillClose(s: State) {
    s.sh.core.stopped ==> s.sh.closed || exists t :: 0 <= t < |s.threads| && s.threads[t].Closing?
  }

  lemma {:induction false} NextWillClose(cfg: Config, s: State, a: Action)
    requires cfg.Valid() && Enabled(s, a) && WillClose(s)
    ensures WillClose(Next(cfg, s, a))
  {
    var s' := Next(cfg, s, a);
    if a.Run? {
      StopsToClose(cfg, s.sh, s.threads[a.t], a.ok);
      hide StepMove;
      if s'.threads[a.t].Closing? {
        assert s'.threads[a.t].Closing?;
      } else if s.sh.core.stopped && !s'.sh.closed {
        var t :| 0 <= t < |s.threads| && s.threads[t].Closing?;
        assert s'.threads[t].Closing?;
      }
    } else if s.sh.core.stopped && !s.sh.closed {
      var t :| 0 <= t < |s.threads| && s.threads[t].Closing?;
      assert s'.threads[t].Closing?;
    }
  }

  /** Only the step that goes on to close the channel stops the queue, and that step closes it. */
  lemma {:induction false} StopsToClose(cfg: Config, sh: Shared, pc: Pc, ok: bool)
    requires cfg.Valid() && !Done(pc)
    ensures var m := StepMove(cfg, sh, pc, ok);
      && (m.sh.core.stopped ==> sh.core.stopped || m.pc.Closing?)
      && (sh.closed ==> m.sh.closed) && (pc.Closing? ==> m.sh.closed)
  {
  }

  lemma {:induction false} ExecWillClose(cfg: Config, s: State, run: seq<Action>)
    requires cfg.Valid() && Legal(cfg, s, run) && WillClose(s)
    ensures WillClose(Exec(cfg, s, run))
    decreases |run|
  {
    hide Next, Enabled, WillClose;
    if run != [] {
      NextWillClose(cfg, s, run[0]);
      ExecWillClose(cfg, Next(cfg, s, run[0]), run[1..]);
    }
  }

  lemma {:induction false} CanClose(cfg: Config, s: State) returns (run: seq<Action>)
    requires cfg.Valid() && Inv(cfg, s) && WillClose(s)
    ensures Legal(cfg, s, run) && Exec(cfg, s, run).sh.closed
  {
    if s.sh.closed {
      run := [];
    } else if s.sh.core.stopped {
      var t :| 0 <= t < |s.threads| && s.threads[t].Closing?;
      run := Prepend(cfg, s, Run(t, true), []);
    } else {
      var t := |s.threads|;
      var s1 := Next(cfg, s, CallStop);
      var s2 := Next(cfg, s1, Run(t, true));
      run := Prepend(cfg, s2, Run(t, true), []);
      run := Prepend(cfg, s1, Run(t, true), run);
      run := Prepend(cfg, s, CallStop, run);
    }
  }

  /**
   From every reachable state the queue can be shut down: there is a continuation after
   which every goroutine, the flush loop and all callers of Stop among them, has returned,
   and every accepted entry is persisted or counted as dropped.
   */
  lemma {:induction false} CanShutDown(cfg: Config, run: seq<Action>) returns (later: seq<Action>)
    requires cfg.Valid() && Legal(cfg, INITIAL, run)
    ensures Legal(cfg, Exec(cfg, INITIAL, run), later)
    ensures var e := Exec(cfg, Exec(cfg, INITIAL, run), later);
      && Quiescent(e) && e.sh.core.buffer == []
      && multiset(e.sh.accepted) == multiset(e.sh.persisted) + multiset(e.sh.dropped)
  {
    var s := Exec(cfg, INITIAL, run);
    ReachableInv(cfg, run);
    assert WillClose(INITIAL);
    hide Exec, Legal, Inv, WillClose, Quiescent;
    ExecWillClose(cfg, INITIAL, run);
    var a := CanClose(cfg, s);
    var s1 := Exec(cfg, s, a);
    ExecInv(cfg, s, a);
    InvLoop(cfg, s1);
    var b := CanFinish(cfg, s1, 0);
    var s2 := Exec(cfg, s1, b);
    InvLoop(cfg, s2);
    var c := AllCanFinish(cfg, s2, |s2.threads|);
    var bc := Join(cfg, s1, b, c);
    later := Join(cfg, s, a, bc);
    EndsDrained(cfg, run, later);
  }

  /** Goroutine 0 is the flush loop, and done means finished. */
  lemma {:induction false} InvLoop(cfg: Config, s: State)
    requires Inv(cfg, s)
    ensures |s.threads| > 0 && (Done(s.threads[0]) ==> s.threads[0] == Finished)
  {
  }

  lemma {:induction false} EndsDrained(cfg: Config, run: seq<Action>, later: seq<Action>)
    requires cfg.Valid() && Legal(cfg, INITIAL, run) && Legal(cfg, Exec(cfg, INITIAL, run), later)
    requires Quiescent(Exec(cfg, Exec(cfg, INITIAL, run), later))
    ensures var e := Exec(cfg, Exec(cfg, INITIAL, run), later);
      e.sh.core.buffer == [] && multiset(e.sh.accepted) == multiset(e.sh.persisted) + multiset(e.sh.dropped)
  {
    var whole := Join(cfg, INITIAL, run, later);
    var e := Exec(cfg, INITIAL, whole);
    NothingStranded(cfg, whole);
    ReachableInv(cfg, whole);
    hide Exec, Legal, Conserved;
    assert LoopLeaving(e.threads[0]);
  }
}
