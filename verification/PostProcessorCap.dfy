/**
 How many calls of enqueuePostprocess (internal/ingest/postprocess.go) may overlap before
 the cap on queued entries can fail: none.
 */
module PostProcessorCap {
  import opened Sums
  import opened PostProcessor

  ghost function InBetween(): Pc -> int {
    (pc: Pc) => if BetweenCheckAndAdd(pc) then 1 else 0
  }

  /** In every state of the run, at most n calls are between their look at the counter and their addition to it. */
  ghost predicate AtMost(s: State, run: seq<Action>, n: nat)
    requires Legal(s, run)
    decreases |run|
  {
    Total(s.threads, InBetween()) <= n && (run != [] ==> AtMost(Next(s, run[0]), run[1..], n))
  }

  lemma {:induction false} AloneInBetween(s: State)
    requires Total(s.threads, InBetween()) <= 1
    ensures OneEnqueuer(s)
  {
    forall t, u | 0 <= t < u < |s.threads| && BetweenCheckAndAdd(s.threads[t]) && BetweenCheckAndAdd(s.threads[u])
      ensures false
    {
      var others := s.threads[t := Finished];
      TotalUpdate(s.threads, t, Finished, InBetween());
      TotalAtLeast(others, u, InBetween());
    }
  }

  lemma {:induction false} AtMostOne(s: State, run: seq<Action>, n: nat)
    requires Legal(s, run) && AtMost(s, run, n) && n <= 1
    ensures Serialised(s, run)
    decreases |run|
  {
    hide Next, Enabled, OneEnqueuer;
    AloneInBetween(s);
    if run != [] {
      AtMostOne(Next(s, run[0]), run[1..], n);
    }
  }

  // --- at most as many as were ever called -----------------------------------------------

  ghost function Caller(): Pc -> int {
    (pc: Pc) => if pc.Entering? || Reading(pc) || pc.Inline? then 1 else 0
  }

  ghost predicate CallersOffered(s: State) {
    Total(s.threads, Caller()) <= |s.sh.offered|
  }

  lemma {:induction false} MoveCallers(sh: Shared, pc: Pc, giveUp: bool)
    requires Refers(sh, pc) && !Done(pc)
    ensures var m := StepMove(sh, pc, giveUp); m.sh.offered == sh.offered && Caller()(m.pc) <= Caller()(pc)
  {
  }

  lemma {:induction false} NextCallers(s: State, a: Action)
    requires Enabled(s, a) && CallersOffered(s)
    ensures CallersOffered(Next(s, a)) && |s.sh.offered| <= |Next(s, a).sh.offered|
  {
    match a
    case Call(batch) =>
      TotalAppend(s.threads, Entering(batch), Caller());
    case Start(workers, queueSize) =>
      var ws := Workers(Max(1, workers), |s.sh.pools|);
      TotalConcat(s.threads, ws, Caller());
      TotalZero(ws, Caller());
    case Stop =>
      var s' := Next(s, a);
      if s' != s {
        TotalAppend(s.threads, Awaiting(s.sh.current.value), Caller());
      }
    case Run(t, giveUp) =>
      MoveCallers(s.sh, s.threads[t], giveUp);
      hide StepMove;
      TotalUpdate(s.threads, t, StepMove(s.sh, s.threads[t], giveUp).pc, Caller());
  }

  lemma {:induction false} OfferedGrows(s: State, run: seq<Action>)
    requires Legal(s, run) && CallersOffered(s)
    ensures |s.sh.offered| <= |Exec(s, run).sh.offered|
    decreases |run|
  {
    hide Next, Enabled, CallersOffered;
    if run != [] {
      NextCallers(s, run[0]);
      OfferedGrows(Next(s, run[0]), run[1..]);
    }
  }

  lemma {:induction false} AtMostOffered(s: State, run: seq<Action>)
    requires Legal(s, run) && CallersOffered(s)
    ensures AtMost(s, run, |Exec(s, run).sh.offered|)
    decreases |run|
  {
    OfferedGrows(s, run);
    TotalMonotone(s.threads, InBetween(), Caller());
    hide Next, Enabled;
    if run != [] {
      NextCallers(s, run[0]);
      AtMostOffered(Next(s, run[0]), run[1..]);
    }
  }

  lemma {:induction false} AtMostMore(s: State, run: seq<Action>, m: nat, n: nat)
    requires Legal(s, run) && AtMost(s, run, m) && m <= n
    ensures AtMost(s, run, n)
    decreases |run|
  {
    hide Next, Enabled;
    if run != [] {
      AtMostMore(Next(s, run[0]), run[1..], m, n);
    }
  }

  ghost predicate WithinCap(s: State) {
    forall i :: 0 <= i < |s.sh.pools| ==> s.sh.pools[i].queued <= MAX_QUEUED_ENTRIES
  }

  /** The counter stays within the cap on all runs with n calls in between at a time if and only if n is at most one. */
  lemma {:induction false} CapExactly(n: nat)
    ensures (forall run :: Legal(INITIAL, run) && AtMost(INITIAL, run, n) ==> WithinCap(Exec(INITIAL, run))) <==> n <= 1
  {
    hide Legal, AtMost, Exec;
    if n <= 1 {
      forall run | Legal(INITIAL, run) && AtMost(INITIAL, run, n)
        ensures WithinCap(Exec(INITIAL, run))
      {
        AtMostOne(INITIAL, run, n);
        forall i | 0 <= i < |Exec(INITIAL, run).sh.pools|
          ensures Exec(INITIAL, run).sh.pools[i].queued <= MAX_QUEUED_ENTRIES
        {
          CapHolds(run, i);
        }
      }
    } else {
      var run := CapExceeded();
      assert CallersOffered(INITIAL);
      AtMostOffered(INITIAL, run);
      AtMostMore(INITIAL, run, 2, n);
    }
  }
}
