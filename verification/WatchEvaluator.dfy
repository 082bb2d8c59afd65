/**
 Watch evaluation (internal/watcher): any number of goroutines, the scheduler's
 and the stream evaluator's, run Evaluate on shared watches under the keyed
 mutex, while other code moves a watch's status without taking the lock.

 A step is one store call, one measurement, or one step of the keyed mutex.  A
 measurement's outcome is arbitrary; a store call may fail, leaving the row as it
 was, except the rescheduling write of recordFailedCheck.
 */
module WatchEvaluator {
  import K = KeyedMutex

  type Key = K.Key

  datatype Status = Active | Triggered | Resolved | Expired

  datatype Watch = Watch(status: Status, breaches: nat, minConsecutive: int)

  /** What happens to one watch from start-up on, in order. */
  datatype Event =
    | Breach                      // a check found the condition breached
    | Clear                       // a check found it met
    | Failure                     // a check failed
    | Alert                       // the watch was set to triggered and its alert reported
    | Lost                        // the process died before it could do so
    | Moved(status: Status)       // somebody else, or a failed check, set the status

  /** A stored watch: the row start-up found or Create wrote, the row now, and what happened in between. */
  datatype Record = Record(start: Watch, row: Watch, history: seq<Event>)

  /** Where an evaluation stands while its goroutine holds the key; `cur` is the row it re-read. */
  datatype Pc =
    | Reading
    | Measuring(cur: Watch)
    | Recording(cur: Watch, breached: bool)
    | Triggering(cur: Watch)
    | Repairing(cur: Watch, invalid: bool)
    | Ready

  datatype Measurement = Breached | Normal | TransientError | InvalidConfig

  // -------------------------------------------------------------------------
  // Evaluate, step by step
  // -------------------------------------------------------------------------

  datatype Move = Move(rec: Record, pc: Pc)

  function Log(r: Record, row: Watch, events: seq<Event>): Record {
    Record(r.start, row, r.history + events)
  }

  function EvalMove(r: Record, pc: Pc, ok: bool, outcome: Measurement): Move {
    match pc
    case Reading => Move(r, if ok then Measuring(r.row) else Ready)
    case Measuring(cur) =>
      Move(r, match outcome
              case Breached => Recording(cur, true)
              case Normal => Recording(cur, false)
              case TransientError => Repairing(cur, false)
              case InvalidConfig => Repairing(cur, true))
    case Recording(cur, breached) =>
      var breaches := if breached then cur.breaches + 1 else 0;
      var row := r.row.(breaches := breaches);
      if !ok then Move(r, Repairing(cur, false))
      else if !breached then Move(Log(r, row, [Clear]), Ready)
      else if breaches < cur.minConsecutive || cur.status == Triggered then Move(Log(r, row, [Breach]), Ready)
      else Move(Log(r, row, []), Triggering(cur))
    case Triggering(cur) =>
      if ok then Move(Log(r, r.row.(status := Triggered), [Breach, Alert]), Ready)
      else Move(r, Repairing(cur, false))
    case Repairing(cur, invalid) =>
      if !invalid then Move(Log(r, r.row.(breaches := cur.breaches), [Failure]), Ready)
      else if ok then Move(Log(r, r.row.(status := Expired), [Failure, Moved(Expired)]), Ready)
      else Move(Log(r, r.row, [Failure]), Ready)
    case Ready => Move(r, Ready)
  }

  datatype State = State(km: K.State, pcs: seq<Pc>, store: map<Key, Record>)

  datatype Action =
    | Lock(step: K.Action)
    | Eval(t: nat, ok: bool, outcome: Measurement)
    | Elsewhere(key: Key, status: Status)          // another writer's UpdateStatus
    | Create(key: Key, minConsecutive: int)        // a new watch
    | Crash                                        // the process dies and a new one starts

  predicate HoldsKey(km: K.State, t: nat, key: Key) {
    t < |km.phases| && km.phases[t].Holding? && km.phases[t].key == key
  }

  predicate Enabled(s: State, a: Action) {
    match a
    case Lock(step) =>
      && K.Enabled(s.km, step)
      && (step.Want? ==> step.key in s.store)
      && (step.Unlock? ==> step.t < |s.pcs| && s.pcs[step.t].Ready?)
    case Eval(t, _, _) =>
      && t < |s.pcs| && t < |s.km.phases| && s.km.phases[t].Holding? && s.km.phases[t].key in s.store
      && !s.pcs[t].Ready?
    case Elsewhere(key, status) => key in s.store && status != Triggered
    case Create(key, _) => key !in s.store
    case Crash => true
  }

  /** A breached check that died between its two writes has counted. */
  function Settled(r: Record): Record {
    if r.row.breaches == RunLength(r.start, r.history) then r else Log(r, r.row, [Breach, Lost])
  }

  function Next(s: State, a: Action): State
    requires Enabled(s, a)
  {
    match a
    case Lock(step) =>
      State(K.Next(s.km, step),
            if step.Spawn? then s.pcs + [Ready]
            else if step.Acquire? && step.t < |s.pcs| then s.pcs[step.t := Reading] else s.pcs,
            s.store)
    case Eval(t, ok, outcome) =>
      var key := s.km.phases[t].key;
      var m := EvalMove(s.store[key], s.pcs[t], ok, outcome);
      State(s.km, s.pcs[t := m.pc], s.store[key := m.rec])
    case Elsewhere(key, status) =>
      var r := s.store[key];
      s.(store := s.store[key := Log(r, r.row.(status := status), [Moved(status)])])
    case Create(key, minConsecutive) =>
      var row := Watch(Active, 0, minConsecutive);
      s.(store := s.store[key := Record(row, row, [])])
    case Crash => State(K.INITIAL, [], map key | key in s.store :: Settled(s.store[key]))
  }

  // -------------------------------------------------------------------------
  // Reading a history
  // -------------------------------------------------------------------------

  /** Breached checks since the last clear one; failed checks neither extend nor end the run. */
  function RunLength(start: Watch, h: seq<Event>): nat {
    if h == [] then start.breaches
    else match h[|h| - 1]
      case Breach => RunLength(start, h[..|h| - 1]) + 1
      case Clear => 0
      case _ => RunLength(start, h[..|h| - 1])
  }

  function StatusAfter(start: Watch, h: seq<Event>): Status {
    if h == [] then start.status
    else match h[|h| - 1]
      case Alert => Triggered
      case Moved(status) => status
      case _ => StatusAfter(start, h[..|h| - 1])
  }

  /** An alert that ends a long enough run of a watch that is not triggered. */
  predicate Justified(start: Watch, h: seq<Event>) {
    RunLength(start, h) >= 1 && RunLength(start, h) >= start.minConsecutive && StatusAfter(start, h) != Triggered
  }

  ghost predicate Sound(start: Watch, h: seq<Event>) {
    && (forall i :: 0 <= i < |h| && h[i] == Alert ==> Justified(start, h[..i]))
    && (forall i :: 0 <= i < |h| ==> h[i] != Moved(Triggered))
  }

  /** The watch was triggered at some point since the last check before i. */
  ghost predicate SeenTriggered(start: Watch, h: seq<Event>, i: nat)
    requires i <= |h|
  {
    exists j :: 0 <= j <= i && StatusAfter(start, h[..j]) == Triggered && OnlyMoves(h, j, i)
  }

  ghost predicate OnlyMoves(h: seq<Event>, j: nat, i: nat)
    requires j <= i <= |h|
  {
    forall k :: j <= k < i ==> h[k].Moved?
  }

  /** A breached check that has to alert does, unless the process dies. */
  ghost predicate Answered(start: Watch, h: seq<Event>, i: nat)
    requires i < |h|
  {
    || (i + 1 < |h| && (h[i + 1] == Alert || h[i + 1] == Lost))
    || RunLength(start, h[..i + 1]) < start.minConsecutive
    || SeenTriggered(start, h, i)
  }

  ghost predicate Complete(start: Watch, h: seq<Event>) {
    forall i :: 0 <= i < |h| && h[i] == Breach ==> Answered(start, h, i)
  }

  // -------------------------------------------------------------------------
  // Invariant
  // -------------------------------------------------------------------------

  ghost predicate RecordInv(r: Record) {
    && r.row.minConsecutive == r.start.minConsecutive
    && r.row.status == StatusAfter(r.start, r.history)
    && Sound(r.start, r.history)
    && Complete(r.start, r.history)
  }

  /** The stored counter is the run's length ... */
  predicate Exact(r: Record) {
    r.row.breaches == RunLength(r.start, r.history)
  }

  /** ... or one ahead of it. */
  predicate Near(r: Record) {
    Exact(r) || r.row.breaches == RunLength(r.start, r.history) + 1
  }

  /** The stored counter may be ahead of the history. */
  predicate Dirty(pc: Pc) {
    pc.Triggering? || (pc.Repairing? && !pc.invalid)
  }

  ghost predicate PcInv(pc: Pc, r: Record) {
    && (if Dirty(pc) then Near(r) else Exact(r))
    && (pc.Measuring? || pc.Recording? || pc.Triggering? || pc.Repairing? ==>
          && pc.cur.breaches == RunLength(r.start, r.history)
          && pc.cur.minConsecutive == r.row.minConsecutive)
    && (pc.Measuring? || pc.Recording? || pc.Triggering? ==>
          && (pc.cur.status != Triggered ==> StatusAfter(r.start, r.history) != Triggered)
          && (pc.cur.status == Triggered ==> SeenTriggered(r.start, r.history, |r.history|)))
    && (pc.Triggering? ==>
          && pc.cur.status != Triggered
          && pc.cur.breaches + 1 >= pc.cur.minConsecutive
          && r.row.breaches == pc.cur.breaches + 1)
  }

  ghost predicate Unheld(km: K.State, key: Key) {
    forall t :: 0 <= t < |km.phases| ==> !HoldsKey(km, t, key)
  }

  ghost predicate KeyInv(s: State, key: Key)
    requires key in s.store
  {
    && RecordInv(s.store[key])
    && Near(s.store[key])
    && (Unheld(s.km, key) ==> Exact(s.store[key]))
  }

  ghost predicate HolderInv(s: State, t: nat)
    requires t < |s.pcs| && t < |s.km.phases|
  {
    s.km.phases[t].Holding? ==>
      s.km.phases[t].key in s.store && PcInv(s.pcs[t], s.store[s.km.phases[t].key])
  }

  ghost predicate Inv(s: State) {
    && K.Inv(s.km)
    && |s.pcs| == |s.km.phases|
    && (forall t :: 0 <= t < |s.km.phases| && !s.km.phases[t].Outside? ==> s.km.phases[t].key in s.store)
    && (forall t :: 0 <= t < |s.pcs| ==> HolderInv(s, t))
    && (forall key :: key in s.store ==> KeyInv(s, key))
  }

  // --- one evaluation step --------------------------------------------------------

  lemma {:induction false} Extend(start: Watch, h: seq<Event>, e: Event)
    ensures RunLength(start, h + [e])
         == if e == Breach then RunLength(start, h) + 1 else if e == Clear then 0 else RunLength(start, h)
    ensures StatusAfter(start, h + [e])
         == if e == Alert then Triggered else if e.Moved? then e.status else StatusAfter(start, h)
  {
    assert (h + [e])[..|h|] == h;
  }

  lemma {:induction false} ExtendSound(start: Watch, h: seq<Event>, e: Event)
    requires Sound(start, h) && e != Moved(Triggered)
    requires e == Alert ==> Justified(start, h)
    ensures Sound(start, h + [e])
  {
    hide Justified;
    forall i | 0 <= i < |h + [e]| && (h + [e])[i] == Alert
      ensures Justified(start, (h + [e])[..i])
    {
      assert (h + [e])[..i] == h[..i];
      assert i == |h| ==> h[..i] == h;
    }
  }

  lemma {:induction false} SeenStays(start: Watch, h: seq<Event>, tail: seq<Event>, i: nat)
    requires i <= |h| && SeenTriggered(start, h, i)
    ensures SeenTriggered(start, h + tail, i)
  {
    hide StatusAfter;
    var j :| 0 <= j <= i && StatusAfter(start, h[..j]) == Triggered && OnlyMoves(h, j, i);
    assert (h + tail)[..j] == h[..j];
    assert OnlyMoves(h + tail, j, i);
  }

  lemma {:induction false} AnsweredStays(start: Watch, h: seq<Event>, tail: seq<Event>, i: nat)
    requires i < |h| && Answered(start, h, i)
    ensures Answered(start, h + tail, i)
  {
    hide RunLength, SeenTriggered;
    assert (h + tail)[..i + 1] == h[..i + 1];
    if SeenTriggered(start, h, i) {
      SeenStays(start, h, tail, i);
    }
  }

  /** What follows a history completes it if its own breached checks are answered. */
  lemma {:induction false} ExtendComplete(start: Watch, h: seq<Event>, tail: seq<Event>)
    requires Complete(start, h)
    requires forall i :: |h| <= i < |h + tail| && (h + tail)[i] == Breach ==> Answered(start, h + tail, i)
    ensures Complete(start, h + tail)
  {
    hide Answered;
    forall i | 0 <= i < |h + tail| && (h + tail)[i] == Breach
      ensures Answered(start, h + tail, i)
    {
      if i < |h| {
        assert h[i] == Breach;
        AnsweredStays(start, h, tail, i);
      }
    }
  }

  /** One event that is neither a breached check nor an alert, or a breached check that need not alert. */
  lemma {:induction false} LogOne(r: Record, row: Watch, e: Event)
    requires RecordInv(r) && row.minConsecutive == r.row.minConsecutive && e != Moved(Triggered) && e != Alert
    requires e == Breach ==>
      RunLength(r.start, r.history) + 1 < r.start.minConsecutive || SeenTriggered(r.start, r.history, |r.history|)
    requires row.status == if e.Moved? then e.status else r.row.status
    ensures RecordInv(Log(r, row, [e]))
    ensures RunLength(r.start, Log(r, row, [e]).history)
         == if e == Breach then RunLength(r.start, r.history) + 1 else if e == Clear then 0 else RunLength(r.start, r.history)
    ensures StatusAfter(r.start, Log(r, row, [e]).history) == row.status
  {
    hide RunLength, StatusAfter, Sound, Complete, SeenTriggered;
    var h := r.history;
    Extend(r.start, h, e);
    ExtendSound(r.start, h, e);
    if e == Breach {
      assert (h + [e])[..|h| + 1] == h + [e];
      if SeenTriggered(r.start, h, |h|) {
        SeenStays(r.start, h, [e], |h|);
      }
    }
    ExtendComplete(r.start, h, [e]);
  }

  /** A breached check and its answer. */
  lemma {:induction false} LogAnswered(r: Record, row: Watch, e: Event)
    requires RecordInv(r) && row.minConsecutive == r.row.minConsecutive && (e == Alert || e == Lost)
    requires e == Alert ==>
      RunLength(r.start, r.history) + 1 >= r.start.minConsecutive && StatusAfter(r.start, r.history) != Triggered
    requires row.status == if e == Alert then Triggered else r.row.status
    ensures RecordInv(Log(r, row, [Breach, e]))
    ensures RunLength(r.start, Log(r, row, [Breach, e]).history) == RunLength(r.start, r.history) + 1
    ensures StatusAfter(r.start, Log(r, row, [Breach, e]).history) == row.status
  {
    hide RunLength, StatusAfter, Sound, Complete, SeenTriggered;
    var h := r.history;
    assert h + [Breach, e] == h + [Breach] + [e];
    Extend(r.start, h, Breach);
    Extend(r.start, h + [Breach], e);
    ExtendSound(r.start, h, Breach);
    ExtendSound(r.start, h + [Breach], e);
    ExtendComplete(r.start, h, [Breach, e]);
  }

  lemma {:induction false} LogTwo(r: Record, row: Watch, d: Event, e: Event)
    ensures Log(r, row, [d, e]) == Log(Log(r, r.row, [d]), row, [e])
  {
    assert r.history + [d, e] == r.history + [d] + [e];
  }

  /** Seen triggered since the last check, still seen so after somebody moved the watch. */
  lemma {:induction false} SeenMoves(start: Watch, h: seq<Event>, status: Status)
    requires SeenTriggered(start, h, |h|)
    ensures SeenTriggered(start, h + [Moved(status)], |h| + 1)
  {
    hide StatusAfter;
    var h' := h + [Moved(status)];
    var j :| 0 <= j <= |h| && StatusAfter(start, h[..j]) == Triggered && OnlyMoves(h, j, |h|);
    assert h'[..j] == h[..j];
    assert OnlyMoves(h', j, |h| + 1);
  }

  lemma {:induction false} SeenNow(start: Watch, h: seq<Event>)
    requires StatusAfter(start, h) == Triggered
    ensures SeenTriggered(start, h, |h|)
  {
    hide StatusAfter;
    assert h[..|h|] == h;
    assert OnlyMoves(h, |h|, |h|);
  }

  /** A step of the goroutine that holds the watch. */
  lemma {:induction false} EvalMoveInv(r: Record, pc: Pc, ok: bool, outcome: Measurement)
    requires RecordInv(r) && PcInv(pc, r) && !pc.Ready?
    ensures var m := EvalMove(r, pc, ok, outcome); RecordInv(m.rec) && PcInv(m.pc, m.rec)
  {
    hide RunLength, StatusAfter, Sound, Complete, SeenTriggered;
    match pc
    case Reading =>
      if r.row.status == Triggered {
        SeenNow(r.start, r.history);
      }
    case Measuring(cur) =>
    case Recording(cur, breached) => RecordingInv(r, pc, ok, outcome);
    case Triggering(cur) => TriggeringInv(r, pc, ok, outcome);
    case Repairing(cur, invalid) => RepairingInv(r, pc, ok, outcome);
  }

  lemma {:induction false} RecordingInv(r: Record, pc: Pc, ok: bool, outcome: Measurement)
    requires RecordInv(r) && PcInv(pc, r) && pc.Recording?
    ensures var m := EvalMove(r, pc, ok, outcome); RecordInv(m.rec) && PcInv(m.pc, m.rec)
  {
    hide RunLength, StatusAfter, Sound, Complete, SeenTriggered;
    var row := r.row.(breaches := if pc.breached then pc.cur.breaches + 1 else 0);
    if !ok {
    } else if !pc.breached {
      LogOne(r, row, Clear);
    } else if row.breaches < pc.cur.minConsecutive || pc.cur.status == Triggered {
      LogOne(r, row, Breach);
    } else {
      assert r.history + [] == r.history;
    }
  }

  lemma {:induction false} TriggeringInv(r: Record, pc: Pc, ok: bool, outcome: Measurement)
    requires RecordInv(r) && PcInv(pc, r) && pc.Triggering?
    ensures var m := EvalMove(r, pc, ok, outcome); RecordInv(m.rec) && PcInv(m.pc, m.rec)
  {
    hide RunLength, StatusAfter, Sound, Complete, SeenTriggered;
    if ok {
      LogAnswered(r, r.row.(status := Triggered), Alert);
    }
  }

  lemma {:induction false} RepairingInv(r: Record, pc: Pc, ok: bool, outcome: Measurement)
    requires RecordInv(r) && PcInv(pc, r) && pc.Repairing?
    ensures var m := EvalMove(r, pc, ok, outcome); RecordInv(m.rec) && PcInv(m.pc, m.rec)
  {
    hide RunLength, StatusAfter, Sound, Complete, SeenTriggered;
    if !pc.invalid {
      LogOne(r, r.row.(breaches := pc.cur.breaches), Failure);
    } else {
      LogOne(r, r.row, Failure);
      if ok {
        var row := r.row.(status := Expired);
        LogTwo(r, row, Failure, Moved(Expired));
        LogOne(Log(r, r.row, [Failure]), row, Moved(Expired));
      }
    }
  }

  /** A status change from outside leaves an evaluation in progress on firm ground. */
  lemma {:induction false} ElsewhereInv(r: Record, pc: Pc, status: Status)
    requires RecordInv(r) && status != Triggered
    ensures var r' := Log(r, r.row.(status := status), [Moved(status)]);
            && RecordInv(r') && (Exact(r) ==> Exact(r')) && (Near(r) ==> Near(r'))
            && (PcInv(pc, r) ==> PcInv(pc, r'))
  {
    hide RunLength, StatusAfter, Sound, Complete, SeenTriggered;
    LogOne(r, r.row.(status := status), Moved(status));
    if SeenTriggered(r.start, r.history, |r.history|) {
      SeenMoves(r.start, r.history, status);
    }
  }

  /** Start-up finds every counter exact, whatever the crash interrupted. */
  lemma {:induction false} SettledInv(r: Record)
    requires RecordInv(r) && Near(r)
    ensures RecordInv(Settled(r)) && Exact(Settled(r)) && Settled(r).row == r.row
  {
    hide RunLength, StatusAfter, Sound, Complete, SeenTriggered;
    if !Exact(r) {
      LogAnswered(r, r.row, Lost);
    }
  }

  // --- every step -----------------------------------------------------------------

  lemma {:induction false} EvalInv(s: State, t: nat, ok: bool, outcome: Measurement)
    requires Inv(s) && Enabled(s, Eval(t, ok, outcome))
    ensures Inv(Next(s, Eval(t, ok, outcome)))
  {
    var s' := Next(s, Eval(t, ok, outcome));
    var key := s.km.phases[t].key;
    assert HolderInv(s, t) && KeyInv(s, key);
    EvalMoveInv(s.store[key], s.pcs[t], ok, outcome);
    hide EvalMove, RecordInv, RunLength, StatusAfter, K.Inv;
    assert Near(s'.store[key]);
    hide PcInv, Exact, Near;
    forall u | 0 <= u < |s'.pcs|
      ensures HolderInv(s', u)
    {
      assert HolderInv(s, u);
      if u != t && s.km.phases[u].Holding? && s.km.phases[u].key == key {
        K.MutualExclusion(s.km, t, u);
        assert false;
      }
    }
    forall k | k in s'.store
      ensures KeyInv(s', k)
    {
      assert HoldsKey(s'.km, t, key);
      assert KeyInv(s, k);
    }
  }

  lemma {:induction false} OutsideWriteInv(s: State, key: Key, status: Status)
    requires Inv(s) && Enabled(s, Elsewhere(key, status))
    ensures Inv(Next(s, Elsewhere(key, status)))
  {
    var s' := Next(s, Elsewhere(key, status));
    var r := s.store[key];
    forall u | 0 <= u < |s'.pcs|
      ensures HolderInv(s', u)
    {
      assert HolderInv(s, u);
      assert KeyInv(s, key);
      ElsewhereInv(r, s.pcs[u], status);
    }
    forall k | k in s'.store
      ensures KeyInv(s', k)
    {
      assert KeyInv(s, k);
      ElsewhereInv(r, Ready, status);
    }
  }

  lemma {:induction false} CreateInv(s: State, key: Key, minConsecutive: int)
    requires Inv(s) && Enabled(s, Create(key, minConsecutive))
    ensures Inv(Next(s, Create(key, minConsecutive)))
  {
    var s' := Next(s, Create(key, minConsecutive));
    hide PcInv, K.Inv;
    forall u | 0 <= u < |s'.pcs|
      ensures HolderInv(s', u)
    {
      assert HolderInv(s, u);
    }
    forall k | k in s'.store
      ensures KeyInv(s', k)
    {
      assert k in s.store ==> KeyInv(s, k);
    }
  }

  lemma {:induction false} CrashInv(s: State)
    requires Inv(s)
    ensures Inv(Next(s, Crash))
  {
    var s' := Next(s, Crash);
    forall k | k in s'.store
      ensures KeyInv(s', k)
    {
      assert KeyInv(s, k);
      SettledInv(s.store[k]);
    }
  }

  lemma {:induction false} LockInv(s: State, step: K.Action)
    requires Inv(s) && Enabled(s, Lock(step))
    ensures Inv(Next(s, Lock(step)))
  {
    K.NextInv(s.km, step);
    var s' := Next(s, Lock(step));
    hide K.Inv;
    forall u | 0 <= u < |s'.pcs|
      ensures HolderInv(s', u)
    {
      assert u < |s.pcs| ==> HolderInv(s, u);
      if step.Acquire? && u == step.t {
        var key := s.km.phases[u].key;
        assert KeyInv(s, key);
        forall w | 0 <= w < |s.km.phases|
          ensures !HoldsKey(s.km, w, key)
        {
          K.AcquiredIsFree(s.km, u, w);
        }
      }
    }
    forall k | k in s'.store
      ensures KeyInv(s', k)
    {
      assert KeyInv(s, k);
      if Unheld(s'.km, k) {
        UnheldBefore(s, step, k);
      }
    }
  }

  lemma {:induction false} UnheldBefore(s: State, step: K.Action, k: Key)
    requires Inv(s) && Enabled(s, Lock(step)) && k in s.store && KeyInv(s, k)
    requires Unheld(Next(s, Lock(step)).km, k)
    ensures Exact(s.store[k])
  {
    if !Unheld(s.km, k) {
      var t :| 0 <= t < |s.km.phases| && HoldsKey(s.km, t, k);
      assert !HoldsKey(Next(s, Lock(step)).km, t, k);
      assert HolderInv(s, t);
    }
  }

  lemma {:induction false} NextInv(s: State, a: Action)
    requires Inv(s) && Enabled(s, a)
    ensures Inv(Next(s, a))
  {
    match a
    case Lock(step) => LockInv(s, step);
    case Eval(t, ok, outcome) => EvalInv(s, t, ok, outcome);
    case Elsewhere(key, status) => OutsideWriteInv(s, key, status);
    case Create(key, minConsecutive) => CreateInv(s, key, minConsecutive);
    case Crash => CrashInv(s);
  }

  // -------------------------------------------------------------------------
  // Every run
  // -------------------------------------------------------------------------

  /** A start-up over any stored rows: nobody is evaluating and nothing has happened yet. */
  predicate Initial(s: State) {
    && s.km == K.INITIAL && s.pcs == []
    && forall key :: key in s.store ==> s.store[key].history == [] && s.store[key].row == s.store[key].start
  }

  ghost predicate Legal(s: State, run: seq<Action>)
    decreases |run|
  {
    run != [] ==> Enabled(s, run[0]) && Legal(Next(s, run[0]), run[1..])
  }

  function Exec(s: State, run: seq<Action>): State
    requires Legal(s, run)
    decreases |run|
  {
    if run == [] then s else Exec(Next(s, run[0]), run[1..])
  }

  lemma {:induction false} ExecInv(s: State, run: seq<Action>)
    requires Legal(s, run) && Inv(s)
    ensures Inv(Exec(s, run))
    decreases |run|
  {
    hide Inv, Next, Enabled;
    if run != [] {
      NextInv(s, run[0]);
      ExecInv(Next(s, run[0]), run[1..]);
    }
  }

  lemma {:induction false} ReachableRecord(s: State, run: seq<Action>, key: Key)
    requires Initial(s) && Legal(s, run) && key in Exec(s, run).store
    ensures RecordInv(Exec(s, run).store[key])
    ensures Unheld(Exec(s, run).km, key) ==> Exact(Exec(s, run).store[key])
  {
    ExecInv(s, run);
    assert KeyInv(Exec(s, run), key);
  }

  // --- what a sound history means ---------------------------------------------------

  function Alerts(h: seq<Event>): nat {
    if h == [] then 0 else Alerts(h[..|h| - 1]) + if h[|h| - 1] == Alert then 1 else 0
  }

  /** How often the status went from something else to triggered. */
  function TriggerTransitions(start: Watch, h: seq<Event>): nat {
    if h == [] then 0
    else TriggerTransitions(start, h[..|h| - 1])
         + if StatusAfter(start, h) == Triggered && StatusAfter(start, h[..|h| - 1]) != Triggered then 1 else 0
  }

  lemma {:induction false} SoundPrefix(start: Watch, h: seq<Event>)
    requires Sound(start, h) && h != []
    ensures Sound(start, h[..|h| - 1])
  {
    hide Justified;
    var g := h[..|h| - 1];
    forall i | 0 <= i < |g| && g[i] == Alert
      ensures Justified(start, g[..i])
    {
      assert h[i] == Alert && h[..i] == g[..i];
    }
  }

  lemma {:induction false} AlertsAreTransitions(start: Watch, h: seq<Event>)
    requires Sound(start, h)
    ensures Alerts(h) == TriggerTransitions(start, h)
  {
    if h != [] {
      SoundPrefix(start, h);
      AlertsAreTransitions(start, h[..|h| - 1]);
      assert h[|h| - 1] == Alert ==> Justified(start, h[..|h| - 1]);
    }
  }

  /** A triggered status lasts until somebody moves it. */
  lemma {:induction false} LeavesTriggered(start: Watch, h: seq<Event>, i: nat, j: nat) returns (k: nat)
    requires i < j <= |h| && h[i] == Alert && StatusAfter(start, h[..j]) != Triggered
    ensures i < k < j && h[k].Moved? && h[k].status != Triggered
    decreases j
  {
    assert h[..j][..j - 1] == h[..j - 1];
    if h[j - 1].Moved? && h[j - 1].status != Triggered {
      k := j - 1;
    } else {
      k := LeavesTriggered(start, h, i, j - 1);
    }
  }

  // --- the theorems -------------------------------------------------------------------

  /** Over every interleaving, alerts are exactly the transitions into triggered. */
  lemma {:induction false} OneAlertPerTransition(s: State, run: seq<Action>, key: Key)
    requires Initial(s) && Legal(s, run) && key in Exec(s, run).store
    ensures var r := Exec(s, run).store[key];
      Alerts(r.history) == TriggerTransitions(r.start, r.history) && r.row.status == StatusAfter(r.start, r.history)
  {
    ReachableRecord(s, run, key);
    AlertsAreTransitions(Exec(s, run).store[key].start, Exec(s, run).store[key].history);
  }

  /** Between any two alerts of a watch somebody moved its status away from triggered. */
  lemma {:induction false} AlertsAreApart(s: State, run: seq<Action>, key: Key, i: nat, j: nat) returns (k: nat)
    requires Initial(s) && Legal(s, run) && key in Exec(s, run).store
    requires i < j < |Exec(s, run).store[key].history|
    requires Exec(s, run).store[key].history[i] == Alert && Exec(s, run).store[key].history[j] == Alert
    ensures i < k < j && Exec(s, run).store[key].history[k].Moved?
            && Exec(s, run).store[key].history[k].status != Triggered
  {
    ReachableRecord(s, run, key);
    var r := Exec(s, run).store[key];
    assert Justified(r.start, r.history[..j]);
    k := LeavesTriggered(r.start, r.history, i, j);
  }

  /** A watch that start-up finds triggered alerts only after somebody moved it. */
  lemma {:induction false} NoAlertWhileTriggered(s: State, run: seq<Action>, key: Key, j: nat) returns (k: nat)
    requires Initial(s) && Legal(s, run) && key in Exec(s, run).store
    requires Exec(s, run).store[key].start.status == Triggered
    requires j < |Exec(s, run).store[key].history| && Exec(s, run).store[key].history[j] == Alert
    ensures k < j && Exec(s, run).store[key].history[k].Moved?
            && Exec(s, run).store[key].history[k].status != Triggered
  {
    ReachableRecord(s, run, key);
    var r := Exec(s, run).store[key];
    assert Justified(r.start, r.history[..j]);
    k := LeavesStart(r.start, r.history, j);
  }

  lemma {:induction false} LeavesStart(start: Watch, h: seq<Event>, j: nat) returns (k: nat)
    requires j <= |h| && start.status == Triggered && StatusAfter(start, h[..j]) != Triggered
    ensures k < j && h[k].Moved? && h[k].status != Triggered
    decreases j
  {
    if j > 0 {
      assert h[..j][..j - 1] == h[..j - 1];
      if h[j - 1].Moved? && h[j - 1].status != Triggered {
        return j - 1;
      }
      k := LeavesStart(start, h, j - 1);
    }
  }

  /** Every alert ends a run of at least max(1, MinConsecutive) breached checks ... */
  lemma {:induction false} AlertsAreEarned(s: State, run: seq<Action>, key: Key, i: nat)
    requires Initial(s) && Legal(s, run) && key in Exec(s, run).store
    requires i < |Exec(s, run).store[key].history| && Exec(s, run).store[key].history[i] == Alert
    ensures var r := Exec(s, run).store[key];
      RunLength(r.start, r.history[..i]) >= 1 && RunLength(r.start, r.history[..i]) >= r.row.minConsecutive
  {
    ReachableRecord(s, run, key);
    assert Justified(Exec(s, run).store[key].start, Exec(s, run).store[key].history[..i]);
  }

  /** ... and no increment is lost: whenever nobody holds the watch, the stored counter is the run's length. */
  lemma {:induction false} NoIncrementLost(s: State, run: seq<Action>, key: Key)
    requires Initial(s) && Legal(s, run) && key in Exec(s, run).store && Unheld(Exec(s, run).km, key)
    ensures var r := Exec(s, run).store[key]; r.row.breaches == RunLength(r.start, r.history)
  {
    ReachableRecord(s, run, key);
  }

  /**
   No alert is missed: every breached check is answered by an alert, or the process died on
   it, or the run of breaches was still too short, or the watch was already triggered at
   some point since the check before.
   */
  lemma {:induction false} NoAlertMissed(s: State, run: seq<Action>, key: Key, i: nat)
    requires Initial(s) && Legal(s, run) && key in Exec(s, run).store
    requires i < |Exec(s, run).store[key].history| && Exec(s, run).store[key].history[i] == Breach
    ensures var r := Exec(s, run).store[key];
      || (i + 1 < |r.history| && (r.history[i + 1] == Alert || r.history[i + 1] == Lost))
      || RunLength(r.start, r.history[..i + 1]) < r.row.minConsecutive
      || SeenTriggered(r.start, r.history, i)
  {
    hide RunLength, SeenTriggered;
    ReachableRecord(s, run, key);
    assert Answered(Exec(s, run).store[key].start, Exec(s, run).store[key].history, i);
  }
}
