/**
 The reference-counted per-key mutex of internal/watcher/watch_evaluator.go, as a
 state machine over the goroutines that use it.

 `mutexes` is the heap of refCountedMutex objects ever created, `locks` the map
 from keys to the ones in use.  A step is one section under `keyedMutex.mu`, or
 one Lock or Unlock of a per-key mutex.
 */
module KeyedMutex {
  import opened Sums

  type Key = string

  datatype Option<T> = None | Some(value: T)

  datatype Mutex = Mutex(refs: int, owner: Option<nat>)

  datatype Phase =
    | Outside
    | Wanting(key: Key)               // lock called
    | Waiting(key: Key, m: nat)       // counted, at m.mu.Lock
    | Holding(key: Key, m: nat)       // between lock's return and the unlock call
    | Releasing(key: Key, m: nat)     // m.mu unlocked, still counted

  datatype State = State(locks: map<Key, nat>, mutexes: seq<Mutex>, phases: seq<Phase>)

  const INITIAL := State(map[], [], [])

  datatype Action = Spawn | Want(t: nat, key: Key) | Enter(t: nat) | Acquire(t: nat) | Unlock(t: nat) | Leave(t: nat)

  // --- the sections -------------------------------------------------------------

  /** Finds or creates the key's mutex and counts the caller in. */
  function Entered(locks: map<Key, nat>, mutexes: seq<Mutex>, key: Key): (r: (map<Key, nat>, seq<Mutex>, nat))
  {
    if key in locks && locks[key] < |mutexes| then
      var m := locks[key];
      (locks, mutexes[m := mutexes[m].(refs := mutexes[m].refs + 1)], m)
    else
      (locks[key := |mutexes|], mutexes + [Mutex(1, None)], |mutexes|)
  }

  /** Counts the caller out and forgets the key with its last user. */
  function Left(locks: map<Key, nat>, mutexes: seq<Mutex>, key: Key, m: nat): (r: (map<Key, nat>, seq<Mutex>))
    requires m < |mutexes|
  {
    var refs := mutexes[m].refs - 1;
    (if refs == 0 then locks - {key} else locks, mutexes[m := mutexes[m].(refs := refs)])
  }

  // --- the machine --------------------------------------------------------------

  predicate Counted(p: Phase) { p.Waiting? || p.Holding? || p.Releasing? }

  predicate Enabled(s: State, a: Action) {
    a.Spawn? || (
      && a.t < |s.phases|
      && (Counted(s.phases[a.t]) ==> s.phases[a.t].m < |s.mutexes|)
      && match a
         case Want(t, _) => s.phases[t].Outside?
         case Enter(t) => s.phases[t].Wanting?
         case Acquire(t) => s.phases[t].Waiting? && s.mutexes[s.phases[t].m].owner.None?
         case Unlock(t) => s.phases[t].Holding?
         case Leave(t) => s.phases[t].Releasing?
    )
  }

  function SetOwner(mutexes: seq<Mutex>, m: nat, owner: Option<nat>): seq<Mutex>
    requires m < |mutexes|
  {
    mutexes[m := mutexes[m].(owner := owner)]
  }

  function Next(s: State, a: Action): State
    requires Enabled(s, a)
  {
    match a
    case Spawn => s.(phases := s.phases + [Outside])
    case Want(t, key) => s.(phases := s.phases[t := Wanting(key)])
    case Enter(t) =>
      var (locks, mutexes, m) := Entered(s.locks, s.mutexes, s.phases[t].key);
      State(locks, mutexes, s.phases[t := Waiting(s.phases[t].key, m)])
    case Acquire(t) =>
      var p := s.phases[t];
      State(s.locks, SetOwner(s.mutexes, p.m, Some(t)), s.phases[t := Holding(p.key, p.m)])
    case Unlock(t) =>
      var p := s.phases[t];
      State(s.locks, SetOwner(s.mutexes, p.m, None), s.phases[t := Releasing(p.key, p.m)])
    case Leave(t) =>
      var p := s.phases[t];
      var (locks, mutexes) := Left(s.locks, s.mutexes, p.key, p.m);
      State(locks, mutexes, s.phases[t := Outside])
  }

  // --- invariant ----------------------------------------------------------------

  ghost function RefOf(m: nat): Phase -> int {
    (p: Phase) => if Counted(p) && p.m == m then 1 else 0
  }

  /** The map names distinct mutexes that somebody is counted on. */
  ghost predicate MapInv(s: State) {
    && (forall k :: k in s.locks ==> s.locks[k] < |s.mutexes| && s.mutexes[s.locks[k]].refs >= 1)
    && (forall k, l :: k in s.locks && l in s.locks && s.locks[k] == s.locks[l] ==> k == l)
  }

  /** refs is the number of waiters, holders and releasing goroutines. */
  ghost predicate RefsInv(s: State) {
    forall m :: 0 <= m < |s.mutexes| ==> s.mutexes[m].refs == Total(s.phases, RefOf(m))
  }

  ghost predicate PhaseInv(s: State, t: nat)
    requires t < |s.phases|
  {
    var p := s.phases[t];
    && (Counted(p) ==> p.m < |s.mutexes| && p.key in s.locks && s.locks[p.key] == p.m)
    && (p.Holding? ==> s.mutexes[p.m].owner == Some(t))
  }

  /** A locked mutex has its holder. */
  ghost predicate OwnersHold(s: State) {
    forall m :: 0 <= m < |s.mutexes| && s.mutexes[m].owner.Some? ==>
      var u := s.mutexes[m].owner.value; u < |s.phases| && s.phases[u].Holding? && s.phases[u].m == m
  }

  ghost predicate Inv(s: State) {
    MapInv(s) && RefsInv(s) && OwnersHold(s) && forall t :: 0 <= t < |s.phases| ==> PhaseInv(s, t)
  }

  lemma {:induction false} NextRefs(s: State, a: Action)
    requires Enabled(s, a) && RefsInv(s)
    requires a.Enter? ==> forall t :: 0 <= t < |s.phases| && Counted(s.phases[t]) ==> s.phases[t].m < |s.mutexes|
    ensures RefsInv(Next(s, a))
  {
    var s' := Next(s, a);
    forall m | 0 <= m < |s'.mutexes|
      ensures s'.mutexes[m].refs == Total(s'.phases, RefOf(m))
    {
      if a.Spawn? {
        TotalAppend(s.phases, Outside, RefOf(m));
      } else {
        TotalUpdate(s.phases, a.t, s'.phases[a.t], RefOf(m));
        if m == |s.mutexes| {
          TotalZero(s.phases, RefOf(m));
        }
      }
    }
  }

  /** With the count at one, no other goroutine is counted on the mutex. */
  lemma {:induction false} LastUser(s: State, t: nat, u: nat)
    requires Inv(s) && t < |s.phases| && u < |s.phases| && t != u
    requires Counted(s.phases[t]) && Counted(s.phases[u]) && s.phases[t].m == s.phases[u].m
    ensures s.phases[t].m < |s.mutexes| && s.mutexes[s.phases[t].m].refs >= 2
  {
    assert PhaseInv(s, t);
    var m := s.phases[t].m;
    var others := s.phases[t := Outside];
    TotalUpdate(s.phases, t, Outside, RefOf(m));
    TotalAtLeast(others, u, RefOf(m));
  }

  lemma {:induction false} LeaveInv(s: State, a: Action)
    requires Inv(s) && Enabled(s, a) && a.Leave?
    ensures Inv(Next(s, a))
  {
    NextRefs(s, a);
    var s' := Next(s, a);
    assert PhaseInv(s, a.t);
    var m := s.phases[a.t].m;
    forall u | 0 <= u < |s'.phases|
      ensures PhaseInv(s', u)
    {
      assert PhaseInv(s, u);
      if u != a.t && Counted(s.phases[u]) && s.phases[u].m == m {
        LastUser(s, a.t, u);
      }
    }
    TotalAtLeast(s.phases, a.t, RefOf(m));
  }

  lemma {:induction false} EnterInv(s: State, a: Action)
    requires Inv(s) && Enabled(s, a) && a.Enter?
    ensures Inv(Next(s, a))
  {
    hide RefsInv;
    forall t | 0 <= t < |s.phases| && Counted(s.phases[t])
      ensures s.phases[t].m < |s.mutexes|
    {
      assert PhaseInv(s, t);
    }
    NextRefs(s, a);
    EnterMap(s, a);
    var s' := Next(s, a);
    hide MapInv;
    forall u | 0 <= u < |s'.phases|
      ensures PhaseInv(s', u)
    {
      assert PhaseInv(s, u);
    }
  }

  lemma {:induction false} EnterMap(s: State, a: Action)
    requires MapInv(s) && Enabled(s, a) && a.Enter?
    ensures MapInv(Next(s, a))
  {
  }

  lemma {:induction false} OwnerInv(s: State, a: Action)
    requires Inv(s) && Enabled(s, a) && (a.Acquire? || a.Unlock?)
    ensures Inv(Next(s, a))
  {
    NextRefs(s, a);
    var s' := Next(s, a);
    assert PhaseInv(s, a.t);
    forall u | 0 <= u < |s'.phases|
      ensures PhaseInv(s', u)
    {
      assert PhaseInv(s, u);
    }
  }

  lemma {:induction false} NextInv(s: State, a: Action)
    requires Inv(s) && Enabled(s, a)
    ensures Inv(Next(s, a))
  {
    match a
    case Enter(_) => EnterInv(s, a);
    case Acquire(_) => OwnerInv(s, a);
    case Unlock(_) => OwnerInv(s, a);
    case Leave(_) => LeaveInv(s, a);
    case _ =>
      NextRefs(s, a);
      var s' := Next(s, a);
      forall u | 0 <= u < |s'.phases|
        ensures PhaseInv(s', u)
      {
        assert u < |s.phases| ==> PhaseInv(s, u);
      }
  }

  // --- what it guarantees, in every reachable state -------------------------------

  ghost predicate Legal(s: State, run: seq<Action>)
    decreases |run|
  {
    run != [] ==> Enabled(s, run[0]) && Legal(Next(s, run[0]), run[1..])
  }

  function Exec(s: State, run: seq<Action>): State
    requires Legal(s, run)
    decreases |run|
  {
    if run == [] then s else Exec(Next(s, run[0]), run[1..])
  }

  lemma {:induction false} ExecInv(s: State, run: seq<Action>)
    requires Legal(s, run) && Inv(s)
    ensures Inv(Exec(s, run))
    decreases |run|
  {
    hide Inv, Next, Enabled;
    if run != [] {
      NextInv(s, run[0]);
      ExecInv(Next(s, run[0]), run[1..]);
    }
  }

  /** At most one goroutine holds a key. */
  lemma {:induction false} MutualExclusion(s: State, t: nat, u: nat)
    requires Inv(s) && t < |s.phases| && u < |s.phases|
    requires s.phases[t].Holding? && s.phases[u].Holding? && s.phases[t].key == s.phases[u].key
    ensures t == u
  {
    assert PhaseInv(s, t) && PhaseInv(s, u);
  }

  /** A key whose mutex can be acquired is held by nobody. */
  lemma {:induction false} AcquiredIsFree(s: State, t: nat, u: nat)
    requires Inv(s) && Enabled(s, Acquire(t)) && u < |s.phases|
    ensures !(s.phases[u].Holding? && s.phases[u].key == s.phases[t].key)
  {
    assert PhaseInv(s, t) && PhaseInv(s, u);
  }

  /**
   In every reachable state: holders of one key coincide, every count is the
   number of its users, and a key is in the map exactly while it has users.
   */
  lemma {:induction false} Guarantees(run: seq<Action>)
    requires Legal(INITIAL, run)
    ensures var s := Exec(INITIAL, run);
            && (forall t, u :: 0 <= t < |s.phases| && 0 <= u < |s.phases| && s.phases[t].Holding? && s.phases[u].Holding?
                  ==> s.phases[t].key == s.phases[u].key ==> t == u)
            && (forall m :: 0 <= m < |s.mutexes| ==> s.mutexes[m].refs == Total(s.phases, RefOf(m)))
            && (forall k :: k in s.locks <==> exists t :: 0 <= t < |s.phases| && Counted(s.phases[t]) && s.phases[t].key == k)
  {
    ExecInv(INITIAL, run);
    var s := Exec(INITIAL, run);
    hide Exec;
    forall t, u | 0 <= t < |s.phases| && 0 <= u < |s.phases| && s.phases[t].Holding? && s.phases[u].Holding?
      && s.phases[t].key == s.phases[u].key
      ensures t == u
    {
      MutualExclusion(s, t, u);
    }
    forall k | k in s.locks
      ensures exists t :: 0 <= t < |s.phases| && Counted(s.phases[t]) && s.phases[t].key == k
    {
      var t := SomeUser(s, k);
    }
    forall t | 0 <= t < |s.phases| && Counted(s.phases[t])
      ensures s.phases[t].key in s.locks
    {
      assert PhaseInv(s, t);
    }
  }

  lemma {:induction false} SomeUser(s: State, k: Key) returns (t: nat)
    requires Inv(s) && k in s.locks
    ensures t < |s.phases| && Counted(s.phases[t]) && s.phases[t].key == k
  {
    var m := s.locks[k];
    if forall u :: 0 <= u < |s.phases| ==> RefOf(m)(s.phases[u]) == 0 {
      TotalZero(s.phases, RefOf(m));
      assert false;
    }
    t :| 0 <= t < |s.phases| && RefOf(m)(s.phases[t]) != 0;
    assert PhaseInv(s, t);
  }

  ghost function KeysInUse(s: State): set<Key> {
    set t | 0 <= t < |s.phases| && Counted(s.phases[t]) :: s.phases[t].key
  }

  lemma {:induction false} MapIsKeysInUse(s: State)
    requires Inv(s)
    ensures s.locks.Keys == KeysInUse(s)
  {
    forall k | k in s.locks
      ensures k in KeysInUse(s)
    {
      var t := SomeUser(s, k);
    }
    forall t | 0 <= t < |s.phases| && Counted(s.phases[t])
      ensures s.phases[t].key in s.locks
    {
      assert PhaseInv(s, t);
    }
  }

  /**
   Nobody is stuck: whoever waits for a key can have its mutex now, or some goroutine holds
   that very key and only has to release it; every other goroutine can always go on.
   */
  lemma {:induction false} NobodyStuck(run: seq<Action>, t: nat)
    requires Legal(INITIAL, run) && t < |Exec(INITIAL, run).phases|
    ensures var s := Exec(INITIAL, run);
      match s.phases[t]
      case Outside => forall key :: Enabled(s, Want(t, key))
      case Wanting(_) => Enabled(s, Enter(t))
      case Waiting(key, _) =>
        Enabled(s, Acquire(t)) || exists u :: 0 <= u < |s.phases| && s.phases[u].Holding? && s.phases[u].key == key
      case Holding(_, _) => Enabled(s, Unlock(t))
      case Releasing(_, _) => Enabled(s, Leave(t))
  {
    ExecInv(INITIAL, run);
    var s := Exec(INITIAL, run);
    hide Exec, Legal, RefsInv;
    assert PhaseInv(s, t);
    if s.phases[t].Waiting? && s.mutexes[s.phases[t].m].owner.Some? {
      var u := s.mutexes[s.phases[t].m].owner.value;
      assert PhaseInv(s, u);
      assert s.phases[u].key == s.phases[t].key;
    }
  }

  /** The map is empty once every goroutine is out. */
  lemma {:induction false} EmptyWhenDone(run: seq<Action>)
    requires Legal(INITIAL, run)
    requires forall t :: 0 <= t < |Exec(INITIAL, run).phases| ==> Exec(INITIAL, run).phases[t].Outside?
    ensures Exec(INITIAL, run).locks == map[]
  {
    Guarantees(run);
  }

  // --- the object -----------------------------------------------------------------

  class Registry {
    var locks: map<Key, nat>
    var mutexes: seq<Mutex>

    constructor ()
      ensures locks == map[] && mutexes == []
    {
      locks, mutexes := map[], [];
    }

    /** lock's section under mu. */
    method Enter(key: Key) returns (m: nat)
      requires key in locks ==> locks[key] < |mutexes|
      modifies this
      ensures (locks, mutexes, m) == Entered(old(locks), old(mutexes), key)
    {
      if key !in locks {
        locks := locks[key := |mutexes|];
        mutexes := mutexes + [Mutex(0, None)];
        assert mutexes[|old(mutexes)| := Mutex(1, None)] == old(mutexes) + [Mutex(1, None)];
      }
      m := locks[key];
      mutexes := mutexes[m := mutexes[m].(refs := mutexes[m].refs + 1)];
    }

    /** unlock's section under mu. */
    method Leave(key: Key, m: nat)
      requires m < |mutexes|
      modifies this
      ensures (locks, mutexes) == Left(old(locks), old(mutexes), key, m)
    {
      mutexes := mutexes[m := mutexes[m].(refs := mutexes[m].refs - 1)];
      if mutexes[m].refs == 0 {
        locks := locks - {key};
      }
    }

    /** In a state `s` of the machine, the number of distinct keys that goroutines wait for, hold or release. */
    method Size(ghost s: State) returns (n: nat)
      requires Inv(s) && s.locks == locks
      ensures n == |KeysInUse(s)|
    {
      MapIsKeysInUse(s);
      assert |locks| == |locks.Keys|;
      n := |locks|;
    }
  }
}
