/**
 The limiter refines an unbounded fixed-window counter that never forgets a key:
 neither the cleanup sweeps nor the evictions change a decision as long as fewer
 than MAX_ENTRIES keys have an unexpired window when a new one opens.
 */
module FixedWindow {
  import opened RateLimiter

  datatype Window = Window(count: int, resetAt: int)

  type Windows = map<Key, Window>

  predicate Fresh(ws: Windows, key: Key, now: int) {
    key !in ws || now > ws[key].resetAt
  }

  /** The reference: a sweep does nothing, a request opens a window or counts against it. */
  function Count(cfg: Config, ws: Windows, ev: Event): Windows {
    match ev
    case Sweep(_) => ws
    case Request(key, now) =>
      if Fresh(ws, key, now) then ws[key := Window(1, now + cfg.window)]
      else ws[key := Window(ws[key].count + 1, ws[key].resetAt)]
  }

  predicate Admits(cfg: Config, ws: Windows, ev: Event) {
    ev.Request? && !Fresh(ws, ev.key, ev.now) ==> ws[ev.key].count + 1 <= cfg.limit
  }

  function Decisions(cfg: Config, ws: Windows, events: seq<Event>): seq<bool>
    decreases |events|
  {
    if events == [] then []
    else [Admits(cfg, ws, events[0])] + Decisions(cfg, Count(cfg, ws, events[0]), events[1..])
  }

  ghost function Active(ws: Windows, now: int): set<Key> {
    set k | k in ws && now <= ws[k].resetAt
  }

  /** Fewer than MAX_ENTRIES windows are unexpired whenever a new one opens. */
  ghost predicate Unsaturated(cfg: Config, ws: Windows, events: seq<Event>)
    decreases |events|
  {
    events != [] ==>
      && RoomFor(ws, events[0])
      && Unsaturated(cfg, Count(cfg, ws, events[0]), events[1..])
  }

  ghost predicate RoomFor(ws: Windows, ev: Event) {
    ev.Request? && Fresh(ws, ev.key, ev.now) ==> |Active(ws, ev.now)| < MAX_ENTRIES
  }

  /** The limiter holds the reference's windows, less some that have expired. */
  ghost predicate Coupled(entries: Entries, ws: Windows, clock: int) {
    && (forall k :: k in entries ==> k in ws && ws[k] == Window(entries[k].count, entries[k].resetAt))
    && (forall k :: k in ws && k !in entries ==> ws[k].resetAt < clock)
  }

  /** With an expired entry in the map, eviction removes only expired ones. */
  lemma {:induction false} EvictionIsHarmless(s: State, ws: Windows, clock: int, now: int)
    requires Inv(s) && |s.entries| <= MAX_ENTRIES && Coupled(s.entries, ws, clock) && clock <= now
    requires |Active(ws, now)| < MAX_ENTRIES
    ensures Coupled(Evict(s).entries, ws, now)
  {
    hide Inv;
    if |s.entries| == MAX_ENTRIES {
      hide Evict;
      var gone := EarliestExpiry(s);
      LoseExpired(s.entries, ws, clock, now, gone);
    }
  }

  lemma {:induction false} EarliestExpiry(s: State) returns (gone: Key)
    requires Inv(s) && |s.entries| == MAX_ENTRIES
    ensures gone in s.entries && Evict(s).entries == s.entries - {gone}
    ensures ExpiresFirst(s.entries, gone)
  {
    EvictsEarliestExpiry(s);
    gone :| gone in s.entries && Evict(s).entries == s.entries - {gone}
      && forall k :: k in s.entries ==> s.entries[gone].resetAt <= s.entries[k].resetAt;
  }

  ghost predicate ExpiresFirst(entries: Entries, gone: Key)
    requires gone in entries
  {
    forall k :: k in entries ==> entries[gone].resetAt <= entries[k].resetAt
  }

  lemma {:induction false} LoseExpired(entries: Entries, ws: Windows, clock: int, now: int, gone: Key)
    requires Coupled(entries, ws, clock) && clock <= now && |entries| == MAX_ENTRIES
    requires |Active(ws, now)| < MAX_ENTRIES
    requires gone in entries && ExpiresFirst(entries, gone)
    ensures Coupled(entries - {gone}, ws, now)
  {
    if now <= entries[gone].resetAt {
      assert entries.Keys <= Active(ws, now);
      SubsetSize(entries.Keys, Active(ws, now));
      assert false;
    }
  }

  lemma {:induction false} SubsetSize<T>(a: set<T>, b: set<T>)
    requires a <= b
    ensures |a| <= |b|
  {
    assert b == a + (b - a);
  }

  lemma {:induction false} SweepRefines(cfg: Config, s: State, ws: Windows, clock: int, now: int)
    requires Coupled(s.entries, ws, clock) && clock <= now
    ensures Coupled(Step(cfg, s, Sweep(now)).state.entries, ws, now)
  {
    hide NeedsCompaction, LiveRecords;
  }

  lemma {:induction false} OpenRefines(cfg: Config, s: State, ws: Windows, clock: int, key: Key, now: int)
    requires Good(cfg, s, clock) && Coupled(s.entries, ws, clock) && clock <= now && Opens(s, key, now)
    requires RoomFor(ws, Request(key, now))
    ensures Fresh(ws, key, now)
    ensures Coupled(Step(cfg, s, Request(key, now)).state.entries, Count(cfg, ws, Request(key, now)), now)
  {
    hide Inv, Evict, Timed, NeedsCompaction, LiveRecords;
    assert Fresh(ws, key, now);
    EvictionIsHarmless(s, ws, clock, now);
    hide Bounded, Coupled;
    CoupledOpen(Evict(s).entries, ws, now, key, Evict(s).nextId, now + cfg.window);
  }

  lemma {:induction false} BumpRefines(cfg: Config, s: State, ws: Windows, clock: int, key: Key, now: int)
    requires Coupled(s.entries, ws, clock) && clock <= now && !Opens(s, key, now)
    ensures !Fresh(ws, key, now)
    ensures Coupled(Step(cfg, s, Request(key, now)).state.entries, Count(cfg, ws, Request(key, now)), now)
    ensures Step(cfg, s, Request(key, now)).admitted == Admits(cfg, ws, Request(key, now))
  {
    hide Evict, NeedsCompaction, LiveRecords;
  }

  lemma {:induction false} StepRefines(cfg: Config, s: State, ws: Windows, clock: int, ev: Event)
    requires Good(cfg, s, clock) && Coupled(s.entries, ws, clock) && clock <= ev.now
    requires RoomFor(ws, ev)
    ensures Step(cfg, s, ev).admitted == Admits(cfg, ws, ev)
    ensures Coupled(Step(cfg, s, ev).state.entries, Count(cfg, ws, ev), ev.now)
  {
    hide Good, Evict, Coupled, NeedsCompaction, LiveRecords;
    match ev
    case Sweep(now) =>
      SweepRefines(cfg, s, ws, clock, now);
    case Request(key, now) =>
      if Opens(s, key, now) {
        OpenRefines(cfg, s, ws, clock, key, now);
      } else {
        BumpRefines(cfg, s, ws, clock, key, now);
      }
  }

  lemma {:induction false} CoupledOpen(entries: Entries, ws: Windows, now: int, key: Key, id: nat, resetAt: int)
    requires Coupled(entries, ws, now)
    ensures Coupled(entries[key := Entry(id, 1, resetAt)], ws[key := Window(1, resetAt)], now)
  {
  }

  lemma {:induction false} RunRefines(cfg: Config, s: State, ws: Windows, clock: int, events: seq<Event>)
    requires Good(cfg, s, clock) && Coupled(s.entries, ws, clock) && Ordered(events, clock)
    requires Unsaturated(cfg, ws, events)
    ensures Run(cfg, s, events).decisions == Decisions(cfg, ws, events)
    decreases |events|
  {
    hide Good, Step, Count, Admits, Coupled;
    if events != [] {
      StepGood(cfg, s, clock, events[0]);
      StepRefines(cfg, s, ws, clock, events[0]);
      RunRefines(cfg, Step(cfg, s, events[0]).state, Count(cfg, ws, events[0]), events[0].now, events[1..]);
    }
  }

  /** The refinement theorem. */
  lemma {:induction false} Refines(cfg: Config, clock: int, events: seq<Event>)
    requires Ordered(events, clock) && Unsaturated(cfg, map[], events)
    ensures Run(cfg, INITIAL, events).decisions == Decisions(cfg, map[], events)
  {
    RunRefines(cfg, INITIAL, map[], clock, events);
  }

  // -------------------------------------------------------------------------
  // How many requests of one key any window-long span of time lets through
  // -------------------------------------------------------------------------

  function Max(a: int, b: int): int { if a < b then b else a }

  function Admitted(events: seq<Event>, decisions: seq<bool>, key: Key, from: int, to: int): nat
    requires |events| == |decisions|
  {
    if events == [] then 0
    else
      (if events[0].Request? && events[0].key == key && from <= events[0].now <= to && decisions[0] then 1 else 0)
      + Admitted(events[1..], decisions[1..], key, from, to)
  }

  ghost predicate Positive(ws: Windows) {
    forall k :: k in ws ==> ws[k].count >= 1
  }

  /** How many more requests the reference can let through up to `to`, seen from `clock`. */
  ghost function Allowance(cfg: Config, ws: Windows, key: Key, clock: int, from: int, to: int): int {
    var m := Max(1, cfg.limit);
    if clock > to then 0
    else if clock < from || key !in ws then 2 * m
    else Max(0, cfg.limit - ws[key].count) + if ws[key].resetAt - cfg.window >= from then 0 else m
  }

  lemma {:induction false} DecisionsLength(cfg: Config, ws: Windows, events: seq<Event>)
    ensures |Decisions(cfg, ws, events)| == |events|
    decreases |events|
  {
    if events != [] {
      DecisionsLength(cfg, Count(cfg, ws, events[0]), events[1..]);
    }
  }

  lemma {:induction false} WithinAllowance(cfg: Config, ws: Windows, clock: int, events: seq<Event>,
                                           key: Key, from: int, to: int)
    requires Ordered(events, clock) && Positive(ws) && to - from <= cfg.window
    ensures |Decisions(cfg, ws, events)| == |events|
    ensures Admitted(events, Decisions(cfg, ws, events), key, from, to) <= Allowance(cfg, ws, key, clock, from, to)
    decreases |events|
  {
    DecisionsLength(cfg, ws, events);
    if events != [] {
      var ev := events[0];
      var next := Count(cfg, ws, ev);
      WithinAllowance(cfg, next, ev.now, events[1..], key, from, to);
      assert Decisions(cfg, ws, events)[1..] == Decisions(cfg, next, events[1..]);
    }
  }

  /** In any span no longer than the window a key gets through at most 2 * max(1, limit) times. */
  lemma {:induction false} SpanBound(cfg: Config, clock: int, events: seq<Event>, key: Key, from: int, to: int)
    requires Ordered(events, clock) && Unsaturated(cfg, map[], events) && to - from <= cfg.window
    ensures |Run(cfg, INITIAL, events).decisions| == |events|
    ensures Admitted(events, Run(cfg, INITIAL, events).decisions, key, from, to) <= 2 * Max(1, cfg.limit)
  {
    Refines(cfg, clock, events);
    WithinAllowance(cfg, map[], clock, events, key, from, to);
  }
}
