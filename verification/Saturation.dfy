/**
 Where the limiter stops being an unbounded counter.

 With MAX_ENTRIES windows unexpired, opening one more makes the limiter forget a key
 that the unbounded counter remembers.  `ExactlyUnsaturated` says that this is the only
 way to tell the two apart, and that it always can be told.
 */
module Saturation {
  import opened RateLimiter
  import opened FixedWindow

  // -------------------------------------------------------------------------
  // One step
  // -------------------------------------------------------------------------

  lemma {:induction false} ActiveAreHeld(entries: Entries, ws: Windows, clock: int, now: int)
    requires Coupled(entries, ws, clock) && clock <= now && |entries| <= MAX_ENTRIES
    requires |Active(ws, now)| >= MAX_ENTRIES
    ensures entries.Keys == Active(ws, now) && |entries| == MAX_ENTRIES
  {
    var keys, active := entries.Keys, Active(ws, now);
    assert active <= keys;
    SubsetSize(active, keys);
    assert keys == active + (keys - active);
    assert |keys - active| == 0;
  }

  /** At saturation a newcomer makes the limiter forget a key whose window is still open. */
  lemma {:induction false} Forgets(cfg: Config, s: State, ws: Windows, clock: int, key: Key, now: int) returns (gone: Key)
    requires Good(cfg, s, clock) && Coupled(s.entries, ws, clock) && clock <= now
    requires Fresh(ws, key, now) && |Active(ws, now)| >= MAX_ENTRIES
    ensures gone != key && gone in ws && now <= ws[gone].resetAt <= now + cfg.window
    ensures gone !in Step(cfg, s, Request(key, now)).state.entries
  {
    hide Inv, Evict;
    ActiveAreHeld(s.entries, ws, clock, now);
    gone := EarliestExpiry(s);
    assert gone in Active(ws, now) && key !in Active(ws, now);
  }

  /** A request that opens a window keeps the limiter coupled to the counter exactly when there is room. */
  lemma {:induction false} CoupledExactly(cfg: Config, s: State, ws: Windows, clock: int, key: Key, now: int)
    requires Good(cfg, s, clock) && Coupled(s.entries, ws, clock) && clock <= now && Fresh(ws, key, now)
    ensures var ev := Request(key, now);
      Coupled(Step(cfg, s, ev).state.entries, Count(cfg, ws, ev), now) <==> |Active(ws, now)| < MAX_ENTRIES
  {
    hide Good, Step, Coupled;
    var ev := Request(key, now);
    if |Active(ws, now)| < MAX_ENTRIES {
      StepRefines(cfg, s, ws, clock, ev);
    } else {
      var gone := Forgets(cfg, s, ws, clock, key, now);
      LostOpenWindow(Step(cfg, s, ev).state.entries, Count(cfg, ws, ev), now, gone);
    }
  }

  lemma {:induction false} LostOpenWindow(entries: Entries, ws: Windows, now: int, gone: Key)
    requires gone !in entries && gone in ws && now <= ws[gone].resetAt
    ensures !Coupled(entries, ws, now)
  {
  }

  // -------------------------------------------------------------------------
  // The forgotten key comes back
  // -------------------------------------------------------------------------

  function Repeat(key: Key, now: int, n: nat): (events: seq<Event>)
    ensures |events| == n && forall i :: 0 <= i < n ==> events[i] == Request(key, now)
  {
    seq(n, _ => Request(key, now))
  }

  lemma {:induction false} RepeatTail(key: Key, now: int, n: nat)
    requires n > 0
    ensures Repeat(key, now, n) == [Request(key, now)] + Repeat(key, now, n - 1)
  {
  }

  lemma {:induction false} RunHead(cfg: Config, s: State, ev: Event, rest: seq<Event>)
    ensures Run(cfg, s, [ev] + rest).decisions
         == [Step(cfg, s, ev).admitted] + Run(cfg, Step(cfg, s, ev).state, rest).decisions
    ensures Run(cfg, s, [ev] + rest).state == Run(cfg, Step(cfg, s, ev).state, rest).state
  {
    hide Step;
    assert ([ev] + rest)[1..] == rest;
  }

  lemma {:induction false} DecisionsHead(cfg: Config, ws: Windows, ev: Event, rest: seq<Event>)
    ensures Decisions(cfg, ws, [ev] + rest) == [Admits(cfg, ws, ev)] + Decisions(cfg, Count(cfg, ws, ev), rest)
  {
    hide Admits, Count;
    assert ([ev] + rest)[1..] == rest;
  }

  /** Requests against an open window: the last one is admitted while the count allows. */
  lemma {:induction false} LimiterRepeats(cfg: Config, s: State, key: Key, now: int, n: nat)
    requires n > 0 && key in s.entries && now <= s.entries[key].resetAt
    ensures var d := Run(cfg, s, Repeat(key, now, n)).decisions;
      |d| == n && (d[n - 1] <==> s.entries[key].count + n <= cfg.limit)
    decreases n
  {
    hide Run;
    var ev := Request(key, now);
    RepeatTail(key, now, n);
    RunHead(cfg, s, ev, Repeat(key, now, n - 1));
    if n == 1 {
      NoEvents(cfg, Step(cfg, s, ev).state);
    } else {
      LimiterRepeats(cfg, Step(cfg, s, ev).state, key, now, n - 1);
    }
  }

  lemma {:induction false} NoEvents(cfg: Config, s: State)
    ensures Run(cfg, s, []).decisions == []
  {
  }

  lemma {:induction false} CounterRepeats(cfg: Config, ws: Windows, key: Key, now: int, n: nat)
    requires n > 0 && key in ws && now <= ws[key].resetAt
    ensures var d := Decisions(cfg, ws, Repeat(key, now, n));
      |d| == n && (d[n - 1] <==> ws[key].count + n <= cfg.limit)
    decreases n
  {
    hide Decisions;
    var ev := Request(key, now);
    RepeatTail(key, now, n);
    DecisionsHead(cfg, ws, ev, Repeat(key, now, n - 1));
    if n == 1 {
      DecisionsLength(cfg, Count(cfg, ws, ev), []);
    } else {
      CounterRepeats(cfg, Count(cfg, ws, ev), key, now, n - 1);
    }
  }

  /** The limiter starts a forgotten key afresh. */
  lemma {:induction false} ForgottenRepeats(cfg: Config, s: State, key: Key, now: int, n: nat)
    requires n > 0 && key !in s.entries && cfg.window >= 0
    ensures var d := Run(cfg, s, Repeat(key, now, n)).decisions;
      |d| == n && (d[n - 1] <==> n == 1 || n <= cfg.limit)
  {
    hide Run, Evict;
    var ev := Request(key, now);
    RepeatTail(key, now, n);
    RunHead(cfg, s, ev, Repeat(key, now, n - 1));
    if n == 1 {
      NoEvents(cfg, Step(cfg, s, ev).state);
    } else {
      LimiterRepeats(cfg, Step(cfg, s, ev).state, key, now, n - 1);
    }
  }

  /**
   From a saturated state a newcomer and then the key it displaces, often enough, get
   different decisions from the limiter and from the unbounded counter.
   */
  lemma {:induction false} SaturationForgets(cfg: Config, s: State, ws: Windows, clock: int, newcomer: Key, now: int)
    returns (gone: Key, n: nat)
    requires Good(cfg, s, clock) && Coupled(s.entries, ws, clock) && Positive(ws) && clock <= now
    requires Fresh(ws, newcomer, now) && |Active(ws, now)| >= MAX_ENTRIES
    ensures gone in ws && now <= ws[gone].resetAt && gone != newcomer
    ensures n == Max(1, cfg.limit - ws[gone].count + 1)
    ensures var events := [Request(newcomer, now)] + Repeat(gone, now, n);
      Run(cfg, s, events).decisions != Decisions(cfg, ws, events)
  {
    hide Run, Decisions, Step;
    var ev := Request(newcomer, now);
    gone := Forgets(cfg, s, ws, clock, newcomer, now);
    n := Max(1, cfg.limit - ws[gone].count + 1);
    var s', ws' := Step(cfg, s, ev).state, Count(cfg, ws, ev);
    assert ws'[gone] == ws[gone];
    ForgottenRepeats(cfg, s', gone, now, n);
    CounterRepeats(cfg, ws', gone, now, n);
    RunHead(cfg, s, ev, Repeat(gone, now, n));
    DecisionsHead(cfg, ws, ev, Repeat(gone, now, n));
    TailsDiffer(Step(cfg, s, ev).admitted, Run(cfg, s', Repeat(gone, now, n)).decisions,
                Admits(cfg, ws, ev), Decisions(cfg, ws', Repeat(gone, now, n)));
  }

  lemma {:induction false} TailsDiffer(a: bool, x: seq<bool>, b: bool, y: seq<bool>)
    requires x != y
    ensures [a] + x != [b] + y
  {
    assert ([a] + x)[1..] == x && ([b] + y)[1..] == y;
  }

  // -------------------------------------------------------------------------
  // Whole runs
  // -------------------------------------------------------------------------

  ghost function After(cfg: Config, ws: Windows, events: seq<Event>): Windows
    decreases |events|
  {
    if events == [] then ws else After(cfg, Count(cfg, ws, events[0]), events[1..])
  }

  /** The first p events, then n requests of `key` at that instant. */
  ghost function Probe(events: seq<Event>, p: nat, key: Key, n: nat): seq<Event>
    requires 0 < p <= |events|
  {
    events[..p] + Repeat(key, events[p - 1].now, n)
  }

  /** A key whose window is open once the first p events are over. */
  ghost predicate OpenAfter(cfg: Config, ws: Windows, events: seq<Event>, p: nat, key: Key)
    requires 0 < p <= |events|
  {
    !Fresh(After(cfg, ws, events[..p]), key, events[p - 1].now)
  }

  lemma {:induction false} FirstSaturation(cfg: Config, s: State, ws: Windows, clock: int, events: seq<Event>)
    returns (p: nat, key: Key, n: nat)
    requires Good(cfg, s, clock) && Coupled(s.entries, ws, clock) && Positive(ws) && Ordered(events, clock)
    requires !Unsaturated(cfg, ws, events)
    ensures 0 < p <= |events| && OpenAfter(cfg, ws, events, p, key)
    ensures Run(cfg, s, Probe(events, p, key, n)).decisions != Decisions(cfg, ws, Probe(events, p, key, n))
    decreases |events|
  {
    hide Run, Decisions, Step, Good, Coupled, Count, Admits, Fresh;
    var ev := events[0];
    if !RoomFor(ws, ev) {
      p, key, n := SaturatedAtOnce(cfg, s, ws, clock, events);
    } else {
      StepGood(cfg, s, clock, ev);
      StepRefines(cfg, s, ws, clock, ev);
      CountPositive(cfg, ws, ev);
      var s', ws' := Step(cfg, s, ev).state, Count(cfg, ws, ev);
      var p';
      p', key, n := FirstSaturation(cfg, s', ws', ev.now, events[1..]);
      p := p' + 1;
      ProbeShifted(cfg, s, ws, events, p, key, n);
    }
  }

  lemma {:induction false} CountPositive(cfg: Config, ws: Windows, ev: Event)
    requires Positive(ws)
    ensures Positive(Count(cfg, ws, ev))
  {
  }

  lemma {:induction false} SaturatedAtOnce(cfg: Config, s: State, ws: Windows, clock: int, events: seq<Event>)
    returns (p: nat, key: Key, n: nat)
    requires Good(cfg, s, clock) && Coupled(s.entries, ws, clock) && Positive(ws)
    requires events != [] && clock <= events[0].now && !RoomFor(ws, events[0])
    ensures p == 1 && OpenAfter(cfg, ws, events, p, key)
    ensures Run(cfg, s, Probe(events, p, key, n)).decisions != Decisions(cfg, ws, Probe(events, p, key, n))
  {
    hide Run, Decisions, Good, Coupled;
    var ev := events[0];
    key, n := SaturationForgets(cfg, s, ws, clock, ev.key, ev.now);
    p := 1;
    assert events[..1] == [ev];
    AfterOne(cfg, ws, ev);
  }

  lemma {:induction false} AfterOne(cfg: Config, ws: Windows, ev: Event)
    ensures After(cfg, ws, [ev]) == Count(cfg, ws, ev)
  {
    hide Count;
  }

  lemma {:induction false} AfterHead(cfg: Config, ws: Windows, events: seq<Event>, p: nat)
    requires 0 < p <= |events|
    ensures After(cfg, ws, events[..p]) == After(cfg, Count(cfg, ws, events[0]), events[1..][..p - 1])
  {
    hide Count;
    assert events[..p][1..] == events[1..][..p - 1];
  }

  lemma {:induction false} ProbeShifted(cfg: Config, s: State, ws: Windows, events: seq<Event>, p: nat, key: Key, n: nat)
    requires 1 < p <= |events|
    ensures var ev := events[0]; var s', ws' := Step(cfg, s, ev).state, Count(cfg, ws, ev);
      && (OpenAfter(cfg, ws', events[1..], p - 1, key) ==> OpenAfter(cfg, ws, events, p, key))
      && (Run(cfg, s', Probe(events[1..], p - 1, key, n)).decisions != Decisions(cfg, ws', Probe(events[1..], p - 1, key, n)) ==>
            Run(cfg, s, Probe(events, p, key, n)).decisions != Decisions(cfg, ws, Probe(events, p, key, n)))
  {
    hide Run, Decisions, Step, Count, Admits, Fresh, After;
    var ev, rest := events[0], Probe(events[1..], p - 1, key, n);
    var s', ws' := Step(cfg, s, ev).state, Count(cfg, ws, ev);
    AfterHead(cfg, ws, events, p);
    assert Probe(events, p, key, n) == [ev] + rest;
    RunHead(cfg, s, ev, rest);
    DecisionsHead(cfg, ws, ev, rest);
    if Run(cfg, s', rest).decisions != Decisions(cfg, ws', rest) {
      TailsDiffer(Step(cfg, s, ev).admitted, Run(cfg, s', rest).decisions, Admits(cfg, ws, ev), Decisions(cfg, ws', rest));
    }
  }

  // --- without saturation a probe tells nothing ------------------------------------------

  lemma {:induction false} RepeatUnsaturated(cfg: Config, ws: Windows, key: Key, now: int, n: nat)
    requires !Fresh(ws, key, now)
    ensures Unsaturated(cfg, ws, Repeat(key, now, n)) && Ordered(Repeat(key, now, n), now)
    decreases n
  {
    if n > 0 {
      RepeatTail(key, now, n);
      assert Repeat(key, now, n)[1..] == Repeat(key, now, n - 1);
      RepeatUnsaturated(cfg, Count(cfg, ws, Request(key, now)), key, now, n - 1);
    }
  }

  lemma {:induction false} ProbeUnsaturated(cfg: Config, ws: Windows, clock: int, events: seq<Event>, p: nat, key: Key, n: nat)
    requires 0 < p <= |events| && Ordered(events, clock) && Unsaturated(cfg, ws, events) && OpenAfter(cfg, ws, events, p, key)
    ensures Unsaturated(cfg, ws, Probe(events, p, key, n)) && Ordered(Probe(events, p, key, n), clock)
    decreases p
  {
    hide Count, Fresh;
    var ev := events[0];
    var ws' := Count(cfg, ws, ev);
    AfterHead(cfg, ws, events, p);
    if p == 1 {
      RepeatUnsaturated(cfg, ws', key, ev.now, n);
      assert Probe(events, p, key, n)[1..] == Repeat(key, ev.now, n);
    } else {
      ProbeUnsaturated(cfg, ws', ev.now, events[1..], p - 1, key, n);
      assert Probe(events, p, key, n)[1..] == Probe(events[1..], p - 1, key, n);
    }
  }

  /**
   The limiter can be told from the unbounded counter exactly when a run saturates it: no
   further requests of a key with an open window, after any part of the run, get a
   different decision if and only if there was always room.
   */
  lemma {:induction false} ExactlyUnsaturated(cfg: Config, clock: int, events: seq<Event>)
    requires Ordered(events, clock)
    ensures Unsaturated(cfg, map[], events) <==>
      forall p: nat, key: Key, n: nat :: 0 < p <= |events| && OpenAfter(cfg, map[], events, p, key) ==>
        Run(cfg, INITIAL, Probe(events, p, key, n)).decisions == Decisions(cfg, map[], Probe(events, p, key, n))
  {
    hide Run, Decisions, OpenAfter, Probe;
    if Unsaturated(cfg, map[], events) {
      forall p: nat, key: Key, n: nat | 0 < p <= |events| && OpenAfter(cfg, map[], events, p, key)
        ensures Run(cfg, INITIAL, Probe(events, p, key, n)).decisions == Decisions(cfg, map[], Probe(events, p, key, n))
      {
        ProbeUnsaturated(cfg, map[], clock, events, p, key, n);
        Refines(cfg, clock, Probe(events, p, key, n));
      }
    } else {
      var p, key, n := FirstSaturation(cfg, INITIAL, map[], clock, events);
    }
  }

  // -------------------------------------------------------------------------
  // A run that does
  // -------------------------------------------------------------------------

  /** Keys told apart by their lengths. */
  function Name(i: nat): (k: Key)
    ensures |k| == i
  {
    seq(i, _ => 'x')
  }

  /** One request each of the keys i to n - 1, at time 0. */
  function Flood(i: nat, n: nat): (events: seq<Event>)
    requires i <= n
    ensures |events| == n - i
  {
    seq(n - i, j requires 0 <= j => Request(Name(i + j), 0))
  }

  lemma {:induction false} FloodHead(i: nat, n: nat)
    requires i < n
    ensures Flood(i, n) == [Request(Name(i), 0)] + Flood(i + 1, n)
  {
  }

  ghost predicate Flooded(cfg: Config, s: State, ws: Windows, i: nat) {
    && Good(cfg, s, 0) && Coupled(s.entries, ws, 0)
    && |ws.Keys| == i
    && forall k :: k in ws ==> |k| < i && ws[k] == Window(1, cfg.window)
  }

  lemma {:induction false} FloodStep(cfg: Config, s: State, ws: Windows, i: nat)
    requires cfg.window >= 0 && Flooded(cfg, s, ws, i) && i < MAX_ENTRIES
    ensures var ev := Request(Name(i), 0);
      Flooded(cfg, Step(cfg, s, ev).state, Count(cfg, ws, ev), i + 1) && Step(cfg, s, ev).admitted == Admits(cfg, ws, ev)
  {
    hide Good, Step, Coupled;
    var ev := Request(Name(i), 0);
    SubsetSize(Active(ws, 0), ws.Keys);
    StepGood(cfg, s, 0, ev);
    StepRefines(cfg, s, ws, 0, ev);
    assert Count(cfg, ws, ev).Keys == ws.Keys + {Name(i)};
  }

  lemma {:induction false} AfterFirst(cfg: Config, ws: Windows, ev: Event, rest: seq<Event>)
    ensures After(cfg, ws, [ev] + rest) == After(cfg, Count(cfg, ws, ev), rest)
  {
    hide Count;
    assert ([ev] + rest)[1..] == rest;
  }

  lemma {:induction false} FloodHolds(cfg: Config, s: State, ws: Windows, i: nat)
    requires cfg.window >= 0 && i <= MAX_ENTRIES && Flooded(cfg, s, ws, i)
    ensures Flooded(cfg, Run(cfg, s, Flood(i, MAX_ENTRIES)).state, After(cfg, ws, Flood(i, MAX_ENTRIES)), MAX_ENTRIES)
    decreases MAX_ENTRIES - i
  {
    hide Step, Count, Flooded, Admits;
    if i < MAX_ENTRIES {
      hide Run, After;
      var ev, rest := Request(Name(i), 0), Flood(i + 1, MAX_ENTRIES);
      FloodStep(cfg, s, ws, i);
      FloodHolds(cfg, Step(cfg, s, ev).state, Count(cfg, ws, ev), i + 1);
      FloodHead(i, MAX_ENTRIES);
      RunHead(cfg, s, ev, rest);
      AfterFirst(cfg, ws, ev, rest);
    }
  }

  /** What tells the two apart after some events does so with these events in front. */
  lemma {:induction false} Prepended(cfg: Config, s: State, ws: Windows, events: seq<Event>, tail: seq<Event>)
    requires Run(cfg, Run(cfg, s, events).state, tail).decisions != Decisions(cfg, After(cfg, ws, events), tail)
    ensures Run(cfg, s, events + tail).decisions != Decisions(cfg, ws, events + tail)
    decreases |events|
  {
    hide Step, Count, Admits, Decisions;
    if events == [] {
      assert events + tail == tail;
    } else {
      var ev, rest := events[0], events[1..];
      assert events + tail == [ev] + (rest + tail);
      var s1, ws1 := Step(cfg, s, ev).state, Count(cfg, ws, ev);
      Prepended(cfg, s1, ws1, rest, tail);
      hide Run;
      RunHead(cfg, s, ev, rest + tail);
      DecisionsHead(cfg, ws, ev, rest + tail);
      TailsDiffer(Step(cfg, s, ev).admitted, Run(cfg, s1, rest + tail).decisions,
                  Admits(cfg, ws, ev), Decisions(cfg, ws1, rest + tail));
    }
  }

  lemma {:induction false} FloodSaturates(cfg: Config, s: State, ws: Windows)
    requires cfg.window >= 0 && Flooded(cfg, s, ws, MAX_ENTRIES)
    ensures Good(cfg, s, 0) && Coupled(s.entries, ws, 0)
    ensures Positive(ws) && |Active(ws, 0)| >= MAX_ENTRIES && Fresh(ws, Name(MAX_ENTRIES), 0)
    ensures forall k :: k in ws ==> |k| < MAX_ENTRIES && ws[k].count == 1
  {
    hide Good, Coupled;
    assert Active(ws, 0) == ws.Keys;
  }

  /** With limit 1: 10000 keys, a newcomer, and the key it displaced, all at one instant. */
  lemma {:induction false} FloodDisagrees(window: int) returns (forgotten: Key)
    requires window >= 0
    ensures |forgotten| < MAX_ENTRIES
    ensures var cfg := Config(1, window);
      var events := Flood(0, MAX_ENTRIES) + [Request(Name(MAX_ENTRIES), 0), Request(forgotten, 0)];
      Run(cfg, INITIAL, events).decisions != Decisions(cfg, map[], events)
  {
    var cfg := Config(1, window);
    NothingFlooded(cfg);
    hide Run, Decisions, Good, Coupled, Flooded, After;
    FloodHolds(cfg, INITIAL, map[], 0);
    var flood := Flood(0, MAX_ENTRIES);
    var s, ws := Run(cfg, INITIAL, flood).state, After(cfg, map[], flood);
    FloodSaturates(cfg, s, ws);
    var gone, n := SaturationForgets(cfg, s, ws, 0, Name(MAX_ENTRIES), 0);
    assert n == 1;
    forgotten := gone;
    assert [Request(Name(MAX_ENTRIES), 0)] + Repeat(gone, 0, n) == [Request(Name(MAX_ENTRIES), 0), Request(forgotten, 0)];
    Prepended(cfg, INITIAL, map[], flood, [Request(Name(MAX_ENTRIES), 0), Request(forgotten, 0)]);
  }

  lemma {:induction false} NothingFlooded(cfg: Config)
    ensures Flooded(cfg, INITIAL, map[], 0)
  {
  }
}
