/**
 What the limiter (internal/api/middleware.go) owes its clients: whoever stays within the
 limit is never refused, and what a sweep forgets has expired.
 */
module Fairness {
  import opened RateLimiter
  import opened FixedWindow
  import opened Saturation

  // -------------------------------------------------------------------------
  // Sweeps
  // -------------------------------------------------------------------------

  /** After a sweep the map holds exactly the windows that are open, as they were. */
  lemma {:induction false} SweepForgetsExpired(cfg: Config, s: State, now: int, key: Key)
    ensures var entries := Step(cfg, s, Sweep(now)).state.entries;
      && (key in s.entries && now <= s.entries[key].resetAt ==> key in entries && entries[key] == s.entries[key])
      && (key in s.entries && now > s.entries[key].resetAt ==> key !in entries)
      && (key !in s.entries ==> key !in entries)
  {
    hide NeedsCompaction, LiveRecords;
  }

  // -------------------------------------------------------------------------
  // Requests within the limit
  // -------------------------------------------------------------------------

  /** How often the key asked from time `from` on. */
  function Requests(events: seq<Event>, key: Key, from: int): nat {
    if events == [] then 0
    else Requests(events[..|events| - 1], key, from)
         + if events[|events| - 1].Request? && events[|events| - 1].key == key && events[|events| - 1].now >= from then 1 else 0
  }

  lemma {:induction false} AfterLast(cfg: Config, ws: Windows, events: seq<Event>)
    requires events != []
    ensures After(cfg, ws, events) == Count(cfg, After(cfg, ws, events[..|events| - 1]), events[|events| - 1])
    decreases |events|
  {
    hide Count;
    if |events| > 1 {
      AfterLast(cfg, Count(cfg, ws, events[0]), events[1..]);
      assert events[1..][..|events| - 2] == events[..|events| - 1][1..];
    }
  }

  lemma {:induction false} DecisionAt(cfg: Config, ws: Windows, events: seq<Event>, i: nat)
    requires i < |events|
    ensures |Decisions(cfg, ws, events)| == |events|
    ensures Decisions(cfg, ws, events)[i] == Admits(cfg, After(cfg, ws, events[..i]), events[i])
    decreases i
  {
    hide Count, Admits;
    DecisionsLength(cfg, ws, events);
    if i > 0 {
      DecisionAt(cfg, Count(cfg, ws, events[0]), events[1..], i - 1);
      assert events[1..][..i - 1] == events[..i][1..];
    }
  }

  lemma {:induction false} OrderedFront(events: seq<Event>, clock: int)
    requires Ordered(events, clock) && events != []
    ensures Ordered(events[..|events| - 1], clock)
    ensures LastTime(events[..|events| - 1], clock) <= events[|events| - 1].now
    decreases |events|
  {
    if |events| > 1 {
      OrderedFront(events[1..], events[0].now);
      assert events[1..][..|events| - 2] == events[..|events| - 1][1..];
    }
  }

  /** A window was opened in the past and counts no more than the key has asked since. */
  ghost predicate CountedKey(cfg: Config, w: Window, events: seq<Event>, key: Key, now: int) {
    w.resetAt - cfg.window <= now && w.count <= Requests(events, key, w.resetAt - cfg.window)
  }

  ghost predicate Counted(cfg: Config, ws: Windows, events: seq<Event>, clock: int) {
    forall key :: key in ws ==> CountedKey(cfg, ws[key], events, key, LastTime(events, clock))
  }

  lemma {:induction false} WindowsCount(cfg: Config, events: seq<Event>, clock: int)
    requires Ordered(events, clock)
    ensures Counted(cfg, After(cfg, map[], events), events, clock)
    decreases |events|
  {
    if events != [] {
      var front, ev := events[..|events| - 1], events[|events| - 1];
      OrderedFront(events, clock);
      WindowsCount(cfg, front, clock);
      AfterLast(cfg, map[], events);
      var ws := After(cfg, map[], front);
      hide After;
      forall key | key in Count(cfg, ws, ev)
        ensures CountedKey(cfg, Count(cfg, ws, ev)[key], events, key, ev.now)
      {
        assert key in ws ==> CountedKey(cfg, ws[key], front, key, LastTime(front, clock));
        RequestsLast(events, key);
        hide Requests;
      }
    }
  }

  lemma {:induction false} RequestsLast(events: seq<Event>, key: Key)
    requires events != []
    ensures var ev := events[|events| - 1];
      forall from :: Requests(events, key, from)
        == Requests(events[..|events| - 1], key, from) + if ev.Request? && ev.key == key && ev.now >= from then 1 else 0
  {
  }

  /**
   Below saturation, a request is admitted if the key has asked at most max(1, limit) times,
   this one included, in the window-long span that it ends: whoever stays within the limit
   in every such span is never refused.
   */
  lemma {:induction false} NeverRefusedWithinLimit(cfg: Config, clock: int, events: seq<Event>, i: nat)
    requires Ordered(events, clock) && Unsaturated(cfg, map[], events)
    requires i < |events| && events[i].Request?
    requires Requests(events[..i + 1], events[i].key, events[i].now - cfg.window) <= Max(1, cfg.limit)
    ensures |Run(cfg, INITIAL, events).decisions| == |events| && Run(cfg, INITIAL, events).decisions[i]
  {
    hide Run, Decisions, Unsaturated;
    Refines(cfg, clock, events);
    DecisionAt(cfg, map[], events, i);
    OrderedPrefix(events, clock, i + 1);
    OrderedFront(events[..i + 1], clock);
    var before := events[..i];
    assert events[..i + 1][..i] == before;
    WindowsCount(cfg, before, clock);
    var ws, key, now := After(cfg, map[], before), events[i].key, events[i].now;
    if !Fresh(ws, key, now) {
      RequestsFrom(before, key, ws[key].resetAt - cfg.window, now - cfg.window);
      AtLeastOne(cfg, before, key);
    }
  }

  lemma {:induction false} OrderedPrefix(events: seq<Event>, clock: int, i: nat)
    requires Ordered(events, clock) && i <= |events|
    ensures Ordered(events[..i], clock)
    decreases i
  {
    if i > 0 {
      OrderedPrefix(events[1..], events[0].now, i - 1);
      assert events[..i][1..] == events[1..][..i - 1];
    }
  }

  /** An earlier start misses none. */
  lemma {:induction false} RequestsFrom(events: seq<Event>, key: Key, from: int, earlier: int)
    requires earlier <= from
    ensures Requests(events, key, from) <= Requests(events, key, earlier)
  {
    if events != [] {
      RequestsFrom(events[..|events| - 1], key, from, earlier);
    }
  }

  lemma {:induction false} AtLeastOne(cfg: Config, events: seq<Event>, key: Key)
    ensures key in After(cfg, map[], events) ==> After(cfg, map[], events)[key].count >= 1
  {
    if events != [] {
      AtLeastOne(cfg, events[..|events| - 1], key);
      AfterLast(cfg, map[], events);
    }
  }

  /** With a positive limit, the request that exceeds it inside one window is refused. */
  lemma {:induction false} RefusedBeyondLimit(cfg: Config, clock: int, events: seq<Event>, i: nat)
    requires Ordered(events, clock) && Unsaturated(cfg, map[], events) && i < |events| && events[i].Request?
    requires var ws := After(cfg, map[], events[..i]); !Fresh(ws, events[i].key, events[i].now) && ws[events[i].key].count >= cfg.limit
    ensures |Run(cfg, INITIAL, events).decisions| == |events| && !Run(cfg, INITIAL, events).decisions[i]
  {
    hide Run, Decisions, Unsaturated;
    Refines(cfg, clock, events);
    DecisionAt(cfg, map[], events, i);
  }
}
