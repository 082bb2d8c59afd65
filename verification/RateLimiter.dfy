/**
 The per-key rate limiter (internal/api/middleware.go).

 `State` is the limiter's memory: the bounded map `entries` and the FIFO of
 eviction records, split at `orderHead` into the number of slots already
 `consumed` and the `pending` records.  The source tells a re-created entry from
 the one it replaced by its address; here every entry carries the number of its
 creation, `id`, drawn from `nextId`.
 Times are integers (nanoseconds); `now.After(t)` is `now > t`.
 */
module RateLimiter {

  const MAX_ENTRIES: nat := 10000
  const COMPACT_THRESHOLD: nat := 1024
  const SLACK_FACTOR: nat := 2

  type Key = string

  datatype Config = Config(limit: int, window: int)

  datatype Entry = Entry(id: nat, count: int, resetAt: int)

  datatype Record = Record(key: Key, id: nat)

  type Entries = map<Key, Entry>

  datatype State = State(entries: Entries, consumed: nat, pending: seq<Record>, nextId: nat) {
    /** len(order) in the source. */
    function OrderLength(): nat { consumed + |pending| }
  }

  const INITIAL := State(map[], 0, [], 0)

  // -------------------------------------------------------------------------
  // The operations, as functions on the state
  // -------------------------------------------------------------------------

  predicate Matches(entries: Entries, r: Record) {
    r.key in entries && entries[r.key].id == r.id
  }

  function Without(entries: Entries, r: Record): Entries {
    if Matches(entries, r) then entries - {r.key} else entries
  }

  /** Consumes the oldest slot, deleting its entry if the record is not stale. */
  function Pop(s: State): State
    requires s.pending != []
  {
    State(Without(s.entries, s.pending[0]), s.consumed + 1, s.pending[1..], s.nextId)
  }

  /** The eviction loop of addEntryLocked. */
  function Evict(s: State): State
    decreases |s.pending|
  {
    if |s.entries| >= MAX_ENTRIES && s.pending != [] then Evict(Pop(s)) else s
  }

  predicate NeedsCompaction(s: State) {
    s.consumed >= COMPACT_THRESHOLD
    || (s.OrderLength() >= COMPACT_THRESHOLD && s.OrderLength() > SLACK_FACTOR * |s.entries|)
  }

  function LiveRecords(entries: Entries, records: seq<Record>): seq<Record> {
    if records == [] then []
    else if Matches(entries, records[0]) then [records[0]] + LiveRecords(entries, records[1..])
    else LiveRecords(entries, records[1..])
  }

  function Compact(s: State): State {
    if NeedsCompaction(s)
    then State(s.entries, 0, LiveRecords(s.entries, s.pending), s.nextId)
    else s
  }

  /** addEntryLocked's write of the new entry and its record. */
  function Append(s: State, key: Key, resetAt: int): State {
    State(s.entries[key := Entry(s.nextId, 1, resetAt)], s.consumed,
          s.pending + [Record(key, s.nextId)], s.nextId + 1)
  }

  function Unexpired(entries: Entries, now: int): Entries {
    map k | k in entries && now <= entries[k].resetAt :: entries[k]
  }

  /** What one cleanup sweep holds before it compacts. */
  function Purge(s: State, now: int): State {
    s.(entries := Unexpired(s.entries, now))
  }

  predicate Opens(s: State, key: Key, now: int) {
    key !in s.entries || now > s.entries[key].resetAt
  }

  function Bump(s: State, key: Key): State
    requires key in s.entries
  {
    s.(entries := s.entries[key := s.entries[key].(count := s.entries[key].count + 1)])
  }

  /** Work done by one locked section: insertions, FIFO slots consumed, records scanned. */
  datatype Work = Work(adds: nat, popped: int, scanned: int) {
    function Plus(w: Work): Work {
      Work(adds + w.adds, popped + w.popped, scanned + w.scanned)
    }
  }

  function ScanCost(s: State): int {
    if NeedsCompaction(s) then |s.pending| else 0
  }

  datatype Event = Request(key: Key, now: int) | Sweep(now: int)

  datatype Outcome = Outcome(state: State, admitted: bool, work: Work)

  /** One locked section: a request's decision, or one tick of the cleanup goroutine. */
  function Step(cfg: Config, s: State, ev: Event): Outcome {
    match ev
    case Sweep(now) =>
      Outcome(Compact(Purge(s, now)), true, Work(0, 0, ScanCost(Purge(s, now))))
    case Request(key, now) =>
      if Opens(s, key, now) then
        var t := Append(Evict(s), key, now + cfg.window);
        Outcome(Compact(t), true, Work(1, Evict(s).consumed - s.consumed, ScanCost(t)))
      else
        var t := Bump(s, key);
        Outcome(t, t.entries[key].count <= cfg.limit, Work(0, 0, 0))
  }

  // -------------------------------------------------------------------------
  // Representation invariant
  // -------------------------------------------------------------------------

  ghost predicate Increasing(records: seq<Record>) {
    forall i, j :: 0 <= i < j < |records| ==> records[i].id < records[j].id
  }

  ghost predicate Below(records: seq<Record>, id: nat) {
    forall r :: r in records ==> r.id < id
  }

  ghost predicate Covers(entries: Entries, records: seq<Record>) {
    forall k :: k in entries ==> Record(k, entries[k].id) in records
  }

  /** Creation order is expiry order. */
  ghost predicate ExpiryFollowsCreation(entries: Entries) {
    forall k, l :: k in entries && l in entries && entries[k].id <= entries[l].id
      ==> entries[k].resetAt <= entries[l].resetAt
  }

  ghost predicate Inv(s: State) {
    && Increasing(s.pending)
    && Below(s.pending, s.nextId)
    && Covers(s.entries, s.pending)
    && ExpiryFollowsCreation(s.entries)
  }

  ghost predicate Bounded(s: State) {
    && |s.entries| <= MAX_ENTRIES
    && s.consumed < COMPACT_THRESHOLD
    && (s.OrderLength() < COMPACT_THRESHOLD || s.OrderLength() <= SLACK_FACTOR * |s.entries|)
  }

  /** No window outlives one opened at `clock`. */
  ghost predicate Timed(cfg: Config, s: State, clock: int) {
    forall k :: k in s.entries ==> s.entries[k].resetAt <= clock + cfg.window
  }

  ghost predicate Good(cfg: Config, s: State, clock: int) {
    Inv(s) && Bounded(s) && Timed(cfg, s, clock)
  }

  /** Each live entry is named by exactly one unconsumed record. */
  lemma {:induction false} ExactlyOneRecord(s: State, key: Key)
    requires Inv(s) && key in s.entries
    ensures exists i :: 0 <= i < |s.pending| && s.pending[i] == Record(key, s.entries[key].id)
              && forall j :: 0 <= j < |s.pending| && s.pending[j].key == key && Matches(s.entries, s.pending[j])
                   ==> j == i
  {
    hide ExpiryFollowsCreation, Below;
    assert Record(key, s.entries[key].id) in s.pending;
    var i :| 0 <= i < |s.pending| && s.pending[i] == Record(key, s.entries[key].id);
    forall j | 0 <= j < |s.pending| && s.pending[j].key == key && Matches(s.entries, s.pending[j])
      ensures j == i
    {
      assert s.pending[i].id == s.pending[j].id;
    }
  }

  // --- eviction ---------------------------------------------------------------

  ghost predicate OlderThanRest(entries: Entries, r: Record) {
    forall k :: k in entries && k != r.key ==> r.id < entries[k].id
  }

  lemma {:induction false} PopOldest(s: State)
    requires Inv(s) && s.pending != []
    ensures Inv(Pop(s))
    ensures Matches(s.entries, s.pending[0]) ==> OlderThanRest(s.entries, s.pending[0])
  {
    var r, rest := s.pending[0], s.pending[1..];
    assert s.pending == [r] + rest;
    assert forall q :: q in rest ==> q in s.pending && r.id < q.id;
    assert Increasing(rest);
    hide Increasing, ExpiryFollowsCreation;
    CoverRest(s.entries, r, rest);
    assert ExpiryFollowsCreation(Pop(s).entries) by { FewerExpiries(s.entries, r); }
    hide Without, OlderThanRest, Covers;
  }

  lemma {:induction false} CoverRest(entries: Entries, r: Record, rest: seq<Record>)
    requires Covers(entries, [r] + rest)
    requires forall q :: q in rest ==> r.id < q.id
    ensures Covers(Without(entries, r), rest)
    ensures Matches(entries, r) ==> OlderThanRest(entries, r)
  {
    assert forall k :: k in entries ==> Record(k, entries[k].id) in [r] + rest;
  }

  lemma {:induction false} FewerExpiries(entries: Entries, r: Record)
    requires ExpiryFollowsCreation(entries)
    ensures ExpiryFollowsCreation(Without(entries, r))
  {
  }

  /** `kept` is `entries` less some entries older than all of `kept`. */
  ghost predicate LosesOnlyOldest(entries: Entries, kept: Entries) {
    && (forall k :: k in kept ==> k in entries && kept[k] == entries[k])
    && (forall gone, k :: gone in entries && gone !in kept && k in kept ==> entries[gone].id < kept[k].id)
  }

  /** The map shrinks to below capacity, losing only entries older than every one it keeps. */
  lemma {:induction false} EvictOldest(s: State)
    requires Inv(s)
    ensures Inv(Evict(s)) && Evict(s).nextId == s.nextId
    ensures Evict(s).OrderLength() == s.OrderLength() && s.consumed <= Evict(s).consumed
    ensures |Evict(s).entries| == if |s.entries| >= MAX_ENTRIES then MAX_ENTRIES - 1 else |s.entries|
    ensures LosesOnlyOldest(s.entries, Evict(s).entries)
    decreases |s.pending|
  {
    hide Inv;
    if |s.entries| >= MAX_ENTRIES {
      NonEmpty(s);
      PopOldest(s);
      PopSize(s);
      EvictOldest(Pop(s));
      LosesStep(s.entries, s.pending[0], Evict(s).entries);
    }
  }

  lemma {:induction false} NonEmpty(s: State)
    requires Inv(s) && |s.entries| > 0
    ensures s.pending != []
  {
    assert |s.entries.Keys| > 0;
    var k :| k in s.entries.Keys;
    assert Record(k, s.entries[k].id) in s.pending;
  }

  lemma {:induction false} PopSize(s: State)
    requires s.pending != []
    ensures |s.entries| - 1 <= |Pop(s).entries| <= |s.entries|
  {
    var r := s.pending[0];
    if Matches(s.entries, r) {
      assert Pop(s).entries.Keys == s.entries.Keys - {r.key};
    }
  }

  lemma {:induction false} LosesStep(entries: Entries, r: Record, kept: Entries)
    requires Matches(entries, r) ==> OlderThanRest(entries, r)
    requires LosesOnlyOldest(Without(entries, r), kept)
    ensures LosesOnlyOldest(entries, kept)
  {
  }

  // --- compaction -------------------------------------------------------------

  ghost function NamedBy(entries: Entries, records: seq<Record>): set<Key> {
    set k | k in entries && Record(k, entries[k].id) in records
  }

  lemma {:induction false} LiveRecordsSpec(entries: Entries, records: seq<Record>)
    requires Increasing(records)
    ensures forall r :: r in LiveRecords(entries, records) <==> r in records && Matches(entries, r)
    ensures Increasing(LiveRecords(entries, records))
  {
    hide Increasing;
    LiveRecordsMatch(entries, records);
    LiveRecordsIncrease(entries, records);
  }

  lemma {:induction false} LiveRecordsMatch(entries: Entries, records: seq<Record>)
    ensures forall r :: r in LiveRecords(entries, records) <==> r in records && Matches(entries, r)
  {
    if records != [] {
      assert records == [records[0]] + records[1..];
      LiveRecordsMatch(entries, records[1..]);
    }
  }

  lemma {:induction false} LiveRecordsIncrease(entries: Entries, records: seq<Record>)
    requires Increasing(records)
    ensures Increasing(LiveRecords(entries, records))
  {
    if records != [] {
      var r, rest := records[0], records[1..];
      LiveRecordsIncrease(entries, rest);
      LiveRecordsMatch(entries, rest);
      var live := LiveRecords(entries, rest);
      forall i | 0 <= i < |live|
        ensures r.id < live[i].id
      {
        assert live[i] in rest;
      }
      hide LiveRecords;
      assert Increasing([r] + live);
    }
  }

  lemma {:induction false} LiveRecordsCount(entries: Entries, records: seq<Record>)
    requires Increasing(records)
    ensures |LiveRecords(entries, records)| == |NamedBy(entries, records)|
    ensures |LiveRecords(entries, records)| <= |records|
  {
    if records != [] {
      var r, rest := records[0], records[1..];
      assert records == [r] + rest;
      LiveRecordsCount(entries, rest);
      forall q | q in rest
        ensures r.id < q.id
      {
      }
      hide Increasing, NamedBy;
      NamedByHead(entries, r, rest);
    }
  }

  lemma {:induction false} NamedByHead(entries: Entries, r: Record, rest: seq<Record>)
    requires forall q :: q in rest ==> r.id < q.id
    ensures |NamedBy(entries, [r] + rest)| == |NamedBy(entries, rest)| + if Matches(entries, r) then 1 else 0
  {
    if Matches(entries, r) {
      assert NamedBy(entries, [r] + rest) == NamedBy(entries, rest) + {r.key};
      assert r.key !in NamedBy(entries, rest);
    } else {
      assert NamedBy(entries, [r] + rest) == NamedBy(entries, rest);
    }
  }

  lemma {:induction false} PendingCoversEntries(s: State)
    requires Inv(s)
    ensures |LiveRecords(s.entries, s.pending)| == |s.entries| <= |s.pending|
  {
    LiveRecordsCount(s.entries, s.pending);
    assert NamedBy(s.entries, s.pending) == s.entries.Keys;
  }

  /** Compaction keeps the representation and restores the memory bound. */
  lemma {:induction false} CompactKeeps(s: State)
    requires Inv(s) && |s.entries| <= MAX_ENTRIES
    ensures Inv(Compact(s)) && Bounded(Compact(s))
    ensures Compact(s).entries == s.entries
    ensures ScanCost(s) <= 10 * (s.OrderLength() - Compact(s).OrderLength())
    ensures |Compact(s).pending| <= |s.pending|
  {
    hide Inv, Bounded, Compact;
    CompactRepresents(s);
    CompactBounds(s);
  }

  lemma {:induction false} CompactRepresents(s: State)
    requires Inv(s)
    ensures Inv(Compact(s)) && Compact(s).entries == s.entries
  {
    LiveRecordsSpec(s.entries, s.pending);
    hide Increasing, ExpiryFollowsCreation, LiveRecords, NeedsCompaction;
  }

  lemma {:induction false} CompactBounds(s: State)
    requires Inv(s) && |s.entries| <= MAX_ENTRIES
    ensures Bounded(Compact(s))
    ensures ScanCost(s) <= 10 * (s.OrderLength() - Compact(s).OrderLength())
    ensures |Compact(s).pending| <= |s.pending|
  {
    hide Inv, LiveRecords;
    PendingCoversEntries(s);
  }

  // --- the locked sections ----------------------------------------------------

  lemma {:induction false} AppendKeeps(cfg: Config, s: State, key: Key, now: int)
    requires Inv(s) && Timed(cfg, s, now)
    ensures Inv(Append(s, key, now + cfg.window)) && Timed(cfg, Append(s, key, now + cfg.window), now)
    ensures |Append(s, key, now + cfg.window).entries| <= |s.entries| + 1
  {
    hide Increasing, Below, Covers, ExpiryFollowsCreation;
    AppendRecord(s.pending, Record(key, s.nextId));
    AppendExpiry(s.entries, s.pending, key, Entry(s.nextId, 1, now + cfg.window));
  }

  lemma {:induction false} AppendExpiry(entries: Entries, records: seq<Record>, key: Key, e: Entry)
    requires Covers(entries, records) && Below(records, e.id) && ExpiryFollowsCreation(entries)
    requires forall k :: k in entries ==> entries[k].resetAt <= e.resetAt
    ensures ExpiryFollowsCreation(entries[key := e])
    ensures entries[key := e].Keys == entries.Keys + {key}
    ensures Covers(entries[key := e], records + [Record(key, e.id)])
  {
    forall k | k in entries
      ensures entries[k].id < e.id
    {
      assert Record(k, entries[k].id) in records;
    }
  }

  lemma {:induction false} AppendRecord(records: seq<Record>, r: Record)
    requires Increasing(records) && Below(records, r.id)
    ensures Increasing(records + [r])
    ensures Below(records + [r], r.id + 1)
  {
    forall i | 0 <= i < |records|
      ensures records[i].id < r.id
    {
      assert records[i] in records;
    }
  }

  lemma {:induction false} PurgeKeeps(s: State, now: int)
    requires Inv(s)
    ensures Inv(Purge(s, now)) && |Purge(s, now).entries| <= |s.entries|
  {
    hide Increasing, Below;
    var t := Purge(s, now);
    assert s.entries.Keys == t.entries.Keys + (s.entries.Keys - t.entries.Keys);
  }

  lemma {:induction false} BumpKeeps(s: State, key: Key)
    requires Inv(s) && key in s.entries
    ensures Inv(Bump(s, key)) && |Bump(s, key).entries| == |s.entries|
  {
    var t := Bump(s, key);
    assert t.entries.Keys == s.entries.Keys;
    assert forall k :: k in s.entries ==> t.entries[k].id == s.entries[k].id && t.entries[k].resetAt == s.entries[k].resetAt;
  }

  ghost predicate PaidFor(before: State, after: State, work: Work) {
    && work.popped + |after.pending| <= work.adds + |before.pending|
    && work.scanned + 10 * after.OrderLength() <= 10 * work.adds + 10 * before.OrderLength()
  }

  /**
   Every locked section keeps the representation invariant and the memory bound,
   and pays for its work: consumed slots out of the unconsumed ones, scanned
   records at most tenfold out of the slots the compaction discards.
   */
  lemma {:induction false} StepGood(cfg: Config, s: State, clock: int, ev: Event)
    requires Good(cfg, s, clock) && clock <= ev.now
    ensures Good(cfg, Step(cfg, s, ev).state, ev.now)
    ensures PaidFor(s, Step(cfg, s, ev).state, Step(cfg, s, ev).work)
  {
    hide Inv, Evict, Compact, NeedsCompaction, Increasing;
    match ev
    case Sweep(now) =>
      PurgeKeeps(s, now);
      CompactKeeps(Purge(s, now));
    case Request(key, now) =>
      if Opens(s, key, now) {
        EvictOldest(s);
        AppendKeeps(cfg, Evict(s), key, now);
        CompactKeeps(Append(Evict(s), key, now + cfg.window));
      } else {
        BumpKeeps(s, key);
      }
  }

  // -------------------------------------------------------------------------
  // Whole runs
  // -------------------------------------------------------------------------

  /** The clock does not run backwards. */
  ghost predicate Ordered(events: seq<Event>, clock: int)
    decreases |events|
  {
    events != [] ==> clock <= events[0].now && Ordered(events[1..], events[0].now)
  }

  datatype Trace = Trace(state: State, decisions: seq<bool>, work: Work)

  function Run(cfg: Config, s: State, events: seq<Event>): Trace
    decreases |events|
  {
    if events == [] then Trace(s, [], Work(0, 0, 0))
    else
      var o := Step(cfg, s, events[0]);
      var rest := Run(cfg, o.state, events[1..]);
      Trace(rest.state, [o.admitted] + rest.decisions, o.work.Plus(rest.work))
  }

  ghost function LastTime(events: seq<Event>, clock: int): int {
    if events == [] then clock else events[|events| - 1].now
  }

  lemma {:induction false} RunGood(cfg: Config, s: State, clock: int, events: seq<Event>)
    requires Good(cfg, s, clock) && Ordered(events, clock)
    ensures Good(cfg, Run(cfg, s, events).state, LastTime(events, clock))
    ensures PaidFor(s, Run(cfg, s, events).state, Run(cfg, s, events).work)
    decreases |events|
  {
    hide Good, Step;
    if events != [] {
      StepGood(cfg, s, clock, events[0]);
      RunGood(cfg, Step(cfg, s, events[0]).state, events[0].now, events[1..]);
    }
  }

  /** The representation invariant and the memory bound hold in every reachable state. */
  lemma {:induction false} ReachableGood(cfg: Config, clock: int, events: seq<Event>)
    requires Ordered(events, clock)
    ensures Good(cfg, Run(cfg, INITIAL, events).state, LastTime(events, clock))
  {
    RunGood(cfg, INITIAL, clock, events);
  }

  /** Amortised cost of any run from start-up, in numbers of addEntryLocked calls. */
  lemma {:induction false} AmortisedCost(cfg: Config, clock: int, events: seq<Event>)
    requires Ordered(events, clock)
    ensures Run(cfg, INITIAL, events).work.popped <= Run(cfg, INITIAL, events).work.adds
    ensures Run(cfg, INITIAL, events).work.scanned <= 10 * Run(cfg, INITIAL, events).work.adds
  {
    RunGood(cfg, INITIAL, clock, events);
  }

  /** At capacity an insertion evicts exactly one entry, and no kept entry expires before it. */
  lemma {:induction false} EvictsEarliestExpiry(s: State)
    requires Inv(s) && |s.entries| == MAX_ENTRIES
    ensures exists gone :: gone in s.entries && Evict(s).entries == s.entries - {gone}
              && forall k :: k in s.entries ==> s.entries[gone].resetAt <= s.entries[k].resetAt
  {
    EvictOldest(s);
    var kept := Evict(s).entries;
    assert ExpiryFollowsCreation(s.entries);
    hide Inv, Evict;
    var gone := OnlyLoss(s.entries, kept);
    forall k | k in s.entries && k != gone
      ensures s.entries[gone].resetAt <= s.entries[k].resetAt
    {
      assert k in kept;
    }
  }

  lemma {:induction false} Singleton<T>(x: set<T>) returns (e: T)
    requires |x| == 1
    ensures x == {e}
  {
    e :| e in x;
    assert |x - {e}| == 0;
    assert x == {e} + (x - {e});
  }

  lemma {:induction false} OnlyLoss(entries: Entries, kept: Entries) returns (gone: Key)
    requires LosesOnlyOldest(entries, kept) && |kept| + 1 == |entries|
    ensures gone in entries && gone !in kept && kept == entries - {gone}
  {
    var lost := entries.Keys - kept.Keys;
    assert entries.Keys == kept.Keys + lost;
    gone := Singleton(lost);
    assert gone in lost;
    assert kept.Keys == entries.Keys - {gone};
  }
}
