/** The limiter object: the source's fields and locked sections, against `RateLimiter`. */
module LimiterClass {
  import opened RateLimiter

  class Limiter {
    var entries: Entries
    var order: seq<Record>
    var orderHead: nat
    var nextId: nat
    const cfg: Config

    ghost predicate Valid()
      reads this
    {
      orderHead <= |order|
    }

    ghost function View(): State
      requires Valid()
      reads this
    {
      State(entries, orderHead, order[orderHead..], nextId)
    }

    constructor (limit: int, window: int)
      ensures Valid() && View() == INITIAL && cfg == Config(limit, window)
    {
      entries, order, orderHead, nextId := map[], [], 0, 0;
      cfg := Config(limit, window);
    }

    method AddEntryLocked(key: Key, resetAt: int)
      requires Valid()
      modifies this
      ensures Valid() && View() == Compact(Append(Evict(old(View())), key, resetAt))
    {
      hide Evict, Compact;
      EvictToCapacity();
      assert (order + [Record(key, nextId)])[orderHead..] == order[orderHead..] + [Record(key, nextId)];
      entries := entries[key := Entry(nextId, 1, resetAt)];
      order := order + [Record(key, nextId)];
      nextId := nextId + 1;
      CompactOrderLocked();
    }

    /** The eviction loop of addEntryLocked. */
    method EvictToCapacity()
      requires Valid()
      modifies this`entries, this`orderHead
      ensures Valid() && View() == Evict(old(View()))
    {
      while |entries| >= MAX_ENTRIES && orderHead < |order|
        invariant Valid() && Evict(View()) == Evict(old(View()))
        decreases |order| - orderHead
      {
        var rec := order[orderHead];
        ghost var before := View();
        assert before.pending[0] == rec && before.pending[1..] == order[orderHead + 1..];
        orderHead := orderHead + 1;
        if rec.key in entries && entries[rec.key].id == rec.id {
          entries := entries - {rec.key};
        }
        assert View() == Pop(before);
      }
    }

    method OrderNeedsCompactionLocked() returns (needed: bool)
      requires Valid()
      ensures needed == NeedsCompaction(View())
    {
      if orderHead >= COMPACT_THRESHOLD { return true; }
      return |order| >= COMPACT_THRESHOLD && |order| > SLACK_FACTOR * |entries|;
    }

    method CompactOrderLocked()
      requires Valid()
      modifies this`order, this`orderHead
      ensures Valid() && View() == Compact(old(View()))
    {
      var needed := OrderNeedsCompactionLocked();
      if !needed { return; }
      var live := [];
      var i := orderHead;
      while i < |order|
        invariant orderHead <= i <= |order|
        invariant live + LiveRecords(entries, order[i..]) == LiveRecords(entries, order[orderHead..])
      {
        var rec := order[i];
        assert order[i..] == [rec] + order[i + 1..];
        if rec.key in entries && entries[rec.key].id == rec.id {
          live := live + [rec];
        }
        i := i + 1;
      }
      assert order[i..] == [];
      order := live;
      orderHead := 0;
      assert order[orderHead..] == live;
    }

    /** The body of one cleanup tick; `range` visits the keys in any order. */
    method CleanupTick(now: int)
      requires Valid()
      modifies this
      ensures Valid() && View() == Step(cfg, old(View()), Sweep(now)).state
    {
      var todo := entries.Keys;
      while todo != {}
        invariant Valid() && orderHead == old(orderHead) && order == old(order) && nextId == old(nextId)
        invariant todo <= entries.Keys <= old(entries).Keys
        invariant forall k :: k in entries ==> entries[k] == old(entries)[k]
        invariant forall k :: k in old(entries) && k !in todo ==> (k in entries <==> now <= old(entries)[k].resetAt)
        decreases |todo|
      {
        var key :| key in todo;
        todo := todo - {key};
        if now > entries[key].resetAt {
          entries := entries - {key};
        }
      }
      assert entries == Unexpired(old(entries), now);
      CompactOrderLocked();
    }

    /** The locked decision of Middleware. */
    method Admit(key: Key, now: int) returns (admitted: bool)
      requires Valid()
      modifies this
      ensures Valid() && View() == Step(cfg, old(View()), Request(key, now)).state
      ensures admitted == Step(cfg, old(View()), Request(key, now)).admitted
    {
      if key !in entries || now > entries[key].resetAt {
        AddEntryLocked(key, now + cfg.window);
        return true;
      }
      var e := entries[key];
      entries := entries[key := e.(count := e.count + 1)];
      return entries[key].count <= cfg.limit;
    }
  }
}
