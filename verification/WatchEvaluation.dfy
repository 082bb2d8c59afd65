/** One Evaluate call, as the source writes it, against the steps of `WatchEvaluator`. */
module WatchEvaluation {
  import opened WatchEvaluator

  /** Whether each store call of the evaluation succeeds. */
  datatype Fates = Fates(read: bool, record: bool, trigger: bool, disable: bool)

  function FateOf(pc: Pc, f: Fates): bool {
    match pc
    case Reading => f.read
    case Recording(_, _) => f.record
    case Triggering(_) => f.trigger
    case Repairing(_, _) => f.disable
    case _ => true
  }

  function Rank(pc: Pc): nat {
    match pc
    case Reading => 5
    case Measuring(_) => 4
    case Recording(_, _) => 3
    case Triggering(_) => 2
    case Repairing(_, _) => 1
    case Ready => 0
  }

  /** The record once the evaluation standing at `pc` is over. */
  function Evaluated(r: Record, pc: Pc, f: Fates, outcome: Measurement): Record
    decreases Rank(pc)
  {
    if pc.Ready? then r
    else
      var m := EvalMove(r, pc, FateOf(pc, f), outcome);
      Evaluated(m.rec, m.pc, f, outcome)
  }

  class Evaluator {
    var row: Watch
    ghost const start: Watch
    ghost var history: seq<Event>

    constructor (stored: Watch)
      ensures row == start == stored && history == []
    {
      row, start, history := stored, stored, [];
    }

    ghost function Rec(): Record
      reads this
    {
      Record(start, row, history)
    }

    /** A breached check of `w` has to alert. */
    static predicate Due(w: Watch) {
      w.status != Triggered && w.breaches + 1 >= w.minConsecutive
    }

    /** The measurement or a store call of the check fails. */
    static predicate Falters(w: Watch, f: Fates, outcome: Measurement) {
      match outcome
      case InvalidConfig => false
      case TransientError => true
      case Normal => !f.record
      case Breached => !f.record || (Due(w) && !f.trigger)
    }

    method Evaluate(f: Fates, outcome: Measurement) returns (ok: bool, hasAlert: bool)
      modifies this
      ensures Rec() == Evaluated(old(Rec()), Reading, f, outcome)
      // the watch could not be read: nothing happened
      ensures !f.read ==> !ok && !hasAlert && row == old(row) && history == old(history)
      // the condition is met: the run of breaches ends
      ensures f.read && outcome == Normal && f.record ==>
        ok && !hasAlert && row == old(row).(breaches := 0) && history == old(history) + [Clear]
      // it is breached: the run grows, and an alert is due or not
      ensures f.read && outcome == Breached && f.record && !Due(old(row)) ==>
        ok && !hasAlert && row == old(row).(breaches := old(row).breaches + 1) && history == old(history) + [Breach]
      ensures f.read && outcome == Breached && f.record && Due(old(row)) && f.trigger ==>
        && ok && hasAlert && history == old(history) + [Breach, Alert]
        && row == old(row).(breaches := old(row).breaches + 1, status := Triggered)
      ensures hasAlert <==> f.read && f.record && f.trigger && outcome == Breached && Due(old(row))
      // the measurement or a write failed: the row is as it was
      ensures f.read && Falters(old(row), f, outcome) ==>
        !ok && !hasAlert && row == old(row) && history == old(history) + [Failure]
      // the watch can never be measured: it is retired
      ensures f.read && outcome == InvalidConfig ==>
        && !ok && !hasAlert && row == old(row).(status := if f.disable then Expired else old(row).status)
        && history == old(history) + if f.disable then [Failure, Moved(Expired)] else [Failure]
    {
      if !f.read {
        return false, false;
      }
      var cur := row;
      assert Evaluated(old(Rec()), Measuring(cur), f, outcome) == Evaluated(old(Rec()), Reading, f, outcome);
      ok, hasAlert := EvaluateLocked(cur, f, outcome);
      if !ok {
        RecordFailedCheck(cur, f, outcome);
      }
    }

    /** On failure the caller still has to repair the row. */
    method EvaluateLocked(cur: Watch, f: Fates, outcome: Measurement) returns (ok: bool, hasAlert: bool)
      modifies this
      ensures ok ==> Rec() == Evaluated(old(Rec()), Measuring(cur), f, outcome)
      ensures !ok ==>
                && history == old(history) && row == old(row).(breaches := row.breaches)
                && (outcome == InvalidConfig ==> row == old(row))
                && Evaluated(Rec(), Repairing(cur, outcome == InvalidConfig), f, outcome)
                   == Evaluated(old(Rec()), Measuring(cur), f, outcome)
      ensures ok <==> f.record && (outcome == Normal || (outcome == Breached && (!Due(cur) || f.trigger)))
      ensures hasAlert <==> ok && outcome == Breached && Due(cur)
      ensures ok ==>
        && row == old(row).(breaches := if outcome == Breached then cur.breaches + 1 else 0,
                            status := if hasAlert then Triggered else old(row).status)
        && history == old(history) + if outcome == Normal then [Clear] else if hasAlert then [Breach, Alert] else [Breach]
    {
      if outcome == TransientError || outcome == InvalidConfig {
        return false, false;
      }
      var breached := outcome == Breached;
      var breaches := 0;
      if breached {
        breaches := cur.breaches + 1;
      }
      assert Evaluated(old(Rec()), Recording(cur, breached), f, outcome) == Evaluated(old(Rec()), Measuring(cur), f, outcome);
      if !f.record {
        return false, false;
      }
      row := row.(breaches := breaches);
      if !breached {
        history := history + [Clear];
        assert EvalMove(old(Rec()), Recording(cur, breached), true, outcome) == Move(Rec(), Ready);
        assert Evaluated(Rec(), Ready, f, outcome) == Rec();
        return true, false;
      }
      if breaches < cur.minConsecutive || cur.status == Triggered {
        history := history + [Breach];
        assert EvalMove(old(Rec()), Recording(cur, breached), true, outcome) == Move(Rec(), Ready);
        assert Evaluated(Rec(), Ready, f, outcome) == Rec();
        return true, false;
      }
      assert history + [] == history;
      assert Evaluated(Rec(), Triggering(cur), f, outcome) == Evaluated(old(Rec()), Measuring(cur), f, outcome);
      if !f.trigger {
        return false, false;
      }
      row := row.(status := Triggered);
      history := history + [Breach, Alert];
      assert Evaluated(Rec(), Ready, f, outcome) == Rec();
      return true, true;
    }

    method RecordFailedCheck(cur: Watch, f: Fates, outcome: Measurement)
      modifies this
      ensures Rec() == Evaluated(old(Rec()), Repairing(cur, outcome == InvalidConfig), f, outcome)
      ensures outcome != InvalidConfig ==>
        row == old(row).(breaches := cur.breaches) && history == old(history) + [Failure]
      ensures outcome == InvalidConfig ==>
        && row == old(row).(status := if f.disable then Expired else old(row).status)
        && history == old(history) + if f.disable then [Failure, Moved(Expired)] else [Failure]
    {
      if outcome == InvalidConfig {
        if f.disable {
          row := row.(status := Expired);
          history := history + [Failure, Moved(Expired)];
        } else {
          history := history + [Failure];
        }
        return;
      }
      row := row.(breaches := cur.breaches);
      history := history + [Failure];
    }
  }
}
