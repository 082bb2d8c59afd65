/** Sums over the threads of a state machine. */
module Sums {

  ghost function Total<P(!new)>(ps: seq<P>, f: P -> int): int {
    if ps == [] then 0 else f(ps[0]) + Total(ps[1..], f)
  }

  lemma {:induction false} TotalUpdate<P(!new)>(ps: seq<P>, i: nat, p: P, f: P -> int)
    requires i < |ps|
    ensures Total(ps[i := p], f) == Total(ps, f) - f(ps[i]) + f(p)
  {
    if i == 0 {
      assert ps[i := p][1..] == ps[1..];
    } else {
      assert ps[i := p][1..] == ps[1..][i - 1 := p];
      TotalUpdate(ps[1..], i - 1, p, f);
    }
  }

  lemma {:induction false} TotalConcat<P(!new)>(ps: seq<P>, qs: seq<P>, f: P -> int)
    ensures Total(ps + qs, f) == Total(ps, f) + Total(qs, f)
  {
    if ps == [] {
      assert ps + qs == qs;
    } else {
      assert (ps + qs)[1..] == ps[1..] + qs;
      TotalConcat(ps[1..], qs, f);
    }
  }

  lemma {:induction false} TotalAppend<P(!new)>(ps: seq<P>, p: P, f: P -> int)
    ensures Total(ps + [p], f) == Total(ps, f) + f(p)
  {
    TotalConcat(ps, [p], f);
    assert Total([p], f) == f(p) + Total([], f);
  }

  /** A total of non-negative terms is at least each of them, and zero only if all are. */
  lemma {:induction false} TotalAtLeast<P(!new)>(ps: seq<P>, i: nat, f: P -> int)
    requires i < |ps| && forall j :: 0 <= j < |ps| ==> f(ps[j]) >= 0
    ensures f(ps[i]) <= Total(ps, f)
    decreases |ps|
  {
    if i == 0 {
      TotalNonNegative(ps[1..], f);
    } else {
      TotalAtLeast(ps[1..], i - 1, f);
    }
  }

  lemma {:induction false} TotalNonNegative<P(!new)>(ps: seq<P>, f: P -> int)
    requires forall j :: 0 <= j < |ps| ==> f(ps[j]) >= 0
    ensures Total(ps, f) >= 0
  {
    if ps != [] {
      TotalNonNegative(ps[1..], f);
    }
  }

  lemma {:induction false} TotalZero<P(!new)>(ps: seq<P>, f: P -> int)
    requires forall j :: 0 <= j < |ps| ==> f(ps[j]) == 0
    ensures Total(ps, f) == 0
  {
    if ps != [] {
      TotalZero(ps[1..], f);
    }
  }

  lemma {:induction false} TotalMonotone<P(!new)>(ps: seq<P>, f: P -> int, g: P -> int)
    requires forall j :: 0 <= j < |ps| ==> f(ps[j]) <= g(ps[j])
    ensures Total(ps, f) <= Total(ps, g)
  {
    if ps != [] {
      TotalMonotone(ps[1..], f, g);
    }
  }
}
