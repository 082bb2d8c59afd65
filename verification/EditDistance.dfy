/** The edit distance behind field suggestions (internal/ingest/validate.go). */
module EditDistance {

  type Text = seq<char>

  function Min(a: nat, b: nat): nat { if a < b then a else b }

  function Init(s: Text): Text
    requires s != []
  {
    s[..|s| - 1]
  }

  function Last(s: Text): char
    requires s != []
  {
    s[|s| - 1]
  }

  function Cost(x: char, y: char): nat { if x == y then 0 else 1 }

  /** Levenshtein's recursion. */
  function Lev(a: Text, b: Text): nat
    decreases |a| + |b|
  {
    if a == [] then |b|
    else if b == [] then |a|
    else Min(Lev(Init(a), b) + 1, Min(Lev(a, Init(b)) + 1, Lev(Init(a), Init(b)) + Cost(Last(a), Last(b))))
  }

  /** The table that Distance fills row by row. */
  function Cell(a: Text, b: Text, i: nat, j: nat): nat
    requires i <= |a| && j <= |b|
    decreases i + j
  {
    if i == 0 then j
    else if j == 0 then i
    else Min(Cell(a, b, i - 1, j) + 1,
             Min(Cell(a, b, i, j - 1) + 1, Cell(a, b, i - 1, j - 1) + Cost(a[i - 1], b[j - 1])))
  }

  lemma {:induction false} CellStep(a: Text, b: Text, i: nat, j: nat)
    requires 1 <= i <= |a| && 1 <= j <= |b|
    ensures Cell(a, b, i, 0) == i
    ensures Cell(a, b, i, j)
         == Min(Cell(a, b, i - 1, j) + 1,
                Min(Cell(a, b, i, j - 1) + 1, Cell(a, b, i - 1, j - 1) + Cost(a[i - 1], b[j - 1])))
  {
  }

  lemma {:induction false} LevStep(a: Text, b: Text)
    requires a != [] && b != []
    ensures Lev(a, b)
         == Min(Lev(Init(a), b) + 1, Min(Lev(a, Init(b)) + 1, Lev(Init(a), Init(b)) + Cost(Last(a), Last(b))))
  {
  }

  lemma {:induction false} CellIsLev(a: Text, b: Text, i: nat, j: nat)
    requires i <= |a| && j <= |b|
    ensures Cell(a, b, i, j) == Lev(a[..i], b[..j])
    decreases i + j
  {
    hide Cell, Lev;
    if i == 0 || j == 0 {
      BorderIsLev(a, b, i, j);
    } else {
      CellIsLev(a, b, i - 1, j);
      CellIsLev(a, b, i, j - 1);
      CellIsLev(a, b, i - 1, j - 1);
      CellStep(a, b, i, j);
      LevStep(a[..i], b[..j]);
      assert Init(a[..i]) == a[..i - 1] && Init(b[..j]) == b[..j - 1];
    }
  }

  lemma {:induction false} BorderIsLev(a: Text, b: Text, i: nat, j: nat)
    requires i <= |a| && j <= |b| && (i == 0 || j == 0)
    ensures Cell(a, b, i, j) == Lev(a[..i], b[..j])
  {
  }

  /** Two rows, filled left to right and swapped. */
  method Distance(a: Text, b: Text) returns (d: nat)
    ensures d == Lev(a, b)
  {
    var prev := new nat[|b| + 1](_ => 0);
    var curr := new nat[|b| + 1](_ => 0);
    for j := 0 to |b| + 1
      invariant forall k :: 0 <= k < j ==> prev[k] == k
    {
      prev[j] := j;
    }
    assert forall k :: 0 <= k <= |b| ==> Cell(a, b, 0, k) == k;
    hide Cell, Lev;
    for i := 1 to |a| + 1
      invariant fresh(prev) && fresh(curr) && prev != curr
      invariant prev.Length == curr.Length == |b| + 1
      invariant forall k :: 0 <= k <= |b| ==> prev[k] == Cell(a, b, i - 1, k)
    {
      FillRow(a, b, i, prev, curr);
      prev, curr := curr, prev;
    }
    d := prev[|b|];
    CellIsLev(a, b, |a|, |b|);
    assert a[..|a|] == a && b[..|b|] == b;
  }

  /** The inner loop. */
  method FillRow(a: Text, b: Text, i: nat, prev: array<nat>, curr: array<nat>)
    requires 1 <= i <= |a| && prev != curr && prev.Length == curr.Length == |b| + 1
    requires forall k :: 0 <= k <= |b| ==> prev[k] == Cell(a, b, i - 1, k)
    modifies curr
    ensures forall k :: 0 <= k <= |b| ==> curr[k] == Cell(a, b, i, k)
  {
    curr[0] := i;
    assert Cell(a, b, i, 0) == i;
    hide Cell, Min;
    for j := 1 to |b| + 1
      invariant forall k :: 0 <= k < j ==> curr[k] == Cell(a, b, i, k)
    {
      var cost := 1;
      if a[i - 1] == b[j - 1] {
        cost := 0;
      }
      curr[j] := Min(prev[j] + 1, Min(curr[j - 1] + 1, prev[j - 1] + cost));
      CellStep(a, b, i, j);
    }
  }

  // -------------------------------------------------------------------------
  // A metric
  // -------------------------------------------------------------------------

  lemma {:induction false} LevSymmetric(a: Text, b: Text)
    ensures Lev(a, b) == Lev(b, a)
    decreases |a| + |b|
  {
    if a != [] && b != [] {
      LevSymmetric(Init(a), b);
      LevSymmetric(a, Init(b));
      LevSymmetric(Init(a), Init(b));
    }
  }

  lemma {:induction false} LevZero(a: Text, b: Text)
    ensures Lev(a, b) == 0 <==> a == b
    decreases |a| + |b|
  {
    if a != [] && b != [] {
      LevZero(Init(a), Init(b));
      assert a == Init(a) + [Last(a)] && b == Init(b) + [Last(b)];
    }
  }

  /** No recursion step costs more than one. */
  lemma {:induction false} LevSteps(a: Text, b: Text)
    ensures a != [] ==> Lev(a, b) <= Lev(Init(a), b) + 1
    ensures b != [] ==> Lev(a, b) <= Lev(a, Init(b)) + 1
    ensures a != [] && b != [] ==> Lev(a, b) <= Lev(Init(a), Init(b)) + Cost(Last(a), Last(b))
  {
  }

  lemma {:induction false} LevTriangle(a: Text, b: Text, c: Text)
    ensures Lev(a, c) <= Lev(a, b) + Lev(b, c)
    decreases |a| + |b| + |c|
  {
    LevSteps(a, c);
    if a != [] && Lev(a, b) == Lev(Init(a), b) + 1 {
      LevTriangle(Init(a), b, c);
    } else if c != [] && Lev(b, c) == Lev(b, Init(c)) + 1 {
      LevTriangle(a, b, Init(c));
    } else if b != [] {
      LevTriangle(a, Init(b), c);
      if c != [] {
        LevTriangle(a, Init(b), Init(c));
      }
      if a != [] {
        LevTriangle(Init(a), Init(b), c);
      }
      if a != [] && c != [] {
        LevTriangle(Init(a), Init(b), Init(c));
      }
    }
  }

  // -------------------------------------------------------------------------
  // The least number of one-character edits
  // -------------------------------------------------------------------------

  predicate Inserts(a: Text, b: Text, i: nat) {
    i <= |a| && |b| == |a| + 1 && b[..i] == a[..i] && b[i + 1..] == a[i..]
  }

  predicate Replaces(a: Text, b: Text, i: nat) {
    i < |a| == |b| && b[..i] == a[..i] && b[i + 1..] == a[i + 1..]
  }

  /** b is a with one character inserted, removed or replaced. */
  ghost predicate OneEdit(a: Text, b: Text) {
    exists i: nat :: Inserts(a, b, i) || Inserts(b, a, i) || Replaces(a, b, i)
  }

  ghost predicate Edits(a: Text, b: Text, n: nat)
    decreases n
  {
    if n == 0 then a == b else exists m :: OneEdit(a, m) && Edits(m, b, n - 1)
  }

  lemma {:induction false} SuffixIsFree(a: Text, b: Text, s: Text)
    ensures Lev(a + s, b + s) <= Lev(a, b)
    decreases |s|
  {
    if s == [] {
      assert a + s == a && b + s == b;
    } else {
      assert Init(a + s) == a + Init(s) && Init(b + s) == b + Init(s);
      SuffixIsFree(a, b, Init(s));
      LevSteps(a + s, b + s);
    }
  }

  lemma {:induction false} OneEditCosts(a: Text, b: Text)
    requires OneEdit(a, b)
    ensures Lev(a, b) <= 1
  {
    var i: nat :| Inserts(a, b, i) || Inserts(b, a, i) || Replaces(a, b, i);
    if Inserts(a, b, i) {
      InsertionCosts(a, b, i);
    } else if Inserts(b, a, i) {
      InsertionCosts(b, a, i);
      LevSymmetric(a, b);
    } else {
      ReplacementCosts(a, b, i);
    }
  }

  lemma {:induction false} ReplacementCosts(a: Text, b: Text, i: nat)
    requires Replaces(a, b, i)
    ensures Lev(a, b) <= 1
  {
    var u, v := a[..i + 1], b[..i + 1];
    assert a == u + a[i + 1..] && b == v + a[i + 1..];
    SuffixIsFree(u, v, a[i + 1..]);
    assert Init(u) == a[..i] && Init(v) == b[..i];
    LevZero(a[..i], a[..i]);
    LevSteps(u, v);
  }

  lemma {:induction false} InsertionCosts(a: Text, b: Text, i: nat)
    requires Inserts(a, b, i)
    ensures Lev(a, b) <= 1
  {
    assert a == a[..i] + a[i..] && b == b[..i + 1] + a[i..];
    SuffixIsFree(a[..i], b[..i + 1], a[i..]);
    assert Init(b[..i + 1]) == a[..i];
    LevZero(a[..i], a[..i]);
    LevSteps(a[..i], b[..i + 1]);
  }

  lemma {:induction false} EditsCost(a: Text, b: Text, n: nat)
    requires Edits(a, b, n)
    ensures Lev(a, b) <= n
    decreases n
  {
    if n == 0 {
      LevZero(a, b);
    } else {
      var m :| OneEdit(a, m) && Edits(m, b, n - 1);
      OneEditCosts(a, m);
      EditsCost(m, b, n - 1);
      LevTriangle(a, m, b);
    }
  }

  lemma {:induction false} EditsThenOne(a: Text, b: Text, c: Text, n: nat)
    requires Edits(a, b, n) && OneEdit(b, c)
    ensures Edits(a, c, n + 1)
    decreases n
  {
    if n == 0 {
      assert Edits(c, c, 0);
    } else {
      var m :| OneEdit(a, m) && Edits(m, b, n - 1);
      EditsThenOne(m, b, c, n - 1);
    }
  }

  lemma {:induction false} OneEditLifts(a: Text, b: Text, x: char)
    requires OneEdit(a, b)
    ensures OneEdit(a + [x], b + [x])
  {
    var i: nat :| Inserts(a, b, i) || Inserts(b, a, i) || Replaces(a, b, i);
    var u, v := a + [x], b + [x];
    assert Inserts(a, b, i) ==> Inserts(u, v, i) by {
      if Inserts(a, b, i) { LiftInsert(a, b, i, x); }
    }
    assert Inserts(b, a, i) ==> Inserts(v, u, i) by {
      if Inserts(b, a, i) { LiftInsert(b, a, i, x); }
    }
    assert Replaces(a, b, i) ==> Replaces(u, v, i) by {
      if Replaces(a, b, i) {
        assert u[..i] == a[..i] && v[..i] == b[..i];
        assert u[i + 1..] == a[i + 1..] + [x] && v[i + 1..] == b[i + 1..] + [x];
      }
    }
  }

  lemma {:induction false} LiftInsert(a: Text, b: Text, i: nat, x: char)
    requires Inserts(a, b, i)
    ensures Inserts(a + [x], b + [x], i)
  {
    var u, v := a + [x], b + [x];
    assert u[..i] == a[..i] && v[..i] == b[..i];
    assert u[i..] == a[i..] + [x] && v[i + 1..] == b[i + 1..] + [x];
  }

  lemma {:induction false} EditsLift(a: Text, b: Text, n: nat, x: char)
    requires Edits(a, b, n)
    ensures Edits(a + [x], b + [x], n)
    decreases n
  {
    if n > 0 {
      var m :| OneEdit(a, m) && Edits(m, b, n - 1);
      OneEditLifts(a, m, x);
      EditsLift(m, b, n - 1, x);
    }
  }

  lemma {:induction false} LastEdits(a: Text)
    requires a != []
    ensures OneEdit(a, Init(a)) && OneEdit(Init(a), a)
    ensures forall y :: OneEdit(a, Init(a) + [y])
  {
    assert Inserts(Init(a), a, |a| - 1);
    forall y
      ensures OneEdit(a, Init(a) + [y])
    {
      assert Replaces(a, Init(a) + [y], |a| - 1);
    }
  }

  /** Lev(a, b) edits suffice. */
  lemma {:induction false} EditsExist(a: Text, b: Text)
    ensures Edits(a, b, Lev(a, b))
    decreases |a| + |b|
  {
    hide OneEdit;
    if a == [] && b == [] {
    } else if a != [] && Lev(a, b) == Lev(Init(a), b) + 1 {
      LastEdits(a);
      EditsExist(Init(a), b);
    } else if b != [] && Lev(a, b) == Lev(a, Init(b)) + 1 {
      LastEdits(b);
      EditsExist(a, Init(b));
      EditsThenOne(a, Init(b), b, Lev(a, Init(b)));
    } else {
      EditsReplace(a, b);
    }
  }

  lemma {:induction false} EditsReplace(a: Text, b: Text)
    requires a != [] && b != [] && Lev(a, b) == Lev(Init(a), Init(b)) + Cost(Last(a), Last(b))
    ensures Edits(a, b, Lev(a, b))
    decreases |a| + |b|, 0
  {
    hide Lev, OneEdit;
    EditsExist(Init(a), Init(b));
    var n := Lev(Init(a), Init(b));
    EditsLift(Init(a), Init(b), n, Last(a));
    assert a == Init(a) + [Last(a)] && b == Init(b) + [Last(b)];
    if Last(a) != Last(b) {
      var m := Init(b) + [Last(a)];
      LastEdits(m);
      assert Init(m) == Init(b);
      EditsThenOne(a, m, b, n);
    }
  }

  /** The distance is the least number of one-character edits from a to b. */
  lemma {:induction false} LevIsLeast(a: Text, b: Text)
    ensures Edits(a, b, Lev(a, b))
    ensures forall n :: 0 <= n && Edits(a, b, n) ==> Lev(a, b) <= n
  {
    EditsExist(a, b);
    forall n | 0 <= n && Edits(a, b, n)
      ensures Lev(a, b) <= n
    {
      EditsCost(a, b, n);
    }
  }

  // -------------------------------------------------------------------------
  // The suggestion
  // -------------------------------------------------------------------------

  const SUGGESTION_LIMIT: nat := 3

  /** suggestField for an already trimmed and lowered key that is no alias; names are visited in any order. */
  method SuggestNearest(key: Text, names: set<Text>) returns (best: Text)
    ensures (forall name :: name in names ==> Lev(key, name) >= SUGGESTION_LIMIT) ==> best == ""
    ensures (exists name :: name in names && Lev(key, name) < SUGGESTION_LIMIT) ==>
              && best in names && Lev(key, best) < SUGGESTION_LIMIT
              && forall name :: name in names ==> Lev(key, best) <= Lev(key, name)
  {
    best := "";
    var bestDist := SUGGESTION_LIMIT;
    var todo := names;
    while todo != {}
      invariant todo <= names
      invariant bestDist <= SUGGESTION_LIMIT
      invariant bestDist == SUGGESTION_LIMIT ==> best == ""
      invariant bestDist < SUGGESTION_LIMIT ==> best in names && Lev(key, best) == bestDist
      invariant forall name :: name in names && name !in todo ==> bestDist <= Lev(key, name)
      decreases |todo|
    {
      var name :| name in todo;
      todo := todo - {name};
      var d := Distance(key, name);
      if d < bestDist {
        best, bestDist := name, d;
      }
    }
  }
}
