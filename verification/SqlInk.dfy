/**
 Whitespace other than the space in what normalizeSQL returns
 (internal/guardrail/sql_normalize.go).  What is copied at the edge of the text is trimmed
 away again, so the result is free of it on more queries than copy none.
 "Ink" is any character that is no whitespace.
 */
module SqlInk {
  import opened SqlNormalize
  import opened SqlSpaces

  predicate Ink(t: Sql) {
    exists i :: 0 <= i < |t| && !IsSpace(t[i])
  }

  /** Odd whitespace at j has ink on both sides, be it outside the text. */
  predicate Inside(t: Sql, j: nat, before: bool, after: bool)
    requires j < |t|
  {
    IsOdd(t[j]) && (before || Ink(t[..j])) && (after || Ink(t[j + 1..]))
  }

  ghost predicate OddInside(t: Sql, before: bool, after: bool) {
    exists j :: 0 <= j < |t| && Inside(t, j, before, after)
  }

  lemma {:induction false} InkConcat(a: Sql, b: Sql)
    ensures Ink(a + b) <==> Ink(a) || Ink(b)
  {
    if Ink(a) {
      var i :| 0 <= i < |a| && !IsSpace(a[i]);
      assert (a + b)[i] == a[i];
    }
    if Ink(b) {
      var i :| 0 <= i < |b| && !IsSpace(b[i]);
      assert (a + b)[|a| + i] == b[i];
    }
    if Ink(a + b) {
      var i :| 0 <= i < |a + b| && !IsSpace((a + b)[i]);
      assert (a + b)[i] == if i < |a| then a[i] else b[i - |a|];
    }
  }

  lemma {:induction false} InsideLeft(a: Sql, b: Sql, j: nat, before: bool, after: bool)
    requires j < |a|
    ensures Inside(a + b, j, before, after) <==> Inside(a, j, before, after || Ink(b))
  {
    hide Ink;
    assert (a + b)[..j] == a[..j] && (a + b)[j + 1..] == a[j + 1..] + b;
    InkConcat(a[j + 1..], b);
  }

  lemma {:induction false} InsideRight(a: Sql, b: Sql, j: nat, before: bool, after: bool)
    requires j < |b|
    ensures Inside(a + b, |a| + j, before, after) <==> Inside(b, j, before || Ink(a), after)
  {
    hide Ink;
    assert (a + b)[..|a| + j] == a + b[..j] && (a + b)[|a| + j + 1..] == b[j + 1..];
    InkConcat(a, b[..j]);
  }

  lemma {:induction false} OddInsideConcat(a: Sql, b: Sql, before: bool, after: bool)
    ensures OddInside(a + b, before, after) <==>
      OddInside(a, before, after || Ink(b)) || OddInside(b, before || Ink(a), after)
  {
    hide Inside, Ink;
    if OddInside(a + b, before, after) {
      var j :| 0 <= j < |a + b| && Inside(a + b, j, before, after);
      if j < |a| {
        InsideLeft(a, b, j, before, after);
      } else {
        InsideRight(a, b, j - |a|, before, after);
      }
    }
    if OddInside(a, before, after || Ink(b)) {
      var j :| 0 <= j < |a| && Inside(a, j, before, after || Ink(b));
      InsideLeft(a, b, j, before, after);
    }
    if OddInside(b, before || Ink(a), after) {
      var j :| 0 <= j < |b| && Inside(b, j, before || Ink(a), after);
      InsideRight(a, b, j, before, after);
      assert Inside(a + b, |a| + j, before, after);
    }
  }

  // -------------------------------------------------------------------------
  // Collapsing and trimming
  // -------------------------------------------------------------------------

  lemma {:induction false} OneChar(c: char, before: bool, after: bool)
    ensures Ink([c]) <==> !IsSpace(c)
    ensures OddInside([c], before, after) <==> IsOdd(c) && before && after
  {
    assert [c][0] == c;
    if IsOdd(c) && before && after {
      assert Inside([c], 0, before, after);
    }
  }

  lemma {:induction false} OddInsideCons(c: char, t: Sql, before: bool, after: bool)
    ensures Ink([c] + t) <==> !IsSpace(c) || Ink(t)
    ensures OddInside([c] + t, before, after) <==>
      (IsOdd(c) && before && (after || Ink(t))) || OddInside(t, before || !IsSpace(c), after)
  {
    hide Ink, OddInside;
    OneChar(c, before, after || Ink(t));
    InkConcat([c], t);
    OddInsideConcat([c], t, before, after);
  }

  lemma {:induction false} CollapsedInside(s: Sql, prevSpace: bool, before: bool)
    ensures Ink(Collapsed(s, prevSpace)) == Ink(s)
    ensures OddInside(Collapsed(s, prevSpace), before, false) == OddInside(s, before, false)
  {
    hide Ink, OddInside;
    if s == [] {
      assert Collapsed(s, prevSpace) == s;
    } else {
      var rest := Collapsed(s[1..], s[0] == ' ');
      CollapsedInside(s[1..], s[0] == ' ', before || !IsSpace(s[0]));
      assert s == [s[0]] + s[1..];
      OddInsideCons(s[0], s[1..], before, false);
      OddInsideCons(s[0], rest, before, false);
      if s[0] == ' ' && prevSpace {
        assert Collapsed(s, prevSpace) == rest;
      } else {
        assert Collapsed(s, prevSpace) == [s[0]] + rest;
      }
    }
  }

  /** What stands between two pieces of ink survives trimming, and nothing else does. */
  lemma {:induction false} TrimmedInside(t: Sql)
    ensures !OddFree(TrimSpace(t)) <==> OddInside(t, false, false)
  {
    hide TrimLeft, TrimRight;
    var a := TrimmedLeft(t);
    var b := TrimmedRight(t[a..]);
    TrimmedFront(t, a);
    TrimmedBack(t[a..], b);
    var v := t[a..][..b];
    assert t[a..] == v + t[a..][b..] && t == t[..a] + t[a..];
    hide Ink, OddInside, OddFree;
    OddInsideConcat(t[..a], t[a..], false, false);
    OddInsideConcat(v, t[a..][b..], false, false);
    BlankInside(t[..a]);
    BlankInside(t[a..][b..]);
    InkedEnds(v);
  }

  lemma {:induction false} TrimmedFront(t: Sql, a: nat)
    requires a <= |t| && TrimLeft(t) == t[a..] && (a < |t| ==> !IsSpace(t[a]))
    ensures !Ink(t[..a]) && (t[a..] != [] ==> !IsSpace(t[a..][0]))
  {
    if t != [] && IsSpace(t[0]) {
      LeftShrinks(t[1..]);
      assert |t[a..]| == |TrimLeft(t[1..])| <= |t| - 1;
      assert t[1..][a - 1..] == t[a..];
      TrimmedFront(t[1..], a - 1);
      hide Ink;
      assert t[..a] == [t[0]] + t[1..][..a - 1];
      InkConcat([t[0]], t[1..][..a - 1]);
      OneChar(t[0], false, false);
    } else {
      assert a == 0;
    }
  }

  lemma {:induction false} LeftShrinks(t: Sql)
    ensures |TrimLeft(t)| <= |t|
  {
    if t != [] && IsSpace(t[0]) {
      LeftShrinks(t[1..]);
    }
  }

  lemma {:induction false} RightShrinks(t: Sql)
    ensures |TrimRight(t)| <= |t|
  {
    if t != [] && IsSpace(t[|t| - 1]) {
      RightShrinks(t[..|t| - 1]);
    }
  }

  lemma {:induction false} TrimmedBack(t: Sql, b: nat)
    requires b <= |t| && TrimRight(t) == t[..b] && (b > 0 ==> !IsSpace(t[b - 1]))
    ensures !Ink(t[b..]) && (b > 0 ==> !IsSpace(t[..b][b - 1]))
  {
    if t != [] && IsSpace(t[|t| - 1]) {
      var u, c := t[..|t| - 1], t[|t| - 1];
      RightShrinks(u);
      assert |t[..b]| == |TrimRight(u)| <= |u|;
      assert u[..b] == t[..b];
      TrimmedBack(u, b);
      hide Ink;
      assert t[b..] == u[b..] + [c];
      InkConcat(u[b..], [c]);
      OneChar(c, false, false);
    } else {
      assert b == |t|;
    }
  }

  lemma {:induction false} BlankInside(t: Sql)
    requires !Ink(t)
    ensures !OddInside(t, false, true) && !OddInside(t, true, false) && !OddInside(t, false, false)
  {
    forall j | 0 <= j < |t|
      ensures !Ink(t[..j]) && !Ink(t[j + 1..])
    {
      assert t == t[..j] + t[j..] && t == t[..j + 1] + t[j + 1..];
      InkConcat(t[..j], t[j..]);
      InkConcat(t[..j + 1], t[j + 1..]);
    }
  }

  lemma {:induction false} InkedEnds(v: Sql)
    requires v != [] ==> !IsSpace(v[0]) && !IsSpace(v[|v| - 1])
    ensures OddInside(v, false, false) <==> !OddFree(v)
  {
    if !OddFree(v) {
      var j :| 0 <= j < |v| && IsOdd(v[j]);
      assert v[..j][0] == v[0] && v[j + 1..][|v| - j - 2] == v[|v| - 1];
      assert Inside(v, j, false, false);
    }
  }

  // -------------------------------------------------------------------------
  // In terms of the query
  // -------------------------------------------------------------------------

  /** Ink before position n, or behind the token at n, among the tokens the lexer reaches. */
  ghost predicate InkBefore(s: Sql, n: nat) {
    exists m :: 0 <= m < n && m < |s| && Reaches(s, m) && Ink(OutAt(s, m))
  }

  ghost predicate InkBehind(s: Sql, n: nat) {
    exists m :: n < m < |s| && Reaches(s, m) && Ink(OutAt(s, m))
  }

  /** What the token at n writes. */
  ghost function OutAt(s: Sql, n: nat): Sql
    requires n < |s|
  {
    var r := TokenAt(s[n..]);
    if r.Ok? then r.value.out else []
  }

  /** Some token the lexer reaches copies odd whitespace that has ink on both sides. */
  ghost predicate OddBetweenInk(s: Sql, before: bool) {
    exists n :: 0 <= n < |s| && Reaches(s, n) && OddInside(OutAt(s, n), before || InkBefore(s, n), InkBehind(s, n))
  }

  lemma {:induction false} OutShifted(s: Sql, m: nat, n: nat)
    requires m + n < |s|
    ensures OutAt(s[m..], n) == OutAt(s, m + n)
  {
    assert s[m..][n..] == s[m + n..];
  }

  /** Positions behind the first token are reached exactly as in the rest of the text. */
  lemma {:induction false} ReachesShifted(s: Sql, n: nat)
    requires s != [] && TokenAt(s).Ok?
    ensures var m := TokenAt(s).value.length;
      && (n > 0 ==> (Reaches(s, n) <==> m <= n && Reaches(s[m..], n - m)))
      && Reaches(s, 0)
  {
    hide TokenAt;
  }

  lemma {:induction false} LexedInk(s: Sql)
    requires Lexed(s).Ok?
    ensures Ink(Lexed(s).value) <==> SomeInk(s)
  {
    if s == [] {
      assert Lexed(s).value == [];
    } else {
      LexedInkStep(s);
      LexedInk(s[TokenAt(s).value.length..]);
    }
  }

  lemma {:induction false} LexedSplit(s: Sql)
    requires s != [] && Lexed(s).Ok?
    ensures TokenAt(s).Ok? && var t := TokenAt(s).value;
      && Lexed(s[t.length..]).Ok? && Lexed(s).value == t.out + Lexed(s[t.length..]).value
      && OutAt(s, 0) == t.out
  {
    hide TokenAt;
    assert s[0..] == s;
  }

  ghost predicate SomeInk(s: Sql) {
    exists n :: 0 <= n < |s| && Reaches(s, n) && Ink(OutAt(s, n))
  }

  lemma {:induction false} LexedInkStep(s: Sql)
    requires s != [] && Lexed(s).Ok?
    ensures TokenAt(s).Ok? && var t := TokenAt(s).value;
      && Lexed(s[t.length..]).Ok?
      && (Ink(Lexed(s).value) <==> Ink(t.out) || Ink(Lexed(s[t.length..]).value))
      && (SomeInk(s) <==> Ink(t.out) || SomeInk(s[t.length..]))
  {
    hide TokenAt, Lexed, Ink, OutAt, Reaches;
    LexedSplit(s);
    var t := TokenAt(s).value;
    var m, rest := t.length, s[t.length..];
    InkConcat(t.out, Lexed(rest).value);
    ReachesShifted(s, 0);
    if SomeInk(s) {
      var n :| 0 <= n < |s| && Reaches(s, n) && Ink(OutAt(s, n));
      if n > 0 {
        ReachesShifted(s, n);
        OutShifted(s, m, n - m);
      }
    }
    if SomeInk(rest) {
      var n :| 0 <= n < |rest| && Reaches(rest, n) && Ink(OutAt(rest, n));
      ReachesShifted(s, m + n);
      OutShifted(s, m, n);
    }
  }

  /** The token at n sees the ink of the first token before it, and the same ink behind it. */
  lemma {:induction false} SurroundingsShifted(s: Sql, n: nat)
    requires s != [] && TokenAt(s).Ok? && TokenAt(s).value.length <= n < |s|
    ensures var t := TokenAt(s).value; var rest := s[t.length..];
      && (InkBefore(s, n) <==> Ink(t.out) || InkBefore(rest, n - t.length))
      && (InkBehind(s, n) <==> InkBehind(rest, n - t.length))
  {
    hide TokenAt, Ink, OutAt, Reaches;
    FirstOut(s);
    var m := TokenAt(s).value.length;
    var rest := s[m..];
    forall k: nat | 0 < k < |s|
      ensures Reaches(s, k) <==> m <= k && Reaches(rest, k - m)
      ensures m <= k ==> OutAt(rest, k - m) == OutAt(s, k)
    {
      ReachesShifted(s, k);
      if m <= k {
        OutShifted(s, m, k - m);
      }
    }
    ReachesShifted(s, 0);
    if InkBefore(rest, n - m) {
      var k :| 0 <= k < n - m && k < |rest| && Reaches(rest, k) && Ink(OutAt(rest, k));
      assert Reaches(s, m + k) && Ink(OutAt(s, m + k));
    }
    if InkBehind(rest, n - m) {
      var k :| n - m < k < |rest| && Reaches(rest, k) && Ink(OutAt(rest, k));
      assert Reaches(s, m + k) && Ink(OutAt(s, m + k));
    }
  }

  lemma {:induction false} FirstOut(s: Sql)
    requires s != [] && TokenAt(s).Ok?
    ensures OutAt(s, 0) == TokenAt(s).value.out
  {
    hide TokenAt;
    assert s[0..] == s;
  }

  /** The first token sees no ink before it, and behind it that of the rest. */
  lemma {:induction false} SurroundingsFirst(s: Sql)
    requires s != [] && TokenAt(s).Ok?
    ensures !InkBefore(s, 0) && (InkBehind(s, 0) <==> SomeInk(s[TokenAt(s).value.length..]))
  {
    hide TokenAt, Ink, OutAt, Reaches;
    var m := TokenAt(s).value.length;
    var rest := s[m..];
    if InkBehind(s, 0) {
      var k :| 0 < k < |s| && Reaches(s, k) && Ink(OutAt(s, k));
      ReachesShifted(s, k);
      OutShifted(s, m, k - m);
    }
    if SomeInk(rest) {
      var k :| 0 <= k < |rest| && Reaches(rest, k) && Ink(OutAt(rest, k));
      ReachesShifted(s, m + k);
      OutShifted(s, m, k);
    }
  }

  lemma {:induction false} OddBetweenStep(s: Sql, before: bool)
    requires s != [] && TokenAt(s).Ok?
    ensures var t := TokenAt(s).value; var rest := s[t.length..];
      OddBetweenInk(s, before) <==>
        OddInside(t.out, before, SomeInk(rest)) || OddBetweenInk(rest, before || Ink(t.out))
  {
    hide TokenAt, Ink, OutAt, Reaches, OddInside, InkBefore, InkBehind, SomeInk;
    FirstOut(s);
    SurroundingsFirst(s);
    ReachesShifted(s, 0);
    var t := TokenAt(s).value;
    var m, rest := t.length, s[t.length..];
    if OddBetweenInk(s, before) {
      var n :| 0 <= n < |s| && Reaches(s, n) && OddInside(OutAt(s, n), before || InkBefore(s, n), InkBehind(s, n));
      if n > 0 {
        ReachesShifted(s, n);
        OutShifted(s, m, n - m);
        SurroundingsShifted(s, n);
      }
    }
    if OddBetweenInk(rest, before || Ink(t.out)) {
      var n :| 0 <= n < |rest| && Reaches(rest, n)
        && OddInside(OutAt(rest, n), before || Ink(t.out) || InkBefore(rest, n), InkBehind(rest, n));
      ReachesShifted(s, m + n);
      OutShifted(s, m, n);
      SurroundingsShifted(s, m + n);
    }
  }

  lemma {:induction false} LexedInside(s: Sql, before: bool)
    requires Lexed(s).Ok?
    ensures OddInside(Lexed(s).value, before, false) <==> OddBetweenInk(s, before)
    decreases |s|
  {
    hide OddInside, Ink, TokenAt, Lexed, SomeInk;
    if s == [] {
      NothingInside(s, before);
    } else {
      LexedSplit(s);
      var t := TokenAt(s).value;
      var rest := s[t.length..];
      OddInsideConcat(t.out, Lexed(rest).value, before, false);
      LexedInk(rest);
      OddBetweenStep(s, before);
      LexedInside(rest, before || Ink(t.out));
    }
  }

  lemma {:induction false} NothingInside(s: Sql, before: bool)
    requires s == []
    ensures Lexed(s).Ok? && !OddInside(Lexed(s).value, before, false) && !OddBetweenInk(s, before)
  {
  }

  /**
   The normal form is free of whitespace other than the space if and only if no quoted
   identifier and no executed comment of the query holds any between two characters, of the
   query as lexed, that are no whitespace.
   */
  lemma {:induction false} OddFreeExactly(query: Sql)
    requires Normalized(query).Ok?
    ensures OddFree(Normalized(query).value) <==> !OddBetweenInk(query, false)
  {
    hide OddFree, OddInside, OddBetweenInk, Lexed, Collapsed, TrimSpace;
    var t := Lexed(query).value;
    TrimmedInside(Collapsed(t, false));
    CollapsedInside(t, false, false);
    LexedInside(query, false);
  }

  /** In particular it is on every query of which nothing odd is copied. */
  lemma {:induction false} OddFreeIfNoneCopied(query: Sql)
    requires Normalized(query).Ok? && NothingOddCopied(query)
    ensures OddFree(Normalized(query).value)
  {
    hide Lexed, Collapsed, TrimLeft, TrimRight;
    OddFreeUntrimmed(query);
    var t := Collapsed(Lexed(query).value, false);
    var a := TrimmedLeft(t);
    var b := TrimmedRight(t[a..]);
  }

  /** But not only on those: a tab at the edge is copied and then trimmed. */
  lemma {:induction false} EdgeIsTrimmed()
    ensures Lexed("\"\ta\"").Ok? && !NothingOddCopied("\"\ta\"") && Normalized("\"\ta\"") == Ok("a")
  {
    var s := "\"\ta\"";
    EdgeCopied();
    assert s[0..] == s && Reaches(s, 0);
    var out := " \ta ";
    assert out[1..] == "\ta " && "\ta "[1..] == "a " && "a "[1..] == " ";
    assert Collapsed("a ", false) == "a ";
    assert Collapsed("\ta ", true) == "\ta ";
    assert TrimLeft("\ta ") == "a ";
    assert "a "[..1] == "a";
    assert TrimRight("a ") == "a";
  }

  lemma {:induction false} EdgeCopied()
    ensures Lexed("\"\ta\"") == Ok(" \ta ") && CopiesOdd("\"\ta\"")
  {
    var s := "\"\ta\"";
    assert s[1..] == "\ta\"" && "\ta\""[1..] == "a\"" && "a\""[1..] == "\"";
    assert QuoteEnd("a\"", '"', false) == 2;
    assert QuoteEnd(s[1..], '"', false) == 3;
    assert s[1..3] == "\ta" && "\ta"[1..] == "a" && s[1..3][0] == '\t';
    assert Undoubled("a", '"') == "a";
    assert Undoubled("\ta", '"') == "\ta";
    assert " " + "\ta" + " " == " \ta ";
    assert TokenAt(s) == Ok(Token(4, " \ta "));
    assert s[4..] == [] && " \ta " + [] == " \ta ";
  }
}
