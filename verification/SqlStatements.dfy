/**
 The small cuts ValidateReadOnlyGeneric makes on a statement (internal/guardrail/sql_generic.go),
 said without the functions that make them: upper-casing, the trailing semicolons, the prefix
 of EXPLAIN and the forms of a PRAGMA.
 */
module SqlStatements {
  import opened AsciiCase
  import opened SqlNormalize
  import opened SqlSpaces
  import opened SqlTokens
  import opened SqlGuard

  // -------------------------------------------------------------------------
  // Case
  // -------------------------------------------------------------------------

  /** Upper-casing leaves no lower-case letter and changes nothing but case ... */
  lemma {:induction false} UpperKeeps(s: Sql)
    ensures SameUpToCase(Upper(s), s)
    ensures forall i :: 0 <= i < |s| ==> !IsLower(Upper(s)[i]) && (!IsLower(s[i]) ==> Upper(s)[i] == s[i])
  {
  }

  /** ... so two texts agree upper-cased exactly when they agree up to case. */
  lemma {:induction false} UpperExactly(a: Sql, b: Sql)
    ensures Upper(a) == Upper(b) <==> SameUpToCase(a, b)
  {
    if Upper(a) == Upper(b) {
      assert |Upper(a)| == |a| && |Upper(b)| == |b|;
      forall i | 0 <= i < |a|
        ensures SameLetter(a[i], b[i])
      {
        assert Upper(a)[i] == Upper(b)[i];
      }
    }
  }

  // -------------------------------------------------------------------------
  // Trailing semicolons
  // -------------------------------------------------------------------------

  predicate Ends(c: char) { c == ';' || c == ' ' }

  /** All semicolons and spaces at the end are cut off, and nothing else. */
  lemma {:induction false} TrimStatementExact(s: Sql)
    ensures var r := TrimStatement(s);
      && r <= s && (forall i :: |r| <= i < |s| ==> Ends(s[i])) && (r != [] ==> !Ends(r[|r| - 1]))
  {
    if s != [] && Ends(s[|s| - 1]) {
      TrimStatementExact(s[..|s| - 1]);
    }
  }

  // -------------------------------------------------------------------------
  // EXPLAIN
  // -------------------------------------------------------------------------

  ghost predicate Blank(s: Sql) {
    forall i :: 0 <= i < |s| ==> IsSpace(s[i])
  }

  predicate Trimmed(s: Sql) {
    s != [] ==> !IsSpace(s[0]) && !IsSpace(s[|s| - 1])
  }

  /** One list of options in parentheses, up to the first closing one. */
  predicate Options(s: Sql) {
    |s| > 1 && s[0] == '(' && s[|s| - 1] == ')' && ')' !in s[..|s| - 1]
  }

  lemma {:induction false} TrimSplit(s: Sql) returns (lead: Sql, tail: Sql)
    ensures s == lead + TrimSpace(s) + tail && Blank(lead) && Blank(tail) && Trimmed(TrimSpace(s))
  {
    hide TrimSpace;
    var a, b := TrimmedBoth(s);
    lead, tail := s[..a], s[b..];
    assert s == s[..a] + s[a..b] + s[b..];
  }

  /**
   What is explained is what stands behind the keyword and, if there is one, a list of
   options in parentheses, blanks aside.
   */
  lemma {:induction false} StripExplainExact(upper: Sql) returns (lead: Sql, options: Sql, gap: Sql, tail: Sql)
    requires EXPLAIN <= upper
    ensures var r := StripExplainPrefix(upper);
      && upper == EXPLAIN + lead + options + gap + r + tail
      && Blank(lead) && Blank(gap) && Blank(tail) && Trimmed(r)
      && (options == [] || Options(options))
      && (options == [] ==> gap == [] && !(r != [] && r[0] == '(' && ')' in r))
  {
    hide TrimSpace, Index, Options;
    var rest := upper[|EXPLAIN|..];
    assert upper == EXPLAIN + rest;
    lead, tail := TrimSplit(rest);
    var inner := TrimSpace(rest);
    ClosingParenthesis(inner);
    if inner != [] && inner[0] == '(' && Index(inner, ")", 0) >= 0 {
      var close := Index(inner, ")", 0);
      var tail';
      options, gap, tail' := OptionsSplit(inner, close);
      BlankConcat(tail', tail);
      var r := TrimSpace(inner[close + 1..]);
      Regrouped(EXPLAIN, lead, options, gap, r, tail', tail);
      tail := tail' + tail;
    } else {
      options, gap := [], [];
      Regrouped(EXPLAIN, lead, [], [], inner, [], tail);
      assert [] + [] + inner + [] == inner && [] + tail == tail;
    }
  }

  lemma {:induction false} OptionsSplit(inner: Sql, close: nat) returns (options: Sql, gap: Sql, tail: Sql)
    requires close < |inner| && inner[0] == '(' && inner[close] == ')' && ')' !in inner[..close]
    ensures Options(options) && options != []
    ensures Blank(gap) && Blank(tail) && Trimmed(TrimSpace(inner[close + 1..]))
    ensures inner == options + gap + TrimSpace(inner[close + 1..]) + tail
  {
    hide TrimSpace;
    options := inner[..close + 1];
    assert options[..close] == inner[..close];
    gap, tail := TrimSplit(inner[close + 1..]);
    assert inner == options + inner[close + 1..];
    var r := TrimSpace(inner[close + 1..]);
    assert options + (gap + r + tail) == options + gap + r + tail;
  }

  lemma {:induction false} Regrouped(a: Sql, b: Sql, c: Sql, d: Sql, e: Sql, f: Sql, g: Sql)
    ensures a + (b + (c + d + e + f) + g) == a + b + c + d + e + (f + g)
  {
  }

  lemma {:induction false} BlankConcat(a: Sql, b: Sql)
    requires Blank(a) && Blank(b)
    ensures Blank(a + b)
  {
  }

  lemma {:induction false} ClosingParenthesis(s: Sql)
    ensures var k := Index(s, ")", 0);
      && (k < 0 <==> ')' !in s)
      && (k >= 0 ==> k < |s| && s[k] == ')' && ')' !in s[..k])
  {
    hide Index;
    forall j: nat
      ensures Occurs(s, ")", j) <==> j < |s| && s[j] == ')'
    {
      if j < |s| {
        assert s[j..j + 1] == [s[j]];
      }
    }
  }

  // -------------------------------------------------------------------------
  // PRAGMA
  // -------------------------------------------------------------------------

  lemma {:induction false} LeadTrimmed(lead: Sql, x: Sql) returns (n: nat)
    requires Blank(lead) && x != [] && !IsSpace(x[0])
    ensures 0 < n <= |x| && TrimSpace(lead + x) == x[..n] && forall i :: n <= i < |x| ==> IsSpace(x[i])
  {
    hide TrimSpace;
    var s := lead + x;
    var a, b := TrimmedBoth(s);
    assert s[|lead|] == x[0];
    assert forall i :: 0 <= i < |lead| ==> s[i] == lead[i];
    assert a == |lead|;
    n := b - a;
    assert s[a..b] == x[..n];
    forall i | n <= i < |x|
      ensures IsSpace(x[i])
    {
      assert x[i] == s[a + i];
    }
  }

  lemma {:induction false} NameRead(name: Sql, y: Sql)
    requires IsWord(name) && (y != [] ==> !IsIdent(y[0]) && y[0] != '.')
    ensures PragmaName(name + y) == Pragma(name, y)
  {
    var s := name + y;
    var k := RunLength(s);
    assert forall i :: 0 <= i < |name| ==> s[i] == name[i];
    assert y != [] ==> s[|name|] == y[0];
    assert k == |name|;
    assert s[..k] == name && s[k..] == y;
  }

  /** A bare PRAGMA is allowed exactly if its name is listed. */
  lemma {:induction false} BarePragma(lead: Sql, name: Sql, tail: Sql)
    requires Blank(lead) && Blank(tail) && IsWord(name)
    ensures PermittedPragma(PRAGMA + lead + name + tail) <==> name in PRAGMAS_WITH_ARGUMENT || name in SCALAR_PRAGMAS
  {
    hide TrimSpace, PragmaName, PRAGMAS_WITH_ARGUMENT, SCALAR_PRAGMAS;
    var upper := PRAGMA + lead + name + tail;
    assert upper[|PRAGMA|..] == lead + (name + tail);
    assert (name + tail)[0] == name[0] && !IsSpace(name[0]);
    var n := LeadTrimmed(lead, name + tail);
    var shown := (name + tail)[..n];
    assert (name + tail)[|name| - 1] == name[|name| - 1] && !IsSpace(name[|name| - 1]);
    assert n >= |name|;
    var y := tail[..n - |name|];
    assert shown == name + y;
    assert y != [] ==> IsSpace(y[0]);
    NameRead(name, y);
    BlankTrimmed(y);
  }

  lemma {:induction false} BlankTrimmed(s: Sql)
    requires Blank(s)
    ensures TrimSpace(s) == []
  {
    hide TrimSpace;
    var a, b := TrimmedBoth(s);
  }

  /**
   Followed by anything else, an assignment or a value in parentheses, it is allowed exactly
   if its name is one that looks a name up and a parenthesis follows.
   */
  lemma {:induction false} PragmaWithMore(lead: Sql, name: Sql, gap: Sql, c: char, more: Sql)
    requires Blank(lead) && Blank(gap) && IsWord(name) && !IsIdent(c) && c != '.' && !IsSpace(c)
    ensures PermittedPragma(PRAGMA + lead + name + gap + [c] + more) <==> name in PRAGMAS_WITH_ARGUMENT && c == '('
  {
    hide TrimSpace, PragmaName, PRAGMAS_WITH_ARGUMENT, SCALAR_PRAGMAS;
    var upper := PRAGMA + lead + name + gap + [c] + more;
    var x := name + gap + [c] + more;
    assert upper[|PRAGMA|..] == lead + x;
    assert x[0] == name[0] && !IsSpace(name[0]);
    var n := LeadTrimmed(lead, x);
    var at := |name| + |gap|;
    assert x[at] == c;
    assert n > at;
    var y := gap + [c] + more[..n - at - 1];
    assert x[..n] == name + y;
    assert y[0] == if gap == [] then c else gap[0];
    NameRead(name, y);
    var rest := [c] + more[..n - at - 1];
    assert y == gap + rest;
    var m := LeadTrimmed(gap, rest);
    assert TrimSpace(y)[0] == c;
  }
}
