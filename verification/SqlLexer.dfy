/**
 The scanning loops of internal/guardrail/sql_normalize.go: an index into the text, a
 builder that grows, and helpers that return the index just past what they recognised.
 Each is proved to compute the function of `SqlNormalize` that specifies it.
 */
module SqlLexer {
  import opened SqlNormalize

  function From(start: nat, k: int): Result<nat> {
    if k < 0 then Err else Ok(start + k)
  }

  lemma {:induction false} QuoteStep(s: Sql, i: nat, q: char, backslash: bool)
    requires i < |s|
    ensures backslash && s[i] == '\\' && i + 1 == |s| ==> QuoteEnd(s[i..], q, backslash) == -1
    ensures backslash && s[i] == '\\' && i + 1 < |s| ==>
      QuoteEnd(s[i..], q, backslash) == Shift(2, QuoteEnd(s[i + 2..], q, backslash))
    ensures !(backslash && s[i] == '\\') && s[i] == q && i + 1 < |s| && s[i + 1] == q ==>
      QuoteEnd(s[i..], q, backslash) == Shift(2, QuoteEnd(s[i + 2..], q, backslash))
    ensures !(backslash && s[i] == '\\') && s[i] == q && !(i + 1 < |s| && s[i + 1] == q) ==>
      QuoteEnd(s[i..], q, backslash) == 1
    ensures !(backslash && s[i] == '\\') && s[i] != q ==>
      QuoteEnd(s[i..], q, backslash) == Shift(1, QuoteEnd(s[i + 1..], q, backslash))
  {
    assert s[i..][1..] == s[i + 1..];
    assert i + 1 < |s| ==> s[i..][2..] == s[i + 2..];
  }

  /** The index just past the closing quote of the quoted run that starts at `start`. */
  method ScanQuoted(s: Sql, start: nat, quote: char, backslash: bool) returns (r: Result<nat>)
    requires start < |s|
    ensures r == From(start + 1, QuoteEnd(s[start + 1..], quote, backslash))
  {
    hide QuoteEnd;
    var i := start + 1;
    while i < |s|
      invariant start + 1 <= i
      invariant i <= |s| ==> QuoteEnd(s[start + 1..], quote, backslash) == Shift(i - start - 1, QuoteEnd(s[i..], quote, backslash))
      invariant i > |s| ==> QuoteEnd(s[start + 1..], quote, backslash) == -1
    {
      QuoteStep(s, i, quote, backslash);
      if backslash && s[i] == '\\' {
        i := i + 1;
      } else if s[i] == quote {
        if i + 1 < |s| && s[i + 1] == quote {
          i := i + 1;
        } else {
          return Ok(i + 1);
        }
      }
      i := i + 1;
    }
    EmptyUnterminated(quote, backslash);
    assert i == |s| ==> s[i..] == [];
    return Err;
  }

  lemma {:induction false} EmptyUnterminated(q: char, backslash: bool)
    ensures QuoteEnd([], q, backslash) == -1
  {
  }

  lemma {:induction false} IndexShifted(s: Sql, pat: Sql, start: nat, i: nat)
    requires start + i <= |s|
    ensures Index(s[start..], pat, i) == (if Index(s, pat, start + i) < 0 then -1 else Index(s, pat, start + i) - start)
  {
    hide Index;
    forall j: nat | j + start + |pat| <= |s|
      ensures Occurs(s[start..], pat, j) == Occurs(s, pat, start + j)
    {
      assert s[start..][j..j + |pat|] == s[start + j..start + j + |pat|];
    }
    var k, k' := Index(s, pat, start + i), Index(s[start..], pat, i);
    if k != -1 {
      assert Occurs(s[start..], pat, k - start);
    }
    if k' != -1 {
      assert Occurs(s, pat, start + k');
    }
  }

  lemma {:induction false} TagStep(s: Sql, start: nat, i: nat)
    requires start < i <= |s|
    ensures TagEnd(s[start..], i - start) ==
      if i < |s| && IsIdent(s[i]) && !(i == start + 1 && IsDigit(s[i])) then TagEnd(s[start..], i + 1 - start) else i - start
  {
  }

  /** The index just past the dollar-quoted string that starts at `start`, if there is one. */
  method ScanDollarQuote(s: Sql, start: nat) returns (r: Result<nat>)
    requires start < |s|
    ensures r == From(start, DollarEnd(s[start..]))
  {
    hide TagEnd, Index, Occurs;
    var i := start + 1;
    while i < |s| && IsIdent(s[i]) && !(i == start + 1 && IsDigit(s[i]))
      invariant start < i <= |s|
      invariant TagEnd(s[start..], 1) == TagEnd(s[start..], i - start)
    {
      TagStep(s, start, i);
      i := i + 1;
    }
    TagStep(s, start, i);
    if i >= |s| || s[i] != '$' {
      return Err;
    }
    var tag := s[start..i + 1];
    assert s[start..][..i - start + 1] == tag;
    IndexShifted(s, tag, start, i + 1 - start);
    var end := Index(s, tag, i + 1);
    if end >= 0 {
      return Ok(end + |tag|);
    }
    return Err;
  }

  /** The index just past the comment that starts at `start`, and what the database executes of it. */
  method ScanBlockComment(s: Sql, start: nat) returns (r: Result<Token>)
    requires start + 2 <= |s|
    ensures var k := Index(s, "*/", start + 2);
      r == if k < 0 then Err else Ok(Token(k + 2, Executed(s[start + 2..k])))
  {
    var end := Index(s, "*/", start + 2);
    if end < 0 {
      return Err;
    }
    var body := s[start + 2..end];
    if body == [] || body[0] != '!' {
      return Ok(Token(end + 2, []));
    }
    ghost var whole := body;
    body := body[1..];
    while body != [] && IsDigit(body[0])
      invariant Executed(whole) == DropDigits(body)
    {
      body := body[1..];
    }
    return Ok(Token(end + 2, body));
  }

  /** Reduces every run of spaces to one. */
  method CollapseSpaces(s: Sql) returns (b: Sql)
    ensures b == Collapsed(s, false)
  {
    hide Collapsed;
    b := [];
    var prevSpace := false;
    assert s[0..] == s && [] + Collapsed(s, false) == Collapsed(s, false);
    for i := 0 to |s|
      invariant Collapsed(s, false) == b + Collapsed(s[i..], prevSpace)
    {
      CollapsedStep(s, i, prevSpace, b);
      if s[i] == ' ' {
        if !prevSpace {
          b := b + [' '];
        }
        prevSpace := true;
        continue;
      }
      prevSpace := false;
      b := b + [s[i]];
    }
    NothingToCollapse(s[|s|..], prevSpace);
    assert b + [] == b;
  }

  lemma {:induction false} CollapsedStep(s: Sql, i: nat, prevSpace: bool, b: Sql)
    requires i < |s|
    ensures s[i] == ' ' ==> b + Collapsed(s[i..], prevSpace) == b + (if prevSpace then [] else [' ']) + Collapsed(s[i + 1..], true)
    ensures s[i] != ' ' ==> b + Collapsed(s[i..], prevSpace) == b + [s[i]] + Collapsed(s[i + 1..], false)
  {
    assert s[i..][1..] == s[i + 1..];
    var rest := Collapsed(s[i + 1..], s[i] == ' ');
    assert b + ([s[i]] + rest) == b + [s[i]] + rest && b + ([] + rest) == b + [] + rest;
  }

  lemma {:induction false} NothingToCollapse(s: Sql, prevSpace: bool)
    requires s == []
    ensures Collapsed(s, prevSpace) == []
  {
  }

  // --- the main loop ---------------------------------------------------------------------

  /** One turn of the main loop: what is written, and where the index goes. */
  method Turn(query: Sql, i: nat) returns (r: Result<Token>)
    requires i < |query|
    ensures match TokenAt(query[i..])
      case Err => r == Err
      case Ok(t) => r == Ok(Token(i + t.length, t.out))
  {
    hide Index, QuoteEnd, DollarEnd;
    var c := query[i];
    if c == '\'' || c == '"' || c == '`' {
      r := QuotedTurn(query, i);
    } else if c == '$' {
      var end := ScanDollarQuote(query, i);
      r := match end case Err => Ok(Token(i + 1, [c])) case Ok(e) => Ok(Token(e, MASKED));
    } else if c == '/' && i + 1 < |query| && query[i + 1] == '*' {
      r := CommentTurn(query, i);
    } else if c == '-' && i + 1 < |query| && query[i + 1] == '-' && (i + 2 == |query| || IsSpace(query[i + 2])) {
      IndexShifted(query, "\n", i, 0);
      var nl := Index(query, "\n", i);
      r := Ok(Token(if nl >= 0 then nl else |query|, " "));
    } else {
      r := Ok(Token(i + 1, if IsSpace(c) then " " else [c]));
    }
  }

  method QuotedTurn(query: Sql, i: nat) returns (r: Result<Token>)
    requires i < |query| && (query[i] == '\'' || query[i] == '"' || query[i] == '`')
    ensures match TokenAt(query[i..])
      case Err => r == Err
      case Ok(t) => r == Ok(Token(i + t.length, t.out))
  {
    hide QuoteEnd, Undoubled;
    var c := query[i];
    assert query[i..][1..] == query[i + 1..];
    var end := ScanQuoted(query, i, c, c == '\'');
    if end.Err? {
      return Err;
    }
    if c == '\'' {
      return Ok(Token(end.value, MASKED));
    }
    assert query[i..][1..end.value - 1 - i] == query[i + 1..end.value - 1];
    r := Ok(Token(end.value, " " + Undoubled(query[i + 1..end.value - 1], c) + " "));
  }

  method CommentTurn(query: Sql, i: nat) returns (r: Result<Token>)
    requires i + 1 < |query| && query[i] == '/' && query[i + 1] == '*'
    ensures match TokenAt(query[i..])
      case Err => r == Err
      case Ok(t) => r == Ok(Token(i + t.length, t.out))
  {
    hide Index;
    IndexShifted(query, "*/", i, 2);
    var comment := ScanBlockComment(query, i);
    if comment.Err? {
      return Err;
    }
    var k := comment.value.length - 2;
    assert query[i..][2..k - i] == query[i + 2..k];
    r := Ok(Token(comment.value.length, " " + comment.value.out + " "));
  }

  lemma {:induction false} LexedTurn(query: Sql, i: nat, b: Sql)
    requires i < |query|
    ensures match TokenAt(query[i..])
      case Err => Prefixed(b, Lexed(query[i..])) == Err
      case Ok(t) => Prefixed(b, Lexed(query[i..])) == Prefixed(b + t.out, Lexed(query[i + t.length..]))
  {
    hide TokenAt;
    var s := query[i..];
    if TokenAt(s).Ok? {
      var t := TokenAt(s).value;
      assert s[t.length..] == query[i + t.length..];
      var rest := Lexed(s[t.length..]);
      if rest.Ok? {
        assert b + (t.out + rest.value) == (b + t.out) + rest.value;
      }
    }
  }

  method NormalizeSQL(query: Sql) returns (r: Result<Sql>)
    ensures r == Normalized(query)
  {
    hide TokenAt, Lexed, Collapsed, TrimSpace;
    var b: Sql := [];
    var i := 0;
    assert query[0..] == query;
    assert Lexed(query).Ok? ==> [] + Lexed(query).value == Lexed(query).value;
    while i < |query|
      invariant i <= |query|
      invariant Lexed(query) == Prefixed(b, Lexed(query[i..]))
      decreases |query| - i
    {
      LexedTurn(query, i, b);
      var turn := Turn(query, i);
      if turn.Err? {
        return Err;
      }
      b := b + turn.value.out;
      i := turn.value.length;
    }
    LexedDone(query[i..]);
    assert b + [] == b;
    var collapsed := CollapseSpaces(b);
    return Ok(TrimSpace(collapsed));
  }

  lemma {:induction false} LexedDone(s: Sql)
    requires s == []
    ensures Lexed(s) == Ok([])
  {
  }
}
