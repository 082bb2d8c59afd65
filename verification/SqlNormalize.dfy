/**
 The SQL lexer of the read-only guardrail (internal/guardrail/sql_normalize.go),
 on ASCII text.

 The main loop only ever looks ahead, so the lexer is a function of the text still
 to be read: `TokenAt` is one turn of the loop, `Lexed` all the turns to the end.
 */
module SqlNormalize {

  type Sql = seq<char>

  datatype Result<T> = Ok(value: T) | Err

  predicate IsSpace(c: char) {
    c == '\t' || c == '\n' || c == '\U{000B}' || c == '\U{000C}' || c == '\r' || c == ' '
  }

  predicate IsDigit(c: char) { '0' <= c <= '9' }

  predicate IsIdent(c: char) {
    c == '_' || 'A' <= c <= 'Z' || 'a' <= c <= 'z' || IsDigit(c)
  }

  // --- strings.Index ----------------------------------------------------------------

  predicate Occurs(s: Sql, pat: Sql, i: nat) {
    i + |pat| <= |s| && s[i..i + |pat|] == pat
  }

  /** strings.Index from `i` on: the first occurrence, or -1. */
  function Index(s: Sql, pat: Sql, i: nat): (k: int)
    requires i <= |s|
    ensures k == -1 || (i <= k && Occurs(s, pat, k))
    ensures forall j :: i <= j && (k == -1 || j < k) ==> !Occurs(s, pat, j)
    decreases |s| - i
  {
    if Occurs(s, pat, i) then i
    else if i == |s| then -1
    else Index(s, pat, i + 1)
  }

  // --- the scanners -------------------------------------------------------------------

  /** How far past its closing quote a quoted run reaches, seen from behind its opening quote; -1 if unterminated. */
  function QuoteEnd(s: Sql, q: char, backslash: bool): (k: int)
    ensures k == -1 || (1 <= k <= |s| && s[k - 1] == q && (k < |s| ==> s[k] != q))
  {
    if s == [] then -1
    else if backslash && s[0] == '\\' then
      if |s| == 1 then -1 else Shift(2, QuoteEnd(s[2..], q, backslash))
    else if s[0] == q then
      if |s| > 1 && s[1] == q then Shift(2, QuoteEnd(s[2..], q, backslash)) else 1
    else Shift(1, QuoteEnd(s[1..], q, backslash))
  }

  function Shift(n: nat, k: int): int { if k < 0 then -1 else n + k }

  /** The end of the tag that starts at s[0] == '$': identifier bytes, the first one no digit. */
  function TagEnd(s: Sql, i: nat): (k: nat)
    requires 1 <= i <= |s|
    ensures i <= k <= |s|
    ensures forall j :: i <= j < k ==> IsIdent(s[j])
    ensures k < |s| ==> !IsIdent(s[k]) || (k == 1 && IsDigit(s[k]))
    decreases |s| - i
  {
    if i < |s| && IsIdent(s[i]) && !(i == 1 && IsDigit(s[i])) then TagEnd(s, i + 1) else i
  }

  /** Where the dollar-quoted string at s[0] == '$' ends, or -1 if there is none. */
  function DollarEnd(s: Sql): (k: int)
    requires s != []
    ensures k == -1 || 2 <= k <= |s|
  {
    var i := TagEnd(s, 1);
    if i == |s| || s[i] != '$' then -1
    else
      var k := Index(s, s[..i + 1], i + 1);
      if k < 0 then -1 else k + i + 1
  }

  function DropDigits(s: Sql): Sql {
    if s != [] && IsDigit(s[0]) then DropDigits(s[1..]) else s
  }

  /** What the database executes of a comment's body. */
  function Executed(body: Sql): Sql {
    if body != [] && body[0] == '!' then DropDigits(body[1..]) else []
  }

  /** ReplaceAll of a doubled quote by a single one. */
  function Undoubled(s: Sql, q: char): Sql {
    if s == [] then []
    else if |s| > 1 && s[0] == q && s[1] == q then [q] + Undoubled(s[2..], q)
    else [s[0]] + Undoubled(s[1..], q)
  }

  // --- one turn of the loop -------------------------------------------------------------

  datatype Token = Token(length: nat, out: Sql)

  const MASKED: Sql := "''"

  function TokenAt(s: Sql): (r: Result<Token>)
    requires s != []
    ensures r.Ok? ==> 1 <= r.value.length <= |s|
  {
    var c := s[0];
    if c == '\'' then
      var k := QuoteEnd(s[1..], c, true);
      if k < 0 then Err else Ok(Token(1 + k, MASKED))
    else if c == '"' || c == '`' then
      var k := QuoteEnd(s[1..], c, false);
      if k < 0 then Err else Ok(Token(1 + k, " " + Undoubled(s[1..k], c) + " "))
    else if c == '$' then
      var k := DollarEnd(s);
      if k < 0 then Ok(Token(1, "$")) else Ok(Token(k, MASKED))
    else if c == '/' && |s| > 1 && s[1] == '*' then
      var k := Index(s, "*/", 2);
      if k < 0 then Err else Ok(Token(k + 2, " " + Executed(s[2..k]) + " "))
    else if c == '-' && |s| > 1 && s[1] == '-' && (|s| == 2 || IsSpace(s[2])) then
      var k := Index(s, "\n", 0);
      if k < 0 then Ok(Token(|s|, " ")) else Ok(Token(k, " "))
    else Ok(Token(1, if IsSpace(c) then " " else [c]))
  }

  function Lexed(s: Sql): Result<Sql> {
    if s == [] then Ok([])
    else match TokenAt(s)
      case Err => Err
      case Ok(t) => Prefixed(t.out, Lexed(s[t.length..]))
  }

  function Prefixed(out: Sql, r: Result<Sql>): Result<Sql> {
    if r.Ok? then Ok(out + r.value) else Err
  }

  function Collapsed(s: Sql, prevSpace: bool): Sql {
    if s == [] then []
    else if s[0] == ' ' then (if prevSpace then [] else [' ']) + Collapsed(s[1..], true)
    else [s[0]] + Collapsed(s[1..], false)
  }

  function TrimLeft(s: Sql): Sql {
    if s != [] && IsSpace(s[0]) then TrimLeft(s[1..]) else s
  }

  function TrimRight(s: Sql): Sql {
    if s != [] && IsSpace(s[|s| - 1]) then TrimRight(s[..|s| - 1]) else s
  }

  function TrimSpace(s: Sql): Sql { TrimRight(TrimLeft(s)) }

  function Normalized(query: Sql): Result<Sql> {
    var r := Lexed(query);
    if r.Ok? then Ok(TrimSpace(Collapsed(r.value, false))) else Err
  }

  // -------------------------------------------------------------------------
  // Literals are opaque
  // -------------------------------------------------------------------------

  /** The main loop, started at the beginning of s, arrives at position n. */
  ghost predicate Reaches(s: Sql, n: nat)
    decreases n
  {
    n == 0 || (
      && s != [] && TokenAt(s).Ok? && TokenAt(s).value.length <= n
      && Reaches(s[TokenAt(s).value.length..], n - TokenAt(s).value.length)
    )
  }

  function Literal(body: Sql): Sql { ['\''] + body + ['\''] }

  /** `body` is the whole body of the literal in front of `post`: the scanner ends it there. */
  predicate Closes(body: Sql, post: Sql) {
    QuoteEnd(body + ['\''] + post, '\'', true) == |body| + 1
  }

  predicate Harmless(body: Sql) {
    '\'' !in body && '\\' !in body && '$' !in body
  }

  /** Both texts go on with a quote. */
  predicate Quoted(a: Sql, b: Sql) {
    a != [] && b != [] && a[0] == b[0] == '\''
  }

  // --- what ends inside x does not depend on what follows x ---------------------------

  lemma {:induction false} QuoteEndStable(x: Sql, a: Sql, b: Sql, q: char, backslash: bool)
    requires Quoted(a, b) && 1 <= QuoteEnd(x + a, q, backslash) <= |x|
    ensures QuoteEnd(x + b, q, backslash) == QuoteEnd(x + a, q, backslash)
    decreases |x|
  {
    if (backslash && x[0] == '\\') || (x[0] == q && (x + a)[1] == q) {
      assert |x| >= 3;
      assert (x + a)[2..] == x[2..] + a && (x + b)[2..] == x[2..] + b;
      QuoteEndStable(x[2..], a, b, q, backslash);
    } else if x[0] != q {
      assert (x + a)[1..] == x[1..] + a && (x + b)[1..] == x[1..] + b;
      QuoteEndStable(x[1..], a, b, q, backslash);
    }
  }

  lemma {:induction false} OccursWithin(x: Sql, a: Sql, pat: Sql, j: nat)
    requires j + |pat| <= |x|
    ensures Occurs(x + a, pat, j) == Occurs(x, pat, j)
  {
    assert (x + a)[j..j + |pat|] == x[j..j + |pat|];
  }

  lemma {:induction false} IndexStable(x: Sql, a: Sql, b: Sql, pat: Sql, i: nat)
    requires i <= |x| && 0 <= Index(x + a, pat, i) && Index(x + a, pat, i) + |pat| <= |x|
    ensures Index(x + b, pat, i) == Index(x + a, pat, i)
  {
    var k := Index(x + a, pat, i);
    forall j | i <= j <= k
      ensures Occurs(x + b, pat, j) == Occurs(x + a, pat, j)
    {
      OccursWithin(x, a, pat, j);
      OccursWithin(x, b, pat, j);
    }
  }

  lemma {:induction false} TagEndStable(x: Sql, a: Sql, b: Sql, i: nat)
    requires Quoted(a, b) && 1 <= i <= |x|
    ensures TagEnd(x + a, i) == TagEnd(x + b, i) <= |x|
    decreases |x| - i
  {
    if i < |x| {
      TagEndStable(x, a, b, i + 1);
    }
  }

  // --- a dollar tag that is never closed stays so ---------------------------------------

  predicate TagLike(tag: Sql) {
    tag != [] && tag[0] == '$' && '\'' !in tag
  }

  /** An occurrence of a tag lies before the literal or behind it. */
  lemma {:induction false} TagAvoidsLiteral(x: Sql, body: Sql, post: Sql, tag: Sql, j: nat)
    requires TagLike(tag) && '$' !in body && Occurs(x + (Literal(body) + post), tag, j)
    ensures j + |tag| <= |x| || |x| + |body| + 2 <= j
  {
    var s := x + (Literal(body) + post);
    assert forall p :: j <= p < j + |tag| ==> s[p] == s[j..j + |tag|][p - j];
    assert s[|x|] == '\'' && s[|x| + 1 + |body|] == '\'';
    assert forall p :: |x| < p < |x| + 1 + |body| ==> s[p] == body[p - |x| - 1];
  }

  /** An occurrence behind `i` in the text with the new body has its counterpart in the old text. */
  lemma {:induction false} TagCarries(x: Sql, body: Sql, body': Sql, post: Sql, tag: Sql, j: nat) returns (m: nat)
    requires TagLike(tag) && '$' !in body' && Occurs(x + (Literal(body') + post), tag, j)
    ensures Occurs(x + (Literal(body) + post), tag, m) && (m == j || |x| <= m)
  {
    var s, s' := x + (Literal(body) + post), x + (Literal(body') + post);
    TagAvoidsLiteral(x, body', post, tag, j);
    if j + |tag| <= |x| {
      OccursWithin(x, Literal(body) + post, tag, j);
      OccursWithin(x, Literal(body') + post, tag, j);
      m := j;
    } else {
      var n := j - |x| - |body'| - 2;
      m := |x| + |body| + 2 + n;
      assert s'[j..j + |tag|] == post[n..n + |tag|] == s[m..m + |tag|];
    }
  }

  lemma {:induction false} TagStaysUnclosed(x: Sql, body: Sql, body': Sql, post: Sql, tag: Sql, i: nat)
    requires TagLike(tag) && i <= |x| && '$' !in body'
    requires Index(x + (Literal(body) + post), tag, i) == -1
    ensures Index(x + (Literal(body') + post), tag, i) == -1
  {
    var k := Index(x + (Literal(body') + post), tag, i);
    if k != -1 {
      var m := TagCarries(x, body, body', post, tag, k);
      assert false;
    }
  }

  // --- one turn of the loop in front of the literal --------------------------------------

  lemma {:induction false} DollarStable(x: Sql, body: Sql, body': Sql, post: Sql)
    requires x != [] && x[0] == '$' && '$' !in body'
    requires DollarEnd(x + (Literal(body) + post)) <= |x|
    ensures DollarEnd(x + (Literal(body') + post)) == DollarEnd(x + (Literal(body) + post))
  {
    hide Index, TagEnd, Occurs;
    var a, b := Literal(body) + post, Literal(body') + post;
    TagEndStable(x, a, b, 1);
    var i := TagEnd(x + a, 1);
    if i < |x| && x[i] == '$' {
      var tag := x[..i + 1];
      assert (x + a)[..i + 1] == tag && (x + b)[..i + 1] == tag;
      TagHasNoQuote(x + a, i);
      if Index(x + a, tag, i + 1) == -1 {
        TagStaysUnclosed(x, body, body', post, tag, i + 1);
      } else {
        IndexStable(x, a, b, tag, i + 1);
      }
    }
  }

  lemma {:induction false} TagHasNoQuote(s: Sql, i: nat)
    requires s != [] && s[0] == '$' && 1 <= i < |s| && s[i] == '$' && forall j :: 1 <= j < i ==> IsIdent(s[j])
    ensures TagLike(s[..i + 1])
  {
    var tag := s[..i + 1];
    forall j | 0 <= j < |tag|
      ensures tag[j] != '\''
    {
      assert tag[j] == s[j];
    }
  }

  lemma {:induction false} TokenStable(x: Sql, body: Sql, body': Sql, post: Sql)
    requires x != [] && '$' !in body'
    requires var r := TokenAt(x + (Literal(body) + post)); r.Ok? && r.value.length <= |x|
    ensures TokenAt(x + (Literal(body') + post)) == TokenAt(x + (Literal(body) + post))
  {
    var a, b := Literal(body) + post, Literal(body') + post;
    var c := x[0];
    if c == '\'' || c == '"' || c == '`' {
      QuoteTokenStable(x, a, b);
    } else if c == '$' {
      DollarStable(x, body, body', post);
    } else if c == '/' && |x| > 1 && x[1] == '*' {
      IndexStable(x, a, b, "*/", 2);
      var k := Index(x + a, "*/", 2);
      assert (x + a)[2..k] == (x + b)[2..k];
    } else if c == '-' && |x| > 1 && x[1] == '-' && |x| > 2 && IsSpace(x[2]) {
      LineCommentStable(x, a, b);
    }
  }

  lemma {:induction false} QuoteTokenStable(x: Sql, a: Sql, b: Sql)
    requires x != [] && Quoted(a, b) && (x[0] == '\'' || x[0] == '"' || x[0] == '`')
    requires TokenAt(x + a).Ok? && TokenAt(x + a).value.length <= |x|
    ensures TokenAt(x + b) == TokenAt(x + a)
  {
    assert (x + a)[1..] == x[1..] + a && (x + b)[1..] == x[1..] + b;
    var k := QuoteEnd((x + a)[1..], x[0], x[0] == '\'');
    QuoteEndStable(x[1..], a, b, x[0], x[0] == '\'');
    assert (x + a)[1..k] == (x + b)[1..k];
  }

  lemma {:induction false} LineCommentStable(x: Sql, a: Sql, b: Sql)
    requires Quoted(a, b) && |x| > 2 && x[0] == '-' && x[1] == '-' && IsSpace(x[2])
    requires TokenAt(x + a).value.length <= |x|
    ensures TokenAt(x + b) == TokenAt(x + a)
  {
    var k := Index(x + a, "\n", 0);
    assert k != -1;
    assert (x + a)[k] == (x + a)[k..k + 1][0] == '\n';
    assert k < |x|;
    IndexStable(x, a, b, "\n", 0);
  }

  // --- the whole text ---------------------------------------------------------------------

  lemma {:induction false} ClosesAtFirst(body: Sql, post: Sql)
    requires Harmless(body) && (post != [] ==> post[0] != '\'')
    ensures Closes(body, post)
  {
    var s := body + ['\''] + post;
    if body == [] {
      assert s[0] == '\'' && (|s| > 1 ==> s[1] == post[0]);
    } else {
      assert s[0] == body[0] && body[0] in body;
      ClosesAtFirst(body[1..], post);
      assert s[1..] == body[1..] + ['\''] + post;
    }
  }

  lemma {:induction false} LiteralLexed(body: Sql, post: Sql)
    requires Closes(body, post)
    ensures Lexed(Literal(body) + post) == Prefixed(MASKED, Lexed(post))
  {
    var s := Literal(body) + post;
    assert s[1..] == body + ['\''] + post;
    assert s[|body| + 2..] == post;
  }

  lemma {:induction false} LiteralSwapped(body: Sql, body': Sql, post: Sql)
    requires Closes(body, post) && Harmless(body')
    ensures Lexed(Literal(body') + post) == Lexed(Literal(body) + post)
  {
    assert post != [] ==> (body + ['\''] + post)[|body| + 1] == post[0];
    ClosesAtFirst(body', post);
    LiteralLexed(body, post);
    LiteralLexed(body', post);
  }

  lemma {:induction false} LexedStep(x: Sql, rest: Sql)
    requires x != [] && TokenAt(x + rest).Ok? && TokenAt(x + rest).value.length <= |x|
    ensures var t := TokenAt(x + rest).value;
      Lexed(x + rest) == Prefixed(t.out, Lexed(x[t.length..] + rest))
  {
    hide TokenAt;
    var n := TokenAt(x + rest).value.length;
    assert (x + rest)[n..] == x[n..] + rest;
  }

  lemma {:induction false} ReachesStep(x: Sql, rest: Sql)
    requires x != [] && Reaches(x + rest, |x|)
    ensures TokenAt(x + rest).Ok? && TokenAt(x + rest).value.length <= |x|
    ensures var n := TokenAt(x + rest).value.length; Reaches(x[n..] + rest, |x[n..]|)
  {
    hide TokenAt;
    var n := TokenAt(x + rest).value.length;
    assert (x + rest)[n..] == x[n..] + rest;
  }

  lemma {:induction false} LexedOpaque(pre: Sql, body: Sql, body': Sql, post: Sql)
    requires Reaches(pre + (Literal(body) + post), |pre|) && Closes(body, post) && Harmless(body')
    ensures Lexed(pre + (Literal(body') + post)) == Lexed(pre + (Literal(body) + post))
    decreases |pre|
  {
    hide Lexed, TokenAt, QuoteEnd, Reaches, Closes;
    var a, b := Literal(body) + post, Literal(body') + post;
    if pre == [] {
      assert pre + a == a && pre + b == b;
      LiteralSwapped(body, body', post);
    } else {
      ReachesStep(pre, a);
      TokenStable(pre, body, body', post);
      LexedStep(pre, a);
      LexedStep(pre, b);
      LexedOpaque(pre[TokenAt(pre + a).value.length..], body, body', post);
    }
  }

  /**
   If the lexer reaches a single-quoted literal at top level, replacing its body by
   any text free of quotes, backslashes and dollars leaves the result unchanged.
   */
  lemma {:induction false} LiteralOpacity(pre: Sql, body: Sql, body': Sql, post: Sql)
    requires Reaches(pre + (Literal(body) + post), |pre|) && Closes(body, post) && Harmless(body')
    ensures Normalized(pre + (Literal(body') + post)) == Normalized(pre + (Literal(body) + post))
  {
    LexedOpaque(pre, body, body', post);
  }
}
