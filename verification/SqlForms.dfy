/**
 What the lexer of internal/guardrail/sql_normalize.go makes of each form of text it knows,
 in front of any text.
 */
module SqlForms {
  import opened SqlNormalize

  /** A token that ends in front of `rest` leaves `rest` to be lexed. */
  lemma {:induction false} Consumed(x: Sql, rest: Sql, out: Sql)
    requires x != [] && TokenAt(x + rest) == Ok(Token(|x|, out))
    ensures Lexed(x + rest) == Prefixed(out, Lexed(rest))
  {
    hide TokenAt, Lexed;
    LexedStep(x, rest);
    assert x[|x|..] + rest == rest;
  }

  // --- quoted identifiers --------------------------------------------------------------------

  function Written(c: char, q: char): Sql { if c == q then [q, q] else [c] }

  /** An identifier as it is written between quotes. */
  function Doubled(name: Sql, q: char): Sql {
    if name == [] then [] else Written(name[0], q) + Doubled(name[1..], q)
  }

  lemma {:induction false} QuoteFirst(c: char, t: Sql, q: char)
    ensures c != q ==> QuoteEnd([c] + t, q, false) == Shift(1, QuoteEnd(t, q, false))
    ensures QuoteEnd([q, q] + t, q, false) == Shift(2, QuoteEnd(t, q, false))
  {
    assert ([c] + t)[1..] == t && ([q, q] + t)[2..] == t;
  }

  lemma {:induction false} DoubledFirst(name: Sql, q: char, tail: Sql)
    requires name != []
    ensures |Doubled(name, q)| == |Written(name[0], q)| + |Doubled(name[1..], q)|
    ensures Doubled(name, q) + tail == Written(name[0], q) + (Doubled(name[1..], q) + tail)
  {
  }

  lemma {:induction false} DoubledEnds(name: Sql, q: char, tail: Sql)
    requires tail != [] && tail[0] == q && (|tail| > 1 ==> tail[1] != q)
    ensures QuoteEnd(Doubled(name, q) + tail, q, false) == |Doubled(name, q)| + 1
  {
    if name == [] {
      assert Doubled(name, q) + tail == tail;
    } else {
      hide QuoteEnd, Doubled;
      DoubledFirst(name, q, tail);
      DoubledEnds(name[1..], q, tail);
      QuoteFirst(name[0], Doubled(name[1..], q) + tail, q);
    }
  }

  lemma {:induction false} UndoubledDoubled(name: Sql, q: char)
    ensures Undoubled(Doubled(name, q), q) == name
  {
    if name != [] {
      var n := if name[0] == q then 2 else 1;
      assert Doubled(name, q)[n..] == Doubled(name[1..], q);
      UndoubledDoubled(name[1..], q);
    }
  }

  lemma {:induction false} QuotedToken(name: Sql, q: char, post: Sql)
    requires (q == '"' || q == '`') && (post != [] ==> post[0] != q)
    ensures TokenAt([q] + Doubled(name, q) + [q] + post) == Ok(Token(|Doubled(name, q)| + 2, " " + name + " "))
  {
    hide QuoteEnd, Undoubled, Doubled;
    var body := Doubled(name, q);
    var s := [q] + body + [q] + post;
    assert s[1..] == body + ([q] + post);
    DoubledEnds(name, q, [q] + post);
    UndoubledDoubled(name, q);
    assert s[1..|body| + 1] == body;
  }

  /** A quoted identifier is read as its name, set off by spaces, whatever the name holds. */
  lemma {:induction false} QuotedIdentifier(name: Sql, q: char, post: Sql)
    requires (q == '"' || q == '`') && (post != [] ==> post[0] != q)
    ensures Lexed([q] + Doubled(name, q) + [q] + post) == Prefixed(" " + name + " ", Lexed(post))
  {
    hide TokenAt, Lexed, Doubled;
    QuotedToken(name, q, post);
    Consumed([q] + Doubled(name, q) + [q], post, " " + name + " ");
  }

  // --- where a quoted run ends ----------------------------------------------------------------

  /** What can stand between quotes: escaped bytes if backslashes escape, doubled quotes, other bytes. */
  predicate Body(s: Sql, q: char, backslash: bool) {
    if s == [] then true
    else if backslash && s[0] == '\\' then |s| > 1 && Body(s[2..], q, backslash)
    else if s[0] == q then |s| > 1 && s[1] == q && Body(s[2..], q, backslash)
    else Body(s[1..], q, backslash)
  }

  /** s begins with a body and its closing quote, which is not half of a doubled one. */
  predicate Terminated(s: Sql, q: char, backslash: bool, k: int) {
    1 <= k <= |s| && s[k - 1] == q && Body(s[..k - 1], q, backslash) && (k < |s| ==> s[k] != q)
  }

  lemma {:induction false} TerminatedStep(s: Sql, q: char, backslash: bool, k: int, n: nat)
    requires q != '\\' && s != [] && n <= |s|
    requires n == if (backslash && s[0] == '\\') || (s[0] == q && |s| > 1 && s[1] == q) then 2 else 1
    requires s[0] == q && !(backslash && s[0] == '\\') ==> n == 2
    ensures Terminated(s, q, backslash, k) <==> Terminated(s[n..], q, backslash, k - n)
  {
    if n < k <= |s| {
      assert s[..k - 1][n..] == s[n..][..k - 1 - n];
    } else if k == n == 2 {
      assert !Body(s[..1], q, backslash);
    }
  }

  /** The end found is the one end there is, and none is found only if there is none. */
  lemma {:induction false} QuoteEndExact(s: Sql, q: char, backslash: bool, k: int)
    requires q != '\\'
    ensures k >= 0 && QuoteEnd(s, q, backslash) == k <==> Terminated(s, q, backslash, k)
    decreases |s|
  {
    if s != [] {
      if backslash && s[0] == '\\' {
        if |s| > 1 {
          TerminatedStep(s, q, backslash, k, 2);
          QuoteEndExact(s[2..], q, backslash, k - 2);
        } else {
          assert k == 1 ==> s[k - 1] != q;
        }
      } else if s[0] == q && |s| > 1 && s[1] == q {
        TerminatedStep(s, q, backslash, k, 2);
        QuoteEndExact(s[2..], q, backslash, k - 2);
      } else if s[0] == q {
        ClosedAtOnce(s, q, backslash, k);
      } else {
        TerminatedStep(s, q, backslash, k, 1);
        QuoteEndExact(s[1..], q, backslash, k - 1);
      }
    }
  }

  lemma {:induction false} ClosedAtOnce(s: Sql, q: char, backslash: bool, k: int)
    requires q != '\\' && s != [] && s[0] == q && !(|s| > 1 && s[1] == q)
    ensures Terminated(s, q, backslash, k) <==> k == 1
  {
    if 1 < k <= |s| {
      assert s[..k - 1][0] == q && (|s[..k - 1]| > 1 ==> s[..k - 1][1] == s[1]);
      assert !Body(s[..k - 1], q, backslash);
    }
  }

  // --- comments --------------------------------------------------------------------------------

  ghost predicate HoldsNoEnd(body: Sql) {
    forall j :: 0 <= j <= |body| ==> !Occurs(body, "*/", j)
  }

  function Comment(body: Sql): Sql { "/*" + body + "*/" }

  lemma {:induction false} EndsAt(s: Sql, j: nat)
    ensures Occurs(s, "*/", j) <==> j + 2 <= |s| && s[j] == '*' && s[j + 1] == '/'
  {
    if j + 2 <= |s| {
      assert s[j..j + 2] == [s[j], s[j + 1]];
    }
  }

  lemma {:induction false} CommentEnds(body: Sql, post: Sql)
    requires HoldsNoEnd(body)
    ensures Index(Comment(body) + post, "*/", 2) == |body| + 2
  {
    hide Index, Occurs;
    var s := Comment(body) + post;
    EndsAt(s, |body| + 2);
    forall j | 2 <= j < |body| + 2
      ensures !Occurs(s, "*/", j)
    {
      EndsAt(s, j);
      EndsAt(body, j - 2);
      assert s[j] == body[j - 2] && s[j + 1] == if j == |body| + 1 then '*' else body[j - 1];
      assert !Occurs(body, "*/", j - 2);
    }
  }

  lemma {:induction false} CommentToken(body: Sql, post: Sql)
    requires HoldsNoEnd(body)
    ensures TokenAt(Comment(body) + post) == Ok(Token(|body| + 4, " " + Executed(body) + " "))
  {
    hide Index, Executed, HoldsNoEnd;
    var s := Comment(body) + post;
    CommentEnds(body, post);
    assert s[0] == '/' && s[1] == '*' && s[2..|body| + 2] == body;
  }

  /** A comment is a gap, except that what the database executes of it is kept. */
  lemma {:induction false} CommentLexed(body: Sql, post: Sql)
    requires HoldsNoEnd(body)
    ensures Lexed(Comment(body) + post) == Prefixed(" " + Executed(body) + " ", Lexed(post))
  {
    hide TokenAt, Lexed, Executed, HoldsNoEnd;
    CommentToken(body, post);
    Consumed(Comment(body), post, " " + Executed(body) + " ");
  }

  /** Executed comments lose the exclamation mark and the version number, nothing else. */
  lemma {:induction false} VersionDropped(digits: Sql, text: Sql)
    requires (forall i :: 0 <= i < |digits| ==> IsDigit(digits[i])) && (text != [] ==> !IsDigit(text[0]))
    ensures Executed("!" + digits + text) == text
  {
    assert ("!" + digits + text)[1..] == digits + text;
    DigitsDropped(digits, text);
  }

  lemma {:induction false} DigitsDropped(digits: Sql, text: Sql)
    requires (forall i :: 0 <= i < |digits| ==> IsDigit(digits[i])) && (text != [] ==> !IsDigit(text[0]))
    ensures DropDigits(digits + text) == text
  {
    if digits == [] {
      assert digits + text == text;
    } else {
      assert (digits + text)[1..] == digits[1..] + text;
      DigitsDropped(digits[1..], text);
    }
  }

  lemma {:induction false} FirstNewline(text: Sql, post: Sql)
    requires '\n' !in text
    ensures Index("--" + text + ("\n" + post), "\n", 0) == |text| + 2
  {
    hide Index;
    var s := "--" + text + ("\n" + post);
    var n := |text| + 2;
    assert s[n..n + 1] == "\n" && Occurs(s, "\n", n);
    forall j | 0 <= j < n
      ensures !Occurs(s, "\n", j)
    {
      assert s[j] == if j < 2 then '-' else text[j - 2];
      assert s[j..j + 1][0] == s[j];
    }
  }

  lemma {:induction false} LineCommentToken(text: Sql, post: Sql)
    requires '\n' !in text && (text != [] ==> IsSpace(text[0]))
    ensures TokenAt("--" + text + ("\n" + post)) == Ok(Token(|text| + 2, " "))
  {
    hide Index;
    var s := "--" + text + ("\n" + post);
    FirstNewline(text, post);
    assert s[0] == '-' && s[1] == '-' && s[2] == if text == [] then '\n' else text[0];
  }

  /** A line comment is a gap up to its newline. */
  lemma {:induction false} LineCommentLexed(text: Sql, post: Sql)
    requires '\n' !in text && (text != [] ==> IsSpace(text[0]))
    ensures Lexed("--" + text + ("\n" + post)) == Prefixed(" ", Lexed("\n" + post))
  {
    hide TokenAt, Lexed;
    LineCommentToken(text, post);
    Consumed("--" + text, "\n" + post, " ");
  }

  // --- dollar quotes -----------------------------------------------------------------------------

  /** A tag name: identifier bytes, no digit in front; it may be empty. */
  ghost predicate TagName(name: Sql) {
    && (forall i :: 0 <= i < |name| ==> IsIdent(name[i]))
    && (name != [] ==> !IsDigit(name[0]))
  }

  function Tag(name: Sql): Sql { "$" + name + "$" }

  lemma {:induction false} TagRead(name: Sql, rest: Sql, i: nat)
    requires TagName(name) && 1 <= i <= |name| + 1
    ensures TagEnd(Tag(name) + rest, i) == |name| + 1
    decreases |name| + 1 - i
  {
    var s := Tag(name) + rest;
    if i <= |name| {
      assert s[i] == name[i - 1];
      TagRead(name, rest, i + 1);
    } else {
      assert s[i] == '$';
    }
  }

  /** s begins with a tag, and the first later occurrence of the same tag ends at k. */
  ghost predicate DollarSpan(s: Sql, name: Sql, k: int) {
    var tag := Tag(name);
    && TagName(name) && tag <= s
    && 2 * |tag| <= k && Occurs(s, tag, k - |tag|)
    && forall j :: |tag| <= j < k - |tag| ==> !Occurs(s, tag, j)
  }

  lemma {:induction false} SpanEnds(s: Sql, name: Sql, k: int)
    requires TagName(name) && Tag(name) <= s
    ensures k >= 0 && DollarEnd(s) == k <==> DollarSpan(s, name, k)
  {
    hide Index, TagEnd, Occurs;
    var tag := Tag(name);
    assert s == tag + s[|tag|..];
    TagRead(name, s[|tag|..], 1);
    assert s[..|tag|] == tag;
  }

  /** A dollar quote is found exactly where there is one, and with its first closing tag. */
  lemma {:induction false} DollarEndExact(s: Sql, k: int)
    requires s != [] && s[0] == '$'
    ensures k >= 0 && DollarEnd(s) == k <==> exists name :: DollarSpan(s, name, k)
  {
    hide Index, TagEnd, Occurs;
    var i := TagEnd(s, 1);
    if i < |s| && s[i] == '$' {
      var name := s[1..i];
      assert Tag(name) == s[..i + 1];
      NamedTag(s, i);
      SpanEnds(s, name, k);
    }
    if name :| DollarSpan(s, name, k) {
      SpanEnds(s, name, k);
    }
  }

  lemma {:induction false} NamedTag(s: Sql, i: nat)
    requires s != [] && i == TagEnd(s, 1)
    ensures TagName(s[1..i])
  {
    forall j | 0 <= j < i - 1
      ensures IsIdent(s[1..i][j])
    {
      assert s[1..i][j] == s[1 + j];
    }
    if i > 1 {
      FirstNoDigit(s);
    }
  }

  lemma {:induction false} FirstNoDigit(s: Sql)
    requires |s| > 1 && TagEnd(s, 1) > 1
    ensures !IsDigit(s[1])
  {
  }

  lemma {:induction false} DollarFound(s: Sql, name: Sql, k: nat)
    requires TagName(name) && Tag(name) <= s && Index(s, Tag(name), |Tag(name)|) == k
    ensures DollarEnd(s) == k + |Tag(name)|
  {
    hide Index, TagEnd, Occurs, TagName;
    var tag := Tag(name);
    assert s == tag + s[|tag|..];
    TagRead(name, s[|tag|..], 1);
    assert s[..|name| + 2] == tag && s[|name| + 1] == '$';
  }

  lemma {:induction false} DollarMasked(s: Sql)
    requires s != [] && s[0] == '$' && DollarEnd(s) >= 0
    ensures TokenAt(s) == Ok(Token(DollarEnd(s), MASKED))
  {
    hide DollarEnd;
  }

  lemma {:induction false} DollarCloses(name: Sql, body: Sql, post: Sql)
    requires TagName(name) && Index(body + Tag(name), Tag(name), 0) == |body|
    ensures DollarEnd(Tag(name) + body + Tag(name) + post) == |Tag(name)| + |body| + |Tag(name)|
  {
    hide *;
    var tag := Tag(name);
    ClosingTag(tag, body, post);
    assert tag <= tag + body + tag + post;
    DollarFound(tag + body + tag + post, name, |tag| + |body|);
  }

  lemma {:induction false} DollarToken(name: Sql, body: Sql, post: Sql)
    requires TagName(name) && Index(body + Tag(name), Tag(name), 0) == |body|
    ensures TokenAt(Tag(name) + body + Tag(name) + post) == Ok(Token(|Tag(name)| + |body| + |Tag(name)|, MASKED))
  {
    hide *;
    TagBegins(name, body + Tag(name) + post);
    assert Tag(name) + body + Tag(name) + post == Tag(name) + (body + Tag(name) + post);
    DollarCloses(name, body, post);
    DollarMasked(Tag(name) + body + Tag(name) + post);
  }

  lemma {:induction false} TagBegins(name: Sql, rest: Sql)
    ensures Tag(name) + rest != [] && (Tag(name) + rest)[0] == '$'
  {
  }

  /** A dollar-quoted string is masked, if its body holds no earlier closing tag. */
  lemma {:induction false} DollarQuoted(name: Sql, body: Sql, post: Sql)
    requires TagName(name) && Index(body + Tag(name), Tag(name), 0) == |body|
    ensures Lexed(Tag(name) + body + Tag(name) + post) == Prefixed(MASKED, Lexed(post))
  {
    hide TokenAt, Lexed, Index, TagName;
    DollarToken(name, body, post);
    Consumed(Tag(name) + body + Tag(name), post, MASKED);
  }

  lemma {:induction false} ClosingTag(tag: Sql, body: Sql, post: Sql)
    requires Index(body + tag, tag, 0) == |body|
    ensures Index(tag + body + tag + post, tag, |tag|) == |tag| + |body|
  {
    hide Index;
    var s := tag + body + tag + post;
    assert s[|tag| + |body|..|tag| + |body| + |tag|] == tag;
    assert Occurs(s, tag, |tag| + |body|);
    forall j | |tag| <= j < |tag| + |body|
      ensures !Occurs(s, tag, j)
    {
      var i := j - |tag|;
      assert !Occurs(body + tag, tag, i);
      assert s[j..j + |tag|] == (body + tag)[i..i + |tag|];
    }
  }

  // --- everything else ---------------------------------------------------------------------------

  predicate IsQuote(c: char) { c == '\'' || c == '"' || c == '`' }

  /** In front of t, c begins no comment. */
  predicate NoComment(c: char, t: Sql) {
    && !(c == '/' && t != [] && t[0] == '*')
    && !(c == '-' && t != [] && t[0] == '-' && (|t| == 1 || IsSpace(t[1])))
  }

  lemma {:induction false} ByteToken(c: char, t: Sql)
    requires !IsQuote(c) && c != '$' && NoComment(c, t)
    ensures TokenAt([c] + t) == Ok(Token(1, if IsSpace(c) then " " else [c]))
  {
    var s := [c] + t;
    assert s[0] == c && (t != [] ==> s[1] == t[0]) && (|t| > 1 ==> s[2] == t[1]);
  }

  /** Any other byte is kept as it is ... */
  lemma {:induction false} OtherByte(c: char, t: Sql)
    requires !IsQuote(c) && c != '$' && NoComment(c, t) && !IsSpace(c)
    ensures Lexed([c] + t) == Prefixed([c], Lexed(t))
  {
    hide TokenAt, Lexed;
    ByteToken(c, t);
    Consumed([c], t, [c]);
  }

  /** ... whitespace becomes a space ... */
  lemma {:induction false} Whitespace(c: char, t: Sql)
    requires IsSpace(c)
    ensures Lexed([c] + t) == Prefixed(" ", Lexed(t))
  {
    hide TokenAt, Lexed;
    ByteToken(c, t);
    Consumed([c], t, " ");
  }

  /** ... a dollar that begins no dollar quote is kept ... */
  lemma {:induction false} LoneDollar(t: Sql)
    requires forall name, k :: !DollarSpan("$" + t, name, k)
    ensures Lexed("$" + t) == Prefixed("$", Lexed(t))
  {
    hide Lexed, DollarEnd, DollarSpan;
    var s := "$" + t;
    assert s[0] == '$';
    var k := DollarEnd(s);
    DollarEndExact(s, k);
    assert TokenAt(s) == Ok(Token(1, "$"));
    hide TokenAt;
    Consumed("$", t, "$");
  }

  /** ... and what the database does not execute of a comment is dropped. */
  lemma {:induction false} PlainComment(body: Sql, post: Sql)
    requires HoldsNoEnd(body) && (body != [] ==> body[0] != '!')
    ensures Lexed(Comment(body) + post) == Prefixed("  ", Lexed(post))
  {
    hide Lexed, HoldsNoEnd;
    CommentLexed(body, post);
    assert " " + Executed(body) + " " == "  ";
  }

  /** A line comment on the last line ends with the text. */
  lemma {:induction false} LastComment(text: Sql)
    requires '\n' !in text && (text != [] ==> IsSpace(text[0]))
    ensures Lexed("--" + text) == Ok(" ")
  {
    hide Index;
    var s := "--" + text;
    forall j: nat
      ensures !Occurs(s, "\n", j)
    {
      if j + 1 <= |s| {
        assert s[j..j + 1][0] == s[j];
        assert s[j] == if j < 2 then '-' else text[j - 2];
      }
    }
    assert s[0] == '-' && s[1] == '-' && (text != [] ==> s[2] == text[0]);
    assert TokenAt(s) == Ok(Token(|s|, " "));
    assert s[|s|..] == [] && " " + [] == " ";
  }

  /** A single-quoted literal is masked, whatever it says. */
  lemma {:induction false} LiteralMasked(body: Sql, post: Sql)
    requires Body(body, '\'', true) && (post != [] ==> post[0] != '\'')
    ensures Lexed(Literal(body) + post) == Prefixed("''", Lexed(post))
  {
    hide Lexed, QuoteEnd, Body;
    var s := body + ['\''] + post;
    assert s[..|body|] == body && s[|body|] == '\'' && (post != [] ==> s[|body| + 1] == post[0]);
    QuoteEndExact(s, '\'', true, |body| + 1);
    LiteralLexed(body, post);
  }

  // --- malformed text ----------------------------------------------------------------------------

  ghost predicate NeverClosed(s: Sql, q: char, backslash: bool) {
    forall k :: !Terminated(s, q, backslash, k)
  }

  lemma {:induction false} NotClosed(s: Sql, q: char, backslash: bool)
    requires q != '\\'
    ensures NeverClosed(s, q, backslash) <==> QuoteEnd(s, q, backslash) < 0
  {
    hide Terminated;
    var e := QuoteEnd(s, q, backslash);
    QuoteEndExact(s, q, backslash, e);
    forall k
      ensures e < 0 ==> !Terminated(s, q, backslash, k)
    {
      QuoteEndExact(s, q, backslash, k);
    }
  }

  /** The text begins with a quote that is never closed, or with a comment that never ends. */
  ghost predicate Unterminated(s: Sql)
    requires s != []
  {
    || (IsQuote(s[0]) && NeverClosed(s[1..], s[0], s[0] == '\''))
    || (|s| > 1 && s[0] == '/' && s[1] == '*' && forall j: nat :: 2 <= j ==> !Occurs(s, "*/", j))
  }

  lemma {:induction false} TokenFails(s: Sql)
    requires s != []
    ensures TokenAt(s).Err? <==> Unterminated(s)
  {
    hide Index, QuoteEnd, Occurs, NeverClosed, DollarEnd;
    if IsQuote(s[0]) {
      NotClosed(s[1..], s[0], s[0] == '\'');
    } else if |s| > 1 && s[0] == '/' && s[1] == '*' {
      var k := Index(s, "*/", 2);
      assert k >= 0 ==> Occurs(s, "*/", k);
    }
  }

  ghost predicate ReachesUnterminated(s: Sql, n: nat) {
    n < |s| && Reaches(s, n) && Unterminated(s[n..])
  }

  lemma {:induction false} UnterminatedShifted(s: Sql, n: nat)
    requires s != [] && TokenAt(s).Ok?
    ensures var m := TokenAt(s).value.length;
      && (ReachesUnterminated(s[m..], n) ==> ReachesUnterminated(s, m + n))
      && (ReachesUnterminated(s, n) ==> m <= n && ReachesUnterminated(s[m..], n - m))
  {
    TokenFails(s);
    hide TokenAt, Unterminated;
    var m := TokenAt(s).value.length;
    assert n < |s[m..]| ==> s[m..][n..] == s[m + n..];
    assert s[0..] == s;
    if ReachesUnterminated(s, n) {
      assert s[m..][n - m..] == s[n..];
    }
  }

  /** A query is malformed exactly if the lexer reaches a quote never closed or a comment never ended. */
  lemma {:induction false} MalformedExactly(s: Sql)
    ensures Lexed(s).Err? <==> exists n :: ReachesUnterminated(s, n)
    decreases |s|
  {
    if s != [] {
      TokenFails(s);
      if TokenAt(s).Ok? {
        hide TokenAt, ReachesUnterminated;
        var m := TokenAt(s).value.length;
        MalformedExactly(s[m..]);
        if n :| ReachesUnterminated(s, n) {
          UnterminatedShifted(s, n);
        }
        if n :| ReachesUnterminated(s[m..], n) {
          UnterminatedShifted(s, n);
        }
      } else {
        assert s[0..] == s && ReachesUnterminated(s, 0);
      }
    }
  }
}
