/**
 From the raw query to the verdict (internal/guardrail): what the lexer reads as code decides,
 whatever comments, literals and quoting surround it.

 A mark is an identifier of a text together with what its being followed by a parenthesis
 makes of it.  Collapsing, trimming and upper-casing keep the list of marks, so that the
 verdict on a reading query is a matter of the marks of the lexed text.
 */
module SqlRaw {
  import opened AsciiCase
  import opened SqlNormalize
  import opened SqlForms
  import opened SqlTokens
  import opened SqlWords
  import opened SqlGuard
  import opened SqlStatements

  /** An identifier; whether a parenthesis follows it past spaces, and past any blanks. */
  datatype Mark = Mark(text: Sql, opens: bool, calls: bool)

  function Marked(text: Sql, rest: Sql): Mark {
    Mark(text, Opens(rest, false), Opens(rest, true))
  }

  function Marks(s: Sql): seq<Mark> {
    if s == [] then []
    else if IsIdent(s[0]) then [Marked(s[..RunLength(s)], s[RunLength(s)..])] + Marks(s[RunLength(s)..])
    else Marks(s[1..])
  }

  lemma {:induction false} MarksOfLexemes(s: Sql)
    ensures |Marks(s)| == |Lexemes(s)|
    ensures forall i :: 0 <= i < |Marks(s)| ==> Marks(s)[i] == Marked(Lexemes(s)[i].text, Lexemes(s)[i].rest)
    decreases |s|
  {
    hide RunLength, Opens;
    if s != [] {
      RunOfHead(s);
      MarksOfLexemes(s[if IsIdent(s[0]) then RunLength(s) else 1..]);
    }
  }

  // -------------------------------------------------------------------------
  // Cutting at a boundary
  // -------------------------------------------------------------------------

  predicate Boundary(a: Sql, b: Sql) {
    a == [] || b == [] || !IsIdent(a[|a| - 1]) || !IsIdent(b[0])
  }

  lemma {:induction false} RunOfConcat(a: Sql, b: Sql)
    requires a != [] && Boundary(a, b)
    ensures RunLength(a + b) == RunLength(a)
  {
    if IsIdent(a[0]) {
      assert (a + b)[1..] == a[1..] + b;
      if |a| > 1 {
        RunOfConcat(a[1..], b);
      } else {
        assert a[1..] + b == b;
        assert RunLength(b) == 0;
      }
    }
  }

  /** The marks of what follows are marks of the whole. */
  lemma {:induction false} MarksBehind(a: Sql, b: Sql, m: Mark)
    requires Boundary(a, b) && m in Marks(b)
    ensures m in Marks(a + b)
    decreases |a|
  {
    hide RunLength, Opens;
    if a == [] {
      assert a + b == b;
    } else {
      RunOfConcat(a, b);
      RunOfHead(a);
      var k := if IsIdent(a[0]) then RunLength(a) else 1;
      assert (a + b)[k..] == a[k..] + b;
      MarksBehind(a[k..], b, m);
    }
  }

  /** A whole identifier in front is the first mark. */
  lemma {:induction false} FirstMark(w: Sql, rest: Sql)
    requires IsWord(w) && (rest != [] ==> !IsIdent(rest[0]))
    ensures Marks(w + rest) == [Marked(w, rest)] + Marks(rest)
  {
    hide Opens;
    var s := w + rest;
    var k := RunLength(s);
    assert forall i :: 0 <= i < |w| ==> s[i] == w[i];
    assert rest != [] ==> s[|w|] == rest[0];
    assert k == |w|;
    assert s[..k] == w && s[k..] == rest;
  }

  lemma {:induction false} Separator(c: char, rest: Sql)
    requires !IsIdent(c)
    ensures Marks([c] + rest) == Marks(rest)
  {
    hide Opens, RunLength;
    assert ([c] + rest)[1..] == rest;
  }

  // -------------------------------------------------------------------------
  // The stages behind the lexer
  // -------------------------------------------------------------------------

  lemma {:induction false} RunKept(s: Sql, k: nat, prevSpace: bool)
    requires 0 < k <= |s| && forall i :: 0 <= i < k ==> IsIdent(s[i])
    ensures Collapsed(s, prevSpace) == s[..k] + Collapsed(s[k..], false)
    decreases k
  {
    if k == 1 {
      assert s[..1] == [s[0]];
    } else {
      RunKept(s[1..], k - 1, false);
      assert s[1..][k - 1..] == s[k..] && [s[0]] + s[1..][..k - 1] == s[..k];
    }
  }

  lemma {:induction false} CollapsedBegins(s: Sql)
    ensures Collapsed(s, false) != [] ==> s != [] && Collapsed(s, false)[0] == s[0]
  {
  }

  /** Whether a parenthesis follows is the same after collapsing ... */
  lemma {:induction false} CollapsedOpens(s: Sql, prevSpace: bool, wide: bool)
    ensures Opens(Collapsed(s, prevSpace), wide) == Opens(s, wide)
    decreases |s|
  {
    if s != [] && IsBlank(s[0], wide) {
      var rest := Collapsed(s[1..], s[0] == ' ');
      CollapsedOpens(s[1..], s[0] == ' ', wide);
      assert ([s[0]] + rest)[1..] == rest && [] + rest == rest;
    }
  }

  lemma {:induction false} CollapsedMarks(s: Sql, prevSpace: bool)
    ensures Marks(Collapsed(s, prevSpace)) == Marks(s)
    decreases |s|
  {
    hide Opens;
    if s == [] {
    } else if IsIdent(s[0]) {
      RunOfHead(s);
      var k := RunLength(s);
      RunKept(s, k, prevSpace);
      hide RunLength, Collapsed;
      CollapsedMarks(s[k..], false);
      CollapsedBegins(s[k..]);
      CollapsedOpens(s[k..], false, false);
      CollapsedOpens(s[k..], false, true);
      assert s == s[..k] + s[k..];
      FirstMark(s[..k], s[k..]);
      FirstMark(s[..k], Collapsed(s[k..], false));
    } else {
      CollapsedMarks(s[1..], s[0] == ' ');
      var rest := Collapsed(s[1..], s[0] == ' ');
      Separator(s[0], rest);
      assert s == [s[0]] + s[1..] && [] + rest == rest;
      Separator(s[0], s[1..]);
    }
  }

  lemma {:induction false} TrimLeftMarks(s: Sql)
    ensures Marks(TrimLeft(s)) == Marks(s)
  {
    hide Opens, RunLength;
    if s != [] && IsSpace(s[0]) {
      TrimLeftMarks(s[1..]);
    }
  }

  /** ... and after cutting off a last character that is no parenthesis ... */
  lemma {:induction false} LastOpens(a: Sql, c: char, wide: bool)
    requires c != '('
    ensures Opens(a + [c], wide) == Opens(a, wide)
  {
    if a == [] {
      assert a + [c] == [c] && [c][1..] == [];
    } else if IsBlank(a[0], wide) {
      LastOpens(a[1..], c, wide);
      assert (a + [c])[1..] == a[1..] + [c];
    }
  }

  lemma {:induction false} LastMarks(a: Sql, c: char)
    requires !IsIdent(c) && c != '('
    ensures Marks(a + [c]) == Marks(a)
    decreases |a|
  {
    hide Opens, RunLength;
    if a == [] {
      assert a + [c] == [c] + [];
      Separator(c, []);
    } else {
      RunOfConcat(a, [c]);
      RunOfHead(a);
      var k := if IsIdent(a[0]) then RunLength(a) else 1;
      assert (a + [c])[..k] == a[..k] && (a + [c])[k..] == a[k..] + [c];
      LastMarks(a[k..], c);
      LastOpens(a[k..], c, false);
      LastOpens(a[k..], c, true);
    }
  }

  lemma {:induction false} DropLast(s: Sql)
    requires s != [] && !IsIdent(s[|s| - 1]) && s[|s| - 1] != '('
    ensures Marks(s[..|s| - 1]) == Marks(s)
  {
    hide Marks;
    assert s == s[..|s| - 1] + [s[|s| - 1]];
    LastMarks(s[..|s| - 1], s[|s| - 1]);
  }

  lemma {:induction false} TrimRightMarks(s: Sql)
    ensures Marks(TrimRight(s)) == Marks(s)
  {
    hide Marks;
    if s != [] && IsSpace(s[|s| - 1]) {
      DropLast(s);
      TrimRightMarks(s[..|s| - 1]);
    }
  }

  lemma {:induction false} TrimStatementMarks(s: Sql)
    ensures Marks(TrimStatement(s)) == Marks(s)
  {
    hide Marks;
    if s != [] && (s[|s| - 1] == ';' || s[|s| - 1] == ' ') {
      DropLast(s);
      TrimStatementMarks(s[..|s| - 1]);
    }
  }

  lemma {:induction false} UpperSlice(s: Sql, i: nat, j: nat)
    requires i <= j <= |s|
    ensures Upper(s)[i..j] == Upper(s[i..j])
  {
  }

  lemma {:induction false} UpperRun(s: Sql)
    ensures RunLength(Upper(s)) == RunLength(s)
  {
    if s != [] {
      UpperRun(s[1..]);
      UpperSlice(s, 1, |s|);
      assert Upper(s)[1..] == Upper(s)[1..|s|] && s[1..] == s[1..|s|];
      assert IsIdent(Upper(s)[0]) == IsIdent(s[0]);
    }
  }

  lemma {:induction false} UpperHead(s: Sql)
    ensures |Upper(s)| == |s| && (s != [] ==> (IsIdent(Upper(s)[0]) <==> IsIdent(s[0])))
  {
  }

  /** ... and in upper case. */
  lemma {:induction false} UpperOpens(s: Sql, wide: bool)
    ensures Opens(Upper(s), wide) == Opens(s, wide)
    decreases |s|
  {
    if s != [] {
      assert Upper(s)[0] == '(' <==> s[0] == '(';
      assert IsBlank(Upper(s)[0], wide) <==> IsBlank(s[0], wide);
      if IsBlank(s[0], wide) {
        UpperOpens(s[1..], wide);
        UpperSlice(s, 1, |s|);
        assert Upper(s)[1..] == Upper(s)[1..|s|] && s[1..] == s[1..|s|];
      }
    }
  }

  function Capital(m: Mark): Mark { m.(text := Upper(m.text)) }

  lemma {:induction false} UpperMarks(s: Sql)
    ensures |Marks(Upper(s))| == |Marks(s)|
    ensures forall i :: 0 <= i < |Marks(s)| ==> Marks(Upper(s))[i] == Capital(Marks(s)[i])
    decreases |s|
  {
    hide RunLength, Upper, Opens;
    UpperHead(s);
    if s != [] {
      UpperRun(s);
      RunOfHead(s);
      var k := if IsIdent(s[0]) then RunLength(s) else 1;
      UpperSlice(s, 0, k);
      UpperSlice(s, k, |s|);
      assert Upper(s)[..k] == Upper(s)[0..k] && s[..k] == s[0..k];
      assert Upper(s)[k..] == Upper(s)[k..|s|] && s[k..] == s[k..|s|];
      UpperOpens(s[k..], false);
      UpperOpens(s[k..], true);
      UpperMarks(s[k..]);
    }
  }

  /** The statement that is checked has the marks of the lexed text, in upper case. */
  lemma {:induction false} CheckedMarks(query: Sql)
    requires Normalized(query).Ok?
    ensures var marks, upper := Marks(Lexed(query).value), Marks(Upper(TrimStatement(Normalized(query).value)));
      |upper| == |marks| && forall i :: 0 <= i < |marks| ==> upper[i] == Capital(marks[i])
  {
    hide Lexed, Collapsed, Marks, TrimLeft, TrimRight, TrimStatement, Upper;
    var t := Collapsed(Lexed(query).value, false);
    CollapsedMarks(Lexed(query).value, false);
    TrimLeftMarks(t);
    TrimRightMarks(TrimLeft(t));
    TrimStatementMarks(Normalized(query).value);
    UpperMarks(TrimStatement(Normalized(query).value));
  }

  // -------------------------------------------------------------------------
  // The verdict, in terms of the lexed text
  // -------------------------------------------------------------------------

  ghost predicate Among(text: Sql, ws: seq<Sql>) {
    exists i :: 0 <= i < |ws| && SameUpToCase(text, ws[i])
  }

  ghost predicate BeginsAmong(text: Sql, ws: seq<Sql>) {
    exists i :: 0 <= i < |ws| && |ws[i]| <= |text| && SameUpToCase(text[..|ws[i]|], ws[i])
  }

  /** What no reading query may contain: a write keyword, or a call of a denied function, in any case of letters. */
  ghost predicate Refused(m: Mark) {
    || Among(m.text, WRITE_KEYWORDS)
    || (Among(m.text, FUNCTION_LIKE) && !m.opens)
    || ((Among(m.text, DENIED_FUNCTIONS) || BeginsAmong(m.text, DENIED_PREFIXES)) && m.calls)
  }

  lemma {:induction false} KeywordUpper(w: Sql)
    requires IsKeyword(w)
    ensures Upper(w) == w
  {
  }

  lemma {:induction false} AmongUpper(text: Sql, ws: seq<Sql>)
    requires AllWords(ws)
    ensures Among(text, ws) <==> Upper(text) in ws
  {
    hide Upper, IsKeyword, SameUpToCase;
    forall i | 0 <= i < |ws|
      ensures SameUpToCase(text, ws[i]) <==> Upper(text) == ws[i]
    {
      KeywordUpper(ws[i]);
      UpperExactly(text, ws[i]);
    }
  }

  lemma {:induction false} BeginsUpper(text: Sql, ws: seq<Sql>)
    requires AllWords(ws)
    ensures BeginsAmong(text, ws) <==> exists p :: p in ws && p <= Upper(text)
  {
    hide Upper, IsKeyword, SameUpToCase;
    UpperHead(text);
    forall i | 0 <= i < |ws|
      ensures |ws[i]| <= |text| && SameUpToCase(text[..|ws[i]|], ws[i]) <==> ws[i] <= Upper(text)
    {
      if |ws[i]| <= |text| {
        KeywordUpper(ws[i]);
        UpperExactly(text[..|ws[i]|], ws[i]);
        UpperSlice(text, 0, |ws[i]|);
        assert Upper(text)[..|ws[i]|] == Upper(text)[0..|ws[i]|] && text[..|ws[i]|] == text[0..|ws[i]|];
      }
    }
    if p :| p in ws && p <= Upper(text) {
      var i :| 0 <= i < |ws| && ws[i] == p;
      assert |ws[i]| <= |text| && SameUpToCase(text[..|ws[i]|], ws[i]);
    }
    if i :| 0 <= i < |ws| && |ws[i]| <= |text| && SameUpToCase(text[..|ws[i]|], ws[i]) {
      assert ws[i] in ws && ws[i] <= Upper(text);
    }
  }

  /** A mark is refused exactly if its upper-cased lexeme is forbidden. */
  lemma {:induction false} RefusedIsForbidden(m: Mark, t: Lexeme)
    requires Capital(m) == Marked(t.text, t.rest)
    ensures Refused(m) <==> Forbidden(t)
  {
    hide Opens, Upper, Among, BeginsAmong, AllWords, WRITE_KEYWORDS, FUNCTION_LIKE, DENIED_FUNCTIONS, DENIED_PREFIXES;
    ListedAreWords();
    AmongUpper(m.text, WRITE_KEYWORDS);
    AmongUpper(m.text, FUNCTION_LIKE);
    AmongUpper(m.text, DENIED_FUNCTIONS);
    BeginsUpper(m.text, DENIED_PREFIXES);
  }

  /** The query is a SELECT, or begins with a common table expression. */
  predicate Reads(query: Sql) {
    Normalized(query).Ok? &&
    var cleaned := TrimStatement(Normalized(query).value);
    || (|cleaned| >= 6 && SameUpToCase(cleaned[..6], "SELECT"))
    || (|cleaned| >= 4 && SameUpToCase(cleaned[..4], "WITH"))
  }

  lemma {:induction false} BeginsWith(s: Sql, w: Sql)
    requires Upper(w) == w
    ensures w <= Upper(s) <==> |w| <= |s| && SameUpToCase(s[..|w|], w)
  {
    hide Upper, SameUpToCase;
    UpperHead(s);
    if |w| <= |s| {
      UpperSlice(s, 0, |w|);
      assert Upper(s)[..|w|] == Upper(s)[0..|w|] && s[..|w|] == s[0..|w|];
      UpperExactly(s[..|w|], w);
    }
  }

  /**
   A reading query is permitted exactly if it is a single statement and no identifier of its
   lexed text is refused.
   */
  lemma {:induction false} LexedDecides(query: Sql)
    requires Reads(query)
    ensures Permitted(query) <==>
      && ';' !in TrimStatement(Normalized(query).value)
      && forall m :: m in Marks(Lexed(query).value) ==> !Refused(m)
  {
    hide Lexed, Collapsed, Marks, TrimSpace, TrimStatement, Upper, Refused, ReadOnly, Normalized, SameUpToCase, PermittedPragma;
    var cleaned := TrimStatement(Normalized(query).value);
    ReadsUpper(cleaned);
    NotBlankQuery(query);
    MarksDecide(query);
  }

  lemma {:induction false} ReadsUpper(cleaned: Sql)
    ensures "SELECT" <= Upper(cleaned) <==> |cleaned| >= 6 && SameUpToCase(cleaned[..6], "SELECT")
    ensures "WITH" <= Upper(cleaned) <==> |cleaned| >= 4 && SameUpToCase(cleaned[..4], "WITH")
  {
    assert Upper("SELECT") == "SELECT" && Upper("WITH") == "WITH";
    hide Upper, SameUpToCase;
    BeginsWith(cleaned, "SELECT");
    BeginsWith(cleaned, "WITH");
  }

  lemma {:induction false} MarksDecide(query: Sql)
    requires Normalized(query).Ok?
    ensures ReadOnly(Upper(TrimStatement(Normalized(query).value))) <==>
      forall m :: m in Marks(Lexed(query).value) ==> !Refused(m)
  {
    hide Lexed, Lexemes, Marks, TrimStatement, Upper, Refused, Forbidden, Normalized, Opens;
    NormalizedLexed(query);
    var upper := Upper(TrimStatement(Normalized(query).value));
    var marks := Marks(Lexed(query).value);
    CheckedMarks(query);
    MarksOfLexemes(upper);
    forall i | 0 <= i < |marks|
      ensures Refused(marks[i]) <==> Forbidden(Lexemes(upper)[i])
    {
      RefusedIsForbidden(marks[i], Lexemes(upper)[i]);
    }
    if ReadOnly(upper) {
      forall m | m in marks
        ensures !Refused(m)
      {
        var i :| 0 <= i < |marks| && marks[i] == m;
        assert Lexemes(upper)[i] in Lexemes(upper);
      }
    } else {
      var t :| t in Lexemes(upper) && Forbidden(t);
      var i :| 0 <= i < |Lexemes(upper)| && Lexemes(upper)[i] == t;
      assert marks[i] in marks;
    }
  }

  lemma {:induction false} NormalizedLexed(query: Sql)
    ensures Normalized(query).Ok? <==> Lexed(query).Ok?
  {
  }

  /** A query with a statement is not blank. */
  lemma {:induction false} NotBlankQuery(query: Sql)
    requires Normalized(query).Ok? && TrimStatement(Normalized(query).value) != []
    ensures TrimSpace(query) != []
  {
    hide Lexed, TrimStatement;
    if TrimSpace(query) == [] {
      var lead, tail := TrimSplit(query);
      BlankConcat(lead, tail);
      assert query == lead + tail;
      BlankNormal(query);
      assert false;
    }
  }

  lemma {:induction false} BlankNormal(s: Sql)
    requires Blank(s)
    ensures Normalized(s) == Ok([]) && TrimStatement([]) == []
  {
    BlankLexed(s);
    hide Lexed;
    var t := Lexed(s).value;
    CollapsedBlank(t, false);
    BlankTrimmed(Collapsed(t, false));
  }

  lemma {:induction false} BlankLexed(s: Sql)
    requires Blank(s)
    ensures Lexed(s).Ok? && forall i :: 0 <= i < |Lexed(s).value| ==> Lexed(s).value[i] == ' '
  {
    if s != [] {
      BlankLexed(s[1..]);
      hide Lexed;
      assert s == [s[0]] + s[1..];
      Whitespace(s[0], s[1..]);
    } else {
      assert Lexed(s) == Ok([]);
    }
  }

  lemma {:induction false} CollapsedBlank(t: Sql, prevSpace: bool)
    requires forall i :: 0 <= i < |t| ==> t[i] == ' '
    ensures Blank(Collapsed(t, prevSpace))
  {
    if t != [] {
      CollapsedBlank(t[1..], true);
    }
  }

  // -------------------------------------------------------------------------
  // The lexer
  // -------------------------------------------------------------------------

  /** A token writes text, and an identifier byte at either end only if it is one. */
  lemma {:induction false} TokenEnds(s: Sql)
    requires s != [] && TokenAt(s).Ok?
    ensures var t := TokenAt(s).value;
      && t.out != []
      && (IsIdent(t.out[0]) || IsIdent(t.out[|t.out| - 1]) ==> t == Token(1, [s[0]]) && IsIdent(s[0]))
  {
    hide QuoteEnd, DollarEnd, Index, Undoubled, Executed;
  }

  lemma {:induction false} IdentToken(s: Sql)
    requires s != [] && IsIdent(s[0])
    ensures TokenAt(s) == Ok(Token(1, [s[0]]))
  {
  }

  /** The lexed text begins with an identifier byte only if the text does. */
  lemma {:induction false} LexedBegins(s: Sql)
    requires Lexed(s).Ok?
    ensures Lexed(s).value != [] && IsIdent(Lexed(s).value[0]) ==> s != [] && IsIdent(s[0])
  {
    hide TokenAt;
    if s != [] {
      TokenEnds(s);
    }
  }

  /** A run of identifier bytes is lexed to itself. */
  lemma {:induction false} LexedRun(s: Sql, k: nat)
    requires k <= |s| && Lexed(s).Ok? && forall i :: 0 <= i < k ==> IsIdent(s[i])
    ensures Lexed(s[k..]).Ok? && Lexed(s).value == s[..k] + Lexed(s[k..]).value
    decreases k
  {
    hide TokenAt;
    if k == 0 {
      assert s[0..] == s && s[..0] + Lexed(s).value == Lexed(s).value;
    } else {
      IdentToken(s);
      LexedRun(s[1..], k - 1);
      assert s[1..][k - 1..] == s[k..] && [s[0]] + s[1..][..k - 1] == s[..k];
      assert [s[0]] + (s[1..][..k - 1] + Lexed(s[k..]).value) == s[..k] + Lexed(s[k..]).value;
    }
  }

  lemma {:induction false} ReachesRun(s: Sql, k: nat, n: nat)
    requires k <= n && k <= |s| && Reaches(s, n) && forall i :: 0 <= i < k ==> IsIdent(s[i])
    ensures Reaches(s[k..], n - k)
    decreases k
  {
    hide TokenAt;
    if k == 0 {
      assert s[0..] == s;
    } else {
      IdentToken(s);
      ReachesRun(s[1..], k - 1, n - 1);
      assert s[1..][k - 1..] == s[k..];
    }
  }

  lemma {:induction false} LexedFirst(s: Sql)
    requires s != [] && Lexed(s).Ok?
    ensures TokenAt(s).Ok? && var t := TokenAt(s).value;
      Lexed(s[t.length..]).Ok? && Lexed(s).value == t.out + Lexed(s[t.length..]).value
  {
    hide TokenAt;
  }

  lemma {:induction false} ReachesFirst(s: Sql, n: nat)
    requires n > 0 && Reaches(s, n)
    ensures s != [] && TokenAt(s).Ok? && var m := TokenAt(s).value.length; m <= n && Reaches(s[m..], n - m)
  {
    hide TokenAt;
  }

  lemma {:induction false} StartsBehind(s: Sql, m: nat, n: nat)
    requires Starts(s, n) && m <= n
    ensures Starts(s[m..], n - m)
  {
    assert s[m..][n - m] == s[n];
    assert n > m ==> s[m..][n - m - 1] == s[n - 1];
  }

  /** What is reached at n is lexed on its own, behind text that it does not run into. */
  lemma {:induction false} LexedFrom(s: Sql, n: nat, m: Mark)
    requires n <= |s| && Lexed(s).Ok? && Reaches(s, n) && (n == |s| || !IsIdent(s[n]) || Starts(s, n))
    ensures Lexed(s[n..]).Ok?
    ensures m in Marks(Lexed(s[n..]).value) ==> m in Marks(Lexed(s).value)
    decreases n
  {
    hide TokenAt, Lexed, RunLength, Marks, Reaches;
    if n == 0 {
      assert s[0..] == s;
    } else if IsIdent(s[0]) && RunLength(s) <= n {
      RunOfHead(s);
      var k := RunLength(s);
      ReachesRun(s, k, n);
      LexedRun(s, k);
      if n < |s| && IsIdent(s[n]) {
        StartsBehind(s, k, n);
      }
      LexedFrom(s[k..], n - k, m);
      assert s[k..][n - k..] == s[n..];
      LexedBegins(s[k..]);
      if m in Marks(Lexed(s[n..]).value) {
        MarksBehind(s[..k], Lexed(s[k..]).value, m);
      }
    } else {
      NotInsideRun(s, n);
      LexedFirst(s);
      var t := TokenAt(s).value;
      ReachesFirst(s, n);
      TokenEnds(s);
      if n < |s| && IsIdent(s[n]) {
        StartsBehind(s, t.length, n);
      }
      LexedFrom(s[t.length..], n - t.length, m);
      assert s[t.length..][n - t.length..] == s[n..];
      if m in Marks(Lexed(s[n..]).value) {
        MarksBehind(t.out, Lexed(s[t.length..]).value, m);
      }
    }
  }

  /** A place inside the first run is not the start of one, nor a byte that is no identifier byte. */
  lemma {:induction false} NotInsideRun(s: Sql, n: nat)
    requires 0 < n <= |s| && s != [] && (n == |s| || !IsIdent(s[n]) || Starts(s, n))
    requires !(IsIdent(s[0]) && RunLength(s) <= n)
    ensures !IsIdent(s[0])
  {
  }

  /** An identifier the lexer reaches is a mark of the lexed text, with what is lexed behind it. */
  lemma {:induction false} ReachedIsMarked(s: Sql, n: nat)
    requires Lexed(s).Ok? && Reaches(s, n) && Starts(s, n)
    ensures var w := LexemeAt(s, n);
      Lexed(w.rest).Ok? && Marked(w.text, Lexed(w.rest).value) in Marks(Lexed(s).value)
  {
    hide TokenAt, Lexed, Marks, Reaches, Opens;
    var k := RunLength(s[n..]);
    var w := LexemeAt(s, n);
    assert s[n..][..k] == w.text && s[n..][k..] == w.rest;
    LexedFrom(s, n, Mark([], false, false));
    LexedRun(s[n..], k);
    LexedBegins(w.rest);
    WordAtHead(s[n..]);
    FirstMark(w.text, Lexed(w.rest).value);
    LexedFrom(s, n, Marked(w.text, Lexed(w.rest).value));
  }

  lemma {:induction false} WordAtHead(s: Sql)
    requires s != [] && IsIdent(s[0])
    ensures IsWord(s[..RunLength(s)])
  {
  }

  // -------------------------------------------------------------------------
  // In terms of the raw query
  // -------------------------------------------------------------------------

  ghost predicate AllSpaces(t: Sql) {
    forall i :: 0 <= i < |t| ==> t[i] == ' '
  }

  /** Up to m the lexer reads nothing but whitespace and comments that are not executed. */
  ghost predicate Gap(s: Sql, m: nat)
    decreases m
  {
    m == 0 || (
      && s != [] && TokenAt(s).Ok? && TokenAt(s).value.length <= m && AllSpaces(TokenAt(s).value.out)
      && Gap(s[TokenAt(s).value.length..], m - TokenAt(s).value.length)
    )
  }

  lemma {:induction false} SpacesOpen(a: Sql, b: Sql, wide: bool)
    requires AllSpaces(a)
    ensures Opens(a + b, wide) == Opens(b, wide)
  {
    if a == [] {
      assert a + b == b;
    } else {
      assert (a + b)[1..] == a[1..] + b;
      SpacesOpen(a[1..], b, wide);
    }
  }

  /** A parenthesis behind a gap is one in the lexed text. */
  lemma {:induction false} GapOpens(s: Sql, m: nat, wide: bool)
    requires Lexed(s).Ok? && m < |s| && Gap(s, m) && s[m] == '('
    ensures Opens(Lexed(s).value, wide)
    decreases m
  {
    hide TokenAt, Lexed, Opens, AllSpaces;
    if m == 0 {
      assert s == ['('] + s[1..];
      OtherByte('(', s[1..]);
      ParenthesisOpens(Lexed(s[1..]).value, wide);
    } else {
      LexedFirst(s);
      var t := TokenAt(s).value;
      assert s[t.length..][m - t.length] == s[m];
      GapOpens(s[t.length..], m - t.length, wide);
      SpacesOpen(t.out, Lexed(s[t.length..]).value, wide);
    }
  }

  lemma {:induction false} ParenthesisOpens(rest: Sql, wide: bool)
    ensures Opens(['('] + rest, wide)
  {
  }

  lemma {:induction false} RefusedQuery(query: Sql, m: Mark)
    requires Reads(query) && Lexed(query).Ok? && m in Marks(Lexed(query).value) && Refused(m)
    ensures !Permitted(query)
  {
    hide Lexed, Marks, Refused, Permitted, Reads;
    LexedDecides(query);
  }

  /**
   A reading query is refused if, where the lexer reads code, an identifier stands that is
   a write keyword in any case of letters: no comment, literal or quoting elsewhere hides it.
   */
  lemma {:induction false} RawKeywordRefused(query: Sql, n: nat, i: nat)
    requires Reads(query) && Reaches(query, n) && Starts(query, n)
    requires i < |WRITE_KEYWORDS| && SameUpToCase(LexemeAt(query, n).text, WRITE_KEYWORDS[i])
    ensures !Permitted(query)
  {
    hide Lexed, Normalized, Marks, Permitted, Reaches, Opens, SameUpToCase, TrimStatement, LexemeAt;
    NormalizedLexed(query);
    ReachedIsMarked(query, n);
    var w := LexemeAt(query, n);
    assert Among(w.text, WRITE_KEYWORDS);
    RefusedQuery(query, Marked(w.text, Lexed(w.rest).value));
  }

  /** The name of a denied function, or one that begins like a denied family. */
  ghost predicate DeniedName(text: Sql) {
    Among(text, DENIED_FUNCTIONS) || BeginsAmong(text, DENIED_PREFIXES)
  }

  /**
   A reading query is refused if the lexer reaches the name of a denied function and then,
   past whitespace and comments only, an opening parenthesis.
   */
  lemma {:induction false} RawCallRefused(query: Sql, n: nat, m: nat)
    requires Reads(query) && Reaches(query, n) && Starts(query, n) && DeniedName(LexemeAt(query, n).text)
    requires var rest := LexemeAt(query, n).rest; m < |rest| && Gap(rest, m) && rest[m] == '('
    ensures !Permitted(query)
  {
    hide Lexed, Normalized, Marks, Permitted, Reaches, Opens, Gap, TrimStatement, LexemeAt, Among, BeginsAmong;
    NormalizedLexed(query);
    ReachedIsMarked(query, n);
    var w := LexemeAt(query, n);
    GapOpens(w.rest, m, true);
    RefusedQuery(query, Marked(w.text, Lexed(w.rest).value));
  }

  /** Quoting the name does not help. */
  lemma {:induction false} QuotedCallRefused(query: Sql, n: nat, name: Sql, q: char, rest: Sql, m: nat)
    requires Reads(query) && Reaches(query, n) && n <= |query| && (q == '"' || q == '`')
    requires IsWord(name) && query[n..] == [q] + name + [q] + rest && DeniedName(name)
    requires m < |rest| && Gap(rest, m) && rest[m] == '('
    requires rest[0] != q
    ensures !Permitted(query)
  {
    hide Lexed, Normalized, Marks, Permitted, Reaches, Opens, Gap, TrimStatement, Among, BeginsAmong;
    NormalizedLexed(query);
    assert query[n] == query[n..][0] == q;
    LexedFrom(query, n, Mark([], false, false));
    NotDoubled(name, q);
    QuotedIdentifier(name, q, rest);
    var tail := Lexed(rest).value;
    GapOpens(rest, m, true);
    SpacesOpen(" ", tail, true);
    assert " " + name + " " + tail == [' '] + (name + (" " + tail));
    Separator(' ', name + (" " + tail));
    FirstMark(name, " " + tail);
    var mark := Marked(name, " " + tail);
    assert mark in Marks(Lexed(query[n..]).value);
    LexedFrom(query, n, mark);
    RefusedQuery(query, mark);
  }

  lemma {:induction false} NotDoubled(name: Sql, q: char)
    requires IsWord(name) && !IsIdent(q)
    ensures Doubled(name, q) == name
  {
    if |name| > 1 {
      NotDoubled(name[1..], q);
    } else {
      assert name == [name[0]] && name[1..] == [];
    }
  }

  // -------------------------------------------------------------------------
  // EXPLAIN and LIMIT
  // -------------------------------------------------------------------------

  /** A word is among the tokens of an upper-cased text exactly if a mark of the text is that word up to case. */
  lemma {:induction false} HasWordExactly(s: Sql, w: Sql)
    requires IsKeyword(w)
    ensures HasWord(Upper(s), w) <==> exists m :: m in Marks(s) && SameUpToCase(m.text, w)
  {
    hide Upper, Marks, Lexemes, SameUpToCase, Opens;
    UpperMarks(s);
    MarksOfLexemes(Upper(s));
    KeywordUpper(w);
    forall i | 0 <= i < |Marks(s)|
      ensures SameUpToCase(Marks(s)[i].text, w) <==> Lexemes(Upper(s))[i].text == w
    {
      UpperExactly(Marks(s)[i].text, w);
    }
    if t :| t in Lexemes(Upper(s)) && t.text == w {
      var i :| 0 <= i < |Lexemes(Upper(s))| && Lexemes(Upper(s))[i] == t;
      assert Marks(s)[i] in Marks(s);
    }
    if m :| m in Marks(s) && SameUpToCase(m.text, w) {
      var i :| 0 <= i < |Marks(s)| && Marks(s)[i] == m;
      assert Lexemes(Upper(s))[i] in Lexemes(Upper(s));
    }
  }

  /** Whether a query has a LIMIT is a matter of the identifiers of its lexed text, in any case of letters. */
  lemma {:induction false} LimitExactly(query: Sql)
    requires Normalized(query).Ok?
    ensures HasWord(Upper(Normalized(query).value), "LIMIT") <==>
      exists m :: m in Marks(Lexed(query).value) && SameUpToCase(m.text, "LIMIT")
  {
    hide Lexed, Collapsed, Marks, TrimLeft, TrimRight, Upper, HasWord, SameUpToCase;
    var t := Collapsed(Lexed(query).value, false);
    CollapsedMarks(Lexed(query).value, false);
    TrimLeftMarks(t);
    TrimRightMarks(TrimLeft(t));
    LimitIsKeyword();
    HasWordExactly(Normalized(query).value, "LIMIT");
  }

  lemma {:induction false} LimitIsKeyword()
    ensures IsKeyword("LIMIT")
  {
  }

  /** An EXPLAIN in which the lexer reaches ANALYZE, in any case of letters, is refused. */
  lemma {:induction false} RawAnalyzeRefused(query: Sql, n: nat)
    requires Normalized(query).Ok? && Reaches(query, n) && Starts(query, n)
    requires SameUpToCase(LexemeAt(query, n).text, "ANALYZE")
    requires var cleaned := TrimStatement(Normalized(query).value); |cleaned| >= 7 && SameUpToCase(cleaned[..7], EXPLAIN)
    ensures !Permitted(query)
  {
    hide Lexed, Normalized, Marks, Reaches, Opens, TrimStatement, LexemeAt, HasWord, TrimSpace;
    var cleaned := TrimStatement(Normalized(query).value);
    ExplainUpper(cleaned);
    NormalizedLexed(query);
    ReachedIsMarked(query, n);
    var w := LexemeAt(query, n);
    AdministrationKeywords();
    AnalyzeFound(query, Marked(w.text, Lexed(w.rest).value));
  }

  lemma {:induction false} AnalyzeFound(query: Sql, m: Mark)
    requires Normalized(query).Ok? && Lexed(query).Ok? && m in Marks(Lexed(query).value) && SameUpToCase(m.text, "ANALYZE")
    ensures HasWord(Upper(TrimStatement(Normalized(query).value)), "ANALYZE")
  {
    hide Lexed, Collapsed, Marks, TrimLeft, TrimRight, TrimStatement, Upper, HasWord, SameUpToCase;
    var t := Collapsed(Lexed(query).value, false);
    CollapsedMarks(Lexed(query).value, false);
    TrimLeftMarks(t);
    TrimRightMarks(TrimLeft(t));
    TrimStatementMarks(Normalized(query).value);
    AdministrationKeywords();
    HasWordExactly(TrimStatement(Normalized(query).value), "ANALYZE");
  }

  lemma {:induction false} ExplainUpper(cleaned: Sql)
    requires |cleaned| >= 7 && SameUpToCase(cleaned[..7], EXPLAIN)
    ensures var upper := Upper(cleaned);
      EXPLAIN <= upper && !("SELECT" <= upper) && !("WITH" <= upper) && !(PRAGMA <= upper)
  {
    assert Upper(EXPLAIN) == EXPLAIN;
    hide Upper;
    BeginsWith(cleaned, EXPLAIN);
    assert Upper(cleaned)[0] == 'E';
  }

  // -------------------------------------------------------------------------
  // The other kinds of statement
  // -------------------------------------------------------------------------

  predicate Begins(s: Sql, w: Sql) {
    |w| <= |s| && SameUpToCase(s[..|w|], w)
  }

  lemma {:induction false} BeginsCapital(s: Sql)
    ensures Begins(s, "SELECT") <==> "SELECT" <= Upper(s)
    ensures Begins(s, "WITH") <==> "WITH" <= Upper(s)
    ensures Begins(s, EXPLAIN) <==> EXPLAIN <= Upper(s)
    ensures Begins(s, "SHOW") <==> "SHOW" <= Upper(s)
    ensures Begins(s, "DESCRIBE") <==> "DESCRIBE" <= Upper(s)
    ensures Begins(s, "DESC ") <==> "DESC " <= Upper(s)
    ensures Begins(s, PRAGMA) <==> PRAGMA <= Upper(s)
  {
    assert Upper("SELECT") == "SELECT" && Upper("WITH") == "WITH" && Upper(EXPLAIN) == EXPLAIN && Upper("SHOW") == "SHOW";
    assert Upper("DESCRIBE") == "DESCRIBE" && Upper("DESC ") == "DESC " && Upper(PRAGMA) == PRAGMA;
    hide Upper, SameUpToCase;
    BeginsWith(s, "SELECT");
    BeginsWith(s, "WITH");
    BeginsWith(s, EXPLAIN);
    BeginsWith(s, "SHOW");
    BeginsWith(s, "DESCRIBE");
    BeginsWith(s, "DESC ");
    BeginsWith(s, PRAGMA);
  }

  /** The statement of a query: its normal form without trailing semicolons. */
  function Statement(query: Sql): Sql
    requires Normalized(query).Ok?
  {
    TrimStatement(Normalized(query).value)
  }

  /** A SHOW or DESCRIBE is permitted if it is a single statement ... */
  lemma {:induction false} ShowDecides(query: Sql)
    requires Normalized(query).Ok?
    requires Begins(Statement(query), "SHOW") || Begins(Statement(query), "DESCRIBE") || Begins(Statement(query), "DESC ")
    ensures Permitted(query) <==> ';' !in Statement(query)
  {
    hide Normalized, TrimStatement, TrimSpace, ReadOnly, HasWord, PermittedPragma, Begins, Upper, StripExplainPrefix;
    KindRead(query);
  }

  /** ... a PRAGMA if it also is in one of its permitted forms ... */
  lemma {:induction false} PragmaDecides(query: Sql)
    requires Normalized(query).Ok? && Begins(Statement(query), PRAGMA)
    ensures PRAGMA <= Upper(Statement(query))
    ensures Permitted(query) <==> ';' !in Statement(query) && PermittedPragma(Upper(Statement(query)))
  {
    hide Normalized, TrimStatement, TrimSpace, ReadOnly, HasWord, PermittedPragma, Begins, Upper, StripExplainPrefix;
    KindRead(query);
  }

  /** The words that what is explained may begin with. */
  predicate BeginsReading(s: Sql) {
    || Begins(s, "SELECT") || Begins(s, "WITH") || Begins(s, "SHOW")
    || Begins(s, "DESCRIBE") || Begins(s, "DESC ") || Begins(s, PRAGMA)
  }

  /** ... an EXPLAIN if it holds no ANALYZE and what it explains begins like a reading statement and holds nothing forbidden ... */
  lemma {:induction false} ExplainDecides(query: Sql)
    requires Normalized(query).Ok? && Begins(Statement(query), EXPLAIN)
    ensures EXPLAIN <= Upper(Statement(query))
    ensures var inner := StripExplainPrefix(Upper(Statement(query)));
      Permitted(query) <==>
        && ';' !in Statement(query) && !HasWord(Upper(Statement(query)), "ANALYZE")
        && BeginsReading(inner) && ReadOnly(inner)
  {
    hide Normalized, TrimStatement, TrimSpace, ReadOnly, HasWord, PermittedPragma, Begins, Upper, StripExplainPrefix;
    KindRead(query);
    BeginsCapital(StripExplainPrefix(Upper(Statement(query))));
    InnerUpper(Statement(query));
  }

  /** ... and a statement that begins with none of the known words is refused. */
  lemma {:induction false} OthersRefused(query: Sql)
    requires Normalized(query).Ok? && !BeginsReading(Statement(query)) && !Begins(Statement(query), EXPLAIN)
    ensures !Permitted(query)
  {
    hide Normalized, TrimStatement, TrimSpace, ReadOnly, HasWord, PermittedPragma, Begins, Upper, StripExplainPrefix;
    KindRead(query);
  }

  lemma {:induction false} KindRead(query: Sql)
    requires Normalized(query).Ok?
    ensures Permitted(query) <==>
      Statement(query) != [] && ';' !in Statement(query) && PermittedStatement(Upper(Statement(query)))
    ensures var s := Statement(query); var u := Upper(s);
      && (Begins(s, "SELECT") <==> "SELECT" <= u) && (Begins(s, "WITH") <==> "WITH" <= u)
      && (Begins(s, EXPLAIN) <==> EXPLAIN <= u) && (Begins(s, "SHOW") <==> "SHOW" <= u)
      && (Begins(s, "DESCRIBE") <==> "DESCRIBE" <= u) && (Begins(s, "DESC ") <==> "DESC " <= u)
      && (Begins(s, PRAGMA) <==> PRAGMA <= u) && (u != [] ==> s != [])
      && ("SELECT" <= u ==> |u| > 1 && u[0] == 'S' && u[1] == 'E') && ("SHOW" <= u ==> |u| > 1 && u[0] == 'S' && u[1] == 'H')
      && ("WITH" <= u ==> |u| > 1 && u[0] == 'W') && (EXPLAIN <= u ==> |u| > 1 && u[0] == 'E')
      && ("DESCRIBE" <= u || "DESC " <= u ==> |u| > 1 && u[0] == 'D') && (PRAGMA <= u ==> |u| > 1 && u[0] == 'P')
  {
    hide Normalized, TrimStatement, TrimSpace, PermittedStatement, Begins, Upper;
    BeginsCapital(Statement(query));
    KindsApart(Upper(Statement(query)));
    UpperHead(Statement(query));
    if Statement(query) != [] {
      NotBlankQuery(query);
    }
  }

  /** No statement begins with two of the words, the two forms of DESCRIBE aside. */
  lemma {:induction false} KindsApart(u: Sql)
    ensures "SELECT" <= u ==> |u| > 1 && u[0] == 'S' && u[1] == 'E'
    ensures "SHOW" <= u ==> |u| > 1 && u[0] == 'S' && u[1] == 'H'
    ensures "WITH" <= u ==> |u| > 1 && u[0] == 'W'
    ensures EXPLAIN <= u ==> |u| > 1 && u[0] == 'E'
    ensures "DESCRIBE" <= u || "DESC " <= u ==> |u| > 1 && u[0] == 'D'
    ensures PRAGMA <= u ==> |u| > 1 && u[0] == 'P'
  {
  }

  /** Text without lower-case letters is its own upper case. */
  lemma {:induction false} AlreadyUpper(s: Sql)
    ensures Upper(s) == s <==> forall i :: 0 <= i < |s| ==> !IsLower(s[i])
  {
    if Upper(s) == s {
      forall i | 0 <= i < |s|
        ensures !IsLower(s[i])
      {
        assert Upper(s)[i] == s[i];
      }
    }
  }

  lemma {:induction false} InnerUpper(s: Sql)
    requires EXPLAIN <= Upper(s)
    ensures var inner := StripExplainPrefix(Upper(s)); Upper(inner) == inner
  {
    var upper := Upper(s);
    UpperKeeps(s);
    hide StripExplainPrefix, Upper;
    var lead, options, gap, tail := StripExplainExact(upper);
    var inner := StripExplainPrefix(upper);
    var n := |EXPLAIN + lead + options + gap|;
    UpperHead(s);
    forall i | 0 <= i < |inner|
      ensures !IsLower(inner[i])
    {
      assert upper[n + i] == inner[i];
    }
    AlreadyUpper(inner);
  }
}
