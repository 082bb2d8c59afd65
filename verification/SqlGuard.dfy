/**
 ValidateReadOnlyGeneric and HasLimitGeneric (internal/guardrail/sql_generic.go): the
 branches over the normal form of a query.
 */
module SqlGuard {
  import opened SqlNormalize
  import opened SqlTokens
  import opened SqlWords
  import SqlLexer

  datatype Verdict =
    | Allowed
    | EmptyQuery
    | Malformed
    | NoStatement
    | MultipleStatements
    | WriteKeyword(word: Sql)
    | SideEffect(name: Sql)
    | ExplainAnalyze
    | EmptyExplain
    | ExplainNotRead
    | PragmaNameMissing
    | PragmaNotReadForm
    | PragmaUnknown
    | NotSelect

  // -------------------------------------------------------------------------
  // The checker over maximal identifier tokens
  // -------------------------------------------------------------------------

  /** The token no read statement may contain. */
  ghost predicate Forbidden(t: Lexeme) {
    || t.text in WRITE_KEYWORDS
    || (t.text in FUNCTION_LIKE && !Opens(t.rest, false))
    || (Opens(t.rest, true) && (t.text in DENIED_FUNCTIONS || exists p :: p in DENIED_PREFIXES && p <= t.text))
  }

  /** The checker over maximal identifier tokens. */
  ghost predicate ReadOnly(s: Sql) {
    forall t :: t in Lexemes(s) ==> !Forbidden(t)
  }

  ghost predicate NoWord(s: Sql, ws: seq<Sql>) {
    forall i :: 0 <= i < |ws| ==> !HasWord(s, ws[i])
  }

  ghost predicate NoBareWord(s: Sql, ws: seq<Sql>) {
    forall i :: 0 <= i < |ws| ==> !HasBareWord(s, ws[i])
  }

  ghost predicate NoCall(s: Sql, ws: seq<Sql>, prefix: bool) {
    forall i :: 0 <= i < |ws| ==> !HasCall(s, ws[i], prefix)
  }

  method CallsSideEffectingFunction(upper: Sql) returns (r: Result<Sql>)
    ensures r.Err? <==> NoCall(upper, DENIED_FUNCTIONS, false) && NoCall(upper, DENIED_PREFIXES, true)
    ensures r.Ok? ==>
      || (r.value in DENIED_FUNCTIONS && HasCall(upper, r.value, false))
      || (r.value in DENIED_PREFIXES && HasCall(upper, r.value, true))
  {
    hide HasCall, IsWord, IsKeyword;
    ListedAreWords();
    for i := 0 to |DENIED_FUNCTIONS|
      invariant forall j :: 0 <= j < i ==> !HasCall(upper, DENIED_FUNCTIONS[j], false)
    {
      KeywordIsWord(DENIED_FUNCTIONS[i]);
      var bad := HasFunctionCall(upper, DENIED_FUNCTIONS[i], false);
      if bad {
        return Ok(DENIED_FUNCTIONS[i]);
      }
    }
    for i := 0 to |DENIED_PREFIXES|
      invariant forall j :: 0 <= j < i ==> !HasCall(upper, DENIED_PREFIXES[j], true)
    {
      KeywordIsWord(DENIED_PREFIXES[i]);
      var bad := HasFunctionCall(upper, DENIED_PREFIXES[i], true);
      if bad {
        return Ok(DENIED_PREFIXES[i]);
      }
    }
    return Err;
  }

  lemma {:induction false} ListedNowhere(s: Sql, t: Lexeme)
    requires t in Lexemes(s)
    requires NoWord(s, WRITE_KEYWORDS) && NoBareWord(s, FUNCTION_LIKE)
    requires NoCall(s, DENIED_FUNCTIONS, false) && NoCall(s, DENIED_PREFIXES, true)
    ensures !Forbidden(t)
  {
    hide Lexemes, Opens, WRITE_KEYWORDS, FUNCTION_LIKE, DENIED_FUNCTIONS, DENIED_PREFIXES;
  }

  lemma {:induction false} ReadOnlyLists(s: Sql)
    requires ReadOnly(s)
    ensures NoWord(s, WRITE_KEYWORDS) && NoBareWord(s, FUNCTION_LIKE)
    ensures NoCall(s, DENIED_FUNCTIONS, false) && NoCall(s, DENIED_PREFIXES, true)
  {
    hide Lexemes, Opens, WRITE_KEYWORDS, FUNCTION_LIKE, DENIED_FUNCTIONS, DENIED_PREFIXES;
    forall i | 0 <= i < |DENIED_PREFIXES|
      ensures !HasCall(s, DENIED_PREFIXES[i], true)
    {
      assert DENIED_PREFIXES[i] in DENIED_PREFIXES;
    }
  }

  /** No list finds a hit exactly when no token is forbidden. */
  lemma {:induction false} ListsAreTokens(s: Sql)
    ensures ReadOnly(s) <==>
      && NoWord(s, WRITE_KEYWORDS) && NoBareWord(s, FUNCTION_LIKE)
      && NoCall(s, DENIED_FUNCTIONS, false) && NoCall(s, DENIED_PREFIXES, true)
  {
    hide Lexemes, Opens;
    if NoWord(s, WRITE_KEYWORDS) && NoBareWord(s, FUNCTION_LIKE)
      && NoCall(s, DENIED_FUNCTIONS, false) && NoCall(s, DENIED_PREFIXES, true) {
      forall t | t in Lexemes(s)
        ensures !Forbidden(t)
      {
        ListedNowhere(s, t);
      }
    }
    if ReadOnly(s) {
      ReadOnlyLists(s);
    }
  }

  method CheckNoWriteAnywhere(upper: Sql) returns (r: Verdict)
    ensures r.Allowed? <==> ReadOnly(upper)
    ensures r.Allowed? || r.WriteKeyword? || r.SideEffect?
    ensures r.WriteKeyword? ==>
      || (r.word in WRITE_KEYWORDS && HasWord(upper, r.word))
      || (r.word in FUNCTION_LIKE && HasBareWord(upper, r.word))
    ensures r.SideEffect? ==>
      || (r.name in DENIED_FUNCTIONS && HasCall(upper, r.name, false))
      || (r.name in DENIED_PREFIXES && HasCall(upper, r.name, true))
  {
    hide HasWord, HasBareWord, HasCall, IsWord, IsKeyword, ReadOnly;
    ListedAreWords();
    ListsAreTokens(upper);
    for i := 0 to |WRITE_KEYWORDS|
      invariant forall j :: 0 <= j < i ==> !HasWord(upper, WRITE_KEYWORDS[j])
    {
      KeywordIsWord(WRITE_KEYWORDS[i]);
      var found := ContainsWord(upper, WRITE_KEYWORDS[i]);
      if found {
        return WriteKeyword(WRITE_KEYWORDS[i]);
      }
    }
    for i := 0 to |FUNCTION_LIKE|
      invariant forall j :: 0 <= j < i ==> !HasBareWord(upper, FUNCTION_LIKE[j])
    {
      KeywordIsWord(FUNCTION_LIKE[i]);
      var found := ContainsWordNotCall(upper, FUNCTION_LIKE[i]);
      if found {
        return WriteKeyword(FUNCTION_LIKE[i]);
      }
    }
    var call := CallsSideEffectingFunction(upper);
    return if call.Ok? then SideEffect(call.value) else Allowed;
  }

  // -------------------------------------------------------------------------
  // PRAGMA
  // -------------------------------------------------------------------------

  const PRAGMAS_WITH_ARGUMENT: set<Sql> := {
    "TABLE_INFO", "TABLE_XINFO", "TABLE_LIST", "INDEX_LIST", "INDEX_INFO", "INDEX_XINFO",
    "FOREIGN_KEY_LIST", "FOREIGN_KEY_CHECK"
  }

  const SCALAR_PRAGMAS: set<Sql> := {
    "DATABASE_LIST", "COMPILE_OPTIONS", "COLLATION_LIST", "JOURNAL_MODE", "PAGE_COUNT",
    "PAGE_SIZE", "MAX_PAGE_COUNT", "FREELIST_COUNT", "ENCODING", "DATA_VERSION",
    "SCHEMA_VERSION", "USER_VERSION", "APPLICATION_ID"
  }

  datatype Pragma = Pragma(name: Sql, rest: Sql)

  /** The identifier behind the last of the leading "schema." qualifiers, and what follows it. */
  function PragmaName(s: Sql): Pragma {
    var k := RunLength(s);
    if k < |s| && s[k] == '.' then PragmaName(s[k + 1..]) else Pragma(s[..k], s[k..])
  }

  /** The name stands behind qualifiers that each end in a dot, and is followed by neither a dot nor an identifier byte. */
  ghost predicate SplitsAt(s: Sql, q: nat, p: Pragma) {
    && q <= |s| && s[q..] == p.name + p.rest
    && (forall i :: 0 <= i < q ==> IsIdent(s[i]) || s[i] == '.')
    && (q > 0 ==> s[q - 1] == '.')
    && (forall i :: 0 <= i < |p.name| ==> IsIdent(p.name[i]))
    && (p.rest != [] ==> !IsIdent(p.rest[0]) && p.rest[0] != '.')
  }

  lemma {:induction false} QualifierSplits(s: Sql, k: nat, q: nat, p: Pragma)
    requires k < |s| && s[k] == '.' && (forall i :: 0 <= i < k ==> IsIdent(s[i])) && SplitsAt(s[k + 1..], q, p)
    ensures SplitsAt(s, k + 1 + q, p)
  {
    assert s[k + 1 + q..] == s[k + 1..][q..];
    forall i | 0 <= i < k + 1 + q
      ensures IsIdent(s[i]) || s[i] == '.'
    {
      assert i > k ==> s[i] == s[k + 1..][i - k - 1];
    }
  }

  lemma {:induction false} PragmaSplits(s: Sql) returns (q: nat)
    ensures SplitsAt(s, q, PragmaName(s))
  {
    hide RunLength;
    var k := RunLength(s);
    if k < |s| && s[k] == '.' {
      var q' := PragmaSplits(s[k + 1..]);
      q := k + 1 + q';
      QualifierSplits(s, k, q', PragmaName(s[k + 1..]));
    } else {
      q := 0;
      assert s[0..] == s[..k] + s[k..];
    }
  }

  /** The name and the rest are determined by that description. */
  lemma {:induction false} SplitIsUnique(s: Sql, q1: nat, p1: Pragma, q2: nat, p2: Pragma)
    requires SplitsAt(s, q1, p1) && SplitsAt(s, q2, p2)
    ensures p1 == p2
  {
    SplitOrder(s, q1, p1, q2, p2);
    SplitOrder(s, q2, p2, q1, p1);
    NameEnds(s, q1, p1, p2);
    NameEnds(s, q2, p2, p1);
    assert p1.name == s[q1..][..|p1.name|] && p2.name == s[q1..][..|p2.name|];
    assert p1.rest == s[q1..][|p1.name|..] && p2.rest == s[q1..][|p2.name|..];
  }

  lemma {:induction false} SplitOrder(s: Sql, q1: nat, p1: Pragma, q2: nat, p2: Pragma)
    requires SplitsAt(s, q1, p1) && SplitsAt(s, q2, p2)
    ensures q2 <= q1
  {
    var e := q1 + |p1.name|;
    assert forall i :: q1 <= i < e ==> s[i] == s[q1..][i - q1] == p1.name[i - q1];
    assert p1.rest != [] ==> s[e] == s[q1..][|p1.name|] == p1.rest[0];
  }

  lemma {:induction false} NameEnds(s: Sql, q: nat, p1: Pragma, p2: Pragma)
    requires SplitsAt(s, q, p1) && SplitsAt(s, q, p2)
    ensures |p1.name| <= |p2.name|
  {
    var e := |p2.name|;
    assert p2.rest != [] ==> s[q..][e] == p2.rest[0];
    assert forall i :: 0 <= i < |p1.name| ==> s[q..][i] == p1.name[i];
  }

  method ScanPragmaName(s: Sql) returns (p: Pragma)
    ensures p == PragmaName(s)
    decreases |s|
  {
    hide RunLength;
    assert s[0..] == s;
    var i := SkipIdent(s, 0);
    if i < |s| && s[i] == '.' {
      p := ScanPragmaName(s[i + 1..]);
    } else {
      p := Pragma(s[..i], s[i..]);
    }
  }

  const PRAGMA: Sql := "PRAGMA"
  const EXPLAIN: Sql := "EXPLAIN"

  /** Bare, or, for the PRAGMAs that look a name up, followed by a parenthesis. */
  predicate PermittedPragma(upper: Sql)
    requires PRAGMA <= upper
  {
    var p := PragmaName(TrimSpace(upper[|PRAGMA|..]));
    var after := TrimSpace(p.rest);
    || (p.name in PRAGMAS_WITH_ARGUMENT && (after == [] || after[0] == '('))
    || (p.name in SCALAR_PRAGMAS && after == [])
  }

  method ValidateReadOnlyPragma(upper: Sql) returns (r: Verdict)
    requires PRAGMA <= upper
    ensures r.Allowed? <==> PermittedPragma(upper)
    ensures r.Allowed? || r.PragmaNameMissing? || r.PragmaNotReadForm? || r.PragmaUnknown?
    ensures var name := PragmaName(TrimSpace(upper[|PRAGMA|..])).name;
      && (r.PragmaNameMissing? <==> name == [])
      && (r.PragmaUnknown? <==> name != [] && name !in PRAGMAS_WITH_ARGUMENT && name !in SCALAR_PRAGMAS)
  {
    hide PragmaName, TrimSpace;
    var p := ScanPragmaName(TrimSpace(upper[|PRAGMA|..]));
    if p.name == [] {
      return PragmaNameMissing;
    }
    var after := TrimSpace(p.rest);
    if p.name in PRAGMAS_WITH_ARGUMENT {
      return if after == [] || after[0] == '(' then Allowed else PragmaNotReadForm;
    }
    if p.name in SCALAR_PRAGMAS {
      return if after == [] then Allowed else PragmaNotReadForm;
    }
    return PragmaUnknown;
  }

  // -------------------------------------------------------------------------
  // The whole query
  // -------------------------------------------------------------------------

  function Upper(s: Sql): Sql {
    seq(|s|, i requires 0 <= i < |s| => if 'a' <= s[i] <= 'z' then s[i] - 'a' + 'A' else s[i])
  }

  /** TrimRight of semicolons and spaces. */
  function TrimStatement(s: Sql): Sql {
    if s != [] && (s[|s| - 1] == ';' || s[|s| - 1] == ' ') then TrimStatement(s[..|s| - 1]) else s
  }

  /** What EXPLAIN explains: the text behind the keyword and one parenthesized list of options. */
  function StripExplainPrefix(upper: Sql): Sql
    requires EXPLAIN <= upper
  {
    var inner := TrimSpace(upper[|EXPLAIN|..]);
    if inner != [] && inner[0] == '(' then
      var close := Index(inner, ")", 0);
      if close >= 0 then TrimSpace(inner[close + 1..]) else inner
    else inner
  }

  predicate IsReadOnlyKeyword(upper: Sql) {
    "SELECT" <= upper || "WITH" <= upper || "SHOW" <= upper || "DESCRIBE" <= upper || "DESC " <= upper || PRAGMA <= upper
  }

  ghost predicate PermittedStatement(upper: Sql) {
    if "SELECT" <= upper || "WITH" <= upper then ReadOnly(upper)
    else if EXPLAIN <= upper then
      !HasWord(upper, "ANALYZE") && var inner := StripExplainPrefix(upper); IsReadOnlyKeyword(inner) && ReadOnly(inner)
    else if PRAGMA <= upper then PermittedPragma(upper)
    else "SHOW" <= upper || "DESCRIBE" <= upper || "DESC " <= upper
  }

  ghost predicate PermittedText(normalized: Sql) {
    var cleaned := TrimStatement(normalized);
    cleaned != [] && ';' !in cleaned && PermittedStatement(Upper(cleaned))
  }

  ghost predicate Permitted(query: Sql) {
    TrimSpace(query) != [] && Normalized(query).Ok? && PermittedText(Normalized(query).value)
  }

  method ValidateStatement(upper: Sql) returns (r: Verdict)
    ensures r.Allowed? <==> PermittedStatement(upper)
    ensures !r.NoStatement? && !r.MultipleStatements?
    ensures EXPLAIN <= upper ==> (r.ExplainAnalyze? <==> HasWord(upper, "ANALYZE"))
    ensures r.WriteKeyword? || r.SideEffect? ==> "SELECT" <= upper || "WITH" <= upper || EXPLAIN <= upper
    ensures r.PragmaNameMissing? || r.PragmaNotReadForm? || r.PragmaUnknown? ==> PRAGMA <= upper
    ensures r.NotSelect? <==> !IsReadOnlyKeyword(upper) && !(EXPLAIN <= upper)
  {
    hide ReadOnly, HasWord, StripExplainPrefix, PermittedPragma;
    assert ("SELECT" <= upper ==> upper[0] == 'S') && ("WITH" <= upper ==> upper[0] == 'W');
    assert EXPLAIN <= upper ==> upper[0] == 'E';
    if "SELECT" <= upper || "WITH" <= upper {
      r := CheckNoWriteAnywhere(upper);
    } else if EXPLAIN <= upper {
      AdministrationKeywords();
      KeywordIsWord("ANALYZE");
      var analyze := ContainsWord(upper, "ANALYZE");
      if analyze {
        return ExplainAnalyze;
      }
      var inner := StripExplainPrefix(upper);
      if inner == [] {
        return EmptyExplain;
      }
      if !IsReadOnlyKeyword(inner) {
        return ExplainNotRead;
      }
      r := CheckNoWriteAnywhere(inner);
    } else if "SHOW" <= upper {
      return Allowed;
    } else if "DESCRIBE" <= upper || "DESC " <= upper {
      return Allowed;
    } else if PRAGMA <= upper {
      r := ValidateReadOnlyPragma(upper);
    } else {
      return NotSelect;
    }
  }

  method ValidateReadOnlyGeneric(query: Sql) returns (r: Verdict)
    ensures r.Allowed? <==> Permitted(query)
    ensures TrimSpace(query) == [] ==> r == EmptyQuery
    ensures TrimSpace(query) != [] && Normalized(query).Err? ==> r == Malformed
    ensures TrimSpace(query) != [] && Normalized(query).Ok? ==>
      var cleaned := TrimStatement(Normalized(query).value);
      && (r == NoStatement <==> cleaned == [])
      && (r == MultipleStatements <==> ';' in cleaned)
  {
    hide Normalized, TrimSpace, TrimStatement, PermittedStatement;
    if TrimSpace(query) == [] {
      return EmptyQuery;
    }
    var normalized := SqlLexer.NormalizeSQL(query);
    if normalized.Err? {
      return Malformed;
    }
    var cleaned := TrimStatement(normalized.value);
    if cleaned == [] {
      return NoStatement;
    }
    if ';' in cleaned {
      return MultipleStatements;
    }
    r := ValidateStatement(Upper(cleaned));
  }

  method HasLimitGeneric(query: Sql) returns (found: bool)
    ensures found <==> Normalized(query).Ok? && HasWord(Upper(Normalized(query).value), "LIMIT")
  {
    hide Normalized, HasWord, Upper;
    var normalized := SqlLexer.NormalizeSQL(query);
    if normalized.Err? {
      return false;
    }
    found := ContainsWord(Upper(normalized.value), "LIMIT");
  }

  // -------------------------------------------------------------------------
  // The text of a literal cannot change the verdict
  // -------------------------------------------------------------------------

  lemma {:induction false} TrimLeftKeeps(s: Sql, i: nat)
    requires i < |s| && !IsSpace(s[i])
    ensures s[i] in TrimLeft(s)
  {
    if IsSpace(s[0]) {
      TrimLeftKeeps(s[1..], i - 1);
    }
  }

  lemma {:induction false} TrimRightKeeps(s: Sql, i: nat)
    requires i < |s| && !IsSpace(s[i])
    ensures s[i] in TrimRight(s)
  {
    if IsSpace(s[|s| - 1]) {
      TrimRightKeeps(s[..|s| - 1], i);
    }
  }

  lemma {:induction false} NotBlank(s: Sql, i: nat)
    requires i < |s| && !IsSpace(s[i])
    ensures TrimSpace(s) != []
  {
    hide TrimLeft, TrimRight;
    TrimLeftKeeps(s, i);
    var t := TrimLeft(s);
    var j :| 0 <= j < |t| && t[j] == s[i];
    TrimRightKeeps(t, j);
  }

  /** Whether a query is permitted does not depend on what its literals say. */
  lemma {:induction false} VerdictIgnoresLiterals(pre: Sql, body: Sql, body': Sql, post: Sql)
    requires Reaches(pre + (Literal(body) + post), |pre|) && Closes(body, post) && Harmless(body')
    ensures Permitted(pre + (Literal(body') + post)) <==> Permitted(pre + (Literal(body) + post))
  {
    hide Normalized, TrimSpace, PermittedText, Reaches, Closes;
    var s, s' := pre + (Literal(body) + post), pre + (Literal(body') + post);
    assert s[|pre|] == '\'' && s'[|pre|] == '\'';
    NotBlank(s, |pre|);
    NotBlank(s', |pre|);
    LiteralOpacity(pre, body, body', post);
  }
}
