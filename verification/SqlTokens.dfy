/**
 The word scanners of internal/guardrail (sql_normalize.go, sql_generic.go) against a
 tokenizer.

 A scanner looks for a word with strings.Index and, when a hit is not delimited, goes on
 behind the hit. `Lexemes` cuts the same text into its maximal identifier runs, each with
 the text that follows it. Every scanner answers exactly what the list of lexemes says,
 for every text and every word made of identifier bytes, which all the words the
 guardrail looks for are.
 */
module SqlTokens {
  import opened SqlNormalize

  datatype Lexeme = Lexeme(text: Sql, rest: Sql)

  predicate IsWord(w: Sql) {
    w != [] && forall i :: 0 <= i < |w| ==> IsIdent(w[i])
  }

  /** The length of the identifier run at the head of s. */
  function RunLength(s: Sql): (k: nat)
    ensures k <= |s| && (k < |s| ==> !IsIdent(s[k]))
    ensures forall i :: 0 <= i < k ==> IsIdent(s[i])
  {
    if s == [] || !IsIdent(s[0]) then 0 else 1 + RunLength(s[1..])
  }

  function Lexemes(s: Sql): seq<Lexeme> {
    if s == [] then []
    else if IsIdent(s[0]) then
      var k := RunLength(s);
      [Lexeme(s[..k], s[k..])] + Lexemes(s[k..])
    else Lexemes(s[1..])
  }

  function AfterBlanks(s: Sql, wide: bool): Sql {
    if s != [] && IsBlank(s[0], wide) then AfterBlanks(s[1..], wide) else s
  }

  predicate IsBlank(c: char, wide: bool) {
    c == ' ' || (wide && (c == '\t' || c == '\n' || c == '\r'))
  }

  /** What follows an identifier makes it a call. */
  predicate Opens(rest: Sql, wide: bool) {
    var t := AfterBlanks(rest, wide);
    t != [] && t[0] == '('
  }

  ghost predicate HasWord(s: Sql, w: Sql) {
    exists t :: t in Lexemes(s) && t.text == w
  }

  ghost predicate HasBareWord(s: Sql, w: Sql) {
    exists t :: t in Lexemes(s) && t.text == w && !Opens(t.rest, false)
  }

  predicate Names(t: Lexeme, name: Sql, prefix: bool) {
    if prefix then name <= t.text else t.text == name
  }

  ghost predicate HasCall(s: Sql, name: Sql, prefix: bool) {
    exists t :: t in Lexemes(s) && Names(t, name, prefix) && Opens(t.rest, true)
  }

  // -------------------------------------------------------------------------
  // Lexemes and positions
  // -------------------------------------------------------------------------

  predicate LeftBounded(s: Sql, pos: nat) {
    pos <= |s| && (pos > 0 ==> !IsIdent(s[pos - 1]))
  }

  /** A maximal identifier run starts at pos. */
  predicate Starts(s: Sql, pos: nat) {
    pos < |s| && IsIdent(s[pos]) && LeftBounded(s, pos)
  }

  function LexemeAt(s: Sql, pos: nat): Lexeme
    requires pos <= |s|
  {
    var k := RunLength(s[pos..]);
    Lexeme(s[pos..pos + k], s[pos + k..])
  }

  lemma {:induction false} LexemeShifted(s: Sql, k: nat, pos: nat)
    requires k + pos <= |s|
    ensures LexemeAt(s[k..], pos) == LexemeAt(s, k + pos)
  {
    hide RunLength;
    assert s[k..][pos..] == s[k + pos..];
    var n := RunLength(s[k + pos..]);
    assert s[k..][pos..pos + n] == s[k + pos..k + pos + n];
    assert s[k..][pos + n..] == s[k + pos + n..];
  }

  lemma {:induction false} LexemeListed(s: Sql, pos: nat)
    requires Starts(s, pos)
    ensures LexemeAt(s, pos) in Lexemes(s)
  {
    hide LexemeAt, RunLength;
    var k := if IsIdent(s[0]) then RunLength(s) else 1;
    RunOfHead(s);
    if pos == 0 {
      HeadLexeme(s);
      assert LexemeAt(s, 0) == Lexemes(s)[0];
    } else {
      assert pos >= k;
      assert pos > k ==> s[k..][pos - k - 1] == s[pos - 1];
      LexemeListed(s[k..], pos - k);
      LexemeShifted(s, k, pos - k);
    }
  }

  lemma {:induction false} StartsShifted(s: Sql, k: nat, pos: nat)
    requires 0 < k <= |s| && (k < |s| && IsIdent(s[k]) ==> !IsIdent(s[k - 1])) && Starts(s[k..], pos)
    ensures Starts(s, k + pos)
  {
  }

  lemma {:induction false} ListedStarts(s: Sql, t: Lexeme) returns (pos: nat)
    requires t in Lexemes(s)
    ensures Starts(s, pos) && LexemeAt(s, pos) == t
  {
    hide LexemeAt, RunLength, Starts;
    var k := if IsIdent(s[0]) then RunLength(s) else 1;
    if IsIdent(s[0]) && t == Lexeme(s[..k], s[k..]) {
      pos := 0;
      HeadLexeme(s);
    } else {
      RunOfHead(s);
      var pos' := ListedStarts(s[k..], t);
      pos := k + pos';
      StartsShifted(s, k, pos');
      LexemeShifted(s, k, pos');
    }
  }

  lemma {:induction false} RunOfHead(s: Sql)
    requires s != []
    ensures IsIdent(s[0]) <==> RunLength(s) > 0
  {
  }

  lemma {:induction false} HeadLexeme(s: Sql)
    requires s != [] && IsIdent(s[0])
    ensures Starts(s, 0) && LexemeAt(s, 0) == Lexeme(s[..RunLength(s)], s[RunLength(s)..])
  {
    assert s[0..] == s;
  }

  /** The scanners' test at a position: the word, delimited on both sides. */
  predicate WordAt(s: Sql, w: Sql, pos: nat) {
    && Occurs(s, w, pos) && LeftBounded(s, pos)
    && (pos + |w| < |s| ==> !IsIdent(s[pos + |w|]))
  }

  lemma {:induction false} RunCovers(s: Sql, w: Sql, pos: nat)
    requires IsWord(w) && Occurs(s, w, pos) && LeftBounded(s, pos)
    ensures Starts(s, pos) && w <= LexemeAt(s, pos).text
  {
    var k := RunLength(s[pos..]);
    assert s[pos..][..|w|] == w;
    assert forall i :: 0 <= i < |w| ==> s[pos..][i] == w[i];
    assert |w| <= k;
    assert s[pos..pos + k][..|w|] == s[pos..pos + |w|];
  }

  lemma {:induction false} RunOccurs(s: Sql, w: Sql, pos: nat)
    requires Starts(s, pos) && w <= LexemeAt(s, pos).text
    ensures Occurs(s, w, pos)
  {
    var k := RunLength(s[pos..]);
    assert s[pos..pos + |w|] == s[pos..pos + k][..|w|];
  }

  lemma {:induction false} WordIsLexeme(s: Sql, w: Sql, pos: nat)
    requires IsWord(w)
    ensures WordAt(s, w, pos) <==> Starts(s, pos) && LexemeAt(s, pos).text == w
  {
    hide Occurs;
    if Occurs(s, w, pos) && LeftBounded(s, pos) {
      RunCovers(s, w, pos);
      var k := RunLength(s[pos..]);
      assert |w| < k ==> s[pos..][|w|] == s[pos + |w|];
      assert k < |s[pos..]| ==> s[pos..][k] == s[pos + k];
    } else if Starts(s, pos) && LexemeAt(s, pos).text == w {
      RunOccurs(s, w, pos);
      assert false;
    }
  }

  /** A hit that starts inside another hit has an identifier byte on its left. */
  lemma {:induction false} OverlapNotBounded(s: Sql, w: Sql, pos: nat, q: nat)
    requires IsWord(w) && Occurs(s, w, pos) && pos < q < pos + |w|
    ensures !LeftBounded(s, q)
  {
    assert s[pos..pos + |w|][q - 1 - pos] == s[q - 1];
  }

  // -------------------------------------------------------------------------
  // The scanners
  // -------------------------------------------------------------------------

  lemma {:induction false} NoneSkipped(s: Sql, w: Sql, from: nat, pos: nat)
    requires IsWord(w) && from <= |s| && pos == Index(s, w, from)
    ensures forall q :: from <= q < pos + |w| && q != pos && Occurs(s, w, q) ==> !LeftBounded(s, q)
  {
    forall q | from <= q < pos + |w| && q != pos && Occurs(s, w, q)
      ensures !LeftBounded(s, q)
    {
      OverlapNotBounded(s, w, pos, q);
    }
  }

  method ContainsWord(upper: Sql, word: Sql) returns (found: bool)
    requires IsWord(word)
    ensures found <==> HasWord(upper, word)
  {
    hide Lexemes, Index, Occurs, LexemeAt;
    var from := 0;
    while true
      invariant from <= |upper|
      invariant forall q :: 0 <= q < from ==> !WordAt(upper, word, q)
      decreases |upper| - from
    {
      var pos := Index(upper, word, from);
      if pos < 0 {
        NoWord(upper, word);
        return false;
      }
      NoneSkipped(upper, word, from, pos);
      HitEnds(upper, word, pos);
      from := pos + |word|;
      if pos > 0 && IsIdent(upper[pos - 1]) {
        continue;
      }
      if from < |upper| && IsIdent(upper[from]) {
        continue;
      }
      WordIsLexeme(upper, word, pos);
      LexemeListed(upper, pos);
      return true;
    }
  }

  lemma {:induction false} HitEnds(s: Sql, w: Sql, pos: nat)
    requires Occurs(s, w, pos)
    ensures pos + |w| <= |s|
  {
  }

  lemma {:induction false} NoWord(s: Sql, w: Sql)
    requires IsWord(w) && forall q: nat :: !WordAt(s, w, q)
    ensures !HasWord(s, w)
  {
    hide Lexemes, LexemeAt, Occurs;
    forall t | t in Lexemes(s)
      ensures t.text != w
    {
      var pos := ListedStarts(s, t);
      WordIsLexeme(s, w, pos);
    }
  }

  method SkipBlanks(s: Sql, start: nat, wide: bool) returns (j: nat)
    requires start <= |s|
    ensures start <= j <= |s| && AfterBlanks(s[start..], wide) == s[j..]
    ensures Opens(s[start..], wide) <==> j < |s| && s[j] == '('
  {
    j := start;
    while j < |s| && IsBlank(s[j], wide)
      invariant start <= j <= |s|
      invariant AfterBlanks(s[start..], wide) == AfterBlanks(s[j..], wide)
    {
      assert s[j..][1..] == s[j + 1..];
      j := j + 1;
    }
  }

  method SkipIdent(s: Sql, start: nat) returns (j: nat)
    requires start <= |s|
    ensures j == start + RunLength(s[start..])
  {
    j := start;
    while j < |s| && IsIdent(s[j])
      invariant start <= j <= |s|
      invariant start + RunLength(s[start..]) == j + RunLength(s[j..])
    {
      assert s[j..][1..] == s[j + 1..];
      j := j + 1;
    }
  }

  /** The word as a token that is not a call, at a position. */
  ghost predicate BareAt(s: Sql, w: Sql, pos: nat) {
    WordAt(s, w, pos) && !Opens(s[pos + |w|..], false)
  }

  lemma {:induction false} WordRest(s: Sql, w: Sql, pos: nat)
    requires IsWord(w) && WordAt(s, w, pos)
    ensures LexemeAt(s, pos) == Lexeme(w, s[pos + |w|..])
  {
    WordIsLexeme(s, w, pos);
    assert |s[pos..pos + RunLength(s[pos..])]| == |w|;
  }

  method ContainsWordNotCall(upper: Sql, word: Sql) returns (found: bool)
    requires IsWord(word)
    ensures found <==> HasBareWord(upper, word)
  {
    hide Lexemes, Index, Occurs, LexemeAt, Opens;
    var from := 0;
    while true
      invariant from <= |upper|
      invariant forall q :: 0 <= q < from ==> !BareAt(upper, word, q)
      decreases |upper| - from
    {
      var pos := Index(upper, word, from);
      if pos < 0 {
        NoBareWord(upper, word);
        return false;
      }
      NoneSkipped(upper, word, from, pos);
      HitEnds(upper, word, pos);
      from := pos + |word|;
      if pos > 0 && IsIdent(upper[pos - 1]) {
        continue;
      }
      if from < |upper| && IsIdent(upper[from]) {
        continue;
      }
      var j := SkipBlanks(upper, from, false);
      if j < |upper| && upper[j] == '(' {
        continue;
      }
      WordIsLexeme(upper, word, pos);
      WordRest(upper, word, pos);
      LexemeListed(upper, pos);
      return true;
    }
  }

  lemma {:induction false} NoBareWord(s: Sql, w: Sql)
    requires IsWord(w) && forall q: nat :: !BareAt(s, w, q)
    ensures !HasBareWord(s, w)
  {
    hide Lexemes, LexemeAt, Occurs, Opens;
    forall t | t in Lexemes(s) && t.text == w
      ensures Opens(t.rest, false)
    {
      var pos := ListedStarts(s, t);
      WordIsLexeme(s, w, pos);
      WordRest(s, w, pos);
      assert !BareAt(s, w, pos);
    }
  }

  /** A call of a function so named starts at a position. */
  ghost predicate CallAt(s: Sql, name: Sql, prefix: bool, pos: nat) {
    && Starts(s, pos)
    && Names(LexemeAt(s, pos), name, prefix) && Opens(LexemeAt(s, pos).rest, true)
  }

  lemma {:induction false} CallIsHit(s: Sql, name: Sql, prefix: bool, pos: nat)
    requires CallAt(s, name, prefix, pos)
    ensures Occurs(s, name, pos) && LeftBounded(s, pos)
  {
    RunOccurs(s, name, pos);
  }

  lemma {:induction false} NoCallSkipped(s: Sql, name: Sql, prefix: bool, from: nat, pos: nat)
    requires IsWord(name) && from <= |s| && pos == Index(s, name, from)
    ensures forall q :: from <= q < pos + |name| && q != pos ==> !CallAt(s, name, prefix, q)
  {
    hide Index, CallAt;
    NoneSkipped(s, name, from, pos);
    forall q | from <= q < pos + |name| && q != pos
      ensures !CallAt(s, name, prefix, q)
    {
      if CallAt(s, name, prefix, q) {
        CallIsHit(s, name, prefix, q);
        assert false;
      }
    }
  }

  /** Where the test of hasFunctionCall ends up at a delimited hit: behind the identifier. */
  lemma {:induction false} CallRest(s: Sql, name: Sql, prefix: bool, pos: nat)
    requires IsWord(name) && Occurs(s, name, pos) && LeftBounded(s, pos)
    ensures pos + |name| <= |s| && Starts(s, pos)
    ensures LexemeAt(s, pos).rest == s[pos + |name| + RunLength(s[pos + |name|..])..]
    ensures Names(LexemeAt(s, pos), name, prefix) <==> prefix || !(pos + |name| < |s| && IsIdent(s[pos + |name|]))
  {
    RunCovers(s, name, pos);
    WordIsLexeme(s, name, pos);
    RunSplits(s[pos..], |name|);
    assert s[pos..][|name|..] == s[pos + |name|..];
  }

  lemma {:induction false} RunSplits(s: Sql, n: nat)
    requires n <= RunLength(s)
    ensures RunLength(s) == n + RunLength(s[n..])
  {
    if n > 0 {
      RunSplits(s[1..], n - 1);
      assert s[1..][n - 1..] == s[n..];
    } else {
      assert s[0..] == s;
    }
  }

  method HasFunctionCall(upper: Sql, name: Sql, prefix: bool) returns (found: bool)
    requires IsWord(name)
    ensures found <==> HasCall(upper, name, prefix)
  {
    hide Lexemes, Index, Occurs, LexemeAt, Opens, RunLength;
    var from := 0;
    while true
      invariant from <= |upper|
      invariant forall q :: 0 <= q < from ==> !CallAt(upper, name, prefix, q)
      decreases |upper| - from
    {
      var pos := Index(upper, name, from);
      if pos < 0 {
        NoCall(upper, name, prefix, from);
        return false;
      }
      NoCallSkipped(upper, name, prefix, from, pos);
      HitEnds(upper, name, pos);
      from := pos + |name|;
      if pos > 0 && IsIdent(upper[pos - 1]) {
        continue;
      }
      CallRest(upper, name, prefix, pos);
      var j := pos + |name|;
      if prefix {
        j := SkipIdent(upper, j);
      } else if j < |upper| && IsIdent(upper[j]) {
        continue;
      }
      j := SkipBlanks(upper, j, true);
      if j < |upper| && upper[j] == '(' {
        LexemeListed(upper, pos);
        return true;
      }
    }
  }

  lemma {:induction false} NoCall(s: Sql, name: Sql, prefix: bool, from: nat)
    requires from <= |s| && Index(s, name, from) < 0
    requires forall q :: 0 <= q < from ==> !CallAt(s, name, prefix, q)
    ensures !HasCall(s, name, prefix)
  {
    hide Lexemes, LexemeAt, Occurs, Opens, Index;
    forall t | t in Lexemes(s) && Names(t, name, prefix)
      ensures !Opens(t.rest, true)
    {
      var pos := ListedStarts(s, t);
      RunOccurs(s, name, pos);
      assert !CallAt(s, name, prefix, pos);
    }
  }

  /** An identifier is taken for a call exactly if, blanks aside, a parenthesis follows it. */
  lemma {:induction false} OpensExactly(rest: Sql, wide: bool)
    ensures Opens(rest, wide) <==>
      exists k :: 0 <= k < |rest| && rest[k] == '(' && forall i :: 0 <= i < k ==>
        rest[i] == ' ' || (wide && (rest[i] == '\t' || rest[i] == '\n' || rest[i] == '\r'))
  {
    if rest != [] && IsBlank(rest[0], wide) {
      OpensExactly(rest[1..], wide);
      if Opens(rest, wide) {
        var k :| 0 <= k < |rest[1..]| && rest[1..][k] == '(' && forall i :: 0 <= i < k ==>
          rest[1..][i] == ' ' || (wide && (rest[1..][i] == '\t' || rest[1..][i] == '\n' || rest[1..][i] == '\r'));
        assert rest[k + 1] == '(';
        forall i | 0 <= i < k + 1
          ensures IsBlank(rest[i], wide)
        {
          assert i > 0 ==> rest[i] == rest[1..][i - 1];
        }
      }
      if k :| 0 <= k < |rest| && rest[k] == '(' && forall i :: 0 <= i < k ==> IsBlank(rest[i], wide) {
        assert k > 0 && rest[1..][k - 1] == '(';
      }
    }
  }
}
