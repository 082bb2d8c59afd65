/**
 Whitespace in the normal form of internal/guardrail/sql_normalize.go.

 Runs of spaces collapse and the ends are trimmed on every input. That every other
 whitespace character becomes a space as well, as the doc comment of normalizeSQL has
 it, is not so: quoted identifiers and executed comments are copied as they stand.
 `OddFreeUntrimmed` says when none is copied, `SqlInk` when none is left in the result.
 */
module SqlSpaces {
  import opened SqlNormalize

  ghost predicate SingleSpaced(t: Sql) {
    forall i :: 0 < i < |t| && t[i] == ' ' ==> t[i - 1] != ' '
  }

  /** The text without its spaces. */
  function Letters(s: Sql): Sql {
    if s == [] then [] else (if s[0] == ' ' then [] else [s[0]]) + Letters(s[1..])
  }

  lemma {:induction false} CollapsedShape(s: Sql, prevSpace: bool)
    ensures var t := Collapsed(s, prevSpace);
      && SingleSpaced(t) && (prevSpace && t != [] ==> t[0] != ' ')
      && Letters(t) == Letters(s)
  {
    CollapsedSingle(s, prevSpace);
    CollapsedLetters(s, prevSpace);
  }

  lemma {:induction false} CollapsedSingle(s: Sql, prevSpace: bool)
    ensures var t := Collapsed(s, prevSpace); SingleSpaced(t) && (prevSpace && t != [] ==> t[0] != ' ')
  {
    if s != [] {
      var rest := Collapsed(s[1..], s[0] == ' ');
      CollapsedSingle(s[1..], s[0] == ' ');
      assert [] + rest == rest;
    }
  }

  lemma {:induction false} LettersCons(c: char, t: Sql)
    ensures Letters([c] + t) == if c == ' ' then Letters(t) else [c] + Letters(t)
  {
    assert ([c] + t)[1..] == t && [] + Letters(t) == Letters(t);
  }

  lemma {:induction false} CollapsedLetters(s: Sql, prevSpace: bool)
    ensures Letters(Collapsed(s, prevSpace)) == Letters(s)
  {
    if s != [] {
      hide Letters;
      var rest := Collapsed(s[1..], s[0] == ' ');
      CollapsedLetters(s[1..], s[0] == ' ');
      assert s == [s[0]] + s[1..] && [] + rest == rest;
      LettersCons(s[0], s[1..]);
      LettersCons(s[0], rest);
    }
  }

  lemma {:induction false} TrimmedLeft(s: Sql) returns (a: nat)
    ensures a <= |s| && TrimLeft(s) == s[a..] && (a < |s| ==> !IsSpace(s[a]))
    ensures forall i :: 0 <= i < a ==> IsSpace(s[i])
  {
    if s != [] && IsSpace(s[0]) {
      var a' := TrimmedLeft(s[1..]);
      a := a' + 1;
    } else {
      a := 0;
    }
  }

  lemma {:induction false} TrimmedRight(s: Sql) returns (b: nat)
    ensures b <= |s| && TrimRight(s) == s[..b] && (b > 0 ==> !IsSpace(s[b - 1]))
    ensures forall i :: b <= i < |s| ==> IsSpace(s[i])
  {
    if s != [] && IsSpace(s[|s| - 1]) {
      b := TrimmedRight(s[..|s| - 1]);
      assert s[..|s| - 1][..b] == s[..b];
    } else {
      b := |s|;
    }
  }

  /** Trimming takes whitespace off both ends, all of it and nothing else. */
  lemma {:induction false} TrimmedBoth(s: Sql) returns (a: nat, b: nat)
    ensures a <= b <= |s| && TrimSpace(s) == s[a..b]
    ensures forall i :: 0 <= i < |s| && (i < a || b <= i) ==> IsSpace(s[i])
    ensures a < b ==> !IsSpace(s[a]) && !IsSpace(s[b - 1])
  {
    hide TrimLeft, TrimRight;
    a := TrimmedLeft(s);
    var n := TrimmedRight(s[a..]);
    b := a + n;
    assert s[a..][..n] == s[a..b];
    forall i | 0 <= i < |s| && (i < a || b <= i)
      ensures IsSpace(s[i])
    {
      assert b <= i ==> s[i] == s[a..][i - a];
    }
  }

  /** The words of a text: what stands between its spaces. */
  function Fields(s: Sql): seq<Sql>
    decreases |s|
  {
    if s == [] then []
    else if s[0] == ' ' then Fields(s[1..])
    else
      var k := FieldLength(s);
      [s[..k]] + Fields(s[k..])
  }

  function FieldLength(s: Sql): (k: nat)
    ensures k <= |s| && (k < |s| ==> s[k] == ' ') && forall i :: 0 <= i < k ==> s[i] != ' '
    ensures s != [] && s[0] != ' ' ==> k > 0
  {
    if s == [] || s[0] == ' ' then 0 else 1 + FieldLength(s[1..])
  }

  lemma {:induction false} FieldKept(s: Sql, k: nat, prevSpace: bool)
    requires 0 < k <= |s| && forall i :: 0 <= i < k ==> s[i] != ' '
    ensures Collapsed(s, prevSpace) == s[..k] + Collapsed(s[k..], false)
    decreases k
  {
    if k == 1 {
      assert s[..1] == [s[0]];
    } else {
      FieldKept(s[1..], k - 1, false);
      assert s[1..][k - 1..] == s[k..] && [s[0]] + s[1..][..k - 1] == s[..k];
    }
  }

  lemma {:induction false} FirstField(w: Sql, rest: Sql)
    requires w != [] && ' ' !in w && (rest != [] ==> rest[0] == ' ')
    ensures Fields(w + rest) == [w] + Fields(rest)
  {
    var s := w + rest;
    var k := FieldLength(s);
    forall i | 0 <= i < |w|
      ensures s[i] != ' '
    {
      assert s[i] == w[i] && w[i] in w;
    }
    assert rest != [] ==> s[|w|] == rest[0];
    assert k == |w|;
    assert s[..k] == w && s[k..] == rest;
  }

  /** Collapsing keeps the words and their order: it neither joins two nor splits one. */
  lemma {:induction false} CollapsedFields(s: Sql, prevSpace: bool)
    ensures Fields(Collapsed(s, prevSpace)) == Fields(s)
    decreases |s|
  {
    if s == [] {
    } else if s[0] == ' ' {
      CollapsedFields(s[1..], true);
      var rest := Collapsed(s[1..], true);
      assert ([' '] + rest)[1..] == rest && [] + rest == rest;
    } else {
      var k := FieldLength(s);
      CollapsedFields(s[k..], false);
      FieldKept(s, k, prevSpace);
      CollapsedHead(s[k..]);
      hide Collapsed, FieldLength;
      assert ' ' !in s[..k];
      FirstField(s[..k], Collapsed(s[k..], false));
    }
  }

  lemma {:induction false} CollapsedHead(s: Sql)
    ensures Collapsed(s, false) != [] ==> s != [] && Collapsed(s, false)[0] == s[0]
  {
  }

  /** The normal form has no run of spaces and neither starts nor ends in whitespace. */
  lemma {:induction false} NormalizedShape(query: Sql)
    requires Normalized(query).Ok?
    ensures var v := Normalized(query).value;
      && SingleSpaced(v)
      && (v != [] ==> !IsSpace(v[0]) && !IsSpace(v[|v| - 1]))
  {
    hide Lexed, Collapsed, TrimLeft, TrimRight, Letters;
    var t := Collapsed(Lexed(query).value, false);
    CollapsedShape(Lexed(query).value, false);
    var a := TrimmedLeft(t);
    var b := TrimmedRight(t[a..]);
    assert t[a..][..b] == t[a..a + b];
  }

  // --- whitespace other than the space ------------------------------------------------------

  predicate IsOdd(c: char) { IsSpace(c) && c != ' ' }

  predicate OddFree(t: Sql) {
    forall i :: 0 <= i < |t| ==> !IsOdd(t[i])
  }

  /** The token at the head of s is copied, and there is odd whitespace in what is copied. */
  predicate CopiesOdd(s: Sql)
    requires s != []
  {
    if s[0] == '"' || s[0] == '`' then
      var k := QuoteEnd(s[1..], s[0], false);
      k >= 0 && !OddFree(s[1..k])
    else if s[0] == '/' && |s| > 1 && s[1] == '*' then
      var k := Index(s, "*/", 2);
      k > 2 && s[2] == '!' && !OddFree(s[3..k])
    else false
  }

  lemma {:induction false} OddFreeConcat(a: Sql, b: Sql)
    ensures OddFree(a + b) <==> OddFree(a) && OddFree(b)
  {
    forall i | 0 <= i < |b|
      ensures OddFree(a + b) ==> !IsOdd(b[i])
    {
      assert (a + b)[|a| + i] == b[i];
    }
    forall i | 0 <= i < |a|
      ensures OddFree(a + b) ==> !IsOdd(a[i])
    {
      assert (a + b)[i] == a[i];
    }
  }

  lemma {:induction false} UndoubledOdd(s: Sql, q: char)
    requires !IsOdd(q)
    ensures OddFree(Undoubled(s, q)) <==> OddFree(s)
  {
    if s != [] {
      var n := if |s| > 1 && s[0] == q && s[1] == q then 2 else 1;
      UndoubledOdd(s[n..], q);
      assert Undoubled(s, q) == [s[0]] + Undoubled(s[n..], q);
      assert OddFree([s[0]]) <==> OddFree(s[..n]) by {
        assert [s[0]][0] == s[0] == s[..n][0];
        assert n == 2 ==> s[..n][1] == q;
      }
      OddFreeConcat([s[0]], Undoubled(s[n..], q));
      OddFreeConcat(s[..n], s[n..]);
      assert s == s[..n] + s[n..];
    }
  }

  lemma {:induction false} DropDigitsOdd(s: Sql)
    ensures OddFree(DropDigits(s)) <==> OddFree(s)
  {
    if s != [] && IsDigit(s[0]) {
      DropDigitsOdd(s[1..]);
      OddFreeConcat(s[..1], s[1..]);
      assert s == s[..1] + s[1..];
    }
  }

  lemma {:induction false} PaddedOdd(t: Sql)
    ensures OddFree(" " + t + " ") <==> OddFree(t)
  {
    OddFreeConcat(" ", t);
    OddFreeConcat(" " + t, " ");
  }

  lemma {:induction false} QuotedOdd(s: Sql)
    requires s != [] && (s[0] == '"' || s[0] == '`') && TokenAt(s).Ok?
    ensures OddFree(TokenAt(s).value.out) <==> !CopiesOdd(s)
  {
    hide QuoteEnd, Undoubled, OddFree;
    var k := QuoteEnd(s[1..], s[0], false);
    UndoubledOdd(s[1..k], s[0]);
    PaddedOdd(Undoubled(s[1..k], s[0]));
  }

  lemma {:induction false} CommentOdd(s: Sql)
    requires |s| > 1 && s[0] == '/' && s[1] == '*' && TokenAt(s).Ok?
    ensures OddFree(TokenAt(s).value.out) <==> !CopiesOdd(s)
  {
    hide Index, DropDigits;
    var k := Index(s, "*/", 2);
    var body := s[2..k];
    PaddedOdd(Executed(body));
    if body != [] && body[0] == '!' {
      DropDigitsOdd(body[1..]);
      assert body[1..] == s[3..k];
    }
  }

  lemma {:induction false} TokenOdd(s: Sql)
    requires s != [] && TokenAt(s).Ok?
    ensures OddFree(TokenAt(s).value.out) <==> !CopiesOdd(s)
  {
    if s[0] == '"' || s[0] == '`' {
      QuotedOdd(s);
    } else if s[0] == '/' && |s| > 1 && s[1] == '*' {
      CommentOdd(s);
    }
  }

  ghost predicate NothingOddCopied(s: Sql) {
    forall n :: 0 <= n < |s| && Reaches(s, n) ==> !CopiesOdd(s[n..])
  }

  lemma {:induction false} NothingOddStep(s: Sql)
    requires s != [] && TokenAt(s).Ok?
    ensures NothingOddCopied(s) <==> !CopiesOdd(s) && NothingOddCopied(s[TokenAt(s).value.length..])
  {
    hide TokenAt, CopiesOdd;
    var m := TokenAt(s).value.length;
    assert s[0..] == s && Reaches(s, 0);
    forall n | 0 < n < |s| && Reaches(s, n)
      ensures n >= m && Reaches(s[m..], n - m) && s[m..][n - m..] == s[n..]
    {
    }
    forall n | 0 <= n < |s[m..]| && Reaches(s[m..], n)
      ensures Reaches(s, m + n) && s[m..][n..] == s[m + n..]
    {
    }
  }

  lemma {:induction false} LexedOdd(s: Sql)
    requires Lexed(s).Ok?
    ensures OddFree(Lexed(s).value) <==> NothingOddCopied(s)
  {
    if s != [] {
      LexedOddStep(s);
      LexedOdd(s[TokenAt(s).value.length..]);
    }
  }

  lemma {:induction false} LexedOddStep(s: Sql)
    requires s != [] && Lexed(s).Ok?
    ensures TokenAt(s).Ok? && Lexed(s[TokenAt(s).value.length..]).Ok?
    ensures var rest := s[TokenAt(s).value.length..];
      && (OddFree(Lexed(s).value) <==> !CopiesOdd(s) && OddFree(Lexed(rest).value))
      && (NothingOddCopied(s) <==> !CopiesOdd(s) && NothingOddCopied(rest))
  {
    hide TokenAt, CopiesOdd, OddFree;
    TokenOdd(s);
    NothingOddStep(s);
    var t := TokenAt(s).value;
    OddFreeConcat(t.out, Lexed(s[t.length..]).value);
  }

  lemma {:induction false} SpaceOddFree()
    ensures OddFree([' '])
  {
  }

  lemma {:induction false} CollapsedOdd(s: Sql, prevSpace: bool)
    ensures OddFree(Collapsed(s, prevSpace)) <==> OddFree(s)
  {
    hide OddFree;
    if s == [] {
      assert Collapsed(s, prevSpace) == s;
    } else {
      var rest := Collapsed(s[1..], s[0] == ' ');
      CollapsedOdd(s[1..], s[0] == ' ');
      assert s == [s[0]] + s[1..];
      OddFreeConcat([s[0]], s[1..]);
      OddFreeConcat([s[0]], rest);
      if s[0] == ' ' {
        SpaceOddFree();
        assert [] + rest == rest;
      }
    }
  }

  /** Nothing odd is copied exactly when the text is free of it before its ends are trimmed. */
  lemma {:induction false} OddFreeUntrimmed(query: Sql)
    requires Lexed(query).Ok?
    ensures OddFree(Collapsed(Lexed(query).value, false)) <==> NothingOddCopied(query)
  {
    CollapsedOdd(Lexed(query).value, false);
    LexedOdd(query);
  }

  lemma {:induction false} TabCopied()
    ensures Lexed("\"a\tb\"") == Ok(" a\tb ")
  {
    var s := "\"a\tb\"";
    assert s[1..] == "a\tb\"" && "a\tb\""[1..] == "\tb\"" && "\tb\""[1..] == "b\"" && "b\""[1..] == "\"";
    assert QuoteEnd("b\"", '"', false) == 2;
    assert QuoteEnd("\tb\"", '"', false) == 3;
    assert QuoteEnd(s[1..], '"', false) == 4;
    assert s[1..4] == "a\tb" && "a\tb"[1..] == "\tb" && "\tb"[1..] == "b";
    assert Undoubled("b", '"') == "b";
    assert Undoubled("\tb", '"') == "\tb";
    assert Undoubled("a\tb", '"') == "a\tb";
    assert " " + "a\tb" + " " == " a\tb ";
    assert TokenAt(s) == Ok(Token(5, " a\tb "));
    assert s[5..] == [] && " a\tb " + [] == " a\tb ";
  }

  /** A tab inside a quoted identifier reaches the normal form. */
  lemma {:induction false} TabSurvives()
    ensures Normalized("\"a\tb\"") == Ok("a\tb")
  {
    hide Lexed;
    TabCopied();
    var out := " a\tb ";
    assert out[1..] == "a\tb " && "a\tb "[1..] == "\tb " && "\tb "[1..] == "b " && "b "[1..] == " ";
    assert Collapsed("b ", false) == "b ";
    assert Collapsed("\tb ", false) == "\tb ";
    assert Collapsed("a\tb ", true) == "a\tb ";
    assert "a\tb "[..3] == "a\tb";
    assert TrimRight("a\tb ") == "a\tb";
  }
}
