/**
 The .env value parser (internal/config/config.go).

 Text is a sequence of code points.  The source scans bytes, but only ever
 compares them with ASCII characters, which no other code point's bytes contain.
 */
module DotEnv {

  type Text = seq<char>

  /** unicode.IsSpace */
  predicate IsSpace(c: char) {
    || c == '\t' || c == '\n' || c == '\U{000B}' || c == '\U{000C}' || c == '\r' || c == ' '
    || c == '\U{0085}' || c == '\U{00A0}' || c == '\U{1680}' || '\U{2000}' <= c <= '\U{200A}'
    || c == '\U{2028}' || c == '\U{2029}' || c == '\U{202F}' || c == '\U{205F}' || c == '\U{3000}'
  }

  function TrimLeft(s: Text): Text {
    if s != [] && IsSpace(s[0]) then TrimLeft(s[1..]) else s
  }

  function TrimRight(s: Text): Text {
    if s != [] && IsSpace(s[|s| - 1]) then TrimRight(s[..|s| - 1]) else s
  }

  function TrimSpace(s: Text): Text {
    TrimRight(TrimLeft(s))
  }

  // -------------------------------------------------------------------------
  // The scanners, as functions of the text still ahead
  // -------------------------------------------------------------------------

  /** How far ahead the closing quote is, or -1. */
  function CloseAhead(s: Text, q: char): int {
    if s == [] then -1
    else if q == '"' && s[0] == '\\' then
      if |s| == 1 then -1 else Beyond(2, CloseAhead(s[2..], q))
    else if s[0] == q then 0
    else Beyond(1, CloseAhead(s[1..], q))
  }

  function Beyond(n: nat, k: int): int { if k < 0 then -1 else n + k }

  function Unescaped(c: char): Text {
    if c == 'n' then ['\n']
    else if c == 't' then ['\t']
    else if c == 'r' then ['\r']
    else if c == '"' || c == '\\' || c == '\'' then [c]
    else ['\\', c]
  }

  function Expanded(s: Text): Text {
    if s == [] then []
    else if s[0] != '\\' || |s| == 1 then [s[0]] + Expanded(s[1..])
    else Unescaped(s[1]) + Expanded(s[2..])
  }

  predicate CommentAt(s: Text, i: nat) {
    0 < i < |s| && s[i] == '#' && (s[i - 1] == ' ' || s[i - 1] == '\t')
  }

  function UpToComment(s: Text, i: nat): Text
    requires i <= |s|
    decreases |s| - i
  {
    if i == |s| then s
    else if CommentAt(s, i) then TrimSpace(s[..i])
    else UpToComment(s, i + 1)
  }

  function Parsed(raw: Text): Text {
    var val := TrimSpace(raw);
    if val == "" then ""
    else if val[0] == '"' || val[0] == '\'' then
      var close := CloseAhead(val[1..], val[0]);
      if close < 0 || 1 + close > |val| then val
      else if val[0] == '"' then Expanded(val[1..1 + close]) else val[1..1 + close]
    else UpToComment(val, 0)
  }

  // -------------------------------------------------------------------------
  // The source's loops
  // -------------------------------------------------------------------------

  method ClosingQuote(val: Text, q: char) returns (end: int)
    requires val != ""
    ensures end == Beyond(1, CloseAhead(val[1..], q))
    ensures end == -1 || (1 <= end < |val| && val[end] == q)
  {
    var i := 1;
    while i < |val|
      invariant 1 <= i
      invariant Beyond(1, CloseAhead(val[1..], q)) == if i <= |val| then Beyond(i, CloseAhead(val[i..], q)) else -1
    {
      if q == '"' && val[i] == '\\' {
        i := i + 2;
        continue;
      }
      if val[i] == q {
        return i;
      }
      i := i + 1;
    }
    return -1;
  }

  method ExpandEscapes(s: Text) returns (b: Text)
    ensures b == Expanded(s)
  {
    if '\\' !in s {
      NothingToExpand(s);
      return s;
    }
    b := [];
    var i := 0;
    hide Expanded;
    while i < |s|
      invariant 0 <= i <= |s|
      invariant Expanded(s) == b + Expanded(s[i..])
    {
      ExpandStep(s, i, b);
      if s[i] != '\\' || i + 1 >= |s| {
        b := b + [s[i]];
        i := i + 1;
      } else {
        var piece := ExpandOne(s[i + 1]);
        b := b + piece;
        i := i + 2;
      }
    }
    NothingToExpand(s[i..]);
  }

  lemma {:induction false} ExpandStep(s: Text, i: nat, b: Text)
    requires i < |s|
    ensures s[i] != '\\' || i + 1 == |s| ==> b + Expanded(s[i..]) == b + [s[i]] + Expanded(s[i + 1..])
    ensures s[i] == '\\' && i + 1 < |s| ==> b + Expanded(s[i..]) == b + Unescaped(s[i + 1]) + Expanded(s[i + 2..])
  {
    assert s[i..][1..] == s[i + 1..];
    assert i + 1 < |s| ==> s[i..][2..] == s[i + 2..];
  }

  /** The switch of expandEscapes. */
  method ExpandOne(c: char) returns (piece: Text)
    ensures piece == Unescaped(c)
  {
    match c {
      case 'n' => return ['\n'];
      case 't' => return ['\t'];
      case 'r' => return ['\r'];
      case _ =>
    }
    if c == '"' || c == '\\' || c == '\'' {
      return [c];
    }
    return ['\\', c];
  }

  lemma {:induction false} NothingToExpand(s: Text)
    requires '\\' !in s
    ensures Expanded(s) == s
  {
    if s != [] {
      NothingToExpand(s[1..]);
    }
  }

  method ParseEnvValue(raw: Text) returns (value: Text)
    ensures value == Parsed(raw)
  {
    var val := TrimSpace(raw);
    if val == "" {
      return "";
    }
    var q := val[0];
    if q == '"' || q == '\'' {
      var end := ClosingQuote(val, q);
      if end > 0 {
        var inner := val[1..end];
        if q == '"' {
          value := ExpandEscapes(inner);
          return;
        }
        return inner;
      }
      return val;
    }
    var i := 0;
    while i < |val|
      invariant 0 <= i <= |val|
      invariant UpToComment(val, 0) == UpToComment(val, i)
    {
      if val[i] == '#' && i > 0 && (val[i - 1] == ' ' || val[i - 1] == '\t') {
        return TrimSpace(val[..i]);
      }
      i := i + 1;
    }
    return val;
  }

  // -------------------------------------------------------------------------
  // Writing a value so that it reads back
  // -------------------------------------------------------------------------

  function EscapedChar(c: char): Text {
    match c
    case '\\' => ['\\', '\\']
    case '"' => ['\\', '"']
    case '\n' => ['\\', 'n']
    case '\t' => ['\\', 't']
    case '\r' => ['\\', 'r']
    case _ => [c]
  }

  function Escaped(s: Text): Text {
    if s == [] then [] else EscapedChar(s[0]) + Escaped(s[1..])
  }

  lemma {:induction false} ExpandsChar(c: char, rest: Text)
    ensures Expanded(EscapedChar(c) + rest) == [c] + Expanded(rest)
  {
    hide Expanded;
    var e := EscapedChar(c);
    var s := e + rest;
    ExpandStep(s, 0, []);
    assert s[0..] == s && [] + Expanded(s) == Expanded(s);
    if |e| == 1 {
      assert s[0] == c && s[1..] == rest;
    } else {
      assert s[0] == '\\' && s[1] == e[1] && s[2..] == rest;
      assert Unescaped(e[1]) == [c];
    }
  }

  lemma {:induction false} ExpandsEscaped(s: Text)
    ensures Expanded(Escaped(s)) == s
  {
    if s != [] {
      ExpandsEscaped(s[1..]);
      ExpandsChar(s[0], Escaped(s[1..]));
    }
  }

  /** The scanner for the quote skips exactly the escapes that Escaped writes. */
  lemma {:induction false} ClosesAfterEscaped(s: Text, tail: Text)
    ensures CloseAhead(Escaped(s) + ['"'] + tail, '"') == |Escaped(s)|
  {
    var e := Escaped(s);
    if s == [] {
      assert (e + ['"'] + tail)[0] == '"';
    } else {
      var rest := Escaped(s[1..]);
      var ahead := e + ['"'] + tail;
      ClosesAfterEscaped(s[1..], tail);
      assert ahead[|e| - |rest|..] == rest + ['"'] + tail;
    }
  }

  lemma {:induction false} ClosesAtFirstQuote(s: Text, tail: Text)
    requires '\'' !in s
    ensures CloseAhead(s + ['\''] + tail, '\'') == |s|
  {
    if s == [] {
      assert (s + ['\''] + tail)[0] == '\'';
    } else {
      ClosesAtFirstQuote(s[1..], tail);
      assert (s + ['\''] + tail)[1..] == s[1..] + ['\''] + tail;
    }
  }

  // --- trimming -------------------------------------------------------------------

  ghost predicate Blank(s: Text) { forall c :: c in s ==> IsSpace(c) }

  lemma {:induction false} TrimLeftBlank(lead: Text, s: Text)
    requires Blank(lead) && s != [] && !IsSpace(s[0])
    ensures TrimLeft(lead + s) == s
  {
    if lead == [] {
      assert lead + s == s;
    } else {
      assert lead[0] in lead && (lead + s)[1..] == lead[1..] + s;
      TrimLeftBlank(lead[1..], s);
    }
  }

  /** Trimming on the right leaves what ends in a non-space alone and cuts its tail short. */
  lemma {:induction false} TrimRightTail(s: Text, tail: Text) returns (kept: Text)
    requires s != [] && !IsSpace(s[|s| - 1])
    ensures TrimRight(s + tail) == s + kept
  {
    if tail == [] {
      assert s + tail == s;
      kept := [];
    } else if IsSpace(tail[|tail| - 1]) {
      assert (s + tail)[..|s + tail| - 1] == s + tail[..|tail| - 1];
      kept := TrimRightTail(s, tail[..|tail| - 1]);
    } else {
      kept := tail;
    }
  }

  function InQuotes(q: char, inner: Text): Text { [q] + inner + [q] }

  lemma {:induction false} TrimQuoted(lead: Text, q: char, inner: Text, tail: Text) returns (kept: Text)
    requires Blank(lead) && (q == '"' || q == '\'')
    ensures TrimSpace(lead + InQuotes(q, inner) + tail) == [q] + (inner + [q] + kept)
  {
    var quoted := InQuotes(q, inner);
    assert lead + quoted + tail == lead + (quoted + tail);
    TrimLeftBlank(lead, quoted + tail);
    kept := TrimRightTail(quoted, tail);
    assert quoted + kept == [q] + (inner + [q] + kept);
  }

  // --- the round trips ------------------------------------------------------------

  /** Any text, escaped inside double quotes, reads back, whatever follows the closing quote. */
  lemma {:induction false} DoubleQuotedRoundTrip(s: Text, lead: Text, tail: Text)
    requires Blank(lead)
    ensures Parsed(lead + InQuotes('"', Escaped(s)) + tail) == s
  {
    var e := Escaped(s);
    var kept := TrimQuoted(lead, '"', e, tail);
    var val := ['"'] + (e + ['"'] + kept);
    ClosesAfterEscaped(s, kept);
    assert val[1..] == e + ['"'] + kept;
    assert val[1..1 + |e|] == e;
    ExpandsEscaped(s);
  }

  /** Text without a single quote, inside single quotes, reads back verbatim. */
  lemma {:induction false} SingleQuotedRoundTrip(s: Text, lead: Text, tail: Text)
    requires Blank(lead) && '\'' !in s
    ensures Parsed(lead + InQuotes('\'', s) + tail) == s
  {
    var kept := TrimQuoted(lead, '\'', s, tail);
    var val := ['\''] + (s + ['\''] + kept);
    ClosesAtFirstQuote(s, kept);
    assert val[1..] == s + ['\''] + kept;
    assert val[1..1 + |s|] == s;
  }

  /** A value that can stand unquoted: no quote in front, no blanks around it, no comment in it. */
  ghost predicate Plain(s: Text) {
    && (s != [] ==> !IsSpace(s[0]) && !IsSpace(s[|s| - 1]) && s[0] != '"' && s[0] != '\'')
    && (forall i :: 0 <= i < |s| ==> !CommentAt(s, i))
  }

  lemma {:induction false} NoCommentBefore(s: Text, i: nat, k: nat)
    requires i <= k <= |s| && forall j :: i <= j < k ==> !CommentAt(s, j)
    ensures UpToComment(s, i) == UpToComment(s, k)
    decreases k - i
  {
    if i < k {
      NoCommentBefore(s, i + 1, k);
    }
  }

  /** Blanks and tabs, as an inline comment needs in front of it. */
  ghost predicate Gap(gap: Text) {
    gap != [] && forall i :: 0 <= i < |gap| ==> gap[i] == ' ' || gap[i] == '\t'
  }

  /** An unquoted value loses a trailing comment exactly when there is a value before it. */
  lemma {:induction false} UnquotedComment(s: Text, gap: Text, comment: Text)
    requires Plain(s) && Gap(gap)
    ensures Parsed(s + gap + ("#" + comment)) == s <==> s != []
  {
    if s == [] {
      assert s + gap + ("#" + comment) == gap + ("#" + comment);
      EmptyKeepsComment(gap, comment);
    } else {
      CommentDropped(s, gap, comment);
    }
  }

  lemma {:induction false} EmptyKeepsComment(gap: Text, comment: Text)
    requires Gap(gap)
    ensures Parsed(gap + ("#" + comment)) != []
  {
    TrimLeftBlank(gap, "#" + comment);
    var kept := TrimRightTail("#", comment);
    UpToCommentNonEmpty("#" + kept, 0);
  }

  lemma {:induction false} UpToCommentNonEmpty(val: Text, i: nat)
    requires i <= |val| && val != [] && !IsSpace(val[0])
    ensures UpToComment(val, i) != []
    decreases |val| - i
  {
    if i < |val| {
      UpToCommentNonEmpty(val, i + 1);
      if CommentAt(val, i) {
        assert TrimLeft(val[..i]) == val[..i];
        assert val[..i] == [val[0]] + val[..i][1..];
        var kept := TrimRightTail([val[0]], val[..i][1..]);
      }
    }
  }

  lemma {:induction false} TrimRightBlank(s: Text, gap: Text)
    requires s != [] && !IsSpace(s[|s| - 1]) && Blank(gap)
    ensures TrimRight(s + gap) == s
  {
    if gap == [] {
      assert s + gap == s;
    } else {
      assert gap[|gap| - 1] in gap;
      assert (s + gap)[..|s + gap| - 1] == s + gap[..|gap| - 1];
      TrimRightBlank(s, gap[..|gap| - 1]);
    }
  }

  lemma {:induction false} CommentDropped(s: Text, gap: Text, comment: Text)
    requires s != [] && Plain(s) && Gap(gap)
    ensures Parsed(s + gap + ("#" + comment)) == s
  {
    var front := s + gap + "#";
    assert s + gap + ("#" + comment) == front + comment;
    var kept := TrimRightTail(front, comment);
    var val := front + kept;
    assert TrimSpace(front + comment) == val;
    var n := |s| + |gap|;
    forall j | 0 <= j < n
      ensures !CommentAt(val, j)
    {
      assert j < |s| ==> !CommentAt(s, j);
      assert |s| <= j ==> val[j] == gap[j - |s|];
    }
    NoCommentBefore(val, 0, n);
    assert val[n - 1] == gap[|gap| - 1];
    assert CommentAt(val, n);
    assert val[..n] == s + gap;
    assert TrimLeft(s + gap) == s + gap;
    TrimRightBlank(s, gap);
  }

  /** A plain value reads as written, blanks around it aside. */
  lemma {:induction false} PlainRoundTrip(lead: Text, s: Text, tail: Text)
    requires Plain(s) && s != [] && Blank(lead) && Blank(tail)
    ensures Parsed(lead + s + tail) == s
  {
    TrimLeftBlank(lead, s + tail);
    assert lead + s + tail == lead + (s + tail);
    TrimRightBlank(s, tail);
    NoCommentBefore(s, 0, |s|);
  }

  /** A value whose opening quote is never closed is kept as it stands. */
  lemma {:induction false} UnterminatedKept(raw: Text)
    requires var val := TrimSpace(raw); val != "" && (val[0] == '"' || val[0] == '\'') && CloseAhead(val[1..], val[0]) < 0
    ensures Parsed(raw) == TrimSpace(raw)
  {
  }

  /** A quote is found closed exactly if a closing quote follows that no backslash escapes. */
  lemma {:induction false} CloseAheadExact(s: Text, q: char, k: int)
    requires q == '"' || q == '\''
    ensures k >= 0 && CloseAhead(s, q) == k <==> ClosesAt(s, q, k)
    decreases |s|
  {
    if s != [] {
      if q == '"' && s[0] == '\\' {
        if |s| > 1 {
          CloseAheadExact(s[2..], q, k - 2);
          assert k >= 2 ==> (k < |s| ==> s[2..][..k - 2] == s[..k][2..]);
        } else {
          assert k == 0 ==> s[0] != q;
        }
      } else if s[0] != q {
        CloseAheadExact(s[1..], q, k - 1);
        assert k >= 1 ==> (k < |s| ==> s[1..][..k - 1] == s[..k][1..]);
      } else {
        assert 0 < k < |s| ==> s[..k][0] == q;
      }
    }
  }

  /** The quote at k is not escaped, and no other one before it closes. */
  predicate ClosesAt(s: Text, q: char, k: int) {
    0 <= k < |s| && s[k] == q && Enclosed(s[..k], q)
  }

  predicate Enclosed(s: Text, q: char) {
    if s == [] then true
    else if q == '"' && s[0] == '\\' then |s| > 1 && Enclosed(s[2..], q)
    else s[0] != q && Enclosed(s[1..], q)
  }

  /** The escapes: the three control characters, the three characters that stand for themselves, and none other. */
  lemma {:induction false} EscapeMeanings(c: char, rest: Text)
    ensures Expanded(['\\', 'n'] + rest) == ['\n'] + Expanded(rest)
    ensures Expanded(['\\', 't'] + rest) == ['\t'] + Expanded(rest)
    ensures Expanded(['\\', 'r'] + rest) == ['\r'] + Expanded(rest)
    ensures c == '"' || c == '\\' || c == '\'' ==> Expanded(['\\', c] + rest) == [c] + Expanded(rest)
    ensures c !in "ntr\"\\'" ==> Expanded(['\\', c] + rest) == ['\\', c] + Expanded(rest)
    ensures c != '\\' ==> Expanded([c] + rest) == [c] + Expanded(rest)
    ensures Expanded(['\\']) == ['\\']
  {
    hide Expanded;
    ExpandPair('n', rest);
    ExpandPair('t', rest);
    ExpandPair('r', rest);
    ExpandPair(c, rest);
    if c != '\\' {
      ExpandSingle(c, rest);
    }
    ExpandSingle('\\', []);
    NothingExpanded();
    assert ['\\'] + [] == ['\\'];
    assert c !in "ntr\"\\'" ==> Unescaped(c) == ['\\', c];
  }

  lemma {:induction false} ExpandPair(c: char, rest: Text)
    ensures Expanded(['\\', c] + rest) == Unescaped(c) + Expanded(rest)
  {
    assert (['\\', c] + rest)[2..] == rest;
  }

  lemma {:induction false} ExpandSingle(c: char, rest: Text)
    requires c != '\\' || rest == []
    ensures Expanded([c] + rest) == [c] + Expanded(rest)
  {
    assert ([c] + rest)[1..] == rest;
  }

  lemma {:induction false} NothingExpanded()
    ensures Expanded([]) == []
  {
  }

  // -------------------------------------------------------------------------
  // One line of the file
  // -------------------------------------------------------------------------

  datatype Setting = Skip | Set(key: Text, value: Text)

  function CutAt(line: Text, c: char, i: nat): nat
    requires i <= |line|
    decreases |line| - i
  {
    if i == |line| || line[i] == c then i else CutAt(line, c, i + 1)
  }

  /** LoadEnvFile's treatment of one line. */
  function ParsedLine(text: Text): Setting {
    var line := TrimSpace(text);
    if line == "" || line[0] == '#' then Skip
    else
      CutBound(line, '=', 0);
      var k := CutAt(line, '=', 0);
      if k == |line| then Skip else Set(TrimSpace(line[..k]), Parsed(line[k + 1..]))
  }

  lemma {:induction false} CutBound(line: Text, c: char, i: nat)
    requires i <= |line|
    ensures i <= CutAt(line, c, i) <= |line|
    decreases |line| - i
  {
    if i < |line| && line[i] != c {
      CutBound(line, c, i + 1);
    }
  }

  lemma {:induction false} CutsAtFirst(key: Text, c: char, rest: Text, i: nat)
    requires i <= |key| && c !in key
    ensures CutAt(key + [c] + rest, c, i) == |key|
    decreases |key| - i
  {
    if i < |key| {
      assert (key + [c] + rest)[i] == key[i] && key[i] in key;
      CutsAtFirst(key, c, rest, i + 1);
    }
  }

  /** A key that LoadEnvFile returns as written. */
  predicate KeyText(key: Text) {
    key != [] && !IsSpace(key[0]) && !IsSpace(key[|key| - 1]) && key[0] != '#' && '=' !in key
  }

  lemma {:induction false} LineSplits(key: Text, rest: Text)
    requires KeyText(key) && rest != [] && !IsSpace(rest[|rest| - 1])
    ensures ParsedLine(key + ['='] + rest) == Set(key, Parsed(rest))
  {
    var line := key + ['='] + rest;
    assert TrimSpace(line) == line;
    CutsAtFirst(key, '=', rest, 0);
    assert line[..|key|] == key && line[|key| + 1..] == rest;
    assert TrimSpace(key) == key;
  }

  /** KEY="escaped value" sets KEY to the value, for every value. */
  lemma {:induction false} LineRoundTrip(key: Text, s: Text)
    requires KeyText(key)
    ensures ParsedLine(key + ['='] + InQuotes('"', Escaped(s))) == Set(key, s)
  {
    hide ParsedLine, Parsed, KeyText, Escaped;
    var quoted := InQuotes('"', Escaped(s));
    LineSplits(key, quoted);
    DoubleQuotedRoundTrip(s, [], []);
    assert [] + quoted + [] == quoted;
  }

  /** Blank lines, comments and lines without an equals sign set nothing; every other line sets something. */
  lemma {:induction false} LineSkipped(text: Text)
    ensures ParsedLine(text).Skip? <==> var line := TrimSpace(text); line == "" || line[0] == '#' || '=' !in line
  {
    var line := TrimSpace(text);
    if line != "" && line[0] != '#' {
      CutBound(line, '=', 0);
      CutsIfThere(line, '=', 0);
    }
  }

  lemma {:induction false} CutsIfThere(line: Text, c: char, i: nat)
    requires i <= |line|
    ensures CutAt(line, c, i) == |line| <==> c !in line[i..]
    decreases |line| - i
  {
    if i < |line| {
      CutsIfThere(line, c, i + 1);
      assert line[i..] == [line[i]] + line[i + 1..];
      CutBound(line, c, i);
      if line[i] == c {
        assert c in line[i..];
      }
    }
  }
}
