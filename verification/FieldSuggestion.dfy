/**
 suggestField (internal/ingest/validate.go): a known alias first, then the nearest accepted
 name.  The alias table and the accepted names are parameters; letters are ASCII.
 */
module FieldSuggestion {
  import opened AsciiCase
  import opened EditDistance
  import DotEnv

  function Lower(s: Text): (r: Text)
    ensures |r| == |s|
  {
    seq(|s|, i requires 0 <= i < |s| => if 'A' <= s[i] <= 'Z' then s[i] - 'A' + 'a' else s[i])
  }

  /** The key as it is looked up. */
  function Canonical(key: Text): Text { Lower(DotEnv.TrimSpace(key)) }

  /** A target inside another field, written outer.inner, is spelled out. */
  function Spelled(target: Text): Text {
    DotEnv.CutBound(target, '.', 0);
    var k := DotEnv.CutAt(target, '.', 0);
    if k == |target| then target
    else target[..k] + ", as " + DotEnv.InQuotes('"', target[k + 1..]) + " inside it"
  }

  method SuggestField(key: Text, aliases: map<Text, Text>, names: set<Text>) returns (best: Text)
    ensures Canonical(key) in aliases ==> best == Spelled(aliases[Canonical(key)])
    ensures Canonical(key) !in aliases && (forall name :: name in names ==> Lev(Canonical(key), name) >= SUGGESTION_LIMIT) ==>
      best == ""
    ensures Canonical(key) !in aliases && (exists name :: name in names && Lev(Canonical(key), name) < SUGGESTION_LIMIT) ==>
      && best in names && Lev(Canonical(key), best) < SUGGESTION_LIMIT
      && forall name :: name in names ==> Lev(Canonical(key), best) <= Lev(Canonical(key), name)
  {
    hide Canonical, Lev;
    var k := Canonical(key);
    if k in aliases {
      return Spelled(aliases[k]);
    }
    best := SuggestNearest(k, names);
  }

  /** Lower-casing leaves no capital and changes nothing but case ... */
  lemma {:induction false} LowerKeeps(s: Text)
    ensures SameUpToCase(Lower(s), s) && forall i :: 0 <= i < |s| ==> !IsUpper(Lower(s)[i])
  {
  }

  /** ... so two texts agree lower-cased exactly when they agree up to case. */
  lemma {:induction false} LowerExactly(a: Text, b: Text)
    ensures Lower(a) == Lower(b) <==> SameUpToCase(a, b)
  {
    if Lower(a) == Lower(b) {
      assert |a| == |b|;
      forall i | 0 <= i < |a|
        ensures SameLetter(a[i], b[i])
      {
        assert Lower(a)[i] == Lower(b)[i];
      }
    }
  }

  ghost predicate Bare(key: Text) {
    key != [] && !DotEnv.IsSpace(key[0]) && !DotEnv.IsSpace(key[|key| - 1])
  }

  /** Keys are looked up alike exactly when, blanks around them aside, they agree up to case. */
  lemma {:induction false} CanonicalIgnores(lead: Text, key: Text, tail: Text, lead': Text, key': Text, tail': Text)
    requires DotEnv.Blank(lead) && DotEnv.Blank(tail) && Bare(key)
    requires DotEnv.Blank(lead') && DotEnv.Blank(tail') && Bare(key')
    ensures Canonical(lead + key + tail) == Canonical(lead' + key' + tail') <==> SameUpToCase(key, key')
  {
    hide Lower;
    BlanksTrimmed(lead, key, tail);
    BlanksTrimmed(lead', key', tail');
    LowerExactly(key, key');
  }

  lemma {:induction false} BlanksTrimmed(lead: Text, key: Text, tail: Text)
    requires DotEnv.Blank(lead) && DotEnv.Blank(tail) && Bare(key)
    ensures DotEnv.TrimSpace(lead + key + tail) == key
  {
    DotEnv.TrimLeftBlank(lead, key + tail);
    assert lead + key + tail == lead + (key + tail);
    DotEnv.TrimRightBlank(key, tail);
  }

  /** A target without a dot is suggested as it is, one with a dot as a field and what to put inside it. */
  lemma {:induction false} SpelledOut(outer: Text, inner: Text)
    requires '.' !in outer
    ensures Spelled(outer) == outer
    ensures Spelled(outer + ['.'] + inner) == outer + ", as \"" + inner + "\" inside it"
  {
    hide DotEnv.CutAt;
    NoDot(outer, 0);
    var target := outer + ['.'] + inner;
    DotEnv.CutsAtFirst(outer, '.', inner, 0);
    assert target[..|outer|] == outer && target[|outer| + 1..] == inner;
    assert outer + ", as " + (['"'] + inner + ['"']) + " inside it" == outer + ", as \"" + inner + "\" inside it";
  }

  lemma {:induction false} NoDot(s: Text, i: nat)
    requires '.' !in s && i <= |s|
    ensures DotEnv.CutAt(s, '.', i) == |s|
    decreases |s| - i
  {
    if i < |s| {
      assert s[i] in s;
      NoDot(s, i + 1);
    }
  }
}
