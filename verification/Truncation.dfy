/** Clipping a field to a byte budget on a UTF-8 boundary (internal/ingest/limits.go). */
module Truncation {

  type Byte = b: int | 0 <= b < 256

  type Bytes = seq<Byte>

  // -------------------------------------------------------------------------
  // UTF-8, as in section 4 of RFC 3629
  // -------------------------------------------------------------------------

  predicate Tail(b: Byte) { 0x80 <= b <= 0xBF }

  /** The length of the well-formed character at the head of s, or 0. */
  function HeadLength(s: Bytes): (n: nat)
    ensures n <= 4 && n <= |s|
    ensures forall i :: 1 <= i < n ==> Tail(s[i])
    ensures n > 0 ==> !Tail(s[0])
  {
    if |s| >= 1 && s[0] <= 0x7F then 1
    else if |s| >= 2 && 0xC2 <= s[0] <= 0xDF && Tail(s[1]) then 2
    else if |s| >= 3 && Lead3(s[0], s[1]) && Tail(s[2]) then 3
    else if |s| >= 4 && Lead4(s[0], s[1]) && Tail(s[2]) && Tail(s[3]) then 4
    else 0
  }

  predicate Lead3(a: Byte, b: Byte) {
    || (a == 0xE0 && 0xA0 <= b <= 0xBF)
    || (0xE1 <= a <= 0xEC && Tail(b))
    || (a == 0xED && 0x80 <= b <= 0x9F)
    || (0xEE <= a <= 0xEF && Tail(b))
  }

  predicate Lead4(a: Byte, b: Byte) {
    || (a == 0xF0 && 0x90 <= b <= 0xBF)
    || (0xF1 <= a <= 0xF3 && Tail(b))
    || (a == 0xF4 && 0x80 <= b <= 0x8F)
  }

  predicate ValidUtf8(s: Bytes) {
    s == [] || (HeadLength(s) > 0 && ValidUtf8(s[HeadLength(s)..]))
  }

  // -------------------------------------------------------------------------
  // truncateField
  // -------------------------------------------------------------------------

  /** "…[truncated]" */
  const MARKER: Bytes :=
    [0xE2, 0x80, 0xA6, 0x5B, 0x74, 0x72, 0x75, 0x6E, 0x63, 0x61, 0x74, 0x65, 0x64, 0x5D]

  /** utf8.RuneStart */
  predicate RuneStart(b: Byte) { !Tail(b) }

  /** How many bytes of s survive: the last character start at or below `keep`. */
  function Kept(s: Bytes, keep: nat): (k: nat)
    requires keep < |s| || keep == 0
    ensures k <= keep
    ensures k == 0 || RuneStart(s[k])
    ensures forall i :: k < i <= keep ==> !RuneStart(s[i])
  {
    if keep > 0 && !RuneStart(s[keep]) then Kept(s, keep - 1) else keep
  }

  function Truncated(s: Bytes, max: int): Bytes {
    if |s| <= max then s
    else s[..Kept(s, if max < |MARKER| then 0 else max - |MARKER|)] + MARKER
  }

  method TruncateField(s: Bytes, max: int) returns (r: Bytes)
    ensures r == Truncated(s, max)
  {
    if |s| <= max {
      return s;
    }
    var keep := max - |MARKER|;
    if keep < 0 {
      keep := 0;
    }
    while keep > 0 && !RuneStart(s[keep])
      invariant 0 <= keep && (keep < |s| || keep == 0)
      invariant Truncated(s, max) == s[..Kept(s, keep)] + MARKER
    {
      keep := keep - 1;
    }
    return s[..keep] + MARKER;
  }

  // -------------------------------------------------------------------------
  // What it guarantees
  // -------------------------------------------------------------------------

  /** The first character ends before any later character start, and is seen in a prefix that holds it. */
  lemma {:induction false} HeadWithin(s: Bytes, k: nat)
    requires s != [] && HeadLength(s) > 0 && 0 < k <= |s| && (k == |s| || RuneStart(s[k]))
    ensures HeadLength(s) <= k && HeadLength(s[..k]) == HeadLength(s)
  {
  }

  /** Cutting valid text in front of a character start leaves valid text on both sides. */
  lemma {:induction false} CutAtRuneStart(s: Bytes, k: nat)
    requires ValidUtf8(s) && k <= |s| && (k == 0 || k == |s| || RuneStart(s[k]))
    ensures ValidUtf8(s[..k]) && ValidUtf8(s[k..])
  {
    hide HeadLength;
    if k == 0 {
      assert s[k..] == s;
    } else {
      HeadWithin(s, k);
      var n := HeadLength(s);
      var rest := s[n..];
      CutAtRuneStart(rest, k - n);
      assert s[..k][n..] == rest[..k - n];
      assert s[k..] == rest[k - n..];
    }
  }

  lemma {:induction false} ConcatValid(a: Bytes, b: Bytes)
    requires ValidUtf8(a) && ValidUtf8(b)
    ensures ValidUtf8(a + b)
  {
    if a == [] {
      assert a + b == b;
    } else {
      var n := HeadLength(a);
      ConcatValid(a[n..], b);
      HeadOfConcat(a, b);
      hide HeadLength;
      assert (a + b)[n..] == a[n..] + b;
    }
  }

  lemma {:induction false} HeadOfConcat(a: Bytes, b: Bytes)
    requires HeadLength(a) > 0
    ensures HeadLength(a + b) == HeadLength(a)
  {
  }

  lemma {:induction false} MarkerValid()
    ensures ValidUtf8(MARKER) && |MARKER| == 14
  {
    assert HeadLength(MARKER) == 3;
    AsciiValid(MARKER[3..]);
  }

  lemma {:induction false} AsciiValid(s: Bytes)
    requires forall i :: 0 <= i < |s| ==> s[i] <= 0x7F
    ensures ValidUtf8(s)
  {
    if s != [] {
      assert HeadLength(s) == 1;
      AsciiValid(s[1..]);
    }
  }

  /** In valid text a character start is at most three bytes back. */
  lemma {:induction false} StartIsNear(s: Bytes, keep: nat)
    requires ValidUtf8(s) && keep < |s|
    ensures keep - 3 <= Kept(s, keep)
  {
    var n := HeadLength(s);
    if keep >= n {
      StartIsNear(s[n..], keep - n);
      KeptShift(s, n, keep);
    }
  }

  lemma {:induction false} KeptShift(s: Bytes, n: nat, keep: nat)
    requires n <= keep < |s| && RuneStart(s[n])
    ensures Kept(s, keep) == n + Kept(s[n..], keep - n)
    decreases keep
  {
    if keep > n {
      KeptShift(s, n, keep - 1);
    }
  }

  /** Clipped valid text stays valid ... */
  lemma {:induction false} TruncatedIsValid(s: Bytes, max: int)
    requires ValidUtf8(s)
    ensures ValidUtf8(Truncated(s, max))
  {
    if |s| > max {
      var k := Kept(s, if max < |MARKER| then 0 else max - |MARKER|);
      CutAtRuneStart(s, k);
      MarkerValid();
      hide ValidUtf8;
      ConcatValid(s[..k], MARKER);
    }
  }

  /** ... and is a prefix at most three bytes shorter than the cap allows, with the marker behind it. */
  lemma {:induction false} TruncatedKeepsMost(s: Bytes, max: int)
    requires ValidUtf8(s) && |s| > max >= |MARKER|
    ensures max - 3 <= |Truncated(s, max)| <= max
    ensures Truncated(s, max) == s[..|Truncated(s, max)| - |MARKER|] + MARKER
  {
    StartIsNear(s, max - |MARKER|);
  }

  /** No longer valid prefix of s would have left room for the marker. */
  lemma {:induction false} TruncatedIsLongest(s: Bytes, max: int, k: nat)
    requires ValidUtf8(s) && |s| > max >= |MARKER|
    requires k <= max - |MARKER| && ValidUtf8(s[..k])
    ensures k <= |Truncated(s, max)| - |MARKER|
  {
    var keep := max - |MARKER|;
    if k > Kept(s, keep) {
      ValidPrefixEnds(s, k);
      assert false;
    }
  }

  /** A valid prefix of valid text ends where a character starts. */
  lemma {:induction false} ValidPrefixEnds(s: Bytes, k: nat)
    requires ValidUtf8(s) && k < |s| && ValidUtf8(s[..k])
    ensures RuneStart(s[k])
  {
    if k > 0 {
      var n := HeadLength(s[..k]);
      assert HeadLength(s) == n;
      assert s[..k][n..] == s[n..][..k - n];
      ValidPrefixEnds(s[n..], k - n);
    }
  }

  /** The result fits the cap exactly when nothing had to be cut or the cap can hold the marker. */
  lemma {:induction false} FitsTheCap(s: Bytes, max: int)
    ensures |Truncated(s, max)| <= max <==> |s| <= max || max >= |MARKER|
    ensures Truncated(s, max) == s <==> |s| <= max || s == MARKER
    ensures max < |MARKER| && max < |s| ==> Truncated(s, max) == MARKER
  {
  }
}
