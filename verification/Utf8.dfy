/**
 That `Truncation.ValidUtf8` is UTF-8: the texts it accepts are exactly the encodings of
 sequences of Unicode scalar values, as section 3 of RFC 3629 lays them out.
 */
module Utf8 {
  import opened Truncation

  predicate Scalar(c: int) {
    0 <= c <= 0x10FFFF && !(0xD800 <= c <= 0xDFFF)
  }

  function Encoded(c: int): (b: Bytes)
    requires Scalar(c)
    ensures 1 <= |b| <= 4
  {
    if c < 0x80 then [c]
    else if c < 0x800 then [0xC0 + c / 0x40, 0x80 + c % 0x40]
    else if c < 0x10000 then [0xE0 + c / 0x1000, 0x80 + c / 0x40 % 0x40, 0x80 + c % 0x40]
    else [0xF0 + c / 0x40000, 0x80 + c / 0x1000 % 0x40, 0x80 + c / 0x40 % 0x40, 0x80 + c % 0x40]
  }

  /** The encoding of a character is read as one character. */
  lemma {:induction false} EncodedHead(c: int, rest: Bytes)
    requires Scalar(c)
    ensures HeadLength(Encoded(c) + rest) == |Encoded(c)|
  {
    var e := Encoded(c);
    var s := e + rest;
    assert forall i :: 0 <= i < |e| ==> s[i] == e[i];
    if 0x800 <= c < 0x10000 {
      ThreeBytes(c);
    } else if 0x10000 <= c {
      FourBytes(c);
    }
  }

  lemma {:induction false} ThreeBytes(c: int)
    requires 0x800 <= c < 0x10000 && Scalar(c)
    ensures Lead3(0xE0 + c / 0x1000, 0x80 + c / 0x40 % 0x40)
  {
    var hi, mid := c / 0x1000, c / 0x40 % 0x40;
    assert c / 0x40 == 0x40 * hi + mid;
    assert 0x1000 * hi + 0x40 * mid <= c < 0x1000 * hi + 0x40 * mid + 0x40;
  }

  lemma {:induction false} FourBytes(c: int)
    requires 0x10000 <= c && Scalar(c)
    ensures Lead4(0xF0 + c / 0x40000, 0x80 + c / 0x1000 % 0x40)
  {
    var hi, mid := c / 0x40000, c / 0x1000 % 0x40;
    assert c / 0x1000 == 0x40 * hi + mid;
    assert 0x40000 * hi + 0x1000 * mid <= c < 0x40000 * hi + 0x1000 * mid + 0x1000;
  }

  /** What is read as one character is the encoding of one. */
  lemma {:induction false} HeadEncodes(s: Bytes) returns (c: int)
    requires HeadLength(s) > 0
    ensures Scalar(c) && Encoded(c) == s[..HeadLength(s)]
  {
    var n := HeadLength(s);
    if n == 1 {
      c := s[0];
    } else if n == 2 {
      var x: int, y: int := s[0], s[1];
      c := 0x40 * (x - 0xC0) + (y - 0x80);
    } else if n == 3 {
      c := Decoded3(s[0], s[1], s[2]);
    } else {
      c := Decoded4(s[0], s[1], s[2], s[3]);
    }
  }

  lemma {:induction false} Decoded3(x: Byte, y: Byte, z: Byte) returns (c: int)
    requires Lead3(x, y) && Tail(z)
    ensures Scalar(c) && Encoded(c) == [x, y, z]
  {
    var hi, mid, lo := x - 0xE0, y - 0x80, z - 0x80;
    c := 0x1000 * hi + 0x40 * mid + lo;
    assert c / 0x40 == 0x40 * hi + mid && c % 0x40 == lo;
    assert c / 0x1000 == hi;
  }

  lemma {:induction false} Decoded4(x: Byte, y: Byte, z: Byte, w: Byte) returns (c: int)
    requires Lead4(x, y) && Tail(z) && Tail(w)
    ensures Scalar(c) && Encoded(c) == [x, y, z, w]
  {
    var hi, up, mid, lo := x - 0xF0, y - 0x80, z - 0x80, w - 0x80;
    c := 0x40000 * hi + 0x1000 * up + 0x40 * mid + lo;
    assert c / 0x40 == 0x1000 * hi + 0x40 * up + mid && c % 0x40 == lo;
    assert c / 0x1000 == 0x40 * hi + up && c / 0x40000 == hi;
  }

  ghost predicate Scalars(cs: seq<int>) {
    forall i :: 0 <= i < |cs| ==> Scalar(cs[i])
  }

  function EncodedAll(cs: seq<int>): Bytes
    requires Scalars(cs)
  {
    if cs == [] then [] else Encoded(cs[0]) + EncodedAll(cs[1..])
  }

  lemma {:induction false} EncodedIsValid(cs: seq<int>)
    requires Scalars(cs)
    ensures ValidUtf8(EncodedAll(cs))
  {
    hide HeadLength, Encoded;
    if cs != [] {
      var e, rest := Encoded(cs[0]), EncodedAll(cs[1..]);
      EncodedHead(cs[0], rest);
      EncodedIsValid(cs[1..]);
      assert (e + rest)[|e|..] == rest;
    }
  }

  lemma {:induction false} ValidIsEncoded(s: Bytes) returns (cs: seq<int>)
    requires ValidUtf8(s)
    ensures Scalars(cs) && EncodedAll(cs) == s
  {
    hide HeadLength, Encoded;
    if s == [] {
      cs := [];
    } else {
      var n := HeadLength(s);
      var c := HeadEncodes(s);
      var rest := ValidIsEncoded(s[n..]);
      cs := [c] + rest;
      assert cs[1..] == rest && s == s[..n] + s[n..];
    }
  }

  /** Truncation therefore turns text into text, for every text and every cap. */
  lemma {:induction false} TruncatedText(cs: seq<int>, max: int) returns (kept: seq<int>)
    requires Scalars(cs)
    ensures Scalars(kept) && EncodedAll(kept) == Truncated(EncodedAll(cs), max)
  {
    EncodedIsValid(cs);
    TruncatedIsValid(EncodedAll(cs), max);
    kept := ValidIsEncoded(Truncated(EncodedAll(cs), max));
  }
}
