/** UTF-8 validity (section 4 of RFC 3629) and character boundaries, on byte strings. */
module Utf8 {
  import opened Bytes

  predicate IsContinuation(b: Byte)
  {
    0x80 <= b < 0xC0
  }

  predicate ContinuesAt(s: seq<Byte>, i: nat)
  {
    i < |s| && IsContinuation(s[i])
  }

  /** The allowed second bytes depend on the first: no overlong forms, no surrogates, nothing above U+10FFFF. */
  predicate SecondByteAllowed(first: Byte, second: Byte)
  {
    if first == 0xE0 then 0xA0 <= second < 0xC0
    else if first == 0xED then 0x80 <= second < 0xA0
    else if first == 0xF0 then 0x90 <= second < 0xC0
    else if first == 0xF4 then 0x80 <= second < 0x90
    else IsContinuation(second)
  }

  /** The length of the character encoded at the start of `s`, or 0 when none is. */
  function CharLength(s: seq<Byte>): (n: nat)
    ensures n <= 4 && n <= |s|
    ensures n > 0 ==> !IsContinuation(s[0])
    ensures forall i | 0 < i < n :: IsContinuation(s[i])
  {
    if |s| == 0 then 0
    else if s[0] < 0x80 then 1
    else if |s| == 1 || !SecondByteAllowed(s[0], s[1]) then 0
    else if 0xC2 <= s[0] < 0xE0 then 2
    else if 0xE0 <= s[0] < 0xF0 && ContinuesAt(s, 2) then 3
    else if 0xF0 <= s[0] < 0xF5 && ContinuesAt(s, 2) && ContinuesAt(s, 3) then 4
    else 0
  }

  predicate Valid(s: seq<Byte>)
  {
    |s| == 0 || (CharLength(s) > 0 && Valid(s[CharLength(s)..]))
  }

  /** The library's boundary test: the end of the text, or a byte that continues no character. */
  predicate IsCharBoundary(s: seq<Byte>, i: nat)
  {
    i == |s| || (i < |s| && !IsContinuation(s[i]))
  }

  lemma CharLengthOfAppend(a: seq<Byte>, b: seq<Byte>)
    requires CharLength(a) > 0
    ensures CharLength(a + b) == CharLength(a)
  {
    assert forall i | 0 <= i < |a| :: (a + b)[i] == a[i];
  }

  lemma {:induction false} AppendIsValid(a: seq<Byte>, b: seq<Byte>)
    requires Valid(a) && Valid(b)
    ensures Valid(a + b)
  {
    if |a| == 0 {
      assert a + b == b;
    } else {
      var n := CharLength(a);
      CharLengthOfAppend(a, b);
      AppendIsValid(a[n..], b);
      assert (a + b)[n..] == a[n..] + b;
    }
  }

  /** In a valid text the byte test finds exactly the places where the rest is valid text again. */
  lemma {:induction false} BoundaryIffSuffixValid(s: seq<Byte>, i: nat)
    requires Valid(s) && i <= |s|
    ensures IsCharBoundary(s, i) <==> Valid(s[i..])
  {
    if i == |s| {
    } else if i == 0 {
      assert s[0..] == s;
    } else {
      var n := CharLength(s);
      if i < n {
        assert s[i..][0] == s[i];
      } else {
        BoundaryIffSuffixValid(s[n..], i - n);
        assert s[n..][i - n..] == s[i..];
      }
    }
  }

  // ---- valid texts are the encoded ones ----------------------------------------------------------------

  /** A Unicode scalar value: a code point that is no surrogate. */
  type Scalar = c: int | 0 <= c <= 0x10FFFF && !(0xD800 <= c <= 0xDFFF)

  /** The encoding of one scalar value, six bits a byte, by arithmetic (section 3 of RFC 3629). */
  function Encode(c: Scalar): (r: seq<Byte>)
  {
    if c <= 0x7F then [c]
    else if c <= 0x7FF then [0xC0 + c / 64, 0x80 + c % 64]
    else if c <= 0xFFFF then [0xE0 + c / 64 / 64, 0x80 + c / 64 % 64, 0x80 + c % 64]
    else [0xF0 + c / 64 / 64 / 64, 0x80 + c / 64 / 64 % 64, 0x80 + c / 64 % 64, 0x80 + c % 64]
  }

  function EncodeAll(text: seq<Scalar>): (r: seq<Byte>)
  {
    if |text| == 0 then [] else Encode(text[0]) + EncodeAll(text[1..])
  }

  /** `high` with the six bits of a continuation byte behind it. */
  function Shift(high: int, continuation: Byte): (n: int)
  {
    high * 64 + (continuation - 0x80)
  }

  /** The scalar value that starts `s`. */
  function FirstScalar(s: seq<Byte>): (c: Scalar)
    requires CharLength(s) > 0
  {
    var n := CharLength(s);
    if n == 1 then s[0]
    else if n == 2 then Shift(s[0] - 0xC0, s[1])
    else if n == 3 then Shift(Shift(s[0] - 0xE0, s[1]), s[2])
    else Shift(Shift(Shift(s[0] - 0xF0, s[1]), s[2]), s[3])
  }

  lemma EncodedHasItsLength(c: Scalar)
    ensures CharLength(Encode(c)) == |Encode(c)| > 0
  {
  }

  lemma ShiftSplits(high: int, continuation: Byte)
    requires IsContinuation(continuation)
    ensures Shift(high, continuation) / 64 == high && Shift(high, continuation) % 64 == continuation - 0x80
  {
  }

  lemma ThreeBytesEncodeBack(s: seq<Byte>)
    requires CharLength(s) == 3
    ensures FirstScalar(s) > 0x7FF && Encode(FirstScalar(s)) == [s[0], s[1], s[2]]
  {
    var high := Shift(s[0] - 0xE0, s[1]);
    ShiftSplits(s[0] - 0xE0, s[1]);
    ShiftSplits(high, s[2]);
    assert FirstScalar(s) == Shift(high, s[2]) && 0x20 <= high <= 0x3FF;
    hide CharLength, FirstScalar;
  }

  lemma FourBytesEncodeBack(s: seq<Byte>)
    requires CharLength(s) == 4
    ensures FirstScalar(s) > 0xFFFF && Encode(FirstScalar(s)) == [s[0], s[1], s[2], s[3]]
  {
    var top := Shift(s[0] - 0xF0, s[1]);
    var high := Shift(top, s[2]);
    ShiftSplits(s[0] - 0xF0, s[1]);
    ShiftSplits(top, s[2]);
    ShiftSplits(high, s[3]);
    assert FirstScalar(s) == Shift(high, s[3]) && 0x10 <= top && 0x400 <= high;
    hide CharLength, FirstScalar;
  }

  lemma FirstScalarEncodesBack(s: seq<Byte>)
    requires CharLength(s) > 0
    ensures Encode(FirstScalar(s)) == s[..CharLength(s)]
  {
    var n := CharLength(s);
    if n == 2 {
      ShiftSplits(s[0] - 0xC0, s[1]);
    } else if n == 3 {
      ThreeBytesEncodeBack(s);
      hide Encode, FirstScalar;
    } else if n == 4 {
      FourBytesEncodeBack(s);
      hide Encode, FirstScalar;
    }
  }

  lemma {:induction false} EncodedIsValid(text: seq<Scalar>)
    ensures Valid(EncodeAll(text))
  {
    if |text| > 0 {
      EncodedHasItsLength(text[0]);
      var first := Encode(text[0]);
      hide Encode, CharLength;
      assert first[|first|..] == [];
      EncodedIsValid(text[1..]);
      AppendIsValid(first, EncodeAll(text[1..]));
    }
  }

  /** The scalar values of a valid text. */
  function DecodeAll(s: seq<Byte>): (text: seq<Scalar>)
    requires Valid(s)
  {
    if |s| == 0 then [] else [FirstScalar(s)] + DecodeAll(s[CharLength(s)..])
  }

  lemma {:induction false} ValidEncodesBack(s: seq<Byte>)
    requires Valid(s)
    ensures EncodeAll(DecodeAll(s)) == s
  {
    if |s| > 0 {
      FirstScalarEncodesBack(s);
      hide FirstScalar, Encode, CharLength;
      ValidEncodesBack(s[CharLength(s)..]);
      assert s == s[..CharLength(s)] + s[CharLength(s)..];
    }
  }

  /** A byte string is valid if and only if it is the encoding of a sequence of scalar values. */
  lemma ValidExactlyWhenEncoded(s: seq<Byte>)
    ensures Valid(s) <==> exists text :: EncodeAll(text) == s
  {
    if Valid(s) {
      ValidEncodesBack(s);
    }
    if text :| EncodeAll(text) == s {
      EncodedIsValid(text);
    }
  }
}
