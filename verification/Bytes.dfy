/** Byte strings, the shared vocabulary of every wire-level module. */
module Bytes {

  type Byte = b: int | 0 <= b < 256

  const NUL: Byte := 0
  const LF: Byte := 10
  const CR: Byte := 13
  const SPACE: Byte := 32

  /** The largest value of a 64-bit `usize` or `u64`. */
  const USIZE_MAX: nat := 0xffff_ffff_ffff_ffff

  const MAX_ACP_FRAME_BYTES: nat := 32 * 1024 * 1024

  function SatAdd(a: nat, b: nat): (r: nat)
  {
    if a + b > USIZE_MAX then USIZE_MAX else a + b
  }

  function SatSub(a: nat, b: nat): (r: nat)
  {
    if a < b then 0 else a - b
  }

  /** Position of the first occurrence of `b`, or |s| when there is none. */
  function FirstIndex(s: seq<Byte>, b: Byte): (i: nat)
    ensures i <= |s|
    ensures b !in s[..i]
    ensures i < |s| ==> s[i] == b
  {
    if |s| == 0 || s[0] == b then 0 else
      var i := FirstIndex(s[1..], b) + 1;
      assert s[..i] == [s[0]] + s[1..][..i - 1];
      i
  }

  /** The first occurrence is unique: whatever splits `s` at a `b` not seen before splits it there. */
  lemma FirstIndexIsUnique(before: seq<Byte>, b: Byte, after: seq<Byte>)
    requires b !in before
    ensures FirstIndex(before + [b] + after, b) == |before|
  {
    var s := before + [b] + after;
    var i := FirstIndex(s, b);
    assert s[|before|] == b;
    assert forall j | 0 <= j < |before| :: s[j] == before[j];
    assert b in s[..|before| + 1] by {
      assert s[..|before| + 1][|before|] == b;
    }
    assert forall k | |before| < k <= |s| :: s[..|before| + 1] == s[..k][..|before| + 1];
  }

  /** The source's `last() == Some(&b'\r')` followed by `pop()`. */
  function DropOneCr(s: seq<Byte>): (r: seq<Byte>)
    ensures r <= s
    ensures |s| - 1 <= |r|
  {
    if |s| > 0 && s[|s| - 1] == CR then s[..|s| - 1] else s
  }

  /** A carriage return at the end is dropped, one and no other byte. */
  lemma DropOneCrMeans(s: seq<Byte>)
    ensures DropOneCr(s + [13]) == s
    ensures |s| == 0 || s[|s| - 1] != 13 ==> DropOneCr(s) == s
  {
    assert (s + [13])[..|s|] == s;
  }
}

/** Result and option types for the source's error returns. */
module Outcomes {

  datatype Option<+T> = None | Some(value: T)

  datatype Result<+T, +E> = Ok(value: T) | Err(error: E)
}
