/** Terminal output kept to a byte limit while it streams in. */
module Terminal {
  import opened Bytes
  import Utf8

  /** The first character boundary at or after `from`. */
  function NextBoundary(s: seq<Byte>, from: nat): (i: nat)
    requires from <= |s|
    ensures from <= i <= |s| && Utf8.IsCharBoundary(s, i)
    ensures forall j | from <= j < i :: !Utf8.IsCharBoundary(s, j)
    decreases |s| - from
  {
    if Utf8.IsCharBoundary(s, from) then from else NextBoundary(s, from + 1)
  }

  /** What is kept of a text: the text from the first boundary that leaves at most `limit` bytes. */
  function Kept(s: seq<Byte>, limit: nat): (r: seq<Byte>)
  {
    if |s| <= limit then s else s[NextBoundary(s, |s| - limit)..]
  }

  /** The kept text is valid, within the limit, and the longest such suffix of a valid text. */
  lemma KeptIsLongestSuffix(s: seq<Byte>, limit: nat, start: nat)
    requires Utf8.Valid(s)
    ensures Utf8.Valid(Kept(s, limit)) && |Kept(s, limit)| <= limit
    ensures exists i | 0 <= i <= |s| :: Kept(s, limit) == s[i..]
    ensures start <= |s| && |s[start..]| <= limit && Utf8.Valid(s[start..]) ==> |s[start..]| <= |Kept(s, limit)|
  {
    if |s| <= limit {
      assert s == s[0..];
    } else {
      var i := NextBoundary(s, |s| - limit);
      Utf8.BoundaryIffSuffixValid(s, i);
      if start <= |s| {
        Utf8.BoundaryIffSuffixValid(s, start);
      }
    }
  }

  /** Cutting at `p` shifts the boundaries after `p`. */
  lemma {:induction false} NextBoundaryAfterCut(s: seq<Byte>, p: nat, from: nat)
    requires p <= from <= |s|
    ensures NextBoundary(s[p..], from - p) == NextBoundary(s, from) - p
    decreases |s| - from
  {
    if from < |s| {
      assert s[p..][from - p] == s[from];
      if Utf8.IsContinuation(s[from]) {
        NextBoundaryAfterCut(s, p, from + 1);
      }
    }
  }

  /** Valid text appended behind adds no earlier boundary and removes none. */
  lemma {:induction false} NextBoundaryOfAppend(a: seq<Byte>, b: seq<Byte>, from: nat)
    requires from <= |a| && Utf8.Valid(b)
    ensures NextBoundary(a + b, from) == NextBoundary(a, from)
    decreases |a| - from
  {
    if from < |a| {
      assert (a + b)[from] == a[from];
      if Utf8.IsContinuation(a[from]) {
        NextBoundaryOfAppend(a, b, from + 1);
      }
    } else if |b| > 0 {
      assert (a + b)[from] == b[0];
    }
  }

  lemma {:induction false} NextBoundaryFromBetween(s: seq<Byte>, from: nat, later: nat)
    requires from <= later <= |s| && later <= NextBoundary(s, from)
    ensures NextBoundary(s, later) == NextBoundary(s, from)
    decreases later - from
  {
    if from < later {
      NextBoundaryFromBetween(s, from + 1, later);
    }
  }

  lemma CutOfAppend(a: seq<Byte>, b: seq<Byte>, p: nat)
    requires p <= |a|
    ensures a[p..] + b == (a + b)[p..]
  {
  }

  /** Cutting before the point from which anything is kept changes nothing. */
  lemma KeptAfterCut(s: seq<Byte>, p: nat, limit: nat)
    requires p + limit < |s|
    ensures Kept(s[p..], limit) == Kept(s, limit)
  {
    var from := |s| - limit;
    NextBoundaryAfterCut(s, p, from);
    var i := NextBoundary(s, from);
    assert |s[p..]| - limit == from - p;
    assert s[p..][i - p..] == s[i..];
  }

  /** Truncating early loses nothing that a single truncation at the end would keep. */
  lemma KeptOfKept(a: seq<Byte>, b: seq<Byte>, limit: nat)
    requires Utf8.Valid(a) && Utf8.Valid(b)
    ensures Kept(Kept(a, limit) + b, limit) == Kept(a + b, limit)
  {
    hide NextBoundary, Utf8.Valid, Utf8.IsCharBoundary;
    if |a| > limit {
      var p := NextBoundary(a, |a| - limit);
      var s, from := a + b, |a| + |b| - limit;
      CutOfAppend(a, b, p);
      if from <= p {
        NextBoundaryFromBetween(a, |a| - limit, from);
        NextBoundaryOfAppend(a, b, from);
        assert Kept(s, limit) == s[p..];
      } else {
        KeptAfterCut(s, p, limit);
      }
    }
  }

  function Concat(pieces: seq<seq<Byte>>): (r: seq<Byte>)
  {
    if |pieces| == 0 then [] else Concat(pieces[..|pieces| - 1]) + pieces[|pieces| - 1]
  }

  /** The pieces read before the reader reports the end of the stream with an empty read. */
  function BeforeEnd(chunks: seq<seq<Byte>>): (r: seq<seq<Byte>>)
    ensures |r| <= |chunks| && r == chunks[..|r|]
    ensures forall i | 0 <= i < |r| :: |r[i]| > 0
    ensures |r| < |chunks| ==> |chunks[|r|]| == 0
  {
    if |chunks| == 0 || |chunks[0]| == 0 then [] else [chunks[0]] + BeforeEnd(chunks[1..])
  }

  class TerminalOutput {
    var text: seq<Byte>
    var truncated: bool

    constructor ()
      ensures text == [] && !truncated
    {
      text, truncated := [], false;
    }
  }

  method TruncateFromStart(state: TerminalOutput, limit: nat)
    modifies state
    ensures state.text == Kept(old(state.text), limit)
    ensures state.truncated == (old(state.truncated) || |old(state.text)| > limit)
  {
    if |state.text| <= limit {
      return;
    }
    state.truncated := true;
    if limit == 0 {
      state.text := [];
      return;
    }
    var start := SatSub(|state.text|, limit);
    while start < |state.text| && !Utf8.IsCharBoundary(state.text, start)
      invariant |state.text| - limit <= start <= |state.text|
      invariant forall j | |state.text| - limit <= j < start :: !Utf8.IsCharBoundary(state.text, j)
      invariant state.text == old(state.text) && state.truncated
    {
      start := start + 1;
    }
    NextBoundaryFromBetween(state.text, |state.text| - limit, start);
    state.text := state.text[start..];
  }

  lemma {:induction false} ConcatIsValid(pieces: seq<seq<Byte>>)
    requires forall i | 0 <= i < |pieces| :: Utf8.Valid(pieces[i])
    ensures Utf8.Valid(Concat(pieces))
  {
    if |pieces| > 0 {
      ConcatIsValid(pieces[..|pieces| - 1]);
      Utf8.AppendIsValid(Concat(pieces[..|pieces| - 1]), pieces[|pieces| - 1]);
    }
  }

  lemma ConcatSnoc(pieces: seq<seq<Byte>>, piece: seq<Byte>)
    ensures Concat(pieces + [piece]) == Concat(pieces) + piece
  {
    assert (pieces + [piece])[..|pieces|] == pieces;
  }

  /** One append and truncate extends what one truncation of everything so far keeps. */
  lemma OneMorePiece(pieces: seq<seq<Byte>>, i: nat, limit: nat)
    requires i < |pieces| && forall j | 0 <= j < |pieces| :: Utf8.Valid(pieces[j])
    ensures var before, after := Concat(pieces[..i]), Concat(pieces[..i + 1]);
            && Kept(Kept(before, limit) + pieces[i], limit) == Kept(after, limit)
            && (|Kept(before, limit) + pieces[i]| > limit || |before| > limit <==> |after| > limit)
  {
    assert pieces[..i + 1] == pieces[..i] + [pieces[i]];
    ConcatSnoc(pieces[..i], pieces[i]);
    ConcatIsValid(pieces[..i]);
    KeptOfKept(Concat(pieces[..i]), pieces[i], limit);
  }

  function Decoded(decode: seq<Byte> -> seq<Byte>, s: seq<seq<Byte>>): (r: seq<seq<Byte>>)
    ensures |r| == |s| && forall i | 0 <= i < |s| :: r[i] == decode(s[i])
  {
    seq(|s|, i requires 0 <= i < |s| => decode(s[i]))
  }

  /** One read takes one piece off what is still to come, and an empty read ends it. */
  lemma NextPiece(decode: seq<Byte> -> seq<Byte>, rest: seq<seq<Byte>>)
    ensures if |rest| > 0 && |rest[0]| > 0
            then Decoded(decode, BeforeEnd(rest)) == [decode(rest[0])] + Decoded(decode, BeforeEnd(rest[1..]))
            else Decoded(decode, BeforeEnd(rest)) == []
  {
  }

  /**
   The reader thread: append, truncate, repeat.  The result is what one truncation of the whole
   decoded output would have kept.  `decode` stands for the lossy UTF-8 decoding of one read.
   */
  method CollectOutput(chunks: seq<seq<Byte>>, decode: seq<Byte> -> seq<Byte>, state: TerminalOutput, limit: nat)
    requires forall i | 0 <= i < |chunks| :: Utf8.Valid(decode(chunks[i]))
    requires state.text == [] && !state.truncated
    modifies state
    ensures var whole := Concat(Decoded(decode, BeforeEnd(chunks)));
            state.text == Kept(whole, limit) && state.truncated == (|whole| > limit)
  {
    ghost var pieces := Decoded(decode, BeforeEnd(chunks));
    ghost var i: nat := 0;
    var rest := chunks;
    assert Concat(pieces[..0]) == [] == Kept([], limit);
    assert pieces[0..] == pieces;
    hide Kept, Concat, Utf8.Valid, Decoded, BeforeEnd;
    while |rest| > 0 && |rest[0]| > 0
      invariant i <= |pieces| && Decoded(decode, BeforeEnd(rest)) == pieces[i..]
      invariant state.text == Kept(Concat(pieces[..i]), limit)
      invariant state.truncated == (|Concat(pieces[..i])| > limit)
    {
      NextPiece(decode, rest);
      assert pieces[i] == pieces[i..][0] == decode(rest[0]);
      OneMorePiece(pieces, i, limit);
      state.text := state.text + decode(rest[0]);
      TruncateFromStart(state, limit);
      rest := rest[1..];
      assert pieces[i + 1..] == pieces[i..][1..];
      i := i + 1;
    }
    NextPiece(decode, rest);
    assert pieces[..i] == pieces;
  }
}
