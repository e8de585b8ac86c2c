/** Decoding a server-sent event stream that arrives in arbitrary chunks. */
module Sse {
  import opened Bytes
  import opened Outcomes

  const DATA_FIELD: seq<Byte> := [100, 97, 116, 97, 58]

  datatype SseError = LineTooLong | EventTooLong

  /** The unfinished line, and the data lines of the unfinished event, each followed by LF. */
  datatype Buffers = Buffers(line: seq<Byte>, data: seq<Byte>)

  datatype Decoded =
    | Done(buffers: Buffers, events: seq<seq<Byte>>)
    | Failed(error: SseError)

  // ---- the decoder, one byte at a time ---------------------------------------------------------

  function StripPrefix(s: seq<Byte>, prefix: seq<Byte>): (r: Option<seq<Byte>>)
  {
    if prefix <= s then Some(s[|prefix|..]) else None
  }

  /** The value of a `data:` line, without one leading space. */
  function DataValue(line: seq<Byte>): (r: Option<seq<Byte>>)
    ensures r.Some? ==> |r.value| + |DATA_FIELD| <= |line|
  {
    var value := StripPrefix(line, DATA_FIELD);
    if value.None? then None else
      var stripped := StripPrefix(value.value, [SPACE]);
      if stripped.Some? then stripped else value
  }

  function WithoutLast(s: seq<Byte>): (r: seq<Byte>)
  {
    if |s| > 0 && s[|s| - 1] == LF then s[..|s| - 1] else s
  }

  function Consume(data: seq<Byte>, line: seq<Byte>): (r: Decoded)
    ensures r.Done? ==> r.buffers.line == []
  {
    if |line| == 0 then
      if |data| == 0 then Done(Buffers([], data), []) else Done(Buffers([], []), [WithoutLast(data)])
    else
      var value := DataValue(line);
      if value.None? then Done(Buffers([], data), [])
      else if |data| + |value.value| + 1 > MAX_ACP_FRAME_BYTES then Failed(EventTooLong)
      else Done(Buffers([], data + value.value + [LF]), [])
  }

  function StepByte(b: Buffers, byte: Byte): (r: Decoded)
  {
    if byte == LF then Consume(b.data, DropOneCr(b.line))
    else if |b.line| >= MAX_ACP_FRAME_BYTES then Failed(LineTooLong)
    else Done(Buffers(b.line + [byte], b.data), [])
  }

  /** `r` with the events that were decoded before it. */
  function After(events: seq<seq<Byte>>, r: Decoded): (all: Decoded)
    ensures events == [] ==> all == r
  {
    if r.Failed? then r else Done(r.buffers, events + r.events)
  }

  lemma AfterAfter(a: seq<seq<Byte>>, b: seq<seq<Byte>>, r: Decoded)
    ensures After(a, After(b, r)) == After(a + b, r)
  {
    if r.Done? {
      assert a + (b + r.events) == a + b + r.events;
    }
  }

  function Decode(b: Buffers, stream: seq<Byte>): (r: Decoded)
    decreases |stream|
  {
    if |stream| == 0 then Done(b, []) else
      var first := StepByte(b, stream[0]);
      if first.Failed? then first else After(first.events, Decode(first.buffers, stream[1..]))
  }

  /** Decoding does not depend on where the stream is cut into chunks. */
  lemma {:induction false} DecodeAppend(b: Buffers, s: seq<Byte>, t: seq<Byte>)
    ensures var first := Decode(b, s);
            Decode(b, s + t) == if first.Failed? then first else After(first.events, Decode(first.buffers, t))
    decreases |s|
  {
    if |s| == 0 {
      assert s + t == t;
    } else {
      assert (s + t)[1..] == s[1..] + t;
      var step := StepByte(b, s[0]);
      if step.Done? {
        DecodeAppend(step.buffers, s[1..], t);
        var rest := Decode(step.buffers, s[1..]);
        if rest.Done? {
          AfterAfter(step.events, rest.events, Decode(rest.buffers, t));
        }
      }
    }
  }

  // ---- the stream format -------------------------------------------------------------------------

  /** The lines that end in LF, without it. */
  function Lines(stream: seq<Byte>): (r: seq<seq<Byte>>)
    decreases |stream|
  {
    var i := FirstIndex(stream, LF);
    if i == |stream| then [] else [stream[..i]] + Lines(stream[i + 1..])
  }

  /** What follows the last LF. */
  function Rest(stream: seq<Byte>): (r: seq<Byte>)
    decreases |stream|
  {
    var i := FirstIndex(stream, LF);
    if i == |stream| then stream else Rest(stream[i + 1..])
  }

  function Stripped(lines: seq<seq<Byte>>): (r: seq<seq<Byte>>)
    ensures |r| == |lines|
  {
    seq(|lines|, i requires 0 <= i < |lines| => DropOneCr(lines[i]))
  }

  function FirstBlank(lines: seq<seq<Byte>>): (k: nat)
    ensures k <= |lines|
    ensures forall i | 0 <= i < k :: lines[i] != []
    ensures k < |lines| ==> lines[k] == []
  {
    if |lines| == 0 || lines[0] == [] then 0 else FirstBlank(lines[1..]) + 1
  }

  /** Blocks of lines separated by blank lines; the last one is unfinished. */
  function Blocks(lines: seq<seq<Byte>>): (r: seq<seq<seq<Byte>>>)
    ensures |r| > 0
    decreases |lines|
  {
    var k := FirstBlank(lines);
    if k == |lines| then [lines] else [lines[..k]] + Blocks(lines[k + 1..])
  }

  function Values(block: seq<seq<Byte>>): (r: seq<seq<Byte>>)
  {
    if |block| == 0 then [] else
      var value := DataValue(block[0]);
      (if value.Some? then [value.value] else []) + Values(block[1..])
  }

  /** Values separated by LF. */
  function Join(values: seq<seq<Byte>>): (r: seq<Byte>)
  {
    if |values| == 0 then []
    else if |values| == 1 then values[0]
    else values[0] + [LF] + Join(values[1..])
  }

  /** The payloads of the finished blocks that have a data line. */
  function Payloads(blocks: seq<seq<seq<Byte>>>): (r: seq<seq<Byte>>)
  {
    if |blocks| <= 1 then [] else
      var values := Values(blocks[0]);
      (if |values| > 0 then [Join(values)] else []) + Payloads(blocks[1..])
  }

  /** What a block's data lines need: each value and its LF. */
  function Cost(values: seq<seq<Byte>>): (n: nat)
  {
    if |values| == 0 then 0 else |values[0]| + 1 + Cost(values[1..])
  }

  function StreamBlocks(stream: seq<Byte>): (r: seq<seq<seq<Byte>>>)
    ensures |r| > 0
  {
    Blocks(Stripped(Lines(stream)))
  }

  ghost predicate EachFits(lines: seq<seq<Byte>>)
  {
    forall i | 0 <= i < |lines| :: |lines[i]| <= MAX_ACP_FRAME_BYTES
  }

  ghost predicate LinesFit(stream: seq<Byte>)
  {
    EachFits(Lines(stream)) && |Rest(stream)| <= MAX_ACP_FRAME_BYTES
  }

  ghost predicate BlocksFit(blocks: seq<seq<seq<Byte>>>)
  {
    forall i | 0 <= i < |blocks| :: Cost(Values(blocks[i])) <= MAX_ACP_FRAME_BYTES
  }

  /** Every line, and the data lines of every block, stay within the frame limit. */
  ghost predicate WithinLimits(stream: seq<Byte>)
  {
    LinesFit(stream) && BlocksFit(StreamBlocks(stream))
  }

  // ---- from bytes to lines -----------------------------------------------------------------------

  /** Bytes without LF only extend the line. */
  lemma {:induction false} DecodeText(b: Buffers, text: seq<Byte>)
    requires LF !in text && |b.line| <= MAX_ACP_FRAME_BYTES
    ensures Decode(b, text) == if |b.line| + |text| <= MAX_ACP_FRAME_BYTES then Done(Buffers(b.line + text, b.data), [])
                               else Failed(LineTooLong)
    decreases |text|
  {
    if |text| == 0 {
      assert b.line + text == b.line;
    } else if |b.line| < MAX_ACP_FRAME_BYTES {
      assert StepByte(b, text[0]) == Done(Buffers(b.line + [text[0]], b.data), []);
      DecodeText(Buffers(b.line + [text[0]], b.data), text[1..]);
      assert b.line + [text[0]] + text[1..] == b.line + text;
    }
  }

  /** The decoder over whole lines. */
  function DecodeLines(data: seq<Byte>, lines: seq<seq<Byte>>): (r: Decoded)
    ensures r.Done? ==> r.buffers.line == []
    decreases |lines|
  {
    if |lines| == 0 then Done(Buffers([], data), []) else
      var first := Consume(data, lines[0]);
      if first.Failed? then first else After(first.events, DecodeLines(first.buffers.data, lines[1..]))
  }

  lemma DecodeFirstByte(b: Buffers, byte: Byte, rest: seq<Byte>)
    ensures var step := StepByte(b, byte);
            Decode(b, [byte] + rest) == if step.Failed? then step else After(step.events, Decode(step.buffers, rest))
  {
    assert ([byte] + rest)[1..] == rest;
  }

  lemma DecodeOneLine(data: seq<Byte>, text: seq<Byte>, rest: seq<Byte>)
    requires LF !in text
    ensures var r := Decode(Buffers([], data), text + [LF] + rest);
            var first := Consume(data, DropOneCr(text));
            if |text| > MAX_ACP_FRAME_BYTES then r == Failed(LineTooLong)
            else if first.Failed? then r == first
            else r == After(first.events, Decode(first.buffers, rest))
  {
    var start, held := Buffers([], data), Buffers(text, data);
    DecodeText(start, text);
    assert start.line + text == text && text + [LF] + rest == text + ([LF] + rest);
    DecodeAppend(start, text, [LF] + rest);
    DecodeFirstByte(held, LF, rest);
    assert StepByte(held, LF) == Consume(data, DropOneCr(text));
    hide Decode, Consume, DropOneCr, StepByte;
  }

  lemma EachFitsStep(line: seq<Byte>, rest: seq<seq<Byte>>)
    ensures EachFits([line] + rest) <==> |line| <= MAX_ACP_FRAME_BYTES && EachFits(rest)
  {
    var all := [line] + rest;
    assert all[0] == line && forall i | 0 <= i < |rest| :: rest[i] == all[i + 1];
  }

  lemma FirstLine(text: seq<Byte>, rest: seq<Byte>)
    requires LF !in text
    ensures var stream := text + [LF] + rest;
            && Rest(stream) == Rest(rest)
            && Stripped(Lines(stream)) == [DropOneCr(text)] + Stripped(Lines(rest))
            && (LinesFit(stream) <==> |text| <= MAX_ACP_FRAME_BYTES && LinesFit(rest))
  {
    FirstIndexIsUnique(text, LF, rest);
    var stream := text + [LF] + rest;
    assert stream[..|text|] == text && stream[|text| + 1..] == rest;
    assert Lines(stream) == [text] + Lines(rest);
    EachFitsStep(text, Lines(rest));
  }

  /** The byte decoder is the line decoder on the stripped lines, as long as no line is too long. */
  ghost predicate LinewiseFrom(data: seq<Byte>, stream: seq<Byte>)
  {
    var r, lines := Decode(Buffers([], data), stream), DecodeLines(data, Stripped(Lines(stream)));
    && (r.Done? <==> LinesFit(stream) && lines.Done?)
    && (r.Done? ==> r == Done(Buffers(Rest(stream), lines.buffers.data), lines.events))
  }

  lemma LinewiseStep(data: seq<Byte>, text: seq<Byte>, rest: seq<Byte>)
    requires LF !in text
    requires var first := Consume(data, DropOneCr(text)); first.Done? ==> LinewiseFrom(first.buffers.data, rest)
    ensures LinewiseFrom(data, text + [LF] + rest)
  {
    DecodeOneLine(data, text, rest);
    FirstLine(text, rest);
    DecodeFirstLine(data, DropOneCr(text), Stripped(Lines(rest)));
    hide Decode, DecodeLines, Consume, DropOneCr, Stripped, Lines, LinesFit, Rest;
    var first := Consume(data, DropOneCr(text));
    assert first.Done? ==> first.buffers == Buffers([], first.buffers.data);
  }

  lemma NoLines(stream: seq<Byte>)
    requires FirstIndex(stream, LF) == |stream|
    ensures Lines(stream) == Stripped(Lines(stream)) == [] && Rest(stream) == stream
    ensures LinesFit(stream) <==> |stream| <= MAX_ACP_FRAME_BYTES
    ensures LF !in stream
  {
    hide FirstIndex;
    assert stream[..|stream|] == stream;
  }

  lemma LinewiseRest(data: seq<Byte>, stream: seq<Byte>)
    requires FirstIndex(stream, LF) == |stream|
    ensures LinewiseFrom(data, stream)
  {
    hide Decode, DecodeLines, Lines, Rest, Stripped, LinesFit, FirstIndex;
    NoLines(stream);
    DecodeText(Buffers([], data), stream);
    DecodeNoLines(data);
    assert [] + stream == stream;
  }

  lemma {:induction false} BytesToLines(data: seq<Byte>, stream: seq<Byte>)
    ensures LinewiseFrom(data, stream)
    decreases |stream|
  {
    hide LinewiseFrom;
    var i := FirstIndex(stream, LF);
    if i == |stream| {
      LinewiseRest(data, stream);
    } else {
      var text, rest := stream[..i], stream[i + 1..];
      var first := Consume(data, DropOneCr(text));
      if first.Done? {
        BytesToLines(first.buffers.data, rest);
      }
      LinewiseStep(data, text, rest);
      assert stream == text + [LF] + rest;
    }
  }

  // ---- from lines to blocks ----------------------------------------------------------------------

  /** What the decoder holds for the data lines seen so far. */
  function Held(values: seq<seq<Byte>>): (r: seq<Byte>)
    ensures |r| == Cost(values)
  {
    if |values| == 0 then [] else values[0] + [LF] + Held(values[1..])
  }

  lemma {:induction false} HeldSnoc(values: seq<seq<Byte>>, value: seq<Byte>)
    ensures Held(values + [value]) == Held(values) + value + [LF]
    ensures Cost(values + [value]) == Cost(values) + |value| + 1
  {
    if |values| > 0 {
      HeldSnoc(values[1..], value);
      assert (values + [value])[1..] == values[1..] + [value];
    }
  }

  lemma {:induction false} HeldIsJoinAndLf(values: seq<seq<Byte>>)
    requires |values| > 0
    ensures Held(values) == Join(values) + [LF]
  {
    if |values| > 1 {
      HeldIsJoinAndLf(values[1..]);
    } else {
      assert Held(values[1..]) == [];
    }
  }

  lemma {:induction false} CostAppend(a: seq<seq<Byte>>, b: seq<seq<Byte>>)
    ensures Cost(a + b) == Cost(a) + Cost(b)
  {
    if |a| == 0 {
      assert a + b == b;
    } else {
      CostAppend(a[1..], b);
      assert (a + b)[1..] == a[1..] + b;
    }
  }

  lemma DecodeFirstLine(data: seq<Byte>, line: seq<Byte>, rest: seq<seq<Byte>>)
    ensures var first := Consume(data, line);
            DecodeLines(data, [line] + rest) == if first.Failed? then first else After(first.events, DecodeLines(first.buffers.data, rest))
  {
    assert ([line] + rest)[1..] == rest;
  }

  /** A line that is not blank adds its value, if it has one, to what is held. */
  lemma ConsumeHeld(values: seq<seq<Byte>>, line: seq<Byte>)
    requires line != []
    ensures var more := values + Values([line]);
            Consume(Held(values), line) ==
              if more == values || Cost(more) <= MAX_ACP_FRAME_BYTES then Done(Buffers([], Held(more)), []) else Failed(EventTooLong)
  {
    var value := DataValue(line);
    assert [line][1..] == [];
    if value.None? {
      assert values + Values([line]) == values;
    } else {
      HeldSnoc(values, value.value);
      assert Values([line]) == [value.value];
    }
  }

  /** Lines of one block add their values to what is held, and emit nothing. */
  lemma {:induction false} DecodeBlock(values: seq<seq<Byte>>, block: seq<seq<Byte>>, lines: seq<seq<Byte>>)
    requires forall i | 0 <= i < |block| :: block[i] != []
    requires Cost(values) <= MAX_ACP_FRAME_BYTES
    ensures var all := values + Values(block);
            if Cost(all) <= MAX_ACP_FRAME_BYTES then DecodeLines(Held(values), block + lines) == DecodeLines(Held(all), lines)
            else DecodeLines(Held(values), block + lines) == Failed(EventTooLong)
    decreases |block|
  {
    if |block| == 0 {
      assert block + lines == lines;
      assert values + Values(block) == values;
    } else {
      var first, rest := block[0], block[1..];
      ValuesStep(first, rest);
      hide DecodeLines, Held, Consume, Values, Cost;
      assert block == [first] + rest && block + lines == [first] + (rest + lines);
      DecodeFirstLine(Held(values), first, rest + lines);
      ConsumeHeld(values, first);
      var more := values + Values([first]);
      assert more + Values(rest) == values + Values(block);
      CostAppend(more, Values(rest));
      if Cost(more) <= MAX_ACP_FRAME_BYTES {
        DecodeBlock(more, rest, lines);
      }
    }
  }

  lemma ValuesStep(first: seq<Byte>, rest: seq<seq<Byte>>)
    ensures Values([first] + rest) == Values([first]) + Values(rest)
  {
    assert ([first] + rest)[1..] == rest && [first][1..] == [];
  }

  /** A blank line emits the held values, joined, if there are any. */
  lemma DecodeBlank(values: seq<seq<Byte>>, lines: seq<seq<Byte>>)
    ensures var events := if |values| > 0 then [Join(values)] else [];
            DecodeLines(Held(values), [[]] + lines) == After(events, DecodeLines([], lines))
  {
    assert ([[]] + lines)[1..] == lines;
    if |values| > 0 {
      HeldIsJoinAndLf(values);
      assert WithoutLast(Held(values)) == Join(values);
    }
  }

  lemma BlocksFitStep(block: seq<seq<Byte>>, rest: seq<seq<seq<Byte>>>)
    ensures BlocksFit([block] + rest) <==> Cost(Values(block)) <= MAX_ACP_FRAME_BYTES && BlocksFit(rest)
  {
    var all := [block] + rest;
    assert all[0] == block && forall i | 0 <= i < |rest| :: rest[i] == all[i + 1];
  }

  lemma DecodeNoLines(data: seq<Byte>)
    ensures DecodeLines(data, []) == Done(Buffers([], data), [])
  {
  }

  /** The line decoder yields the blocks' payloads, as long as no block is too long. */
  ghost predicate Blockwise(lines: seq<seq<Byte>>)
  {
    var r, blocks := DecodeLines([], lines), Blocks(lines);
    && (r.Done? <==> BlocksFit(blocks))
    && (r.Done? ==> r.buffers.data == Held(Values(blocks[|blocks| - 1])) && r.events == Payloads(blocks))
  }

  lemma DecodeLastBlock(block: seq<seq<Byte>>)
    requires forall i | 0 <= i < |block| :: block[i] != []
    ensures var values := Values(block);
            DecodeLines([], block) == if Cost(values) <= MAX_ACP_FRAME_BYTES then Done(Buffers([], Held(values)), []) else Failed(EventTooLong)
  {
    hide Values, DataValue;
    assert block + [] == block && [] + Values(block) == Values(block);
    assert Held([]) == [] && Cost([]) == 0;
    DecodeBlock([], block, []);
    DecodeNoLines(Held(Values(block)));
    hide DecodeLines, Held, Cost, Consume;
  }

  lemma LastBlock(lines: seq<seq<Byte>>)
    requires FirstBlank(lines) == |lines|
    ensures Blockwise(lines)
  {
    DecodeLastBlock(lines);
    hide DecodeLines, Held, Cost, Values, Consume;
    var blocks := Blocks(lines);
    assert |blocks| == 1 && blocks[0] == lines;
  }

  lemma FirstBlankIs(lines: seq<seq<Byte>>, k: nat)
    requires k < |lines| && lines[k] == [] && forall i | 0 <= i < k :: lines[i] != []
    ensures FirstBlank(lines) == k
  {
    hide FirstBlank;
  }

  lemma FirstBlock(block: seq<seq<Byte>>, rest: seq<seq<Byte>>)
    requires forall i | 0 <= i < |block| :: block[i] != []
    ensures Blocks(block + [[]] + rest) == [block] + Blocks(rest)
  {
    var lines, k := block + [[]] + rest, |block|;
    FirstBlankIs(lines, k);
    hide FirstBlank;
    assert lines[..k] == block && lines[k + 1..] == rest;
  }

  lemma BlockwiseStep(block: seq<seq<Byte>>, rest: seq<seq<Byte>>)
    requires forall i | 0 <= i < |block| :: block[i] != []
    requires Blockwise(rest)
    ensures Blockwise(block + [[]] + rest)
  {
    var values := Values(block);
    assert Held([]) == [] && Cost([]) == 0 && [] + values == values;
    assert block + [[]] + rest == block + ([[]] + rest);
    DecodeBlock([], block, [[]] + rest);
    DecodeBlank(values, rest);
    FirstBlock(block, rest);
    BlocksFitStep(block, Blocks(rest));
    assert ([block] + Blocks(rest))[1..] == Blocks(rest);
    hide DecodeLines, Held, Cost, Values, BlocksFit, Blocks, Join;
  }

  lemma {:induction false} LinesToBlocks(lines: seq<seq<Byte>>)
    ensures Blockwise(lines)
    decreases |lines|
  {
    var k := FirstBlank(lines);
    if k == |lines| {
      LastBlock(lines);
    } else {
      LinesToBlocks(lines[k + 1..]);
      BlockwiseStep(lines[..k], lines[k + 1..]);
      assert lines == lines[..k] + [[]] + lines[k + 1..];
    }
  }

  // ---- the decoder against the format --------------------------------------------------------------

  /** Decoding a whole stream succeeds exactly within the limits, and then yields its payloads. */
  lemma DecodesTheFormat(stream: seq<Byte>)
    ensures var r, blocks := Decode(Buffers([], []), stream), StreamBlocks(stream);
            && (r.Done? <==> WithinLimits(stream))
            && (r.Done? ==>
                  && r.events == Payloads(blocks)
                  && r.buffers == Buffers(Rest(stream), Held(Values(blocks[|blocks| - 1]))))
  {
    BytesToLines([], stream);
    LinesToBlocks(Stripped(Lines(stream)));
  }

  // ---- what a server writes ------------------------------------------------------------------------

  /** A line behind `data: ` has exactly the rest as its value. */
  lemma SpacedDataLine(v: seq<Byte>)
    ensures DataValue([100, 97, 116, 97, 58, 32] + v) == Some(v)
  {
    var line, value := [100, 97, 116, 97, 58, 32] + v, [32] + v;
    assert line == DATA_FIELD + value;
    assert line[5..] == value && value[1..] == v;
  }

  /** Behind `data:` alone only one leading space is not part of the value. */
  lemma DataLine(v: seq<Byte>)
    requires |v| == 0 || v[0] != 32
    ensures DataValue([100, 97, 116, 97, 58] + v) == Some(v)
  {
    assert ([100, 97, 116, 97, 58] + v)[5..] == v;
  }

  lemma OtherLine(line: seq<Byte>)
    requires !([100, 97, 116, 97, 58] <= line)
    ensures DataValue(line).None?
  {
  }

  /** A line as a server may write it, with LF or CR LF at its end. */
  datatype Sent = SentData(value: seq<Byte>, spaced: bool, cr: bool) | SentOther(text: seq<Byte>, cr: bool)

  function SentText(line: Sent): (r: seq<Byte>)
  {
    match line
    case SentData(value, spaced, _) => (if spaced then [100, 97, 116, 97, 58, 32] else [100, 97, 116, 97, 58]) + value
    case SentOther(text, _) => text
  }

  /** The line without its LF. */
  function SentLine(line: Sent): (r: seq<Byte>)
  {
    SentText(line) + if line.cr then [13] else []
  }

  /** One line of text that is what it says: a data value with its own leading space needs one more, and no other line begins with the field. */
  ghost predicate Writable(line: Sent)
  {
    && 10 !in SentText(line) && |SentText(line)| > 0 && (!line.cr ==> SentText(line)[|SentText(line)| - 1] != 13)
    && |SentLine(line)| <= MAX_ACP_FRAME_BYTES
    && match line
       case SentData(value, spaced, _) => spaced || |value| == 0 || value[0] != 32
       case SentOther(text, _) => !([100, 97, 116, 97, 58] <= text)
  }

  function SentValues(event: seq<Sent>): (r: seq<seq<Byte>>)
  {
    if |event| == 0 then [] else (if event[0].SentData? then [event[0].value] else []) + SentValues(event[1..])
  }

  function LinesText(lines: seq<Sent>): (r: seq<Byte>)
  {
    if |lines| == 0 then [] else SentLine(lines[0]) + [10] + LinesText(lines[1..])
  }

  /** Each event and the blank line behind it. */
  function StreamText(events: seq<seq<Sent>>): (r: seq<Byte>)
  {
    if |events| == 0 then [] else LinesText(events[0]) + [10] + StreamText(events[1..])
  }

  /** The data of every event that has any. */
  function SentPayloads(events: seq<seq<Sent>>): (r: seq<seq<Byte>>)
  {
    if |events| == 0 then [] else
      var values := SentValues(events[0]);
      (if |values| > 0 then [Join(values)] else []) + SentPayloads(events[1..])
  }

  lemma SentLineIsRead(line: Sent)
    requires Writable(line)
    ensures LF !in SentLine(line) && |SentLine(line)| <= MAX_ACP_FRAME_BYTES
    ensures SentText(line) != [] && DropOneCr(SentLine(line)) == SentText(line)
    ensures Values([SentText(line)]) == if line.SentData? then [line.value] else []
  {
    var text := SentText(line);
    DropOneCrMeans(text);
    assert text + [] == text;
    assert Values([text][1..]) == [];
    match line
    case SentData(value, spaced, _) =>
      if spaced {
        SpacedDataLine(value);
      } else {
        DataLine(value);
      }
    case SentOther(_, _) => OtherLine(text);
  }

  lemma DecodeSentLine(values: seq<seq<Byte>>, line: Sent, rest: seq<Byte>)
    requires Writable(line) && Cost(values + Values([SentText(line)])) <= MAX_ACP_FRAME_BYTES
    ensures Decode(Buffers([], Held(values)), SentLine(line) + [10] + rest)
            == Decode(Buffers([], Held(values + Values([SentText(line)]))), rest)
  {
    SentLineIsRead(line);
    hide SentText, SentLine, Held, Cost, Decode, Consume, Values, Writable, DropOneCr;
    DecodeOneLine(Held(values), SentLine(line), rest);
    ConsumeHeld(values, SentText(line));
  }

  lemma LinesTextStep(line: Sent, others: seq<Sent>, rest: seq<Byte>)
    ensures LinesText([line] + others) + rest == SentLine(line) + [10] + (LinesText(others) + rest)
    ensures SentValues([line] + others) == (if line.SentData? then [line.value] else []) + SentValues(others)
  {
    assert ([line] + others)[1..] == others;
    hide SentLine;
  }

  lemma NoLinesText(values: seq<seq<Byte>>, rest: seq<Byte>)
    ensures LinesText([]) + rest == rest && values + SentValues([]) == values
  {
  }

  lemma {:induction false} DecodeSentLines(values: seq<seq<Byte>>, lines: seq<Sent>, rest: seq<Byte>)
    requires (forall i | 0 <= i < |lines| :: Writable(lines[i])) && Cost(values + SentValues(lines)) <= MAX_ACP_FRAME_BYTES
    ensures Decode(Buffers([], Held(values)), LinesText(lines) + rest) == Decode(Buffers([], Held(values + SentValues(lines))), rest)
    decreases |lines|
  {
    hide Values, Held, Cost, Decode, Writable, SentText, SentLine, SentValues, LinesText;
    if |lines| == 0 {
      NoLinesText(values, rest);
    } else {
      var line, others := lines[0], lines[1..];
      SentLineIsRead(line);
      assert lines == [line] + others;
      LinesTextStep(line, others, rest);
      var one, behind := Values([SentText(line)]), SentValues(others);
      assert values + (one + behind) == (values + one) + behind;
      CostAppend(values + one, behind);
      DecodeSentLine(values, line, LinesText(others) + rest);
      DecodeSentLines(values + one, others, rest);
    }
  }

  lemma DecodeSentBlank(values: seq<seq<Byte>>, rest: seq<Byte>)
    ensures Decode(Buffers([], Held(values)), [10] + rest)
            == After(if |values| > 0 then [Join(values)] else [], Decode(Buffers([], []), rest))
  {
    DecodeFirstByte(Buffers([], Held(values)), 10, rest);
    if |values| > 0 {
      HeldIsJoinAndLf(values);
      assert WithoutLast(Held(values)) == Join(values);
    }
    hide Decode, Join;
  }

  ghost predicate EventFits(event: seq<Sent>)
  {
    (forall i | 0 <= i < |event| :: Writable(event[i])) && Cost(SentValues(event)) <= MAX_ACP_FRAME_BYTES
  }

  /** Whatever events a server writes, within the limits: decoding yields the data of each, lines joined, in order. */
  lemma {:induction false} WrittenEventsAreRead(events: seq<seq<Sent>>)
    requires forall i | 0 <= i < |events| :: EventFits(events[i])
    ensures Decode(Buffers([], []), StreamText(events)) == Done(Buffers([], []), SentPayloads(events))
    decreases |events|
  {
    if |events| > 0 {
      var event, others := events[0], events[1..];
      assert EventFits(event);
      WrittenEventsAreRead(others);
      assert StreamText(events) == LinesText(event) + ([10] + StreamText(others));
      assert Held([]) == [] && [] + SentValues(event) == SentValues(event);
      hide Held, Decode, Writable, SentValues, Join, StreamText;
      DecodeSentLines([], event, [10] + StreamText(others));
      DecodeSentBlank(SentValues(event), StreamText(others));
    }
  }

  lemma OneEventText(event: seq<Sent>)
    ensures StreamText([event]) == LinesText(event) + [10]
    ensures SentPayloads([event]) == if |SentValues(event)| > 0 then [Join(SentValues(event))] else []
  {
    assert StreamText([event][1..]) == [] && SentPayloads([event][1..]) == [];
  }

  lemma OneLineText(line: Sent)
    ensures LinesText([line]) == SentLine(line) + [10]
    ensures line.SentData? ==> SentValues([line]) == [line.value] && Cost([line.value]) == |line.value| + 1
  {
    LinesTextStep(line, [], []);
    assert [line] + [] == [line] && LinesText([line]) + [] == LinesText([line]) && LinesText([]) + [] == [];
  }

  lemma DataLineIsWritable(v: seq<Byte>)
    requires 10 !in v && (|v| == 0 || v[|v| - 1] != 13) && |v| + 6 <= MAX_ACP_FRAME_BYTES
    ensures Writable(SentData(v, true, false)) && SentLine(SentData(v, true, false)) == [100, 97, 116, 97, 58, 32] + v
  {
    var text := [100, 97, 116, 97, 58, 32] + v;
    assert text + [] == text;
    assert |v| > 0 ==> text[|text| - 1] == v[|v| - 1];
  }

  lemma OneDataLineText(v: seq<Byte>)
    requires 10 !in v && (|v| == 0 || v[|v| - 1] != 13) && |v| + 6 <= MAX_ACP_FRAME_BYTES
    ensures var event := [SentData(v, true, false)];
            EventFits(event) && SentPayloads([event]) == [v] && StreamText([event]) == [100, 97, 116, 97, 58, 32] + v + [10, 10]
  {
    DataLineIsWritable(v);
    hide Writable, SentText, SentLine, SentValues, LinesText, StreamText, SentPayloads, Cost;
    var line := SentData(v, true, false);
    OneLineText(line);
    OneEventText([line]);
    assert Join([v]) == v;
    hide Join;
    var text := [100, 97, 116, 97, 58, 32] + v;
    assert text + [10] + [10] == text + [10, 10];
  }

  /** The shortest event: one data line and a blank line. */
  lemma OneDataLineIsOneEvent(v: seq<Byte>)
    requires 10 !in v && (|v| == 0 || v[|v| - 1] != 13) && |v| + 6 <= MAX_ACP_FRAME_BYTES
    ensures Decode(Buffers([], []), [100, 97, 116, 97, 58, 32] + v + [10, 10]) == Done(Buffers([], []), [v])
  {
    hide Decode, StreamText, SentPayloads, EventFits;
    OneDataLineText(v);
    WrittenEventsAreRead([[SentData(v, true, false)]]);
  }

  function Concat<T>(chunks: seq<seq<T>>): (r: seq<T>)
  {
    if |chunks| == 0 then [] else chunks[0] + Concat(chunks[1..])
  }

  /** Pushing the chunks one after another, until one fails. */
  function PushAll(b: Buffers, chunks: seq<seq<Byte>>): (r: Decoded)
    decreases |chunks|
  {
    if |chunks| == 0 then Done(b, []) else
      var first := Decode(b, chunks[0]);
      if first.Failed? then first else After(first.events, PushAll(first.buffers, chunks[1..]))
  }

  lemma {:induction false} PushAllIsDecode(b: Buffers, chunks: seq<seq<Byte>>)
    ensures PushAll(b, chunks) == Decode(b, Concat(chunks))
    decreases |chunks|
  {
    if |chunks| > 0 {
      DecodeAppend(b, chunks[0], Concat(chunks[1..]));
      var first := Decode(b, chunks[0]);
      if first.Done? {
        PushAllIsDecode(first.buffers, chunks[1..]);
      }
    }
  }

  /** However the stream is chunked, all pushes succeed exactly within the limits, with the same payloads. */
  lemma ChunkingDoesNotMatter(chunks: seq<seq<Byte>>)
    ensures var r, stream := PushAll(Buffers([], []), chunks), Concat(chunks);
            && (r.Done? <==> WithinLimits(stream))
            && (r.Done? ==> r.events == Payloads(StreamBlocks(stream)))
  {
    PushAllIsDecode(Buffers([], []), chunks);
    DecodesTheFormat(Concat(chunks));
  }

  // ---- what is buffered ------------------------------------------------------------------------------

  function BufferedLen(b: Buffers): (n: nat)
  {
    |b.line| + |b.data|
  }

  function TotalLen(events: seq<seq<Byte>>): (n: nat)
  {
    if |events| == 0 then 0 else |events[0]| + TotalLen(events[1..])
  }

  lemma {:induction false} TotalLenAppend(a: seq<seq<Byte>>, b: seq<seq<Byte>>)
    ensures TotalLen(a + b) == TotalLen(a) + TotalLen(b)
  {
    if |a| == 0 {
      assert a + b == b;
    } else {
      TotalLenAppend(a[1..], b);
      assert (a + b)[1..] == a[1..] + b;
    }
  }

  ghost predicate Bounded(b: Buffers)
  {
    |b.line| <= MAX_ACP_FRAME_BYTES && |b.data| <= MAX_ACP_FRAME_BYTES
  }

  lemma StepNeverGrows(b: Buffers, byte: Byte)
    requires Bounded(b)
    ensures var r := StepByte(b, byte);
            r.Done? ==> BufferedLen(r.buffers) + TotalLen(r.events) <= BufferedLen(b) + 1 && Bounded(r.buffers)
  {
    hide DataValue;
  }

  /** Decoding never holds and emits more bytes than it was given, nor more than the frame limit. */
  lemma {:induction false} DecodeNeverGrows(b: Buffers, stream: seq<Byte>)
    requires Bounded(b)
    ensures var r := Decode(b, stream);
            r.Done? ==> BufferedLen(r.buffers) + TotalLen(r.events) <= BufferedLen(b) + |stream| && Bounded(r.buffers)
    decreases |stream|
  {
    if |stream| > 0 {
      var step := StepByte(b, stream[0]);
      StepNeverGrows(b, stream[0]);
      hide StepByte;
      if step.Done? {
        DecodeNeverGrows(step.buffers, stream[1..]);
        var rest := Decode(step.buffers, stream[1..]);
        if rest.Done? {
          TotalLenAppend(step.events, rest.events);
        }
      }
    }
  }

  // ---- the decoder as the source runs it ---------------------------------------------------------------

  class SseDecoder {
    var line: seq<Byte>
    var data: seq<Byte>

    ghost function View(): (b: Buffers)
      reads this
    {
      Buffers(line, data)
    }

    constructor ()
      ensures View() == Buffers([], [])
    {
      line, data := [], [];
    }

    method BufferedLength() returns (n: nat)
      requires Bounded(View())
      ensures n == BufferedLen(View())
    {
      n := SatAdd(|line|, |data|);
    }

    method ConsumeLine(text: seq<Byte>, events: seq<seq<Byte>>) returns (r: Result<seq<seq<Byte>>, SseError>)
      requires |data| <= MAX_ACP_FRAME_BYTES && |text| <= MAX_ACP_FRAME_BYTES
      modifies this`data
      ensures var step := Consume(old(data), text);
              if step.Failed? then r == Err(step.error) else r == Ok(events + step.events) && data == step.buffers.data
    {
      if |text| == 0 {
        assert events + [] == events;
        if |data| > 0 {
          var payload := if data[|data| - 1] == LF then data[..|data| - 1] else data;
          data := [];
          return Ok(events + [payload]);
        }
        return Ok(events);
      }
      assert events + [] == events;
      var field := StripPrefix(text, DATA_FIELD);
      if field.None? {
        return Ok(events);
      }
      var unspaced := StripPrefix(field.value, [SPACE]);
      var value := if unspaced.Some? then unspaced.value else field.value;
      if SatAdd(SatAdd(|data|, |value|), 1) > MAX_ACP_FRAME_BYTES {
        return Err(EventTooLong);
      }
      data := data + value + [LF];
      return Ok(events);
    }

    method PushByte(byte: Byte, events: seq<seq<Byte>>) returns (r: Result<seq<seq<Byte>>, SseError>)
      requires Bounded(View())
      modifies this
      ensures var step := StepByte(old(View()), byte);
              if step.Failed? then r == Err(step.error)
              else r == Ok(events + step.events) && View() == step.buffers && Bounded(View())
    {
      StepStaysBounded(View(), byte);
      hide Consume, DropOneCr;
      if byte == LF {
        var text := line;
        line := [];
        text := DropOneCr(text);
        r := ConsumeLine(text, events);
      } else {
        if |line| >= MAX_ACP_FRAME_BYTES {
          return Err(LineTooLong);
        }
        line := line + [byte];
        assert events + [] == events;
        return Ok(events);
      }
    }

    /** The events decoded from a chunk that fails are lost. */
    method Push(chunk: seq<Byte>) returns (r: Result<seq<seq<Byte>>, SseError>)
      requires Bounded(View())
      modifies this
      ensures match Decode(old(View()), chunk)
              case Failed(e) => r == Err(e)
              case Done(b, decoded) => r == Ok(decoded) && View() == b && Bounded(b)
    {
      var events: seq<seq<Byte>> := [];
      var i := 0;
      StartOfChunk(View(), chunk);
      DecodeNeverGrows(View(), chunk);
      hide Decode, StepByte, Bounded;
      while i < |chunk|
        invariant i <= |chunk| && Bounded(View())
        invariant Decode(old(View()), chunk) == After(events, Decode(View(), chunk[i..]))
      {
        StepOfChunk(View(), chunk, i, events);
        var pushed := PushByte(chunk[i], events);
        if pushed.Err? {
          return Err(pushed.error);
        }
        events := pushed.value;
        i := i + 1;
      }
      EndOfChunk(View(), chunk, events);
      return Ok(events);
    }
  }

  lemma StepStaysBounded(b: Buffers, byte: Byte)
    requires Bounded(b)
    ensures var step := StepByte(b, byte);
            && (step.Done? ==> Bounded(step.buffers))
            && (byte == LF && step.Done? ==> step.buffers.line == [])
            && |DropOneCr(b.line)| <= MAX_ACP_FRAME_BYTES
  {
  }

  lemma StartOfChunk(b: Buffers, chunk: seq<Byte>)
    ensures Decode(b, chunk) == After([], Decode(b, chunk[0..]))
  {
    assert chunk[0..] == chunk;
    var r := Decode(b, chunk);
    assert r.Done? ==> [] + r.events == r.events;
  }

  lemma EndOfChunk(b: Buffers, chunk: seq<Byte>, events: seq<seq<Byte>>)
    ensures After(events, Decode(b, chunk[|chunk|..])) == Done(b, events)
  {
    assert events + [] == events;
  }

  lemma StepOfChunk(b: Buffers, chunk: seq<Byte>, i: nat, events: seq<seq<Byte>>)
    requires i < |chunk|
    ensures var step := StepByte(b, chunk[i]);
            After(events, Decode(b, chunk[i..])) ==
              if step.Failed? then step else After(events + step.events, Decode(step.buffers, chunk[i + 1..]))
  {
    assert chunk[i..][0] == chunk[i] && chunk[i..][1..] == chunk[i + 1..];
    var step := StepByte(b, chunk[i]);
    if step.Done? {
      AfterAfter(events, step.events, Decode(step.buffers, chunk[i + 1..]));
    }
  }
}
