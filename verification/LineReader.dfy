/** Reading one newline-delimited frame from a buffered reader, with every byte reserved first. */
module LineReader {
  import opened Bytes
  import opened Outcomes
  import opened MessageIdentity
  import opened FlowModel
  import opened FlowControl
  import Utf8

  datatype ReadError = Io | TooLarge | OverBudget | UnexpectedEof | NotUtf8

  /**
   A buffered reader over a byte stream.  How much each fill returns is not determined: at least
   one byte while the stream has any.  A reader that is not reliable may fail at any time.
   */
  class BufferedReader {
    var stream: seq<Byte>
    const reliable: bool

    constructor (stream: seq<Byte>, reliable: bool)
      ensures this.stream == stream && this.reliable == reliable
    {
      this.stream, this.reliable := stream, reliable;
    }

    method FillBuf() returns (buffer: Result<seq<Byte>, ReadError>)
      ensures buffer.Ok? ==> buffer.value <= stream && (|buffer.value| == 0 <==> |stream| == 0)
      ensures buffer.Err? ==> buffer.error == Io && !reliable
    {
      if !reliable {
        if * {
          return Err(Io);
        }
      }
      var length: nat :| length <= |stream| && (length == 0 <==> |stream| == 0);
      return Ok(stream[..length]);
    }

    method Consume(amount: nat)
      requires amount <= |stream|
      modifies this
      ensures stream == old(stream)[amount..]
    {
      stream := stream[amount..];
    }
  }

  /** The bytes of a frame that is still being read, held against the shared budget. */
  class StdioPartialReservation {
    const flow: FlowBudget
    var bytes: nat

    ghost predicate Valid()
      reads this, flow
    {
      flow.Valid() && bytes <= flow.partialBytes
    }

    constructor (flow: FlowBudget)
      ensures this.flow == flow && bytes == 0
    {
      this.flow := flow;
      bytes := 0;
    }

    /** On success the reservation and the budget grow alike; otherwise nothing changes. */
    method Add(size: nat) returns (r: Result<(), FlowError>)
      requires Valid()
      modifies this, flow`partialBytes
      ensures Valid()
      ensures r.Ok? <==> flow.bytes + old(flow.partialBytes) + size <= flow.maxBytes
      ensures bytes == old(bytes) + if r.Ok? then size else 0
      ensures flow.partialBytes == old(flow.partialBytes) + if r.Ok? then size else 0
    {
      r := flow.ReservePartial(size);
      if r.Ok? {
        bytes := SatAdd(bytes, size);
      }
    }

    /** The whole reservation becomes the charge of `message`, or is given back. */
    method Transfer(message: Message) returns (r: Result<nat, FlowError>)
      requires Valid()
      modifies this, flow
      ensures Valid() && bytes == 0
      ensures flow.partialBytes == old(flow.partialBytes) - old(bytes)
      ensures r.Ok? ==> flow.bytes == old(flow.bytes) + old(bytes) && flow.frames == old(flow.frames) + 1
      ensures r.Err? ==> flow.bytes == old(flow.bytes) && flow.frames == old(flow.frames)
      ensures r.Err? ==> Full(flow.View(), r.error)
      ensures r.Ok? ==> flow.Acknowledgeable(message)
    {
      hide FlowBudget.Acknowledgeable;
      var size := bytes;
      TransferMovesCharge(flow.View(), message, PhysicalIdentity(flow.hash, message), size);
      hide Inv, AfterTrack, AfterRelease, TrackOutcome, PhysicalIdentity, Full;
      bytes := 0;
      r := flow.TrackFromPartial(message, size);
    }

    lemma WithinBudget()
      requires Valid()
      ensures flow.bytes + flow.partialBytes <= flow.maxBytes
    {
      PartialKeepsInv(flow.View(), 0);
    }

    method Drop()
      requires Valid()
      modifies this, flow`partialBytes
      ensures Valid() && bytes == 0
      ensures flow.partialBytes == old(flow.partialBytes) - old(bytes)
    {
      flow.ReleasePartial(bytes);
      bytes := 0;
    }
  }

  class RetainedStdioLine {
    const line: seq<Byte>
    const partial: StdioPartialReservation

    constructor (line: seq<Byte>, partial: StdioPartialReservation)
      ensures this.line == line && this.partial == partial
    {
      this.line := line;
      this.partial := partial;
    }
  }

  // ---- what reading a frame means ---------------------------------------------------------

  /** The bytes a frame takes off the stream: up to and including the first LF, or all there is. */
  function FrameSpan(stream: seq<Byte>): (n: nat)
    ensures n <= |stream|
  {
    var lf := FirstIndex(stream, LF);
    if lf < |stream| then lf + 1 else lf
  }

  predicate HasLine(stream: seq<Byte>)
  {
    FirstIndex(stream, LF) < |stream|
  }

  function LineText(stream: seq<Byte>): (r: seq<Byte>)
  {
    DropOneCr(stream[..FirstIndex(stream, LF)])
  }

  /** The errors that reading from `stream` may end in when `available` bytes can be reserved. */
  predicate Allowed(stream: seq<Byte>, available: int, reliable: bool, e: ReadError)
  {
    var span := FrameSpan(stream);
    var fits := span <= MAX_ACP_FRAME_BYTES && span <= available;
    match e
    case Io => !reliable
    case TooLarge => span > MAX_ACP_FRAME_BYTES
    case OverBudget => span > available
    case UnexpectedEof => fits && !HasLine(stream) && |stream| > 0
    case NotUtf8 => fits && HasLine(stream) && !Utf8.Valid(LineText(stream))
  }

  /** A stream cut at its first LF. */
  lemma FrameOf(text: seq<Byte>, rest: seq<Byte>)
    requires LF !in text
    ensures var stream := text + [LF] + rest;
            && HasLine(stream) && FrameSpan(stream) == |text| + 1
            && LineText(stream) == DropOneCr(text) && stream[|text| + 1..] == rest
  {
    FirstIndexIsUnique(text, LF, rest);
    assert (text + [LF] + rest)[..|text|] == text;
  }

  /** Whatever line is written, with LF or CR LF at its end: it is read back, and the frame ends where it ends. */
  lemma WrittenLineIsRead(text: seq<Byte>, cr: bool, rest: seq<Byte>)
    requires 10 !in text && (!cr ==> |text| == 0 || text[|text| - 1] != 13)
    ensures var written := text + if cr then [13, 10] else [10];
            var stream := written + rest;
            HasLine(stream) && LineText(stream) == text && FrameSpan(stream) == |written| && stream[|written|..] == rest
  {
    var line := text + if cr then [13] else [];
    assert line + [10] + rest == text + (if cr then [13, 10] else [10]) + rest;
    DropOneCrMeans(text);
    assert text + [] == text;
    FrameOf(line, rest);
  }

  /** A reliable reader has nothing to report exactly when a line lies within both limits and is valid text. */
  lemma NoErrorExactlyForReadableLines(stream: seq<Byte>, available: int)
    requires stream != []
    ensures (forall e :: !Allowed(stream, available, true, e)) <==>
              && HasLine(stream) && FrameSpan(stream) <= 32 * 1024 * 1024 && FrameSpan(stream) <= available
              && Utf8.Valid(LineText(stream))
    ensures Allowed(stream, available, true, UnexpectedEof) || Allowed(stream, available, true, NotUtf8) ==>
              FrameSpan(stream) <= 32 * 1024 * 1024 && FrameSpan(stream) <= available
  {
    hide FrameSpan, HasLine, LineText, Utf8.Valid;
    if forall e :: !Allowed(stream, available, true, e) {
      assert !Allowed(stream, available, true, TooLarge) && !Allowed(stream, available, true, OverBudget);
      assert !Allowed(stream, available, true, UnexpectedEof) && !Allowed(stream, available, true, NotUtf8);
    }
  }

  lemma FrameNeverEnds(stream: seq<Byte>)
    requires LF !in stream
    ensures !HasLine(stream) && FrameSpan(stream) == |stream|
  {
  }

  lemma SpanPassesText(text: seq<Byte>, rest: seq<Byte>)
    requires LF !in text
    ensures |text| <= FrameSpan(text + rest)
  {
    var s := text + rest;
    assert forall i | 0 <= i < |text| :: s[i] == text[i];
  }

  /** What one fill contributes to the frame: up to and including an LF, or all of it. */
  function Take(buffer: seq<Byte>): (n: nat)
    ensures n <= |buffer|
    ensures |buffer| > 0 ==> n > 0
  {
    var newline := FirstIndex(buffer, LF);
    if newline < |buffer| then newline + 1 else |buffer|
  }

  lemma SplitAtNewline(bytes: seq<Byte>, source: seq<Byte>, i: nat)
    requires i < |source| && source[i] == LF
    ensures bytes + source == bytes + source[..i] + [LF] + source[i + 1..]
  {
    assert source == source[..i] + ([LF] + source[i + 1..]);
    assert bytes + source == (bytes + source[..i]) + ([LF] + source[i + 1..]);
  }

  lemma SplitAt(bytes: seq<Byte>, source: seq<Byte>, i: nat)
    requires i <= |source|
    ensures bytes + source == bytes + source[..i] + source[i..]
  {
  }

  /** Never more is taken than belongs to the frame. */
  lemma TakeStaysInFrame(bytes: seq<Byte>, source: seq<Byte>, buffer: seq<Byte>)
    requires LF !in bytes && buffer <= source
    ensures |bytes| + Take(buffer) <= FrameSpan(bytes + source)
    ensures var i := FirstIndex(buffer, LF);
            && buffer[..i] == source[..i] && LF !in bytes + source[..i]
            && (i < |buffer| ==> bytes + source == bytes + source[..i] + [LF] + source[i + 1..])
            && (i == |buffer| ==> bytes + source == bytes + source[..i] + source[i..])
  {
    hide FrameSpan, Utf8.Valid;
    var i := FirstIndex(buffer, LF);
    assert buffer[..i] == source[..i];
    var text := bytes + source[..i];
    if i < |buffer| {
      SplitAtNewline(bytes, source, i);
      FrameOf(text, source[i + 1..]);
    } else {
      SplitAt(bytes, source, i);
      SpanPassesText(text, source[i..]);
    }
  }

  /** How one fill leaves the frame: still open, completed by an LF (not part of `bytes`), or cut off. */
  datatype Progress = Open(bytes: seq<Byte>) | Complete(bytes: seq<Byte>) | Ended

  /** One turn of the loop: fill, look for an LF, reserve, then take. */
  method TakeFill(reader: BufferedReader, partial: StdioPartialReservation, bytes: seq<Byte>) returns (r: Result<Progress, ReadError>)
    requires partial.Valid() && partial.bytes == |bytes| && LF !in bytes
    modifies reader, partial, partial.flow`partialBytes
    ensures partial.Valid() && partial.flow.partialBytes - partial.bytes == old(partial.flow.partialBytes) - |bytes|
    ensures match r
            case Ok(Open(taken)) =>
              && LF !in taken && bytes + old(reader.stream) == taken + reader.stream
              && partial.bytes == |taken| <= MAX_ACP_FRAME_BYTES && |reader.stream| < |old(reader.stream)|
            case Ok(Complete(taken)) =>
              && LF !in taken && bytes + old(reader.stream) == taken + [LF] + reader.stream
              && partial.bytes == |taken| + 1 <= MAX_ACP_FRAME_BYTES
            case Ok(Ended) => old(reader.stream) == reader.stream == [] && partial.bytes == |bytes|
            case Err(TooLarge) => FrameSpan(bytes + old(reader.stream)) > MAX_ACP_FRAME_BYTES
            case Err(OverBudget) =>
              FrameSpan(bytes + old(reader.stream)) - |bytes| > partial.flow.maxBytes - partial.flow.bytes - old(partial.flow.partialBytes)
            case Err(e) => e == Io && !reader.reliable
  {
    hide Inv, FlowBudget.Valid, FlowBudget.View, FirstIndex, FrameSpan, Utf8.Valid;
    var filled := reader.FillBuf();
    if filled.Err? {
      return Err(filled.error);
    }
    var buffer := filled.value;
    if |buffer| == 0 {
      return Ok(Ended);
    }
    TakeStaysInFrame(bytes, reader.stream, buffer);
    var newline := FirstIndex(buffer, LF);
    var take := if newline < |buffer| then newline + 1 else |buffer|;
    if SatAdd(|bytes|, take) > MAX_ACP_FRAME_BYTES {
      return Err(TooLarge);
    }
    var added := partial.Add(take);
    if added.Err? {
      return Err(OverBudget);
    }
    reader.Consume(take);
    var taken := bytes + buffer[..newline];
    return Ok(if newline < |buffer| then Complete(taken) else Open(taken));
  }

  /** The loop over the fills.  The LF is left out of the bytes returned. */
  method ReadFrame(reader: BufferedReader, partial: StdioPartialReservation) returns (r: Result<Option<seq<Byte>>, ReadError>)
    requires partial.Valid() && partial.bytes == 0
    modifies reader, partial, partial.flow`partialBytes
    ensures partial.Valid() && partial.flow.partialBytes == old(partial.flow.partialBytes) + partial.bytes
    ensures var available := partial.flow.maxBytes - partial.flow.bytes - old(partial.flow.partialBytes);
            match r
            case Ok(Some(bytes)) =>
              && LF !in bytes && old(reader.stream) == bytes + [LF] + reader.stream
              && partial.bytes == |bytes| + 1 <= MAX_ACP_FRAME_BYTES && |bytes| + 1 <= available
            case Ok(None) => old(reader.stream) == [] && reader.stream == [] && partial.bytes == 0
            case Err(e) => e != NotUtf8 && Allowed(old(reader.stream), available, reader.reliable, e)
  {
    hide Inv, FlowBudget.View, FirstIndex, FrameSpan, HasLine, LineText, Utf8.Valid;
    ghost var held := partial.flow.partialBytes;
    var bytes: seq<Byte> := [];
    while true
      invariant partial.Valid() && partial.flow.partialBytes == held + |bytes|
      invariant LF !in bytes && old(reader.stream) == bytes + reader.stream
      invariant partial.bytes == |bytes| <= MAX_ACP_FRAME_BYTES
      decreases |reader.stream|
    {
      var progress := TakeFill(reader, partial, bytes);
      partial.WithinBudget();
      match progress {
        case Err(e) => return Err(e);
        case Ok(Ended) =>
          assert old(reader.stream) == bytes;
          FrameNeverEnds(bytes);
          return if |bytes| == 0 then Ok(None) else Err(UnexpectedEof);
        case Ok(Complete(taken)) => return Ok(Some(taken));
        case Ok(Open(taken)) => bytes := taken;
      }
    }
  }

  /**
   Whatever the reader's buffer sizes: a line is returned exactly when the first LF lies within the
   frame limit and the budget and the line is valid UTF-8 (read failures apart); it is then the text
   before that LF without one trailing CR, the LF is consumed, and exactly the consumed bytes are
   reserved.  After an error or at the end of the stream nothing stays reserved.
   */
  method ReadBoundedLine(reader: BufferedReader, flow: FlowBudget) returns (r: Result<Option<RetainedStdioLine>, ReadError>)
    requires flow.Valid()
    modifies reader, flow`partialBytes
    ensures flow.Valid()
    ensures var stream, available := old(reader.stream), flow.maxBytes - flow.bytes - old(flow.partialBytes);
            var span := FrameSpan(stream);
            match r
            case Ok(Some(retained)) =>
              && HasLine(stream) && span <= MAX_ACP_FRAME_BYTES && span <= available
              && retained.line == LineText(stream) && Utf8.Valid(retained.line)
              && reader.stream == stream[span..]
              && fresh(retained.partial) && retained.partial.flow == flow && retained.partial.bytes == span
              && flow.partialBytes == old(flow.partialBytes) + span
            case Ok(None) => stream == [] && reader.stream == [] && flow.partialBytes == old(flow.partialBytes)
            case Err(e) => Allowed(stream, available, reader.reliable, e) && flow.partialBytes == old(flow.partialBytes)
  {
    hide Inv, FlowBudget.View, FirstIndex, FrameSpan, HasLine, LineText, Utf8.Valid;
    var partial := new StdioPartialReservation(flow);
    var frame := ReadFrame(reader, partial);
    if frame.Err? {
      partial.Drop();
      return Err(frame.error);
    }
    if frame.value.None? {
      return Ok(None);
    }
    var bytes := frame.value.value;
    FrameOf(bytes, reader.stream);
    bytes := DropOneCr(bytes);
    if !Utf8.Valid(bytes) {
      partial.Drop();
      return Err(NotUtf8);
    }
    var retained := new RetainedStdioLine(bytes, partial);
    return Ok(Some(retained));
  }

  /** An admitted line hands its whole reservation over to the message parsed from it. */
  method Admit(retained: RetainedStdioLine, message: Message) returns (r: Result<seq<Byte>, FlowError>)
    requires retained.partial.Valid()
    modifies retained.partial, retained.partial.flow
    ensures var flow := retained.partial.flow;
            && retained.partial.Valid() && retained.partial.bytes == 0
            && flow.partialBytes == old(flow.partialBytes) - old(retained.partial.bytes)
            && (r.Ok? ==> r.value == retained.line && flow.bytes == old(flow.bytes) + old(retained.partial.bytes))
            && (r.Err? ==> flow.bytes == old(flow.bytes) && Full(flow.View(), r.error))
            && (r.Ok? ==> flow.Acknowledgeable(message))
  {
    hide Inv, Full, FlowBudget.Acknowledgeable;
    var transferred := retained.partial.Transfer(message);
    return if transferred.Ok? then Ok(retained.line) else Err(transferred.error);
  }
}
