/** The loop that reads an event stream: reserve, decode, keep what is still needed, hand messages over. */
module SseStream {
  import opened Bytes
  import opened Outcomes
  import opened MessageIdentity
  import opened FlowModel
  import opened FlowControl
  import opened Sse

  datatype StreamError = Transport | Budget(reason: FlowError) | Decoder(error: SseError) | Malformed | ChannelClosed

  class PartialReservation {
    const flow: FlowBudget
    var bytes: nat

    ghost predicate Valid()
      reads this, flow
    {
      flow.Valid() && bytes <= flow.partialBytes
    }

    constructor (flow: FlowBudget)
      ensures this.flow == flow && bytes == 0
    {
      this.flow := flow;
      bytes := 0;
    }

    method Add(size: nat) returns (r: Result<(), FlowError>)
      requires Valid()
      modifies this, flow`partialBytes
      ensures Valid()
      ensures r == if flow.bytes + old(flow.partialBytes) + size <= flow.maxBytes then Ok(()) else Err(PartialExceeded)
      ensures bytes == old(bytes) + if r.Ok? then size else 0
      ensures flow.partialBytes == old(flow.partialBytes) + if r.Ok? then size else 0
    {
      r := flow.ReservePartial(size);
      if r.Ok? {
        bytes := SatAdd(bytes, size);
      }
    }

    lemma WithinBudget()
      requires Valid()
      ensures bytes < USIZE_MAX
    {
      PartialKeepsInv(flow.View(), 0);
    }

    /** Gives back what is not needed any more.  Only a smaller amount keeps the reservation true. */
    method Retain(size: nat)
      requires Valid()
      modifies this, flow`partialBytes
      ensures flow.Valid() && bytes == size
      ensures flow.partialBytes == if size < old(bytes) then old(flow.partialBytes) - (old(bytes) - size) else old(flow.partialBytes)
    {
      if size < bytes {
        flow.ReleasePartial(bytes - size);
      }
      bytes := size;
    }

    /** `size` reserved bytes become the charge of `message`, or are given back. */
    method TransferMessage(message: Message, size: nat) returns (r: Result<nat, FlowError>)
      requires Valid() && size <= bytes
      modifies this, flow
      ensures Valid() && bytes == old(bytes) - size
      ensures flow.partialBytes == old(flow.partialBytes) - size
      ensures flow.bytes == old(flow.bytes) + if r.Ok? then size else 0
      ensures r.Err? ==> Full(flow.View(), r.error)
      ensures r.Ok? ==> flow.Acknowledgeable(message)
    {
      hide FlowBudget.Acknowledgeable;
      TransferMovesCharge(flow.View(), message, PhysicalIdentity(flow.hash, message), size);
      hide Inv, AfterTrack, AfterRelease, TrackOutcome, PhysicalIdentity, Full;
      bytes := SatSub(bytes, size);
      r := flow.TrackFromPartial(message, size);
    }

    method Drop()
      requires Valid()
      modifies this, flow`partialBytes
      ensures Valid() && bytes == 0
      ensures flow.partialBytes == old(flow.partialBytes) - old(bytes)
    {
      flow.ReleasePartial(bytes);
      bytes := 0;
    }
  }

  // ---- the messages of a stream ----------------------------------------------------------------

  type Parser = seq<Byte> -> Option<Message>

  /** Whether the channel takes the message that is sent after so many others. */
  type Channel = nat -> bool

  /** The messages of the payloads that are not empty, up to the first one that does not parse. */
  function Messages(parse: Parser, payloads: seq<seq<Byte>>): (r: seq<Message>)
  {
    if |payloads| == 0 then []
    else if |payloads[0]| == 0 then Messages(parse, payloads[1..])
    else
      var message := parse(payloads[0]);
      if message.None? then [] else [message.value] + Messages(parse, payloads[1..])
  }

  predicate AllParse(parse: Parser, payloads: seq<seq<Byte>>)
  {
    forall i | 0 <= i < |payloads| :: |payloads[i]| == 0 || parse(payloads[i]).Some?
  }

  lemma {:induction false} MessagesAppend(parse: Parser, a: seq<seq<Byte>>, b: seq<seq<Byte>>)
    requires AllParse(parse, a)
    ensures Messages(parse, a + b) == Messages(parse, a) + Messages(parse, b)
  {
    if |a| == 0 {
      assert a + b == b;
    } else {
      assert AllParse(parse, a[1..]) by {
        assert forall i | 0 <= i < |a[1..]| :: a[1..][i] == a[i + 1];
      }
      MessagesAppend(parse, a[1..], b);
      assert (a + b)[1..] == a[1..] + b;
    }
  }

  lemma MessagesStep(parse: Parser, payloads: seq<seq<Byte>>, i: nat, sent: seq<Message>)
    requires i < |payloads|
    ensures var payload, rest := payloads[i], payloads[i + 1..];
            sent + Messages(parse, payloads[i..]) ==
              if |payload| == 0 then sent + Messages(parse, rest)
              else if parse(payload).None? then sent
              else sent + [parse(payload).value] + Messages(parse, rest)
    ensures TotalLen(payloads[i..]) == |payloads[i]| + TotalLen(payloads[i + 1..])
  {
    assert payloads[i..][0] == payloads[i] && payloads[i..][1..] == payloads[i + 1..];
  }

  lemma AllParseStep(parse: Parser, payloads: seq<seq<Byte>>, i: nat)
    requires i < |payloads| && AllParse(parse, payloads[..i])
    ensures |payloads[i]| == 0 || parse(payloads[i]).Some? ==> AllParse(parse, payloads[..i + 1])
  {
    var before, after := payloads[..i], payloads[..i + 1];
    assert after == before + [payloads[i]];
    if |payloads[i]| == 0 || parse(payloads[i]).Some? {
      forall j | 0 <= j < |after| ensures |after[j]| == 0 || parse(after[j]).Some? {
        assert j < i ==> after[j] == before[j];
      }
    }
  }

  /** The fold over the payload lengths. */
  method Total(payloads: seq<seq<Byte>>) returns (n: nat)
    ensures n == if TotalLen(payloads) > USIZE_MAX then USIZE_MAX else TotalLen(payloads)
  {
    n := 0;
    var i := 0;
    while i < |payloads|
      invariant i <= |payloads|
      invariant n == if TotalLen(payloads[..i]) > USIZE_MAX then USIZE_MAX else TotalLen(payloads[..i])
    {
      TotalLenAppend(payloads[..i], [payloads[i]]);
      assert payloads[..i + 1] == payloads[..i] + [payloads[i]];
      n := SatAdd(n, |payloads[i]|);
      i := i + 1;
    }
    assert payloads[..|payloads|] == payloads;
  }

  /** One payload: parsed, charged with its reserved bytes, and sent behind `position` others. */
  method DeliverOne(payload: seq<Byte>, parse: Parser, channel: Channel, position: nat, partial: PartialReservation)
      returns (r: Result<Message, StreamError>)
    requires partial.Valid() && |payload| <= partial.bytes
    modifies partial, partial.flow
    ensures partial.Valid() && partial.flow.partialBytes - partial.bytes == old(partial.flow.partialBytes - partial.bytes)
    ensures r.Ok? ==> parse(payload) == Some(r.value) && partial.bytes == old(partial.bytes) - |payload|
                      && partial.flow.bytes == old(partial.flow.bytes) + |payload|
    ensures r.Err? ==>
              match r.error
              case Malformed => parse(payload).None?
              case ChannelClosed => parse(payload).Some? && !channel(position)
              case Budget(reason) => Full(partial.flow.View(), reason)
              case _ => false
  {
    hide Inv, Full;
    var message := parse(payload);
    if message.None? {
      return Err(Malformed);
    }
    var transferred := partial.TransferMessage(message.value, |payload|);
    if transferred.Err? {
      return Err(Budget(transferred.error));
    }
    if !channel(position) {
      return Err(ChannelClosed);
    }
    return Ok(message.value);
  }

  /** Why delivering payloads behind `position` sent messages stopped after `sent` more. */
  predicate Blamed(e: StreamError, payloads: seq<seq<Byte>>, parse: Parser, channel: Channel, position: nat, sent: seq<Message>)
  {
    match e
    case Malformed => !AllParse(parse, payloads)
    case ChannelClosed => |sent| < |Messages(parse, payloads)| && !channel(position + |sent|)
    case Budget(_) => true
    case _ => false
  }

  method Deliver(payloads: seq<seq<Byte>>, parse: Parser, channel: Channel, position: nat, partial: PartialReservation)
      returns (r: Result<(), StreamError>, sent: seq<Message>)
    requires partial.Valid() && TotalLen(payloads) <= partial.bytes
    modifies partial, partial.flow
    ensures partial.Valid() && partial.flow.partialBytes - partial.bytes == old(partial.flow.partialBytes - partial.bytes)
    ensures sent <= Messages(parse, payloads)
    ensures r.Ok? ==> sent == Messages(parse, payloads) && AllParse(parse, payloads)
                      && partial.bytes == old(partial.bytes) - TotalLen(payloads)
                      && partial.flow.bytes == old(partial.flow.bytes) + TotalLen(payloads)
    ensures r.Err? ==> Blamed(r.error, payloads, parse, channel, position, sent)
    ensures r.Err? && r.error.Budget? ==> Full(partial.flow.View(), r.error.reason)
  {
    NothingDelivered(parse, payloads);
    hide Inv, FlowBudget.Valid, FlowBudget.View, Full, Messages, AllParse, TotalLen, Blamed;
    sent := [];
    var i := 0;
    while i < |payloads|
      invariant i <= |payloads| && partial.Valid()
      invariant sent + Messages(parse, payloads[i..]) == Messages(parse, payloads)
      invariant AllParse(parse, payloads[..i])
      invariant partial.flow.partialBytes - partial.bytes == old(partial.flow.partialBytes - partial.bytes)
      invariant partial.bytes - TotalLen(payloads[i..]) == old(partial.bytes) - TotalLen(payloads)
      invariant partial.flow.bytes + TotalLen(payloads[i..]) == old(partial.flow.bytes) + TotalLen(payloads)
    {
      var payload := payloads[i];
      MessagesStep(parse, payloads, i, sent);
      AllParseStep(parse, payloads, i);
      if |payload| > 0 {
        var message := DeliverOne(payload, parse, channel, position + |sent|, partial);
        if message.Err? {
          DeliveryBlamed(message.error, payloads, i, parse, channel, position, sent);
          return Err(message.error), sent;
        }
        sent := sent + [message.value];
      }
      i := i + 1;
    }
    AllDelivered(parse, payloads, sent);
    return Ok(()), sent;
  }

  lemma NothingDelivered(parse: Parser, payloads: seq<seq<Byte>>)
    ensures payloads[0..] == payloads && AllParse(parse, payloads[..0]) && [] + Messages(parse, payloads) == Messages(parse, payloads)
  {
  }

  lemma AllDelivered(parse: Parser, payloads: seq<seq<Byte>>, sent: seq<Message>)
    ensures payloads[..|payloads|] == payloads && TotalLen(payloads[|payloads|..]) == 0
    ensures sent + Messages(parse, payloads[|payloads|..]) == sent
  {
  }

  lemma DeliveryBlamed(e: StreamError, payloads: seq<seq<Byte>>, i: nat, parse: Parser, channel: Channel, position: nat, sent: seq<Message>)
    requires i < |payloads| && |payloads[i]| > 0 && sent + Messages(parse, payloads[i..]) == Messages(parse, payloads)
    requires match e
             case Malformed => parse(payloads[i]).None?
             case ChannelClosed => parse(payloads[i]).Some? && !channel(position + |sent|)
             case Budget(_) => true
             case _ => false
    ensures Blamed(e, payloads, parse, channel, position, sent)
  {
    assert payloads[i..][0] == payloads[i];
    assert e.ChannelClosed? ==> |Messages(parse, payloads[i..])| > 0;
  }

  /**
   One chunk.  The reservation equals what the decoder buffers before and after; keeping only the
   buffered and decoded bytes never raises it.  Every error has its cause in the chunk, the channel or
   the budget.
   */
  method OnChunk(chunk: seq<Byte>, decoder: SseDecoder, partial: PartialReservation, parse: Parser, channel: Channel, position: nat)
      returns (r: Result<(), StreamError>, sent: seq<Message>)
    requires partial.Valid() && Bounded(decoder.View()) && partial.bytes == BufferedLen(decoder.View())
    modifies decoder, partial, partial.flow
    ensures partial.Valid() && partial.flow.partialBytes - partial.bytes == old(partial.flow.partialBytes - partial.bytes)
    ensures r == Err(Budget(PartialExceeded)) ==>
              sent == [] && partial.flow.bytes + old(partial.flow.partialBytes) + |chunk| > partial.flow.maxBytes
    ensures r.Err? && r.error.Budget? && r.error.reason != PartialExceeded ==> Full(partial.flow.View(), r.error.reason)
    ensures match Decode(old(decoder.View()), chunk)
            case Failed(e) => sent == [] && r.Err? && (r.error == Budget(PartialExceeded) || r.error == Decoder(e))
            case Done(b, events) =>
              && sent <= Messages(parse, events)
              && (r.Err? ==> Blamed(r.error, events, parse, channel, position, sent))
              && (r.Ok? ==>
                    && decoder.View() == b && Bounded(b) && partial.bytes == BufferedLen(b)
                    && sent == Messages(parse, events) && AllParse(parse, events)
                    && partial.flow.bytes == old(partial.flow.bytes) + TotalLen(events))
  {
    hide Inv, FlowBudget.Valid, FlowBudget.View, Full;
    DecodeNeverGrows(decoder.View(), chunk);
    sent := [];
    var added := partial.Add(|chunk|);
    if added.Err? {
      return Err(Budget(added.error)), sent;
    }
    partial.WithinBudget();
    hide Decode, Messages, AllParse;
    var payloads := decoder.Push(chunk);
    if payloads.Err? {
      return Err(Decoder(payloads.error)), sent;
    }
    var buffered := decoder.BufferedLength();
    var total := Total(payloads.value);
    var retained := SatAdd(buffered, total);
    assert retained <= partial.bytes;
    partial.Retain(retained);
    r, sent := Deliver(payloads.value, parse, channel, position, partial);
    hide Blamed;
    if r.Err? && r.error.Budget? {
      NotPartial(partial.flow.View(), r.error.reason);
    }
  }

  lemma NotPartial(flow: Flow, e: FlowError)
    requires Full(flow, e)
    ensures e != PartialExceeded
  {
  }

  // ---- the whole stream --------------------------------------------------------------------------

  function Received(chunks: seq<Option<seq<Byte>>>): (r: seq<Byte>)
  {
    if |chunks| == 0 then [] else
      var last := chunks[|chunks| - 1];
      Received(chunks[..|chunks| - 1]) + if last.Some? then last.value else []
  }

  lemma ReceivedSnoc(chunks: seq<Option<seq<Byte>>>, i: nat)
    requires i < |chunks| && chunks[i].Some?
    ensures Received(chunks[..i + 1]) == Received(chunks[..i]) + chunks[i].value
  {
    assert chunks[..i + 1][..i] == chunks[..i];
  }

  /** After the chunks so far: everything is decoded and sent, and the reservation is what is buffered. */
  ghost predicate InStep(stream: seq<Byte>, b: Buffers, events: seq<seq<Byte>>, parse: Parser, sent: seq<Message>)
  {
    Decode(Buffers([], []), stream) == Done(b, events) && AllParse(parse, events) && sent == Messages(parse, events)
  }

  lemma InStepAdvances(stream: seq<Byte>, b: Buffers, events: seq<seq<Byte>>, parse: Parser, sent: seq<Message>, chunk: seq<Byte>)
    requires InStep(stream, b, events, parse, sent)
    ensures var next := Decode(b, chunk);
            next.Done? ==>
              && Decode(Buffers([], []), stream + chunk) == Done(next.buffers, events + next.events)
              && Messages(parse, events + next.events) == sent + Messages(parse, next.events)
              && (AllParse(parse, next.events) ==>
                   InStep(stream + chunk, next.buffers, events + next.events, parse, sent + Messages(parse, next.events)))
  {
    DecodeAppend(Buffers([], []), stream, chunk);
    hide Decode;
    var next := Decode(b, chunk);
    if next.Done? {
      MessagesAppend(parse, events, next.events);
      hide Messages;
      assert AllParse(parse, next.events) ==> AllParse(parse, events + next.events);
    }
  }

  /** The messages of a stream: those of its payloads. */
  function MessagesOf(parse: Parser, stream: seq<Byte>): (r: seq<Message>)
  {
    Messages(parse, Payloads(StreamBlocks(stream)))
  }

  lemma InStepMeans(stream: seq<Byte>, b: Buffers, events: seq<seq<Byte>>, parse: Parser, sent: seq<Message>)
    requires Decode(Buffers([], []), stream) == Done(b, events)
    ensures WithinLimits(stream) && events == Payloads(StreamBlocks(stream))
    ensures Messages(parse, events) == MessagesOf(parse, stream)
  {
    DecodesTheFormat(stream);
  }

  lemma InStepStarts(parse: Parser)
    ensures InStep(Received([]), Buffers([], []), [], parse, []) && TotalLen([]) == 0
  {
  }

  lemma EndOfStream(stream: seq<Byte>, b: Buffers, events: seq<seq<Byte>>, parse: Parser, sent: seq<Message>)
    requires InStep(stream, b, events, parse, sent)
    ensures WithinLimits(stream) && sent == MessagesOf(parse, stream) && events == Payloads(StreamBlocks(stream))
    ensures BufferedLen(b) <= |stream|
  {
    InStepMeans(stream, b, events, parse, sent);
    DecodeNeverGrows(Buffers([], []), stream);
  }

  /** What a failed stream is blamed on, apart from the budget. */
  ghost predicate StreamBlamed(e: StreamError, chunks: seq<Option<seq<Byte>>>, decoded: nat, parse: Parser, channel: Channel, sent: seq<Message>)
    requires decoded <= |chunks|
  {
    match e
    case Transport => decoded < |chunks| && chunks[decoded].None?
    case Decoder(_) => decoded < |chunks| && chunks[decoded].Some? && !WithinLimits(Received(chunks[..decoded + 1]))
    case Malformed => !AllParse(parse, Payloads(StreamBlocks(Received(chunks[..decoded]))))
    case ChannelClosed => |sent| < |MessagesOf(parse, Received(chunks[..decoded]))| && !channel(|sent|)
    case Budget(_) => true
  }

  /** A chunk that cannot be reserved: with what is buffered of the chunks before it, it needs more than there is room for. */
  predicate OverBudget(chunks: seq<Option<seq<Byte>>>, decoded: nat, room: int)
  {
    && decoded < |chunks| && chunks[decoded].Some?
    && var before := Decode(Buffers([], []), Received(chunks[..decoded]));
       before.Done? && BufferedLen(before.buffers) + |chunks[decoded].value| > room
  }

  lemma UndecodableChunk(stream: seq<Byte>, b: Buffers, events: seq<seq<Byte>>, chunk: seq<Byte>)
    requires Decode(Buffers([], []), stream) == Done(b, events) && Decode(b, chunk).Failed?
    ensures !WithinLimits(stream + chunk)
  {
    DecodeAppend(Buffers([], []), stream, chunk);
    hide Decode, WithinLimits;
    DecodesTheFormat(stream + chunk);
  }

  lemma UndeliveredChunk(stream: seq<Byte>, b: Buffers, events: seq<seq<Byte>>, parse: Parser, channel: Channel,
                         sent: seq<Message>, chunk: seq<Byte>, more: seq<Message>, e: StreamError)
    requires InStep(stream, b, events, parse, sent)
    requires Decode(b, chunk).Done? && Blamed(e, Decode(b, chunk).events, parse, channel, |sent|, more)
    ensures e.Malformed? ==> !AllParse(parse, Payloads(StreamBlocks(stream + chunk)))
    ensures e.ChannelClosed? ==> |sent + more| < |MessagesOf(parse, stream + chunk)| && !channel(|sent + more|)
    ensures e.Malformed? || e.ChannelClosed? || e.Budget?
  {
    hide InStep, Decode, Messages, MessagesOf, AllParse, Payloads, StreamBlocks, WithinLimits;
    InStepAdvances(stream, b, events, parse, sent, chunk);
    var next := Decode(b, chunk);
    InStepMeans(stream + chunk, next.buffers, events + next.events, parse, sent + more);
    if e.Malformed? {
      LaterParse(parse, events, next.events);
    }
  }

  /** What a failed chunk means for the stream. */
  lemma ChunkBlamed(chunks: seq<Option<seq<Byte>>>, i: nat, b: Buffers, events: seq<seq<Byte>>, parse: Parser, channel: Channel,
                    sent: seq<Message>, more: seq<Message>, e: StreamError)
    requires i < |chunks| && chunks[i].Some?
    requires InStep(Received(chunks[..i]), b, events, parse, sent)
    requires match Decode(b, chunks[i].value)
             case Failed(error) => more == [] && (e == Budget(PartialExceeded) || e == Decoder(error))
             case Done(_, next) => Blamed(e, next, parse, channel, |sent|, more)
    ensures var decoded := if Decode(b, chunks[i].value).Done? && e != Budget(PartialExceeded) then i + 1 else i;
            StreamBlamed(e, chunks, decoded, parse, channel, sent + more)
  {
    ReceivedSnoc(chunks, i);
    var stream, chunk := Received(chunks[..i]), chunks[i].value;
    assert Decode(Buffers([], []), stream) == Done(b, events);
    hide InStep, Decode, Messages, MessagesOf, AllParse, WithinLimits, Payloads, StreamBlocks, Received;
    if Decode(b, chunk).Failed? {
      UndecodableChunk(stream, b, events, chunk);
    } else {
      UndeliveredChunk(stream, b, events, parse, channel, sent, chunk, more, e);
    }
  }

  lemma LaterParse(parse: Parser, a: seq<seq<Byte>>, b: seq<seq<Byte>>)
    ensures AllParse(parse, a + b) ==> AllParse(parse, b)
  {
    assert forall i | 0 <= i < |b| :: (a + b)[|a| + i] == b[i];
  }

  /** One turn of the loop over the chunks; `None` stands for a transport failure. */
  method ReadChunk(chunks: seq<Option<seq<Byte>>>, i: nat, decoder: SseDecoder, partial: PartialReservation, parse: Parser,
                   channel: Channel, sent: seq<Message>, ghost events: seq<seq<Byte>>)
      returns (r: Result<(), StreamError>, all: seq<Message>, ghost decoded: nat, ghost allEvents: seq<seq<Byte>>)
    requires i < |chunks| && partial.Valid() && Bounded(decoder.View()) && partial.bytes == BufferedLen(decoder.View())
    requires InStep(Received(chunks[..i]), decoder.View(), events, parse, sent)
    modifies decoder, partial, partial.flow
    ensures partial.Valid() && partial.flow.partialBytes - partial.bytes == old(partial.flow.partialBytes - partial.bytes)
    ensures r.Ok? ==>
              && decoded == i + 1 && Bounded(decoder.View()) && partial.bytes == BufferedLen(decoder.View())
              && InStep(Received(chunks[..i + 1]), decoder.View(), allEvents, parse, all)
              && partial.flow.bytes - TotalLen(allEvents) == old(partial.flow.bytes) - TotalLen(events)
    ensures r.Err? ==>
              && decoded <= |chunks| && WithinLimits(Received(chunks[..decoded])) && all <= MessagesOf(parse, Received(chunks[..decoded]))
              && StreamBlamed(r.error, chunks, decoded, parse, channel, all)
    ensures r == Err(Budget(PartialExceeded)) ==>
              && decoded == i && chunks[i].Some?
              && partial.flow.bytes + old(partial.flow.partialBytes) + |chunks[i].value| > partial.flow.maxBytes
    ensures r.Err? && r.error.Budget? && r.error.reason != PartialExceeded ==> Full(partial.flow.View(), r.error.reason)
  {
    hide Inv, Full, FlowBudget.Valid, FlowBudget.View, InStep, Decode, Received, Messages, MessagesOf, AllParse, WithinLimits;
    hide Payloads, StreamBlocks, Blamed, StreamBlamed, TotalLen, Bounded, BufferedLen;
    ghost var b, stream := decoder.View(), Received(chunks[..i]);
    EndOfStream(stream, b, events, parse, sent);
    decoded, allEvents := i, events;
    if chunks[i].None? {
      TransportBlamed(chunks, i, parse, channel, sent);
      return Err(Transport), sent, decoded, allEvents;
    }
    var chunk := chunks[i].value;
    ReceivedSnoc(chunks, i);
    InStepAdvances(stream, b, events, parse, sent, chunk);
    ghost var next := Decode(b, chunk);
    var more;
    r, more := OnChunk(chunk, decoder, partial, parse, channel, |sent|);
    all := sent + more;
    if r.Err? {
      ChunkBlamed(chunks, i, b, events, parse, channel, sent, more, r.error);
    }
    if next.Done? && r != Err(Budget(PartialExceeded)) {
      InStepMeans(stream + chunk, next.buffers, events + next.events, parse, all);
      TotalLenAppend(events, next.events);
      decoded, allEvents := i + 1, events + next.events;
    }
  }

  lemma RoomIsLess(chunks: seq<Option<seq<Byte>>>, i: nat, b: Buffers, events: seq<seq<Byte>>, parse: Parser, sent: seq<Message>, room: int)
    requires i < |chunks| && chunks[i].Some? && InStep(Received(chunks[..i]), b, events, parse, sent)
    requires BufferedLen(b) + |chunks[i].value| > room
    ensures OverBudget(chunks, i, room)
  {
  }

  /** `decoded` counts the chunks that were reserved and decoded. */
  method ReadChunks(chunks: seq<Option<seq<Byte>>>, parse: Parser, channel: Channel, partial: PartialReservation)
      returns (r: Result<(), StreamError>, sent: seq<Message>, ghost decoded: nat)
    requires partial.Valid() && partial.bytes == 0
    modifies partial, partial.flow
    ensures partial.Valid() && partial.flow.partialBytes - partial.bytes == old(partial.flow.partialBytes)
    ensures decoded <= |chunks| && WithinLimits(Received(chunks[..decoded]))
    ensures sent <= MessagesOf(parse, Received(chunks[..decoded]))
    ensures r.Ok? ==> decoded == |chunks| && sent == MessagesOf(parse, Received(chunks))
                      && partial.flow.bytes == old(partial.flow.bytes) + TotalLen(Payloads(StreamBlocks(Received(chunks))))
    ensures r.Err? ==> StreamBlamed(r.error, chunks, decoded, parse, channel, sent)
    ensures r == Err(Budget(PartialExceeded)) ==>
              OverBudget(chunks, decoded, partial.flow.maxBytes - partial.flow.bytes - old(partial.flow.partialBytes))
    ensures r.Err? && r.error.Budget? && r.error.reason != PartialExceeded ==> Full(partial.flow.View(), r.error.reason)
  {
    InStepStarts(parse);
    assert chunks[..0] == [] && Bounded(Buffers([], [])) && BufferedLen(Buffers([], [])) == 0;
    hide Inv, Full, FlowBudget.Valid, FlowBudget.View, InStep, Decode, Received, Messages, MessagesOf, AllParse, WithinLimits;
    hide Payloads, StreamBlocks, Blamed, StreamBlamed, TotalLen, Bounded, BufferedLen, OverBudget;
    var decoder := new SseDecoder();
    sent, decoded := [], 0;
    ghost var events: seq<seq<Byte>> := [];
    var i := 0;
    while i < |chunks|
      invariant decoded == i <= |chunks|
      invariant partial.Valid() && partial.flow.partialBytes - partial.bytes == old(partial.flow.partialBytes)
      invariant Bounded(decoder.View()) && partial.bytes == BufferedLen(decoder.View())
      invariant InStep(Received(chunks[..i]), decoder.View(), events, parse, sent)
      invariant partial.flow.bytes == old(partial.flow.bytes) + TotalLen(events)
    {
      ghost var b, before, soFar, reserved := decoder.View(), events, sent, partial.flow.partialBytes;
      r, sent, decoded, events := ReadChunk(chunks, i, decoder, partial, parse, channel, sent, events);
      if r.Err? {
        if r == Err(Budget(PartialExceeded)) {
          RoomIsLess(chunks, i, b, before, parse, soFar, partial.flow.maxBytes - partial.flow.bytes - old(partial.flow.partialBytes));
        }
        return r, sent, decoded;
      }
      i := i + 1;
    }
    assert chunks[..|chunks|] == chunks;
    EndOfStream(Received(chunks), decoder.View(), events, parse, sent);
    return Ok(()), sent, decoded;
  }

  lemma TransportBlamed(chunks: seq<Option<seq<Byte>>>, i: nat, parse: Parser, channel: Channel, sent: seq<Message>)
    requires i < |chunks| && chunks[i].None?
    ensures StreamBlamed(Transport, chunks, i, parse, channel, sent)
  {
  }

  /**
   Reads a stream to its end or its first failure.  Whatever the chunks, what was sent are the
   messages of the decoded part of the stream, in order and up to the failure; every failure has its
   cause in the stream, the channel or a full budget; and nothing of the stream stays reserved.
   */
  method ReadSse(chunks: seq<Option<seq<Byte>>>, parse: Parser, channel: Channel, flow: FlowBudget)
      returns (r: Result<(), StreamError>, sent: seq<Message>, ghost decoded: nat)
    requires flow.Valid()
    modifies flow
    ensures flow.Valid() && flow.partialBytes == old(flow.partialBytes)
    ensures decoded <= |chunks| && WithinLimits(Received(chunks[..decoded]))
    ensures sent <= MessagesOf(parse, Received(chunks[..decoded]))
    ensures r.Ok? ==> decoded == |chunks| && sent == MessagesOf(parse, Received(chunks))
                      && flow.bytes == old(flow.bytes) + TotalLen(Payloads(StreamBlocks(Received(chunks))))
    ensures r.Err? ==> StreamBlamed(r.error, chunks, decoded, parse, channel, sent)
    ensures r == Err(Budget(PartialExceeded)) ==> OverBudget(chunks, decoded, flow.maxBytes - flow.bytes - flow.partialBytes)
    ensures r.Err? && r.error.Budget? && r.error.reason != PartialExceeded ==> Full(flow.View(), r.error.reason)
  {
    hide Inv, WithinLimits, MessagesOf, Received, Payloads, StreamBlocks, StreamBlamed;
    var partial := new PartialReservation(flow);
    r, sent, decoded := ReadChunks(chunks, parse, channel, partial);
    partial.Drop();
  }
}
