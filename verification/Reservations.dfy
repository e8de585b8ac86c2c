/**
 Any number of half-read streams sharing one flow budget.  Every lock section of a stream task is
 one step, so the steps of different streams, and of the rest of the connection, interleave freely.
 */
module Reservations {
  import opened Bytes
  import opened Outcomes
  import opened MessageIdentity
  import opened FlowModel
  import Sse

  /** Where a stream task stands between two of its lock sections. */
  datatype Stage =
    | Closed
    | Waiting(buffers: Sse.Buffers)
    | Reserved(buffers: Sse.Buffers, chunk: seq<Byte>)
    | Delivering(buffers: Sse.Buffers, payloads: seq<seq<Byte>>)
    | Framing(consumed: seq<Byte>)

  /** `bytes` is the field of the stream's reservation. */
  datatype Slot = Slot(stage: Stage, bytes: nat)

  datatype Shared = Shared(flow: Flow, slots: seq<Slot>)

  /** The bytes the stream still holds: buffered, received, or decoded and not yet handed over. */
  function Needed(stage: Stage): (n: nat)
  {
    match stage
    case Closed => 0
    case Waiting(b) => Sse.BufferedLen(b)
    case Reserved(b, chunk) => Sse.BufferedLen(b) + |chunk|
    case Delivering(b, payloads) => Sse.BufferedLen(b) + Sse.TotalLen(payloads)
    case Framing(consumed) => |consumed|
  }

  function TotalReserved(slots: seq<Slot>): (n: nat)
  {
    if |slots| == 0 then 0 else slots[0].bytes + TotalReserved(slots[1..])
  }

  lemma {:induction false} UpdateSlot(slots: seq<Slot>, i: nat, slot: Slot)
    requires i < |slots|
    ensures TotalReserved(slots[i := slot]) == TotalReserved(slots) - slots[i].bytes + slot.bytes
    ensures TotalReserved(slots) >= slots[i].bytes
  {
    if i == 0 {
      assert slots[0 := slot][1..] == slots[1..];
    } else {
      UpdateSlot(slots[1..], i - 1, slot);
      assert slots[i := slot][1..] == slots[1..][i - 1 := slot];
    }
  }

  // ---- steps -----------------------------------------------------------------------------------

  /** `message` and `identity` stand for what the payload parses to; `sent` says whether the channel took it. */
  datatype Event =
    | OpenEvents
    | OpenLines
    | Feed(chunk: seq<Byte>)
    | DecodeChunk
    | Send(message: Option<Message>, identity: seq<Byte>, sent: bool)
    | Resume
    | TakeBytes(text: seq<Byte>)
    | Admit(line: Message, lineIdentity: seq<Byte>)
    | Drop

  datatype FlowEvent =
    | Track(message: Message, identity: seq<Byte>, size: nat)
    | AckNotification(identity: seq<Byte>)
    | AckResponse(identity: seq<Byte>)
    | Answer(id: RequestId)

  predicate Possible(stage: Stage, e: Event)
  {
    match e
    case OpenEvents => stage.Closed?
    case OpenLines => stage.Closed?
    case Feed(_) => stage.Waiting?
    case DecodeChunk => stage.Reserved?
    case Send(_, _, _) => stage.Delivering? && |stage.payloads| > 0
    case Resume => stage.Delivering? && |stage.payloads| == 0
    case TakeBytes(_) => stage.Framing?
    case Admit(_, _) => stage.Framing?
    case Drop => true
  }

  /** The reservation is dropped: what its field says is given back. */
  function Dropped(flow: Flow, slot: Slot): (r: (Flow, Slot))
  {
    (AfterRelease(flow, slot.bytes), Slot(Closed, 0))
  }

  function Fits(flow: Flow, size: nat): (r: bool)
  {
    flow.bytes + flow.partialBytes + size <= flow.maxBytes
  }

  function Reserving(flow: Flow, slot: Slot, size: nat, stage: Stage): (r: (Flow, Slot))
  {
    if Fits(flow, size) then (AfterReserve(flow, size), Slot(stage, slot.bytes + size)) else Dropped(flow, slot)
  }

  function Retaining(flow: Flow, slot: Slot, size: nat, stage: Stage): (r: (Flow, Slot))
  {
    (if size < slot.bytes then AfterRelease(flow, slot.bytes - size) else flow, Slot(stage, size))
  }

  function Transferring(flow: Flow, slot: Slot, message: Message, identity: seq<Byte>, size: nat, sent: bool, stage: Stage): (r: (Flow, Slot))
  {
    var released, left := AfterRelease(flow, size), SatSub(slot.bytes, size);
    var charged := AfterTrack(released, message, identity, size);
    if TrackOutcome(released, message, size).Ok? && sent then (charged, Slot(stage, left))
    else Dropped(charged, Slot(stage, left))
  }

  function SlotStep(flow: Flow, slot: Slot, e: Event): (r: (Flow, Slot))
    requires Possible(slot.stage, e)
  {
    match e
    case OpenEvents => (flow, Slot(Waiting(Sse.Buffers([], [])), 0))
    case OpenLines => (flow, Slot(Framing([]), 0))
    case Feed(chunk) => Reserving(flow, slot, |chunk|, Reserved(slot.stage.buffers, chunk))
    case DecodeChunk =>
      var decoded := Sse.Decode(slot.stage.buffers, slot.stage.chunk);
      if decoded.Failed? then Dropped(flow, slot)
      else
        var next := Delivering(decoded.buffers, decoded.events);
        Retaining(flow, slot, Needed(next), next)
    case Send(message, identity, sent) =>
      var payload, rest := slot.stage.payloads[0], slot.stage.payloads[1..];
      var next := Delivering(slot.stage.buffers, rest);
      if |payload| == 0 then (flow, Slot(next, slot.bytes))
      else if message.None? then Dropped(flow, slot)
      else Transferring(flow, slot, message.value, identity, |payload|, sent, next)
    case Resume => (flow, Slot(Waiting(slot.stage.buffers), slot.bytes))
    case TakeBytes(text) => Reserving(flow, slot, |text|, Framing(slot.stage.consumed + text))
    case Admit(message, identity) => Transferring(flow, slot, message, identity, slot.bytes, true, Framing([]))
    case Drop => Dropped(flow, slot)
  }

  /** Bytes are reserved exactly when they fit beside everything charged and reserved; otherwise the stream is closed. */
  lemma FeedMeans(flow: Flow, slot: Slot, chunk: seq<Byte>)
    requires slot.stage.Waiting?
    ensures var next, fits := SlotStep(flow, slot, Feed(chunk)), flow.bytes + flow.partialBytes + |chunk| <= flow.maxBytes;
      && (fits ==> next.1 == Slot(Reserved(slot.stage.buffers, chunk), slot.bytes + |chunk|)
                   && next.0.partialBytes == flow.partialBytes + |chunk|)
      && (!fits ==> next.1 == Slot(Closed, 0) && next.0.partialBytes == SatSub(flow.partialBytes, slot.bytes))
  {
  }

  /**
   A stream that sends a payload goes on exactly when the payload is empty, or is a message that the budget takes
   and the channel takes; the payload's bytes are then charged, and its reservation keeps what it still needs.
   Otherwise the stream is closed and holds nothing.
   */
  lemma SendMeans(flow: Flow, slot: Slot, message: Option<Message>, identity: seq<Byte>, sent: bool)
    requires Inv(flow) && slot.stage.Delivering? && |slot.stage.payloads| > 0
    requires slot.bytes == Needed(slot.stage) && slot.bytes <= flow.partialBytes
    ensures var size := |slot.stage.payloads[0]|;
            var next := SlotStep(flow, slot, Send(message, identity, sent));
            var goesOn := size == 0 || (message.Some? && sent && TrackOutcome(AfterRelease(flow, size), message.value, size).Ok?);
      && (goesOn ==> next.1.stage == Delivering(slot.stage.buffers, slot.stage.payloads[1..]) && next.1.bytes == Needed(next.1.stage))
      && (goesOn ==> next.0.bytes == flow.bytes + size)
      && (!goesOn ==> next.1 == Slot(Closed, 0) && next.0.partialBytes == flow.partialBytes - slot.bytes)
  {
    hide Inv, Sse.BufferedLen;
  }

  function FlowStep(flow: Flow, e: FlowEvent): (f: Flow)
    requires Inv(flow)
  {
    match e
    case Track(message, identity, size) => AfterTrack(flow, message, identity, size)
    case AckNotification(identity) => AfterAckNotification(flow, identity)
    case AckResponse(identity) => AfterAckResponse(flow, identity)
    case Answer(id) => AfterComplete(flow, id)
  }

  // ---- the invariant -----------------------------------------------------------------------------

  ghost predicate SlotExact(slot: Slot)
  {
    && slot.bytes == Needed(slot.stage)
    && (slot.stage.Waiting? || slot.stage.Reserved? || slot.stage.Delivering? ==> Sse.Bounded(slot.stage.buffers))
  }

  /** Every reservation is exactly what its stream holds, and the budget's partial bytes are their sum. */
  ghost predicate Exact(s: Shared)
  {
    && Inv(s.flow)
    && s.flow.partialBytes == TotalReserved(s.slots)
    && forall i | 0 <= i < |s.slots| :: SlotExact(s.slots[i])
  }

  /** What one task's step does to the budget is what it does to its own reservation. */
  ghost predicate Conserves(flow: Flow, slot: Slot, after: (Flow, Slot))
  {
    && Inv(after.0) && SlotExact(after.1)
    && after.0.partialBytes - after.1.bytes == flow.partialBytes - slot.bytes
  }

  lemma ClosedIsExact()
    ensures SlotExact(Slot(Closed, 0))
  {
  }

  lemma DroppedConserves(flow: Flow, slot: Slot)
    requires Inv(flow) && slot.bytes <= flow.partialBytes
    ensures Conserves(flow, slot, Dropped(flow, slot))
  {
    hide Inv, SlotExact;
    assert SlotExact(Slot(Closed, 0)) by {
      ClosedIsExact();
    }
    PartialKeepsInv(flow, slot.bytes);
  }

  lemma ReservingConserves(flow: Flow, slot: Slot, size: nat, stage: Stage)
    requires Inv(flow) && slot.bytes <= flow.partialBytes && SlotExact(Slot(stage, slot.bytes + size))
    ensures Conserves(flow, slot, Reserving(flow, slot, size, stage))
  {
    hide Inv, SlotExact, Dropped;
    PartialKeepsInv(flow, size);
    DroppedConserves(flow, slot);
  }

  lemma TrackKeepsPartial(flow: Flow, message: Message, identity: seq<Byte>, size: nat)
    ensures AfterTrack(flow, message, identity, size).partialBytes == flow.partialBytes
  {
  }

  lemma TransferringConserves(flow: Flow, slot: Slot, message: Message, identity: seq<Byte>, size: nat, sent: bool, stage: Stage)
    requires Inv(flow) && size <= slot.bytes <= flow.partialBytes && SlotExact(Slot(stage, slot.bytes - size))
    ensures Conserves(flow, slot, Transferring(flow, slot, message, identity, size, sent, stage))
  {
    hide Inv, SlotExact, AfterTrack, TrackOutcome;
    var released := AfterRelease(flow, size);
    PartialKeepsInv(flow, size);
    TrackKeepsInv(released, message, identity, size);
    TrackKeepsPartial(released, message, identity, size);
    var charged, rest := AfterTrack(released, message, identity, size), Slot(stage, slot.bytes - size);
    DroppedConserves(charged, rest);
    hide Dropped;
  }

  lemma RetainingConserves(flow: Flow, slot: Slot, size: nat, stage: Stage)
    requires Inv(flow) && size <= slot.bytes <= flow.partialBytes && SlotExact(Slot(stage, size))
    ensures Conserves(flow, slot, Retaining(flow, slot, size, stage))
    ensures Retaining(flow, slot, size, stage).1.bytes == size
  {
    hide Inv, SlotExact;
    PartialKeepsInv(flow, slot.bytes - size);
  }

  /** Decoding never leaves more to hold than was reserved, so keeping only what is held never raises a reservation. */
  lemma DecodeConserves(flow: Flow, slot: Slot)
    requires Inv(flow) && slot.bytes <= flow.partialBytes && SlotExact(slot) && slot.stage.Reserved?
    ensures Conserves(flow, slot, SlotStep(flow, slot, DecodeChunk))
    ensures Sse.Decode(slot.stage.buffers, slot.stage.chunk).Done? ==> SlotStep(flow, slot, DecodeChunk).1.bytes <= slot.bytes
  {
    hide Inv;
    Sse.DecodeNeverGrows(slot.stage.buffers, slot.stage.chunk);
    DroppedConserves(flow, slot);
    hide Sse.Decode, Dropped, Retaining, Conserves, Sse.TotalLen;
    var decoded := Sse.Decode(slot.stage.buffers, slot.stage.chunk);
    if decoded.Done? {
      var next := Delivering(decoded.buffers, decoded.events);
      RetainingConserves(flow, slot, Needed(next), next);
    }
  }

  lemma SendConserves(flow: Flow, slot: Slot, e: Event)
    requires Inv(flow) && slot.bytes <= flow.partialBytes && SlotExact(slot) && e.Send? && Possible(slot.stage, e)
    ensures Conserves(flow, slot, SlotStep(flow, slot, e))
  {
    hide Inv;
    var payload, rest := slot.stage.payloads[0], slot.stage.payloads[1..];
    assert Sse.TotalLen(slot.stage.payloads) == |payload| + Sse.TotalLen(rest);
    DroppedConserves(flow, slot);
    hide Sse.TotalLen, Dropped;
    if |payload| > 0 && e.message.Some? {
      hide Transferring;
      TransferringConserves(flow, slot, e.message.value, e.identity, |payload|, e.sent, Delivering(slot.stage.buffers, rest));
    }
  }

  lemma SlotStepConserves(flow: Flow, slot: Slot, e: Event)
    requires Inv(flow) && slot.bytes <= flow.partialBytes && SlotExact(slot) && Possible(slot.stage, e)
    ensures Conserves(flow, slot, SlotStep(flow, slot, e))
  {
    hide Inv, Dropped, Reserving, Transferring;
    match e
    case Feed(chunk) =>
      ReservingConserves(flow, slot, |chunk|, Reserved(slot.stage.buffers, chunk));
    case DecodeChunk => DecodeConserves(flow, slot);
    case Send(_, _, _) => SendConserves(flow, slot, e);
    case TakeBytes(text) =>
      ReservingConserves(flow, slot, |text|, Framing(slot.stage.consumed + text));
    case Admit(message, identity) =>
      TransferringConserves(flow, slot, message, identity, slot.bytes, true, Framing([]));
    case Drop => DroppedConserves(flow, slot);
    case OpenEvents =>
    case OpenLines =>
    case Resume =>
  }

  lemma FlowStepConserves(flow: Flow, e: FlowEvent)
    requires Inv(flow)
    ensures Inv(FlowStep(flow, e)) && FlowStep(flow, e).partialBytes == flow.partialBytes
  {
    match e
    case Track(message, identity, size) =>
      TrackKeepsInv(flow, message, identity, size);
      TrackKeepsPartial(flow, message, identity, size);
    case AckNotification(identity) => AckNotificationKeepsInv(flow, identity);
    case AckResponse(identity) => AckResponseKeepsInv(flow, identity);
    case Answer(id) => CompleteKeepsInv(flow, id);
  }

  // ---- runs ----------------------------------------------------------------------------------------

  datatype Move = Task(index: nat, event: Event) | Other(flowEvent: FlowEvent)

  ghost predicate Enabled(s: Shared, m: Move)
  {
    m.Task? ==> m.index < |s.slots| && Possible(s.slots[m.index].stage, m.event)
  }

  ghost function Apply(s: Shared, m: Move): (r: Shared)
    requires Inv(s.flow) && Enabled(s, m)
  {
    match m
    case Task(i, e) =>
      var next := SlotStep(s.flow, s.slots[i], e);
      Shared(next.0, s.slots[i := next.1])
    case Other(e) => Shared(FlowStep(s.flow, e), s.slots)
  }

  lemma ApplyKeepsExact(s: Shared, m: Move)
    requires Exact(s) && Enabled(s, m)
    ensures Exact(Apply(s, m))
  {
    hide Inv, SlotStep, SlotExact, TotalReserved, FlowStep;
    match m
    case Task(i, e) =>
      UpdateSlot(s.slots, i, SlotStep(s.flow, s.slots[i], e).1);
      SlotStepConserves(s.flow, s.slots[i], e);
    case Other(e) =>
      FlowStepConserves(s.flow, e);
  }

  /** Every stream starts closed on an empty budget. */
  ghost predicate IsRun(states: seq<Shared>, moves: seq<Move>)
  {
    && |states| == |moves| + 1
    && Inv(states[0].flow) && Empty(states[0].flow)
    && (forall j | 0 <= j < |states[0].slots| :: states[0].slots[j] == Slot(Closed, 0))
    && forall i | 0 <= i < |moves| ::
         Inv(states[i].flow) ==> Enabled(states[i], moves[i]) && states[i + 1] == Apply(states[i], moves[i])
  }

  lemma {:induction false} NothingReservedAtStart(slots: seq<Slot>)
    requires forall j | 0 <= j < |slots| :: slots[j] == Slot(Closed, 0)
    ensures TotalReserved(slots) == 0
  {
    if |slots| > 0 {
      assert slots[0].bytes == 0;
      NothingReservedAtStart(slots[1..]);
    }
  }

  /** In every interleaving of any number of streams, the partial bytes are exactly the live reservations. */
  lemma {:induction false} PartialBytesAreTheLiveReservations(states: seq<Shared>, moves: seq<Move>, n: nat)
    requires IsRun(states, moves) && n < |states|
    ensures Exact(states[n])
  {
    if n == 0 {
      NothingReservedAtStart(states[0].slots);
      hide Inv, TotalReserved;
    } else {
      PartialBytesAreTheLiveReservations(states, moves, n - 1);
      ApplyKeepsExact(states[n - 1], moves[n - 1]);
    }
  }
}
