/**
 Whole runs of the inbound flow budget.

 The first part keeps the invariant through any sequence of operations.  The second compares the
 ledger with the frames that are really outstanding: an acknowledgement names only an identity, so
 the ledger may release another frame of that identity than the one consumed.  Releasing the
 smallest keeps the ledger above the truth at every moment.
 */
module FlowHistory {
  import opened Bytes
  import opened Outcomes
  import opened MessageIdentity
  import opened FlowModel

  // ---- any sequence of operations keeps the invariant -----------------------------------

  datatype Operation =
    | Arrival(message: Message, identity: seq<Byte>, size: nat)
    | ArrivalFromPartial(message: Message, identity: seq<Byte>, size: nat)
    | NotificationAck(identity: seq<Byte>)
    | ResponseAck(identity: seq<Byte>)
    | Completion(id: RequestId)
    | Reserve(size: nat)
    | Release(size: nat)

  function Step(flow: Flow, op: Operation): (f: Flow)
    requires Inv(flow)
  {
    match op
    case Arrival(message, identity, size) => AfterTrack(flow, message, identity, size)
    case ArrivalFromPartial(message, identity, size) => AfterTrack(AfterRelease(flow, size), message, identity, size)
    case NotificationAck(identity) => AfterAckNotification(flow, identity)
    case ResponseAck(identity) => AfterAckResponse(flow, identity)
    case Completion(id) => AfterComplete(flow, id)
    case Reserve(size) => AfterReserve(flow, size)
    case Release(size) => AfterRelease(flow, size)
  }

  lemma StepKeepsInv(flow: Flow, op: Operation)
    requires Inv(flow)
    ensures Inv(Step(flow, op))
    ensures Step(flow, op).maxBytes == flow.maxBytes && Step(flow, op).maxFrames == flow.maxFrames
  {
    hide Inv;
    match op
    case Arrival(message, identity, size) => TrackKeepsInv(flow, message, identity, size);
    case ArrivalFromPartial(message, identity, size) =>
      PartialKeepsInv(flow, size);
      TrackKeepsInv(AfterRelease(flow, size), message, identity, size);
    case NotificationAck(identity) => AckNotificationKeepsInv(flow, identity);
    case ResponseAck(identity) => AckResponseKeepsInv(flow, identity);
    case Completion(id) => CompleteKeepsInv(flow, id);
    case Reserve(size) => PartialKeepsInv(flow, size);
    case Release(size) => PartialKeepsInv(flow, size);
  }

  /** The states a run goes through, the first included. */
  ghost predicate IsRun(states: seq<Flow>, ops: seq<Operation>)
  {
    && |states| == |ops| + 1
    && Inv(states[0])
    && forall i | 0 <= i < |ops| :: Inv(states[i]) ==> states[i + 1] == Step(states[i], ops[i])
  }

  /** In every state of every run the counters are exact, the limits hold and tokens are distinct. */
  lemma {:induction false} RunKeepsInv(states: seq<Flow>, ops: seq<Operation>, n: nat)
    requires IsRun(states, ops) && n < |states|
    ensures Inv(states[n])
    ensures states[n].bytes + states[n].partialBytes <= states[0].maxBytes && states[n].frames <= states[0].maxFrames
    ensures states[n].maxBytes == states[0].maxBytes && states[n].maxFrames == states[0].maxFrames
  {
    if n > 0 {
      RunKeepsInv(states, ops, n - 1);
      StepKeepsInv(states[n - 1], ops[n - 1]);
    }
  }

  /**
   A frame whose bytes are already reserved is admitted exactly when a frame, a token and, for a
   request, a request slot are free: bytes never stand in its way.
   */
  lemma ReservedFrameIsNeverRejectedForBytes(flow: Flow, message: Message, size: nat)
    requires Inv(flow) && size <= flow.partialBytes
    ensures TrackOutcome(AfterRelease(flow, size), message, size).Ok?
       <==> && flow.frames < flow.maxFrames
            && flow.nextToken < USIZE_MAX
            && (message.Request? ==> |flow.requests| < MAX_OUTSTANDING_INBOUND_REQUESTS && message.id !in flow.requests)
    ensures TrackOutcome(AfterRelease(flow, size), message, size).Ok? ==>
              forall identity ::
                var after := AfterTrack(AfterRelease(flow, size), message, identity, size);
                after.bytes + after.partialBytes == flow.bytes + flow.partialBytes
  {
  }

  // ---- the ledger dominates the truth ------------------------------------------------------

  /** How many frames of this identity have at least `threshold` bytes. */
  function CountAtLeast(s: seq<PhysicalFrame>, identity: seq<Byte>, threshold: nat): (n: nat)
  {
    if |s| == 0 then 0 else
      (if s[0].identity == identity && s[0].bytes >= threshold then 1 else 0) + CountAtLeast(s[1..], identity, threshold)
  }

  function Count(s: seq<PhysicalFrame>, identity: seq<Byte>): (n: nat)
  {
    CountAtLeast(s, identity, 0)
  }

  /** Per identity: as many frames in the ledger as in truth, and above every size at least as many. */
  ghost predicate Dominates(ledger: seq<PhysicalFrame>, truth: seq<PhysicalFrame>)
  {
    && (forall id :: Count(ledger, id) == Count(truth, id))
    && (forall id, t: nat :: CountAtLeast(ledger, id, t) >= CountAtLeast(truth, id, t))
  }

  lemma {:induction false} CountAppend(a: seq<PhysicalFrame>, b: seq<PhysicalFrame>, id: seq<Byte>, t: nat)
    ensures CountAtLeast(a + b, id, t) == CountAtLeast(a, id, t) + CountAtLeast(b, id, t)
  {
    if |a| == 0 {
      assert a + b == b;
    } else {
      CountAppend(a[1..], b, id, t);
      assert (a + b)[1..] == a[1..] + b;
    }
  }

  function One(f: PhysicalFrame, id: seq<Byte>, t: nat): (n: nat)
  {
    if f.identity == id && f.bytes >= t then 1 else 0
  }

  lemma {:induction false} CountRemove(s: seq<PhysicalFrame>, i: nat, id: seq<Byte>, t: nat)
    requires i < |s|
    ensures CountAtLeast(s, id, t) == CountAtLeast(RemoveAt(s, i), id, t) + One(s[i], id, t)
  {
    if i == 0 {
      assert RemoveAt(s, 0) == s[1..];
    } else {
      CountRemove(s[1..], i - 1, id, t);
      assert RemoveAt(s, i)[1..] == RemoveAt(s[1..], i - 1);
    }
  }

  lemma {:induction false} CountIsMonotone(s: seq<PhysicalFrame>, id: seq<Byte>, t: nat)
    ensures CountAtLeast(s, id, t) <= Count(s, id)
  {
    if |s| > 0 {
      CountIsMonotone(s[1..], id, t);
    }
  }

  lemma {:induction false} CountWhenAllLarge(s: seq<PhysicalFrame>, id: seq<Byte>, t: nat)
    requires forall i | 0 <= i < |s| && s[i].identity == id :: s[i].bytes >= t
    ensures CountAtLeast(s, id, t) == Count(s, id)
  {
    if |s| > 0 {
      CountWhenAllLarge(s[1..], id, t);
    }
  }

  lemma {:induction false} CountZeroWhenAbsent(s: seq<PhysicalFrame>, id: seq<Byte>)
    requires forall i | 0 <= i < |s| :: s[i].identity != id
    ensures Count(s, id) == 0
  {
    if |s| > 0 {
      CountZeroWhenAbsent(s[1..], id);
    }
  }

  lemma {:induction false} CountPositiveWhenPresent(s: seq<PhysicalFrame>, i: nat)
    requires i < |s|
    ensures Count(s, s[i].identity) > 0
  {
    CountRemove(s, i, s[i].identity, 0);
  }

  lemma AppendKeepsDomination(ledger: seq<PhysicalFrame>, truth: seq<PhysicalFrame>, frame: PhysicalFrame)
    requires Dominates(ledger, truth)
    ensures Dominates(ledger + [frame], truth + [frame])
  {
    forall id, t: nat
      ensures CountAtLeast(ledger + [frame], id, t) >= CountAtLeast(truth + [frame], id, t)
      ensures Count(ledger + [frame], id) == Count(truth + [frame], id)
    {
      CountAppend(ledger, [frame], id, t);
      CountAppend(truth, [frame], id, t);
      CountAppend(ledger, [frame], id, 0);
      CountAppend(truth, [frame], id, 0);
      assert Count(ledger, id) == Count(truth, id);
    }
  }

  /** A frame that is really outstanding always finds a match in the ledger. */
  lemma GenuineAckIsAccepted(ledger: seq<PhysicalFrame>, truth: seq<PhysicalFrame>, i: nat)
    requires Dominates(ledger, truth) && i < |truth|
    ensures SmallestMatch(ledger, truth[i].identity).Some?
  {
    CountPositiveWhenPresent(truth, i);
    if SmallestMatch(ledger, truth[i].identity).None? {
      CountZeroWhenAbsent(ledger, truth[i].identity);
    }
  }

  /** Whichever frame was consumed, releasing the smallest of its identity keeps the ledger above the truth. */
  lemma AckKeepsDomination(ledger: seq<PhysicalFrame>, truth: seq<PhysicalFrame>, i: nat, p: nat)
    requires Dominates(ledger, truth) && i < |truth|
    requires SmallestMatch(ledger, truth[i].identity) == Some(p)
    ensures Dominates(RemoveAt(ledger, p), RemoveAt(truth, i))
  {
    var id0 := truth[i].identity;
    forall id, t: nat
      ensures CountAtLeast(RemoveAt(ledger, p), id, t) >= CountAtLeast(RemoveAt(truth, i), id, t)
      ensures Count(RemoveAt(ledger, p), id) == Count(RemoveAt(truth, i), id)
    {
      CountRemove(ledger, p, id, t);
      CountRemove(ledger, p, id, 0);
      CountRemove(truth, i, id, t);
      CountRemove(truth, i, id, 0);
      assert Count(ledger, id) == Count(truth, id);
      if id == id0 && ledger[p].bytes >= t {
        CountWhenAllLarge(ledger, id, t);
        CountIsMonotone(RemoveAt(truth, i), id, t);
      }
    }
  }

  // ---- domination bounds the byte sum --------------------------------------------------------

  function Capped(n: nat, cap: nat): (r: nat)
  {
    if n < cap then n else cap
  }

  function SumCapped(s: seq<PhysicalFrame>, id: seq<Byte>, cap: nat): (n: nat)
  {
    if |s| == 0 then 0 else
      (if s[0].identity == id then Capped(s[0].bytes, cap) else 0) + SumCapped(s[1..], id, cap)
  }

  /** A capped sum grows with the cap by the number of frames reaching it. */
  lemma {:induction false} CapStep(s: seq<PhysicalFrame>, id: seq<Byte>, cap: nat)
    ensures SumCapped(s, id, cap + 1) == SumCapped(s, id, cap) + CountAtLeast(s, id, cap + 1)
  {
    if |s| > 0 {
      CapStep(s[1..], id, cap);
    }
  }

  lemma {:induction false} CapZero(s: seq<PhysicalFrame>, id: seq<Byte>)
    ensures SumCapped(s, id, 0) == 0
  {
    if |s| > 0 {
      CapZero(s[1..], id);
    }
  }

  lemma {:induction false} CappedSumsDominate(ledger: seq<PhysicalFrame>, truth: seq<PhysicalFrame>, id: seq<Byte>, cap: nat)
    requires Dominates(ledger, truth)
    ensures SumCapped(ledger, id, cap) >= SumCapped(truth, id, cap)
  {
    if cap == 0 {
      CapZero(ledger, id);
      CapZero(truth, id);
    } else {
      CappedSumsDominate(ledger, truth, id, cap - 1);
      CapStep(ledger, id, cap - 1);
      CapStep(truth, id, cap - 1);
    }
  }

  /** The frames of all other identities. */
  function Without(s: seq<PhysicalFrame>, id: seq<Byte>): (r: seq<PhysicalFrame>)
    ensures |r| <= |s|
  {
    if |s| == 0 then []
    else if s[0].identity == id then Without(s[1..], id)
    else [s[0]] + Without(s[1..], id)
  }

  lemma {:induction false} SplitByIdentity(s: seq<PhysicalFrame>, id: seq<Byte>, cap: nat)
    requires SumBytes(s) <= cap
    ensures SumBytes(s) == SumCapped(s, id, cap) + SumBytes(Without(s, id))
  {
    if |s| > 0 {
      SplitByIdentity(s[1..], id, cap);
    }
  }

  lemma {:induction false} CountWithout(s: seq<PhysicalFrame>, id: seq<Byte>, other: seq<Byte>, t: nat)
    ensures CountAtLeast(Without(s, id), other, t) == if other == id then 0 else CountAtLeast(s, other, t)
  {
    if |s| > 0 {
      CountWithout(s[1..], id, other, t);
    }
  }

  lemma {:induction false} DominationBoundsBytes(ledger: seq<PhysicalFrame>, truth: seq<PhysicalFrame>)
    requires Dominates(ledger, truth)
    ensures SumBytes(ledger) >= SumBytes(truth)
    decreases |truth|
  {
    if |truth| > 0 {
      var id := truth[0].identity;
      var cap := SumBytes(ledger) + SumBytes(truth);
      SplitByIdentity(ledger, id, cap);
      SplitByIdentity(truth, id, cap);
      CappedSumsDominate(ledger, truth, id, cap);
      forall other, t: nat
        ensures CountAtLeast(Without(ledger, id), other, t) >= CountAtLeast(Without(truth, id), other, t)
        ensures Count(Without(ledger, id), other) == Count(Without(truth, id), other)
      {
        CountWithout(ledger, id, other, t);
        CountWithout(truth, id, other, t);
        CountWithout(ledger, id, other, 0);
        CountWithout(truth, id, other, 0);
        assert Count(ledger, other) == Count(truth, other);
      }
      DominationBoundsBytes(Without(ledger, id), Without(truth, id));
    }
  }

  // ---- histories -----------------------------------------------------------------------------

  /** The budget beside the notifications and responses that are really outstanding. */
  datatype World = World(flow: Flow, notifications: seq<PhysicalFrame>, responses: seq<PhysicalFrame>)

  /** `ConsumeNotification(i)`: the handler consumed the i-th outstanding notification and acknowledged its identity. */
  datatype Event =
    | Arrive(message: Message, identity: seq<Byte>, size: nat)
    | ConsumeNotification(index: nat)
    | ConsumeResponse(index: nat)
    | Answer(id: RequestId)
    | Reserved(size: nat)
    | Released(size: nat)

  ghost predicate Possible(w: World, e: Event)
  {
    && (e.ConsumeNotification? ==> e.index < |w.notifications|)
    && (e.ConsumeResponse? ==> e.index < |w.responses|)
  }

  function Next(w: World, e: Event): (r: World)
    requires Inv(w.flow)
    requires e.ConsumeNotification? ==> e.index < |w.notifications|
    requires e.ConsumeResponse? ==> e.index < |w.responses|
  {
    match e
    case Arrive(message, identity, size) =>
      var outcome := TrackOutcome(w.flow, message, size);
      var flow := AfterTrack(w.flow, message, identity, size);
      if outcome.Err? || message.Request? then World(flow, w.notifications, w.responses)
      else if message.Notification? then
        World(flow, w.notifications + [PhysicalFrame(outcome.value, identity, size)], w.responses)
      else World(flow, w.notifications, w.responses + [PhysicalFrame(outcome.value, identity, size)])
    case ConsumeNotification(i) =>
      World(AfterAckNotification(w.flow, w.notifications[i].identity), RemoveAt(w.notifications, i), w.responses)
    case ConsumeResponse(i) =>
      World(AfterAckResponse(w.flow, w.responses[i].identity), w.notifications, RemoveAt(w.responses, i))
    case Answer(id) => World(AfterComplete(w.flow, id), w.notifications, w.responses)
    case Reserved(size) => World(AfterReserve(w.flow, size), w.notifications, w.responses)
    case Released(size) => World(AfterRelease(w.flow, size), w.notifications, w.responses)
  }

  ghost predicate NeverUndercounts(w: World)
  {
    && Inv(w.flow)
    && Dominates(w.flow.notifications, w.notifications)
    && Dominates(w.flow.responses, w.responses)
  }

  lemma NextNeverUndercounts(w: World, e: Event)
    requires NeverUndercounts(w) && Possible(w, e)
    ensures NeverUndercounts(Next(w, e))
    ensures e.ConsumeNotification? ==> AckOutcome(w.flow.notifications, w.notifications[e.index].identity).Ok?
    ensures e.ConsumeResponse? ==> AckOutcome(w.flow.responses, w.responses[e.index].identity).Ok?
  {
    hide Inv, Dominates;
    match e
    case Arrive(message, identity, size) =>
      TrackKeepsInv(w.flow, message, identity, size);
      var outcome := TrackOutcome(w.flow, message, size);
      if outcome.Ok? {
        var frame := PhysicalFrame(outcome.value, identity, size);
        AppendKeepsDomination(w.flow.notifications, w.notifications, frame);
        AppendKeepsDomination(w.flow.responses, w.responses, frame);
      }
    case ConsumeNotification(i) =>
      AckNotificationKeepsInv(w.flow, w.notifications[i].identity);
      GenuineAckIsAccepted(w.flow.notifications, w.notifications, i);
      AckKeepsDomination(w.flow.notifications, w.notifications, i, SmallestMatch(w.flow.notifications, w.notifications[i].identity).value);
    case ConsumeResponse(i) =>
      AckResponseKeepsInv(w.flow, w.responses[i].identity);
      GenuineAckIsAccepted(w.flow.responses, w.responses, i);
      AckKeepsDomination(w.flow.responses, w.responses, i, SmallestMatch(w.flow.responses, w.responses[i].identity).value);
    case Answer(id) => CompleteKeepsInv(w.flow, id);
    case Reserved(size) => PartialKeepsInv(w.flow, size);
    case Released(size) => PartialKeepsInv(w.flow, size);
  }

  /** A history from an empty budget: each event is possible when it happens. */
  ghost predicate IsHistory(worlds: seq<World>, events: seq<Event>)
  {
    && |worlds| == |events| + 1
    && Inv(worlds[0].flow) && Empty(worlds[0].flow) && worlds[0].notifications == worlds[0].responses == []
    && forall i | 0 <= i < |events| ::
         Inv(worlds[i].flow) ==> Possible(worlds[i], events[i]) && worlds[i + 1] == Next(worlds[i], events[i])
  }

  lemma {:induction false} HistoryNeverUndercounts(worlds: seq<World>, events: seq<Event>, n: nat)
    requires IsHistory(worlds, events) && n < |worlds|
    ensures NeverUndercounts(worlds[n])
  {
    if n > 0 {
      HistoryNeverUndercounts(worlds, events, n - 1);
      NextNeverUndercounts(worlds[n - 1], events[n - 1]);
    }
  }

  /**
   In every history, at every moment: the charged bytes are at least the bytes really outstanding,
   each identity is counted exactly, and the acknowledgement of a consumed frame is accepted.
   */
  lemma SmallestMatchNeverUndercounts(worlds: seq<World>, events: seq<Event>, n: nat)
    requires IsHistory(worlds, events) && n < |worlds|
    ensures var w := worlds[n];
      && Inv(w.flow)
      && w.flow.bytes >= SumRequests(w.flow.requests) + SumBytes(w.notifications) + SumBytes(w.responses)
      && (forall id :: Count(w.flow.notifications, id) == Count(w.notifications, id))
      && (forall id :: Count(w.flow.responses, id) == Count(w.responses, id))
      && (n < |events| && events[n].ConsumeNotification? ==>
            AckOutcome(w.flow.notifications, w.notifications[events[n].index].identity).Ok?)
      && (n < |events| && events[n].ConsumeResponse? ==>
            AckOutcome(w.flow.responses, w.responses[events[n].index].identity).Ok?)
  {
    HistoryNeverUndercounts(worlds, events, n);
    DominationBoundsBytes(worlds[n].flow.notifications, worlds[n].notifications);
    DominationBoundsBytes(worlds[n].flow.responses, worlds[n].responses);
    if n < |events| {
      NextNeverUndercounts(worlds[n], events[n]);
    }
  }
}
