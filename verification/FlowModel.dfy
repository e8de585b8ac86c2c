/**
 The inbound flow budget: every tracked frame is charged until it is acknowledged, and bytes of
 frames still being framed are charged separately as partial bytes.

 `Flow` is the abstract state, with exact arithmetic; the source's class, with its saturating
 arithmetic, is proved against it in `FlowControl`.
 */
module FlowModel {
  import opened Bytes
  import opened Outcomes
  import opened MapSums
  import opened MessageIdentity
  import CanonicalJson

  const MAX_OUTSTANDING_INBOUND_REQUESTS: nat := 8
  const MAX_OUTSTANDING_INBOUND_FRAMES: nat := 4096
  const MAX_OUTSTANDING_INBOUND_BYTES: nat := 32 * 1024 * 1024

  datatype PhysicalFrame = PhysicalFrame(token: nat, identity: seq<Byte>, bytes: nat)

  datatype FlowError =
    | BudgetExceeded
    | TokensExhausted
    | TooManyRequests
    | DuplicateRequest
    | NoMatch
    | PartialExceeded

  datatype Flow = Flow(
    frames: nat,
    bytes: nat,
    partialBytes: nat,
    requests: map<RequestId, PhysicalFrame>,
    notifications: seq<PhysicalFrame>,
    responses: seq<PhysicalFrame>,
    nextToken: nat,
    maxFrames: nat,
    maxBytes: nat)

  // ---- sums --------------------------------------------------------------------

  function SumBytes(frames: seq<PhysicalFrame>): (n: nat)
  {
    if |frames| == 0 then 0 else frames[0].bytes + SumBytes(frames[1..])
  }

  lemma {:induction false} SumBytesAppend(a: seq<PhysicalFrame>, b: seq<PhysicalFrame>)
    ensures SumBytes(a + b) == SumBytes(a) + SumBytes(b)
  {
    if |a| == 0 {
      assert a + b == b;
    } else {
      SumBytesAppend(a[1..], b);
      assert (a + b)[1..] == a[1..] + b;
    }
  }

  function RemoveAt<T>(s: seq<T>, i: nat): (r: seq<T>)
    requires i < |s|
    ensures |r| == |s| - 1
  {
    s[..i] + s[i + 1..]
  }

  lemma {:induction false} SumBytesRemove(s: seq<PhysicalFrame>, i: nat)
    requires i < |s|
    ensures SumBytes(s) == SumBytes(RemoveAt(s, i)) + s[i].bytes
  {
    if i == 0 {
      assert RemoveAt(s, 0) == s[1..];
    } else {
      SumBytesRemove(s[1..], i - 1);
      assert RemoveAt(s, i)[1..] == RemoveAt(s[1..], i - 1);
    }
  }

  function FrameBytes(frame: PhysicalFrame): (n: nat)
  {
    frame.bytes
  }

  ghost function SumRequests(m: map<RequestId, PhysicalFrame>): (n: nat)
  {
    MapSum(m, FrameBytes)
  }

  lemma SumRequestsRemove(m: map<RequestId, PhysicalFrame>, k: RequestId)
    requires k in m
    ensures SumRequests(m) == m[k].bytes + SumRequests(m - {k})
  {
    MapSumRemove(m, FrameBytes, k);
  }

  lemma SumRequestsInsert(m: map<RequestId, PhysicalFrame>, k: RequestId, f: PhysicalFrame)
    requires k !in m
    ensures SumRequests(m[k := f]) == SumRequests(m) + f.bytes
    ensures |m[k := f]| == |m| + 1
  {
    MapSumUpdate(m, FrameBytes, k, f);
  }

  // ---- the invariant -------------------------------------------------------------

  /** Queues hold frames in the order their tokens were given out, all below `next`. */
  ghost predicate QueueTokens(q: seq<PhysicalFrame>, next: nat)
  {
    && (forall i | 0 <= i < |q| :: q[i].token < next)
    && (forall i, j | 0 <= i < j < |q| :: q[i].token < q[j].token)
  }

  ghost predicate RequestTokens(m: map<RequestId, PhysicalFrame>, next: nat)
  {
    && (forall k | k in m :: m[k].token < next)
    && (forall j, k | j in m && k in m && j != k :: m[j].token != m[k].token)
  }

  ghost predicate QueuesApart(q: seq<PhysicalFrame>, r: seq<PhysicalFrame>)
  {
    forall i, j | 0 <= i < |q| && 0 <= j < |r| :: q[i].token != r[j].token
  }

  ghost predicate RequestsApart(q: seq<PhysicalFrame>, m: map<RequestId, PhysicalFrame>)
  {
    forall i, k | 0 <= i < |q| && k in m :: q[i].token != m[k].token
  }

  ghost predicate TokensApart(requests: map<RequestId, PhysicalFrame>, notifications: seq<PhysicalFrame>,
                              responses: seq<PhysicalFrame>, next: nat)
  {
    && QueueTokens(notifications, next)
    && QueueTokens(responses, next)
    && RequestTokens(requests, next)
    && QueuesApart(notifications, responses)
    && RequestsApart(notifications, requests)
    && RequestsApart(responses, requests)
  }

  /** No token is used twice, and every token is below the next one. */
  ghost predicate TokensDistinct(flow: Flow)
  {
    TokensApart(flow.requests, flow.notifications, flow.responses, flow.nextToken)
  }

  /** The counters are exactly what the three containers hold, and the limits are respected. */
  ghost predicate Balanced(flow: Flow)
  {
    && flow.frames == |flow.requests| + |flow.notifications| + |flow.responses|
    && flow.bytes == SumRequests(flow.requests) + SumBytes(flow.notifications) + SumBytes(flow.responses)
    && flow.bytes + flow.partialBytes <= flow.maxBytes < USIZE_MAX
    && flow.frames <= flow.maxFrames < USIZE_MAX
    && |flow.requests| <= MAX_OUTSTANDING_INBOUND_REQUESTS
    && flow.nextToken <= USIZE_MAX
  }

  ghost predicate Inv(flow: Flow)
  {
    Balanced(flow) && TokensDistinct(flow)
  }

  // ---- operations on the abstract state -------------------------------------------

  function TrackOutcome(flow: Flow, message: Message, bytes: nat): (r: Result<nat, FlowError>)
  {
    if flow.frames + 1 > flow.maxFrames || flow.bytes + bytes + flow.partialBytes > flow.maxBytes then Err(BudgetExceeded)
    else if flow.nextToken >= USIZE_MAX then Err(TokensExhausted)
    else if message.Request? && |flow.requests| >= MAX_OUTSTANDING_INBOUND_REQUESTS then Err(TooManyRequests)
    else if message.Request? && message.id in flow.requests then Err(DuplicateRequest)
    else Ok(flow.nextToken)
  }

  /** `frame` added to the container for `message`, and charged. */
  function Charge(flow: Flow, message: Message, frame: PhysicalFrame): (f: Flow)
  {
    var charged := flow.(frames := flow.frames + 1, bytes := flow.bytes + frame.bytes);
    match message
    case Request(id, _) => charged.(requests := flow.requests[id := frame])
    case Notification(_, _) => charged.(notifications := flow.notifications + [frame])
    case Response(_, _) => charged.(responses := flow.responses + [frame])
  }

  /** A refused request still uses up the token it was given. */
  function AfterTrack(flow: Flow, message: Message, identity: seq<Byte>, bytes: nat): (f: Flow)
  {
    match TrackOutcome(flow, message, bytes)
    case Ok(token) =>
      Charge(flow, message, PhysicalFrame(token, identity, bytes)).(nextToken := token + 1)
    case Err(e) =>
      if e.TooManyRequests? || e.DuplicateRequest? then flow.(nextToken := flow.nextToken + 1) else flow
  }

  predicate Before(a: PhysicalFrame, b: PhysicalFrame)
  {
    a.bytes < b.bytes || (a.bytes == b.bytes && a.token < b.token)
  }

  /** Position of the frame with this identity that is least by size, then by token. */
  function SmallestMatch(frames: seq<PhysicalFrame>, identity: seq<Byte>): (r: Option<nat>)
    ensures r.None? ==> forall i | 0 <= i < |frames| :: frames[i].identity != identity
    ensures r.Some? ==> r.value < |frames| && frames[r.value].identity == identity
    ensures r.Some? ==> forall i | 0 <= i < |frames| && frames[i].identity == identity :: !Before(frames[i], frames[r.value])
  {
    if |frames| == 0 then None else
      var last := |frames| - 1;
      var best := SmallestMatch(frames[..last], identity);
      if frames[last].identity != identity then best
      else if best.None? || Before(frames[last], frames[best.value]) then Some(last)
      else best
  }

  function AckOutcome(frames: seq<PhysicalFrame>, identity: seq<Byte>): (r: Result<PhysicalFrame, FlowError>)
  {
    var position := SmallestMatch(frames, identity);
    if position.None? then Err(NoMatch) else Ok(frames[position.value])
  }

  function AfterAckNotification(flow: Flow, identity: seq<Byte>): (f: Flow)
    requires Inv(flow)
  {
    var position := SmallestMatch(flow.notifications, identity);
    if position.None? then flow else
      SumBytesRemove(flow.notifications, position.value);
      flow.(frames := flow.frames - 1,
            bytes := flow.bytes - flow.notifications[position.value].bytes,
            notifications := RemoveAt(flow.notifications, position.value))
  }

  function AfterAckResponse(flow: Flow, identity: seq<Byte>): (f: Flow)
    requires Inv(flow)
  {
    var position := SmallestMatch(flow.responses, identity);
    if position.None? then flow else
      SumBytesRemove(flow.responses, position.value);
      flow.(frames := flow.frames - 1,
            bytes := flow.bytes - flow.responses[position.value].bytes,
            responses := RemoveAt(flow.responses, position.value))
  }

  function CompleteOutcome(flow: Flow, id: RequestId): (r: Result<PhysicalFrame, FlowError>)
  {
    if id in flow.requests then Ok(flow.requests[id]) else Err(NoMatch)
  }

  function AfterComplete(flow: Flow, id: RequestId): (f: Flow)
    requires Inv(flow)
  {
    if id !in flow.requests then flow else
      SumRequestsRemove(flow.requests, id);
      flow.(frames := flow.frames - 1,
            bytes := flow.bytes - flow.requests[id].bytes,
            requests := flow.requests - {id})
  }

  function AfterReserve(flow: Flow, bytes: nat): (f: Flow)
  {
    if flow.bytes + flow.partialBytes + bytes > flow.maxBytes then flow
    else flow.(partialBytes := flow.partialBytes + bytes)
  }

  function AfterRelease(flow: Flow, bytes: nat): (f: Flow)
  {
    flow.(partialBytes := SatSub(flow.partialBytes, bytes))
  }

  /** The state of a new budget, whatever its limits. */
  predicate Empty(flow: Flow)
  {
    && flow.frames == flow.bytes == flow.partialBytes == 0
    && flow.requests == map[] && flow.notifications == [] && flow.responses == []
  }

  lemma EmptyFlowKeepsInv(flow: Flow)
    requires Empty(flow) && flow.maxBytes < USIZE_MAX && flow.maxFrames < USIZE_MAX && flow.nextToken <= USIZE_MAX
    ensures Inv(flow)
  {
  }

  /** Releasing the frame that was found saturates neither counter. */
  predicate ReleaseIsExact(flow: Flow, found: Result<PhysicalFrame, FlowError>)
  {
    found.Ok? ==> flow.frames >= 1 && flow.bytes >= found.value.bytes
  }

  // ---- every operation keeps the invariant --------------------------------------------

  lemma TrackKeepsBalance(flow: Flow, message: Message, identity: seq<Byte>, bytes: nat)
    requires Balanced(flow)
    ensures Balanced(AfterTrack(flow, message, identity, bytes))
  {
    var outcome := TrackOutcome(flow, message, bytes);
    if outcome.Ok? {
      var frame := PhysicalFrame(outcome.value, identity, bytes);
      match message {
        case Request(id, _) => SumRequestsInsert(flow.requests, id, frame);
        case Notification(_, _) => SumBytesAppend(flow.notifications, [frame]);
        case Response(_, _) => SumBytesAppend(flow.responses, [frame]);
      }
    }
  }

  lemma AppendKeepsApart(q: seq<PhysicalFrame>, frame: PhysicalFrame, other: seq<PhysicalFrame>, m: map<RequestId, PhysicalFrame>)
    requires QueueTokens(q, frame.token) && QueuesApart(q, other) && RequestsApart(q, m)
    requires QueueTokens(other, frame.token) && RequestTokens(m, frame.token)
    ensures QueueTokens(q + [frame], frame.token + 1) && QueuesApart(q + [frame], other) && RequestsApart(q + [frame], m)
  {
  }

  /** Giving out a token changes nothing for those given out before, whether its frame enters a container or not. */
  lemma NewTokenKeepsApart(requests: map<RequestId, PhysicalFrame>, notifications: seq<PhysicalFrame>, responses: seq<PhysicalFrame>,
                           frame: PhysicalFrame, id: RequestId)
    requires TokensApart(requests, notifications, responses, frame.token)
    ensures TokensApart(requests, notifications, responses, frame.token + 1)
    ensures TokensApart(requests[id := frame], notifications, responses, frame.token + 1)
    ensures TokensApart(requests, notifications + [frame], responses, frame.token + 1)
    ensures TokensApart(requests, notifications, responses + [frame], frame.token + 1)
  {
    assert QueuesApart(responses, notifications);
    AppendKeepsApart(notifications, frame, responses, requests);
    AppendKeepsApart(responses, frame, notifications, requests);
    assert QueuesApart(notifications, responses + [frame]);
    assert RequestTokens(requests[id := frame], frame.token + 1);
  }

  lemma TrackKeepsTokens(flow: Flow, message: Message, identity: seq<Byte>, bytes: nat)
    requires TokensDistinct(flow)
    ensures TokensDistinct(AfterTrack(flow, message, identity, bytes))
  {
    hide TokensApart, SumBytes, SumRequests;
    var frame := PhysicalFrame(flow.nextToken, identity, bytes);
    NewTokenKeepsApart(flow.requests, flow.notifications, flow.responses, frame, if message.Request? then message.id else NullId);
  }

  lemma TrackKeepsInv(flow: Flow, message: Message, identity: seq<Byte>, bytes: nat)
    requires Inv(flow)
    ensures Inv(AfterTrack(flow, message, identity, bytes))
    ensures flow.bytes + flow.partialBytes <= flow.maxBytes < USIZE_MAX && flow.frames <= flow.maxFrames < USIZE_MAX
    ensures flow.nextToken <= USIZE_MAX
  {
    TrackKeepsBalance(flow, message, identity, bytes);
    TrackKeepsTokens(flow, message, identity, bytes);
  }

  lemma RemoveAtKeepsApart(q: seq<PhysicalFrame>, i: nat, next: nat, other: seq<PhysicalFrame>, m: map<RequestId, PhysicalFrame>)
    requires i < |q| && QueueTokens(q, next) && QueuesApart(q, other) && RequestsApart(q, m)
    ensures QueueTokens(RemoveAt(q, i), next) && QueuesApart(RemoveAt(q, i), other) && RequestsApart(RemoveAt(q, i), m)
  {
    var r := RemoveAt(q, i);
    assert forall j | 0 <= j < |r| :: r[j] == q[if j < i then j else j + 1];
  }

  lemma AckNotificationKeepsInv(flow: Flow, identity: seq<Byte>)
    requires Inv(flow)
    ensures Inv(AfterAckNotification(flow, identity))
    ensures ReleaseIsExact(flow, AckOutcome(flow.notifications, identity))
  {
    var position := SmallestMatch(flow.notifications, identity);
    if position.Some? {
      SumBytesRemove(flow.notifications, position.value);
      RemoveAtKeepsApart(flow.notifications, position.value, flow.nextToken, flow.responses, flow.requests);
    }
  }

  lemma AckResponseKeepsInv(flow: Flow, identity: seq<Byte>)
    requires Inv(flow)
    ensures Inv(AfterAckResponse(flow, identity))
    ensures ReleaseIsExact(flow, AckOutcome(flow.responses, identity))
  {
    var position := SmallestMatch(flow.responses, identity);
    if position.Some? {
      SumBytesRemove(flow.responses, position.value);
      RemoveAtKeepsApart(flow.responses, position.value, flow.nextToken, flow.notifications, flow.requests);
    }
  }

  lemma CompleteKeepsInv(flow: Flow, id: RequestId)
    requires Inv(flow)
    ensures Inv(AfterComplete(flow, id))
    ensures ReleaseIsExact(flow, CompleteOutcome(flow, id))
  {
    if id in flow.requests {
      SumRequestsRemove(flow.requests, id);
    }
  }

  lemma PartialKeepsInv(flow: Flow, bytes: nat)
    requires Inv(flow)
    ensures Inv(AfterReserve(flow, bytes)) && Inv(AfterRelease(flow, bytes))
    ensures flow.bytes + flow.partialBytes <= flow.maxBytes < USIZE_MAX
  {
  }

  // ---- what tracking answers --------------------------------------------------------------

  /** Which answer tracking gives: the first of these that applies.  A token is used up as soon as the budget allows the frame. */
  lemma TrackAnswers(flow: Flow, message: Message, identity: seq<Byte>, bytes: nat)
    requires Inv(flow)
    ensures var outcome, after := TrackOutcome(flow, message, bytes), AfterTrack(flow, message, identity, bytes);
            var fits := flow.frames < flow.maxFrames && flow.bytes + bytes + flow.partialBytes <= flow.maxBytes;
      && (outcome == Err(BudgetExceeded) <==> !fits)
      && (outcome == Err(TokensExhausted) <==> fits && flow.nextToken == USIZE_MAX)
      && (outcome == Err(TooManyRequests) <==> fits && flow.nextToken < USIZE_MAX && message.Request? && |flow.requests| == 8)
      && (outcome == Err(DuplicateRequest) <==>
           fits && flow.nextToken < USIZE_MAX && message.Request? && |flow.requests| < 8 && message.id in flow.requests)
      && (outcome.Ok? ==> outcome.value == flow.nextToken)
      && outcome != Err(NoMatch) && outcome != Err(PartialExceeded)
      && after.nextToken == flow.nextToken + (if fits && flow.nextToken < USIZE_MAX then 1 else 0)
  {
    hide TokensDistinct, SumBytes, SumRequests;
  }

  // ---- filed where it is looked up --------------------------------------------------

  /** After a notification is tracked, its own acknowledgement finds a match. */
  lemma TrackedNotificationIsFound(flow: Flow, hash: Hash, name: seq<Byte>, params: CanonicalJson.Json, size: nat)
    ensures var message := Notification(name, params);
            TrackOutcome(flow, message, size).Ok? ==>
              var after := AfterTrack(flow, message, PhysicalIdentity(hash, message), size);
              AckOutcome(after.notifications, NotificationIdentity(hash, name, params)).Ok?
  {
    var message := Notification(name, params);
    if TrackOutcome(flow, message, size).Ok? {
      var queue := AfterTrack(flow, message, PhysicalIdentity(hash, message), size).notifications;
      assert queue[|queue| - 1].identity == NotificationIdentity(hash, name, params);
    }
  }

  /** After a response is tracked, whatever request it replies to, its own acknowledgement finds a match. */
  lemma TrackedResponseIsFound(flow: Flow, hash: Hash, id: RequestId, reply: Reply, size: nat)
    ensures var message := Response(id, reply);
            TrackOutcome(flow, message, size).Ok? ==>
              var after := AfterTrack(flow, message, PhysicalIdentity(hash, message), size);
              AckOutcome(after.responses, ResponseIdentity(hash, reply)).Ok?
  {
    var message := Response(id, reply);
    if TrackOutcome(flow, message, size).Ok? {
      var queue := AfterTrack(flow, message, PhysicalIdentity(hash, message), size).responses;
      assert queue[|queue| - 1].identity == ResponseIdentity(hash, reply);
    }
  }

  /** Why a frame whose bytes are reserved can still be refused: never for bytes. */
  predicate Full(flow: Flow, e: FlowError)
  {
    match e
    case BudgetExceeded => flow.frames == flow.maxFrames
    case TokensExhausted => flow.nextToken >= USIZE_MAX
    case TooManyRequests => |flow.requests| >= MAX_OUTSTANDING_INBOUND_REQUESTS
    case DuplicateRequest => |flow.requests| > 0
    case NoMatch => false
    case PartialExceeded => false
  }

  /** Turning reserved bytes into a charge: on success they move, on failure they are given back. */
  lemma TransferMovesCharge(flow: Flow, message: Message, identity: seq<Byte>, size: nat)
    requires Inv(flow) && size <= flow.partialBytes
    ensures var released := AfterRelease(flow, size);
            var outcome, after := TrackOutcome(released, message, size), AfterTrack(released, message, identity, size);
            && after.partialBytes == flow.partialBytes - size
            && after.maxBytes == flow.maxBytes && after.maxFrames == flow.maxFrames
            && (outcome.Ok? ==> after.bytes == flow.bytes + size && after.frames == flow.frames + 1)
            && (outcome.Err? ==> after.bytes == flow.bytes && after.frames == flow.frames)
            && (outcome.Err? ==> Full(after, outcome.error))
  {
    hide TokensDistinct, SumBytes, SumRequests;
  }
}
