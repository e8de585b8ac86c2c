/**
 Histories of the inbound flow budget in terms of messages: frames arrive as messages, and an
 acknowledgement carries the method and parameters of the notification, or the reply, that was handled.
 No identity is assumed; the budget files each frame under the identity of its message.
 */
module MessageHistory {
  import opened Bytes
  import opened Outcomes
  import opened CanonicalJson
  import opened MessageIdentity
  import opened FlowModel
  import FlowHistory

  // ---- histories of messages -----------------------------------------------------------------

  datatype Notified = Notified(name: seq<Byte>, params: Json, token: nat, size: nat)

  datatype Replied = Replied(reply: Reply, token: nat, size: nat)

  /** The budget beside the notifications and responses that are really outstanding. */
  datatype World = World(flow: Flow, notifications: seq<Notified>, responses: seq<Replied>)

  /**
   `NotificationHandled(i, params)`: the i-th outstanding notification was handled, and is acknowledged with its
   method and with parameters whose members may have another order.
   */
  datatype Event =
    | Arrive(message: Message, size: nat)
    | NotificationHandled(index: nat, params: Json)
    | ResponseHandled(index: nat, reply: Reply)
    | Answer(id: RequestId)
    | Reserved(size: nat)
    | Released(size: nat)

  /** Equal up to member order. */
  ghost predicate SameReply(a: Reply, b: Reply)
  {
    a.Success? == b.Success? && Same(ReplyBody(a), ReplyBody(b))
  }

  predicate WellFormedMessage(message: Message)
  {
    match message
    case Request(_, _) => true
    case Notification(_, params) => WellFormed(params)
    case Response(_, reply) => WellFormed(ReplyBody(reply))
  }

  ghost predicate Possible(w: World, e: Event)
  {
    match e
    case Arrive(message, _) => WellFormedMessage(message)
    case NotificationHandled(i, params) => i < |w.notifications| && WellFormed(params) && Same(w.notifications[i].params, params)
    case ResponseHandled(i, reply) => i < |w.responses| && WellFormed(ReplyBody(reply)) && SameReply(w.responses[i].reply, reply)
    case _ => true
  }

  /** `Arrive` and the acknowledgements do to the budget what its methods do. */
  ghost function Next(w: World, e: Event, hash: Hash): (r: World)
    requires Inv(w.flow) && Possible(w, e)
  {
    match e
    case Arrive(message, size) =>
      var outcome := TrackOutcome(w.flow, message, size);
      var flow := AfterTrack(w.flow, message, PhysicalIdentity(hash, message), size);
      if outcome.Err? then World(flow, w.notifications, w.responses) else
      (match message
       case Request(_, _) => World(flow, w.notifications, w.responses)
       case Notification(name, params) =>
         World(flow, w.notifications + [Notified(name, params, outcome.value, size)], w.responses)
       case Response(_, reply) =>
         World(flow, w.notifications, w.responses + [Replied(reply, outcome.value, size)]))
    case NotificationHandled(i, params) =>
      World(AfterAckNotification(w.flow, NotificationIdentity(hash, w.notifications[i].name, params)),
            RemoveAt(w.notifications, i), w.responses)
    case ResponseHandled(i, reply) =>
      World(AfterAckResponse(w.flow, ResponseIdentity(hash, reply)), w.notifications, RemoveAt(w.responses, i))
    case Answer(id) => World(AfterComplete(w.flow, id), w.notifications, w.responses)
    case Reserved(size) => World(AfterReserve(w.flow, size), w.notifications, w.responses)
    case Released(size) => World(AfterRelease(w.flow, size), w.notifications, w.responses)
  }

  // ---- the same history in terms of identities -----------------------------------------------

  function NotifiedFrame(hash: Hash, n: Notified): (f: PhysicalFrame)
  {
    PhysicalFrame(n.token, NotificationIdentity(hash, n.name, n.params), n.size)
  }

  function RepliedFrame(hash: Hash, n: Replied): (f: PhysicalFrame)
  {
    PhysicalFrame(n.token, ResponseIdentity(hash, n.reply), n.size)
  }

  function NotifiedFrames(hash: Hash, s: seq<Notified>): (r: seq<PhysicalFrame>)
    ensures |r| == |s|
  {
    seq(|s|, i requires 0 <= i < |s| => NotifiedFrame(hash, s[i]))
  }

  function RepliedFrames(hash: Hash, s: seq<Replied>): (r: seq<PhysicalFrame>)
    ensures |r| == |s|
  {
    seq(|s|, i requires 0 <= i < |s| => RepliedFrame(hash, s[i]))
  }

  ghost function Identified(w: World, hash: Hash): (r: FlowHistory.World)
  {
    FlowHistory.World(w.flow, NotifiedFrames(hash, w.notifications), RepliedFrames(hash, w.responses))
  }

  ghost function IdentifiedEvent(e: Event, hash: Hash): (r: FlowHistory.Event)
  {
    match e
    case Arrive(message, size) => FlowHistory.Arrive(message, PhysicalIdentity(hash, message), size)
    case NotificationHandled(i, _) => FlowHistory.ConsumeNotification(i)
    case ResponseHandled(i, _) => FlowHistory.ConsumeResponse(i)
    case Answer(id) => FlowHistory.Answer(id)
    case Reserved(size) => FlowHistory.Reserved(size)
    case Released(size) => FlowHistory.Released(size)
  }

  /** The outstanding frames are those of messages whose parameters are well-formed. */
  ghost predicate WellFormedWorld(w: World)
  {
    && (forall i | 0 <= i < |w.notifications| :: WellFormed(w.notifications[i].params))
    && (forall i | 0 <= i < |w.responses| :: WellFormed(ReplyBody(w.responses[i].reply)))
  }

  lemma ReorderedParamsKeepIdentity(hash: Hash, name: seq<Byte>, a: Json, b: Json)
    requires WellFormed(a) && WellFormed(b) && Same(a, b)
    ensures NotificationIdentity(hash, name, a) == NotificationIdentity(hash, name, b)
  {
    PrintIsCanonical(a, b);
    hide Print, Same, WellFormed;
    NotificationIdentityIsSemantic(hash, name, a, name, b);
  }

  lemma ReorderedReplyKeepsIdentity(hash: Hash, a: Reply, b: Reply)
    requires WellFormed(ReplyBody(a)) && WellFormed(ReplyBody(b)) && SameReply(a, b)
    ensures ResponseIdentity(hash, a) == ResponseIdentity(hash, b)
  {
    PrintIsCanonical(ReplyBody(a), ReplyBody(b));
    hide Print, Same, WellFormed;
    ResponseIdentityIsSemantic(hash, a, b);
  }

  lemma FramesAppend(hash: Hash, w: World, n: Notified, r: Replied)
    ensures NotifiedFrames(hash, w.notifications + [n]) == NotifiedFrames(hash, w.notifications) + [NotifiedFrame(hash, n)]
    ensures RepliedFrames(hash, w.responses + [r]) == RepliedFrames(hash, w.responses) + [RepliedFrame(hash, r)]
  {
  }

  lemma NotifiedRemove(hash: Hash, s: seq<Notified>, i: nat)
    requires i < |s|
    ensures NotifiedFrames(hash, RemoveAt(s, i)) == RemoveAt(NotifiedFrames(hash, s), i)
  {
  }

  lemma RepliedRemove(hash: Hash, s: seq<Replied>, i: nat)
    requires i < |s|
    ensures RepliedFrames(hash, RemoveAt(s, i)) == RemoveAt(RepliedFrames(hash, s), i)
  {
  }

  lemma ArriveIsIdentified(w: World, message: Message, size: nat, hash: Hash)
    requires Inv(w.flow) && WellFormedMessage(message)
    ensures var e := Arrive(message, size);
            Identified(Next(w, e, hash), hash) == FlowHistory.Next(Identified(w, hash), IdentifiedEvent(e, hash))
  {
    var outcome := TrackOutcome(w.flow, message, size);
    if outcome.Ok? {
      var n := if message.Notification? then Notified(message.notificationMethod, message.params, outcome.value, size)
               else Notified([], Null, 0, 0);
      var r := if message.Response? then Replied(message.reply, outcome.value, size) else Replied(Success(Null), 0, 0);
      FramesAppend(hash, w, n, r);
    }
    hide Inv, NotifiedFrames, RepliedFrames, NotificationIdentity, ResponseIdentity, TrackOutcome, AfterTrack;
  }

  /** What happens to messages is what happens to their identities. */
  lemma NextIsIdentified(w: World, e: Event, hash: Hash)
    requires Inv(w.flow) && WellFormedWorld(w) && Possible(w, e)
    ensures WellFormedWorld(Next(w, e, hash))
    ensures FlowHistory.Possible(Identified(w, hash), IdentifiedEvent(e, hash))
    ensures Identified(Next(w, e, hash), hash) == FlowHistory.Next(Identified(w, hash), IdentifiedEvent(e, hash))
  {
    hide Inv, WellFormed, Same, NotificationIdentity, ResponseIdentity;
    match e
    case Arrive(message, size) => ArriveIsIdentified(w, message, size, hash);
    case NotificationHandled(i, params) =>
      ReorderedParamsKeepIdentity(hash, w.notifications[i].name, w.notifications[i].params, params);
      NotifiedRemove(hash, w.notifications, i);
    case ResponseHandled(i, reply) =>
      ReorderedReplyKeepsIdentity(hash, w.responses[i].reply, reply);
      RepliedRemove(hash, w.responses, i);
    case Answer(id) =>
    case Reserved(size) =>
    case Released(size) =>
  }

  // ---- runs ------------------------------------------------------------------------------------

  /** A history from an empty budget: each event is possible when it happens. */
  ghost predicate IsHistory(worlds: seq<World>, events: seq<Event>, hash: Hash)
  {
    && |worlds| == |events| + 1
    && Inv(worlds[0].flow) && Empty(worlds[0].flow) && worlds[0].notifications == [] && worlds[0].responses == []
    && forall i | 0 <= i < |events| ::
         Inv(worlds[i].flow) ==> Possible(worlds[i], events[i]) && worlds[i + 1] == Next(worlds[i], events[i], hash)
  }

  lemma {:induction false} HistoryNeverUndercounts(worlds: seq<World>, events: seq<Event>, hash: Hash, n: nat)
    requires IsHistory(worlds, events, hash) && n < |worlds|
    ensures WellFormedWorld(worlds[n]) && FlowHistory.NeverUndercounts(Identified(worlds[n], hash))
  {
    if n > 0 {
      HistoryNeverUndercounts(worlds, events, hash, n - 1);
      var w, e := worlds[n - 1], events[n - 1];
      assert Inv(w.flow);
      hide Inv, WellFormedWorld;
      NextIsIdentified(w, e, hash);
      FlowHistory.NextNeverUndercounts(Identified(w, hash), IdentifiedEvent(e, hash));
    }
  }

  function NotifiedBytes(s: seq<Notified>): (n: nat)
  {
    if |s| == 0 then 0 else s[0].size + NotifiedBytes(s[1..])
  }

  function RepliedBytes(s: seq<Replied>): (n: nat)
  {
    if |s| == 0 then 0 else s[0].size + RepliedBytes(s[1..])
  }

  lemma {:induction false} FramesHaveTheBytes(hash: Hash, ns: seq<Notified>, rs: seq<Replied>)
    ensures SumBytes(NotifiedFrames(hash, ns)) == NotifiedBytes(ns) && SumBytes(RepliedFrames(hash, rs)) == RepliedBytes(rs)
    decreases |ns| + |rs|
  {
    if |ns| > 0 {
      FramesHaveTheBytes(hash, ns[1..], rs);
      assert NotifiedFrames(hash, ns)[1..] == NotifiedFrames(hash, ns[1..]);
    } else if |rs| > 0 {
      FramesHaveTheBytes(hash, ns, rs[1..]);
      assert RepliedFrames(hash, rs)[1..] == RepliedFrames(hash, rs[1..]);
    }
  }

  /**
   In every history of messages, at every moment: the bytes charged are at least those of the notifications and
   responses really outstanding and of the open requests, and the acknowledgement of a message that was handled is
   accepted, in whatever order its members come.
   */
  lemma MessagesNeverUndercount(worlds: seq<World>, events: seq<Event>, hash: Hash, n: nat)
    requires IsHistory(worlds, events, hash) && n < |worlds|
    ensures var w := worlds[n];
      && Inv(w.flow)
      && w.flow.bytes >= SumRequests(w.flow.requests) + NotifiedBytes(w.notifications) + RepliedBytes(w.responses)
      && (n < |events| && events[n].NotificationHandled? ==>
            AckOutcome(w.flow.notifications, NotificationIdentity(hash, w.notifications[events[n].index].name, events[n].params)).Ok?)
      && (n < |events| && events[n].ResponseHandled? ==> AckOutcome(w.flow.responses, ResponseIdentity(hash, events[n].reply)).Ok?)
  {
    HistoryNeverUndercounts(worlds, events, hash, n);
    var w := worlds[n];
    var known := Identified(w, hash);
    FramesHaveTheBytes(hash, w.notifications, w.responses);
    FlowHistory.DominationBoundsBytes(w.flow.notifications, known.notifications);
    FlowHistory.DominationBoundsBytes(w.flow.responses, known.responses);
    assert w.flow.bytes == SumRequests(w.flow.requests) + SumBytes(w.flow.notifications) + SumBytes(w.flow.responses);
    if n < |events| {
      HandledIsAccepted(w, events[n], hash);
    }
  }

  lemma HandledIsAccepted(w: World, e: Event, hash: Hash)
    requires WellFormedWorld(w) && FlowHistory.NeverUndercounts(Identified(w, hash)) && Possible(w, e)
    ensures e.NotificationHandled? ==>
              AckOutcome(w.flow.notifications, NotificationIdentity(hash, w.notifications[e.index].name, e.params)).Ok?
    ensures e.ResponseHandled? ==> AckOutcome(w.flow.responses, ResponseIdentity(hash, e.reply)).Ok?
  {
    hide Inv, WellFormed, Same, NotificationIdentity, ResponseIdentity;
    if e.NotificationHandled? {
      ReorderedParamsKeepIdentity(hash, w.notifications[e.index].name, w.notifications[e.index].params, e.params);
      FlowHistory.GenuineAckIsAccepted(w.flow.notifications, NotifiedFrames(hash, w.notifications), e.index);
    } else if e.ResponseHandled? {
      ReorderedReplyKeepsIdentity(hash, w.responses[e.index].reply, e.reply);
      FlowHistory.GenuineAckIsAccepted(w.flow.responses, RepliedFrames(hash, w.responses), e.index);
    }
  }

  // ---- exactly which acknowledgements are accepted -----------------------------------------------

  /** The hash does not confuse this notification with one that is outstanding. */
  ghost predicate Distinguishes(hash: Hash, w: World, name: seq<Byte>, params: Json)
  {
    var text := NotificationPreimage(name, params);
    forall i | 0 <= i < |w.notifications| ::
      var other := NotificationPreimage(w.notifications[i].name, w.notifications[i].params);
      hash(other) == hash(text) ==> other == text
  }

  ghost predicate DistinguishesReply(hash: Hash, w: World, reply: Reply)
  {
    var text := ResponsePreimage(reply);
    forall i | 0 <= i < |w.responses| ::
      var other := ResponsePreimage(w.responses[i].reply);
      hash(other) == hash(text) ==> other == text
  }

  lemma AcceptedExactlyWhenCounted(ledger: seq<PhysicalFrame>, truth: seq<PhysicalFrame>, identity: seq<Byte>)
    requires FlowHistory.Dominates(ledger, truth)
    ensures AckOutcome(ledger, identity).Ok? <==> exists i | 0 <= i < |truth| :: truth[i].identity == identity
  {
    assert FlowHistory.Count(ledger, identity) == FlowHistory.Count(truth, identity);
    var position := SmallestMatch(ledger, identity);
    if position.Some? {
      FlowHistory.CountPositiveWhenPresent(ledger, position.value);
    } else {
      FlowHistory.CountZeroWhenAbsent(ledger, identity);
    }
    if i :| 0 <= i < |truth| && truth[i].identity == identity {
      FlowHistory.CountPositiveWhenPresent(truth, i);
    } else {
      FlowHistory.CountZeroWhenAbsent(truth, identity);
    }
  }

  /**
   At every moment of every history a notification's acknowledgement is accepted if and only if a notification with
   that method and those parameters, up to member order, is outstanding.
   */
  lemma AcceptedExactlyWhenOutstanding(worlds: seq<World>, events: seq<Event>, hash: Hash, n: nat, name: seq<Byte>, params: Json)
    requires IsHistory(worlds, events, hash) && n < |worlds|
    requires WellFormed(params) && Distinguishes(hash, worlds[n], name, params)
    ensures AckOutcome(worlds[n].flow.notifications, NotificationIdentity(hash, name, params)).Ok?
       <==> exists i | 0 <= i < |worlds[n].notifications| ::
              worlds[n].notifications[i].name == name && Same(worlds[n].notifications[i].params, params)
  {
    HistoryNeverUndercounts(worlds, events, hash, n);
    var w := worlds[n];
    var frames := NotifiedFrames(hash, w.notifications);
    hide Inv, WellFormed, Same, NotificationIdentity, NotificationPreimage, AckOutcome;
    AcceptedExactlyWhenCounted(w.flow.notifications, frames, NotificationIdentity(hash, name, params));
    forall i | 0 <= i < |w.notifications|
      ensures frames[i].identity == NotificationIdentity(hash, name, params) <==>
                w.notifications[i].name == name && Same(w.notifications[i].params, params)
    {
      NotificationIdentityIsSemantic(hash, w.notifications[i].name, w.notifications[i].params, name, params);
    }
  }

  /** A response's acknowledgement is accepted if and only if an equal reply, up to member order, is outstanding. */
  lemma ReplyAcceptedExactlyWhenOutstanding(worlds: seq<World>, events: seq<Event>, hash: Hash, n: nat, reply: Reply)
    requires IsHistory(worlds, events, hash) && n < |worlds|
    requires WellFormed(ReplyBody(reply)) && DistinguishesReply(hash, worlds[n], reply)
    ensures AckOutcome(worlds[n].flow.responses, ResponseIdentity(hash, reply)).Ok?
       <==> exists i | 0 <= i < |worlds[n].responses| :: SameReply(worlds[n].responses[i].reply, reply)
  {
    HistoryNeverUndercounts(worlds, events, hash, n);
    var w := worlds[n];
    var frames := RepliedFrames(hash, w.responses);
    hide Inv, WellFormed, Same, ResponseIdentity, ResponsePreimage, AckOutcome;
    AcceptedExactlyWhenCounted(w.flow.responses, frames, ResponseIdentity(hash, reply));
    forall i | 0 <= i < |w.responses|
      ensures frames[i].identity == ResponseIdentity(hash, reply) <==> SameReply(w.responses[i].reply, reply)
    {
      ResponseIdentityIsSemantic(hash, w.responses[i].reply, reply);
    }
  }
}
