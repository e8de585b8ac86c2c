/** The inbound flow budget as the source runs it: counters, a map and two queues, updated in place. */
module FlowControl {
  import opened Bytes
  import opened Outcomes
  import opened MessageIdentity
  import opened FlowModel
  import CanonicalJson

  class FlowBudget {
    var frames: nat
    var bytes: nat
    var partialBytes: nat
    var requests: map<RequestId, PhysicalFrame>
    var notifications: seq<PhysicalFrame>
    var responses: seq<PhysicalFrame>
    var nextToken: nat
    var maxFrames: nat
    var maxBytes: nat
    const hash: Hash

    ghost function View(): (flow: Flow)
      reads this
    {
      Flow(frames, bytes, partialBytes, requests, notifications, responses, nextToken, maxFrames, maxBytes)
    }

    ghost predicate Valid()
      reads this
    {
      Inv(View())
    }

    constructor (hash: Hash)
      ensures Valid() && this.hash == hash
      ensures Empty(View()) && nextToken == 1
      ensures maxFrames == MAX_OUTSTANDING_INBOUND_FRAMES && maxBytes == MAX_OUTSTANDING_INBOUND_BYTES
    {
      this.hash := hash;
      frames, bytes, partialBytes := 0, 0, 0;
      requests, notifications, responses := map[], [], [];
      nextToken := 1;
      maxFrames, maxBytes := MAX_OUTSTANDING_INBOUND_FRAMES, MAX_OUTSTANDING_INBOUND_BYTES;
      new;
      EmptyFlowKeepsInv(View());
    }

    /** The container for `message` takes the frame, unless it is a request too many. */
    method Enter(message: Message, frame: PhysicalFrame) returns (r: Result<(), FlowError>)
      modifies this`requests, this`notifications, this`responses
      ensures r == if message.Request? && |old(requests)| >= MAX_OUTSTANDING_INBOUND_REQUESTS then Err(TooManyRequests)
                   else if message.Request? && message.id in old(requests) then Err(DuplicateRequest)
                   else Ok(())
      ensures requests == if r.Ok? && message.Request? then old(requests)[message.id := frame] else old(requests)
      ensures notifications == if message.Notification? then old(notifications) + [frame] else old(notifications)
      ensures responses == if message.Response? then old(responses) + [frame] else old(responses)
    {
      match message {
        case Request(id, _) =>
          if |requests| >= MAX_OUTSTANDING_INBOUND_REQUESTS {
            return Err(TooManyRequests);
          }
          if id in requests {
            return Err(DuplicateRequest);
          }
          requests := requests[id := frame];
        case Notification(_, _) =>
          notifications := notifications + [frame];
        case Response(_, _) =>
          responses := responses + [frame];
      }
      return Ok(());
    }

    /** The part of `Track` after the budget check: takes a token, then enters and charges the frame. */
    method Admit(message: Message, frame: PhysicalFrame) returns (r: Result<nat, FlowError>)
      requires frame.token == nextToken
      requires TrackOutcome(View(), message, frame.bytes) !in {Err(BudgetExceeded), Err(TokensExhausted)}
      modifies this
      ensures r == TrackOutcome(old(View()), message, frame.bytes)
      ensures View() == AfterTrack(old(View()), message, frame.identity, frame.bytes)
    {
      nextToken := nextToken + 1;
      var entered := Enter(message, frame);
      if entered.Err? {
        return Err(entered.error);
      }
      frames := frames + 1;
      bytes := bytes + frame.bytes;
      return Ok(frame.token);
    }

    /** The message's own acknowledgement, by its method and parameters or by its reply, finds a match. */
    ghost predicate Acknowledgeable(message: Message)
      reads this
    {
      && (message.Notification? ==> AckOutcome(notifications, NotificationIdentity(hash, message.notificationMethod, message.params)).Ok?)
      && (message.Response? ==> AckOutcome(responses, ResponseIdentity(hash, message.reply)).Ok?)
    }

    lemma FoundIfTracked(message: Message, size: nat)
      ensures TrackOutcome(View(), message, size).Ok? ==>
                var after := AfterTrack(View(), message, PhysicalIdentity(hash, message), size);
                && (message.Notification? ==>
                      AckOutcome(after.notifications, NotificationIdentity(hash, message.notificationMethod, message.params)).Ok?)
                && (message.Response? ==> AckOutcome(after.responses, ResponseIdentity(hash, message.reply)).Ok?)
    {
      match message
      case Request(_, _) =>
      case Notification(name, params) => TrackedNotificationIsFound(View(), hash, name, params, size);
      case Response(id, reply) => TrackedResponseIsFound(View(), hash, id, reply, size);
    }

    method Track(message: Message, size: nat) returns (r: Result<nat, FlowError>)
      requires Valid()
      modifies this
      ensures Valid()
      ensures r == TrackOutcome(old(View()), message, size)
      ensures View() == AfterTrack(old(View()), message, PhysicalIdentity(hash, message), size)
      ensures r.Ok? ==> Acknowledgeable(message)
    {
      FoundIfTracked(message, size);
      hide Inv, PhysicalIdentity, SumBytes, SumRequests, AckOutcome, ResponseIdentity, NotificationIdentity;
      TrackKeepsInv(View(), message, PhysicalIdentity(hash, message), size);
      var nextFrames := SatAdd(frames, 1);
      var nextBytes := SatAdd(bytes, size);
      if nextFrames > maxFrames || SatAdd(nextBytes, partialBytes) > maxBytes {
        return Err(BudgetExceeded);
      }
      if nextToken == USIZE_MAX {
        return Err(TokensExhausted);
      }
      r := Admit(message, PhysicalFrame(nextToken, PhysicalIdentity(hash, message), size));
    }

    method Release(size: nat)
      modifies this`frames, this`bytes
      ensures frames == SatSub(old(frames), 1) && bytes == SatSub(old(bytes), size)
    {
      frames := SatSub(frames, 1);
      bytes := SatSub(bytes, size);
    }

    method AcknowledgeNotification(name: seq<Byte>, params: CanonicalJson.Json) returns (r: Result<PhysicalFrame, FlowError>)
      requires Valid()
      modifies this
      ensures Valid()
      ensures r == AckOutcome(old(notifications), NotificationIdentity(hash, name, params))
      ensures View() == AfterAckNotification(old(View()), NotificationIdentity(hash, name, params))
    {
      hide Inv, NotificationIdentity, SmallestMatch, RemoveAt, SumBytes, SumRequests;
      var identity := NotificationIdentity(hash, name, params);
      AckNotificationKeepsInv(View(), identity);
      var position := SmallestMatch(notifications, identity);
      if position.None? {
        return Err(NoMatch);
      }
      var frame := notifications[position.value];
      notifications := RemoveAt(notifications, position.value);
      Release(frame.bytes);
      return Ok(frame);
    }

    method AcknowledgeResponse(reply: Reply) returns (r: Result<PhysicalFrame, FlowError>)
      requires Valid()
      modifies this
      ensures Valid()
      ensures r == AckOutcome(old(responses), ResponseIdentity(hash, reply))
      ensures View() == AfterAckResponse(old(View()), ResponseIdentity(hash, reply))
    {
      hide Inv, ResponseIdentity, SmallestMatch, RemoveAt, SumBytes, SumRequests;
      var identity := ResponseIdentity(hash, reply);
      AckResponseKeepsInv(View(), identity);
      var position := SmallestMatch(responses, identity);
      if position.None? {
        return Err(NoMatch);
      }
      var frame := responses[position.value];
      responses := RemoveAt(responses, position.value);
      Release(frame.bytes);
      return Ok(frame);
    }

    method CompleteRequest(id: RequestId) returns (r: Result<PhysicalFrame, FlowError>)
      requires Valid()
      modifies this
      ensures Valid()
      ensures r == CompleteOutcome(old(View()), id)
      ensures View() == AfterComplete(old(View()), id)
    {
      hide Inv, SumBytes, SumRequests;
      CompleteKeepsInv(View(), id);
      if id !in requests {
        return Err(NoMatch);
      }
      var frame := requests[id];
      requests := requests - {id};
      Release(frame.bytes);
      return Ok(frame);
    }

    /** An error response with a null id that answers no request is a protocol error, not a completion. */
    method CompleteOutboundResponse(message: Message) returns (r: Result<(), FlowError>)
      requires Valid()
      modifies this
      ensures Valid()
      ensures View() == if message.Response? then AfterComplete(old(View()), message.replyTo) else old(View())
      ensures r.Err? <==> message.Response? && message.replyTo !in old(requests)
                          && !(message.reply.Failure? && message.replyTo.NullId?)
    {
      hide Inv;
      if !message.Response? {
        return Ok(());
      }
      var id := message.replyTo;
      if message.reply.Failure? && id.NullId? && id !in requests {
        return Ok(());
      }
      var frame := CompleteRequest(id);
      return if frame.Ok? then Ok(()) else Err(frame.error);
    }

    method ReservePartial(size: nat) returns (r: Result<(), FlowError>)
      requires Valid()
      modifies this`partialBytes
      ensures Valid()
      ensures r == if old(bytes + partialBytes) + size <= maxBytes then Ok(()) else Err(PartialExceeded)
      ensures View() == AfterReserve(old(View()), size)
    {
      PartialKeepsInv(View(), size);
      hide Inv;
      var next := SatAdd(partialBytes, size);
      if SatAdd(bytes, next) > maxBytes {
        return Err(PartialExceeded);
      }
      partialBytes := next;
      return Ok(());
    }

    method ReleasePartial(size: nat)
      requires Valid()
      modifies this`partialBytes
      ensures Valid()
      ensures View() == AfterRelease(old(View()), size)
    {
      PartialKeepsInv(View(), size);
      hide Inv;
      partialBytes := SatSub(partialBytes, size);
    }

    /** One lock section: the partial bytes of a frame become its charge. */
    method TrackFromPartial(message: Message, size: nat) returns (r: Result<nat, FlowError>)
      requires Valid()
      modifies this
      ensures Valid()
      ensures var released := AfterRelease(old(View()), size);
              r == TrackOutcome(released, message, size) && View() == AfterTrack(released, message, PhysicalIdentity(hash, message), size)
      ensures r.Ok? ==> Acknowledgeable(message)
    {
      hide Inv, Acknowledgeable;
      ReleasePartial(size);
      r := Track(message, size);
    }
  }
}
