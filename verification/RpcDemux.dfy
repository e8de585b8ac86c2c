/** The RPC client: requests waiting for replies, matched by id, over one connection that may be lost. */
module RpcDemux {
  import opened Outcomes

  datatype HubError = DaemonUnavailable(message: string) | CommittedReplyLost(name: string) | OtherError(code: int)

  /** A JSON-RPC id; `OtherId` is any JSON value that is not a string, a number or null. */
  datatype Id = NullId | StringId(text: string) | NumberId(number: int) | OtherId

  type Reply = Result<int, HubError>

  const WRITER_FAILED_MESSAGE: string := "daemon RPC writer failed"
  const CLOSED_MESSAGE: string := "connection is closed"
  const READER_STOPPED_MESSAGE: string := "connection reader stopped"
  const TIMEOUT_PREFIX: string := "daemon did not answer `"

  // ---- what a lost reply means ---------------------------------------------------------------------

  predicate IsMutateRpc(name: string)
  {
    name in {
      "hub/agent/register",
      "hub/agent/remove",
      "hub/proxy/register",
      "hub/proxy/remove",
      "hub/conv/create",
      "hub/daemon/handshake"
    }
  }

  /** The calls that change what the hub stores. */
  lemma MutatingCalls(name: string)
    ensures IsMutateRpc(name) <==>
              || name == "hub/agent/register" || name == "hub/agent/remove"
              || name == "hub/proxy/register" || name == "hub/proxy/remove"
              || name == "hub/conv/create" || name == "hub/daemon/handshake"
  {
  }

  predicate IsConnectionLossMessage(message: string)
  {
    || message in {
         "daemon closed the connection",
         READER_STOPPED_MESSAGE,
         "daemon RPC frame ended before newline",
         "daemon RPC framing error",
         "daemon returned an invalid RPC response",
         CLOSED_MESSAGE,
         WRITER_FAILED_MESSAGE
       }
    || TIMEOUT_PREFIX <= message
  }

  /** The messages with which the pending requests of a connection are failed. */
  predicate IsCloseMessage(message: string)
  {
    message in {
      "daemon closed the connection",
      "daemon RPC frame ended before newline",
      "daemon RPC framing error",
      "daemon returned an invalid RPC response",
      CLOSED_MESSAGE,
      WRITER_FAILED_MESSAGE
    }
  }

  function ReplyLostAfterWrite(name: string, unavailable: string): (e: HubError)
  {
    if IsMutateRpc(name) then CommittedReplyLost(name) else DaemonUnavailable(unavailable)
  }

  function Reclassify(name: string, error: HubError): (e: HubError)
  {
    if error.DaemonUnavailable? && IsMutateRpc(name) && IsConnectionLossMessage(error.message) then CommittedReplyLost(name) else error
  }

  predicate IsConnectionLoss(error: HubError)
  {
    error.DaemonUnavailable? && IsConnectionLossMessage(error.message)
  }

  // ---- requests --------------------------------------------------------------------------------------

  /** The one-shot channel of a request. */
  datatype Mail = Empty | Sent(reply: Reply) | SenderDropped

  datatype Phase = Fresh | Writing | Waiting | Done(result: Reply) | Dropped

  datatype Request = Request(name: string, id: nat, phase: Phase, mail: Mail)

  /**
   `drained` records that the pending map was drained after the connection was marked closed, and
   `answered` the replies that were decoded for a request.
   */
  datatype Client = Client(
    pending: map<Id, nat>,
    closed: bool,
    drained: bool,
    nextId: nat,
    requests: seq<Request>,
    answered: map<nat, Reply>)

  datatype Event =
    | Register(request: nat)
    | WriteDone(request: nat)
    | WriteFailed(request: nat, message: string)
    | Incoming(id: Id, reply: Reply)
    | MarkClosed
    | Drain(message: string)
    | Receive(request: nat)
    | Timeout(request: nat, message: string)
    | LoseSender(id: Id)
    | Cancel(request: nat)

  predicate Live(p: Phase)
  {
    p.Writing? || p.Waiting?
  }

  predicate Enabled(c: Client, e: Event)
  {
    match e
    case Register(i) => i < |c.requests| && c.requests[i].phase.Fresh?
    case WriteDone(i) => i < |c.requests| && c.requests[i].phase.Writing?
    case WriteFailed(i, _) => i < |c.requests| && c.requests[i].phase.Writing?
    case Receive(i) => i < |c.requests| && c.requests[i].phase.Waiting? && !c.requests[i].mail.Empty?
    case Timeout(i, message) => i < |c.requests| && c.requests[i].phase.Waiting? && TIMEOUT_PREFIX <= message
    case Cancel(i) => i < |c.requests| && Live(c.requests[i].phase)
    case Drain(message) => c.closed && IsCloseMessage(message)
    case Incoming(id, _) => true
    case LoseSender(id) => true
    case MarkClosed => true
  }

  /** The request ends: its registration is dropped with it. */
  function Ended(c: Client, i: nat, phase: Phase): (r: Client)
    requires i < |c.requests|
  {
    c.(pending := c.pending - {NumberId(c.requests[i].id)}, requests := c.requests[i := c.requests[i].(phase := phase)])
  }

  /** Takes the entry for `id` out and puts `mail` into its channel. */
  function Deliver(c: Client, id: Id, mail: Mail): (r: Client)
  {
    if id !in c.pending || c.pending[id] >= |c.requests| then c else
      var i := c.pending[id];
      c.(pending := c.pending - {id}, requests := c.requests[i := c.requests[i].(mail := mail)])
  }

  function DeliverAll(c: Client, mail: Mail): (r: Client)
  {
    c.(pending := map[],
       requests := seq(|c.requests|, i requires 0 <= i < |c.requests| =>
         if NumberId(c.requests[i].id) in c.pending && c.pending[NumberId(c.requests[i].id)] == i then c.requests[i].(mail := mail)
         else c.requests[i]))
  }

  /** What the awaited channel turns into. */
  function Received(name: string, mail: Mail): (r: Reply)
    requires !mail.Empty?
  {
    if mail.SenderDropped? then Err(Reclassify(name, ReplyLostAfterWrite(name, READER_STOPPED_MESSAGE)))
    else if mail.reply.Ok? then mail.reply
    else Err(Reclassify(name, mail.reply.error))
  }

  function Next(c: Client, e: Event): (r: Client)
    requires Enabled(c, e)
  {
    match e
    case Register(i) =>
      var registered := c.requests[i].(id := c.nextId, phase := if c.closed then Done(Err(DaemonUnavailable(CLOSED_MESSAGE))) else Writing);
      c.(nextId := c.nextId + 1, requests := c.requests[i := registered],
         pending := if c.closed then c.pending else c.pending[NumberId(c.nextId) := i])
    case WriteDone(i) => c.(requests := c.requests[i := c.requests[i].(phase := Waiting)])
    case WriteFailed(i, message) => Ended(c, i, Done(Err(DaemonUnavailable(message))))
    case Incoming(id, reply) =>
      Deliver(c, id, Sent(reply)).(answered := if id in c.pending then c.answered[c.pending[id] := reply] else c.answered)
    case MarkClosed => c.(closed := true)
    case Drain(message) => DeliverAll(c, Sent(Err(DaemonUnavailable(message)))).(drained := true)
    case Receive(i) => Ended(c, i, Done(Received(c.requests[i].name, c.requests[i].mail)))
    case Timeout(i, message) => Ended(c, i, Done(Err(ReplyLostAfterWrite(c.requests[i].name, message))))
    case LoseSender(id) => Deliver(c, id, SenderDropped)
    case Cancel(i) => Ended(c, i, Dropped)
  }

  // ---- the invariant -----------------------------------------------------------------------------------

  /** A request is registered exactly while it is live and its channel is still empty; ids are given out once. */
  ghost predicate RequestOk(r: Request, i: nat, pending: map<Id, nat>, nextId: nat)
  {
    && (r.phase.Fresh? ==> r.mail.Empty?)
    && (!r.phase.Fresh? ==> r.id < nextId)
    && (Live(r.phase) && r.mail.Empty? ==> NumberId(r.id) in pending && pending[NumberId(r.id)] == i)
  }

  ghost predicate RequestsOk(c: Client)
  {
    forall i | 0 <= i < |c.requests| :: RequestOk(c.requests[i], i, c.pending, c.nextId)
  }

  ghost predicate EntriesOk(c: Client)
  {
    forall id | id in c.pending ::
      && c.pending[id] < |c.requests|
      && id == NumberId(c.requests[c.pending[id]].id)
      && Live(c.requests[c.pending[id]].phase)
      && c.requests[c.pending[id]].mail.Empty?
  }

  ghost predicate IdsDistinct(requests: seq<Request>)
  {
    forall i, j | 0 <= i < j < |requests| :: requests[i].phase.Fresh? || requests[j].phase.Fresh? || requests[i].id != requests[j].id
  }

  ghost predicate Good(c: Client)
  {
    RequestsOk(c) && EntriesOk(c) && IdsDistinct(c.requests) && (c.drained ==> c.closed && c.pending == map[])
  }

  /** Whatever is in a channel was decoded for its request, or says that the connection was lost. */
  predicate Explained(mail: Mail, i: nat, answered: map<nat, Reply>)
  {
    mail.Sent? ==>
      || (i in answered && answered[i] == mail.reply)
      || (mail.reply.Err? && mail.reply.error.DaemonUnavailable? && IsCloseMessage(mail.reply.error.message))
  }

  ghost predicate MailExplained(c: Client)
  {
    forall i | 0 <= i < |c.requests| :: Explained(c.requests[i].mail, i, c.answered)
  }

  lemma NextKeepsMailExplained(c: Client, e: Event)
    requires EntriesOk(c) && MailExplained(c) && Enabled(c, e)
    ensures MailExplained(Next(c, e))
  {
    hide IsCloseMessage;
    var next := Next(c, e);
    forall i | 0 <= i < |next.requests| ensures Explained(next.requests[i].mail, i, next.answered) {
      assert Explained(c.requests[i].mail, i, c.answered);
    }
  }

  lemma DeliverKeepsGood(c: Client, id: Id, mail: Mail)
    requires Good(c) && !mail.Empty?
    ensures Good(Deliver(c, id, mail))
  {
    if id in c.pending {
      var next := Deliver(c, id, mail);
      assert EntriesOk(next);
      assert RequestsOk(next);
    }
  }

  lemma AnsweredDoesNotMatter(c: Client, answered: map<nat, Reply>)
    requires Good(c)
    ensures Good(c.(answered := answered))
  {
    var next := c.(answered := answered);
    assert RequestsOk(next) && EntriesOk(next);
  }

  lemma EndedKeepsGood(c: Client, i: nat, phase: Phase)
    requires Good(c) && i < |c.requests| && Live(c.requests[i].phase) && !Live(phase) && !phase.Fresh?
    ensures Good(Ended(c, i, phase))
  {
    var next := Ended(c, i, phase);
    assert RequestOk(c.requests[i], i, c.pending, c.nextId);
    assert EntriesOk(next) by {
      forall id | id in next.pending ensures c.pending[id] != i {
        assert id in c.pending;
      }
    }
    assert RequestsOk(next);
  }

  lemma DrainKeepsGood(c: Client, mail: Mail)
    requires Good(c) && c.closed && !mail.Empty?
    ensures Good(DeliverAll(c, mail).(drained := true))
  {
    var next := DeliverAll(c, mail);
    assert RequestsOk(next);
  }

  lemma RegisterKeepsGood(c: Client, i: nat)
    requires Good(c) && Enabled(c, Register(i))
    ensures Good(Next(c, Register(i)))
  {
    var next := Next(c, Register(i));
    assert RequestOk(c.requests[i], i, c.pending, c.nextId);
    assert forall id | id in c.pending :: c.pending[id] != i;
    assert NumberId(c.nextId) !in c.pending;
    assert RequestsOk(next);
    assert EntriesOk(next);
  }

  lemma WriteDoneKeepsGood(c: Client, i: nat)
    requires Good(c) && Enabled(c, WriteDone(i))
    ensures Good(Next(c, WriteDone(i)))
  {
    var next := Next(c, WriteDone(i));
    assert RequestsOk(next);
    assert EntriesOk(next);
  }

  lemma NextKeepsGood(c: Client, e: Event)
    requires Good(c) && Enabled(c, e)
    ensures Good(Next(c, e))
  {
    match e
    case Register(i) => RegisterKeepsGood(c, i);
    case WriteDone(i) => WriteDoneKeepsGood(c, i);
    case WriteFailed(i, message) => EndedKeepsGood(c, i, Done(Err(DaemonUnavailable(message))));
    case Incoming(id, reply) =>
      DeliverKeepsGood(c, id, Sent(reply));
      AnsweredDoesNotMatter(Deliver(c, id, Sent(reply)), Next(c, e).answered);
    case Drain(message) => DrainKeepsGood(c, Sent(Err(DaemonUnavailable(message))));
    case Receive(i) => EndedKeepsGood(c, i, Done(Received(c.requests[i].name, c.requests[i].mail)));
    case Timeout(i, message) => EndedKeepsGood(c, i, Done(Err(ReplyLostAfterWrite(c.requests[i].name, message))));
    case LoseSender(id) => DeliverKeepsGood(c, id, SenderDropped);
    case Cancel(i) => EndedKeepsGood(c, i, Dropped);
    case MarkClosed => assert RequestsOk(Next(c, e)) && EntriesOk(Next(c, e));
  }

  // ---- what a step does to the requests -------------------------------------------------------------------

  /** A reply completes one request, the live one that was given its id, while it still waits for a reply; and no other. */
  lemma ReplyCompletesItsRequestOnly(c: Client, id: Id, reply: Reply)
    requires Good(c)
    ensures var next := Next(c, Incoming(id, reply));
      && |next.requests| == |c.requests|
      && (forall j | 0 <= j < |c.requests| ::
            if id == NumberId(c.requests[j].id) && Live(c.requests[j].phase) && c.requests[j].mail.Empty?
            then next.requests[j] == c.requests[j].(mail := Sent(reply)) && j in next.answered && next.answered[j] == reply
            else next.requests[j] == c.requests[j])
      && (forall j, k | 0 <= j < |c.requests| && 0 <= k < |c.requests|
            && next.requests[j] != c.requests[j] && next.requests[k] != c.requests[k] :: j == k)
      && id !in next.pending
  {
    forall j | 0 <= j < |c.requests| ensures RequestOk(c.requests[j], j, c.pending, c.nextId) {
    }
  }

  // ---- runs ------------------------------------------------------------------------------------------------

  ghost predicate IsRun(clients: seq<Client>, events: seq<Event>)
  {
    && |clients| == |events| + 1
    && clients[0].pending == map[] && !clients[0].closed && !clients[0].drained
    && (forall i | 0 <= i < |clients[0].requests| :: clients[0].requests[i].phase.Fresh? && clients[0].requests[i].mail.Empty?)
    && forall i | 0 <= i < |events| :: Enabled(clients[i], events[i]) && clients[i + 1] == Next(clients[i], events[i])
  }

  lemma {:induction false} RunsStayGood(clients: seq<Client>, events: seq<Event>, n: nat)
    requires IsRun(clients, events) && n < |clients|
    ensures Good(clients[n]) && MailExplained(clients[n])
  {
    if n == 0 {
      assert forall i | 0 <= i < |clients[0].requests| :: clients[0].requests[i].mail.Empty?;
    } else {
      RunsStayGood(clients, events, n - 1);
      NextKeepsGood(clients[n - 1], events[n - 1]);
      NextKeepsMailExplained(clients[n - 1], events[n - 1]);
    }
  }

  /** A request that ended, or whose caller went away, has no entry left. */
  lemma EndedLeavesNoEntry(clients: seq<Client>, events: seq<Event>, n: nat, i: nat)
    requires IsRun(clients, events) && n < |clients| && i < |clients[n].requests|
    requires clients[n].requests[i].phase.Done? || clients[n].requests[i].phase.Dropped?
    ensures NumberId(clients[n].requests[i].id) !in clients[n].pending
  {
    RunsStayGood(clients, events, n);
  }

  lemma {:induction false} DrainedStaysDrained(clients: seq<Client>, events: seq<Event>, m: nat, n: nat)
    requires IsRun(clients, events) && m <= n < |clients| && clients[m].drained
    ensures clients[n].drained
    decreases n - m
  {
    if m < n {
      assert clients[m + 1] == Next(clients[m], events[m]);
      DrainedStaysDrained(clients, events, m + 1, n);
    }
  }

  /** Once the pending map has been drained nothing is ever pending again, so no later request can wait for ever. */
  lemma NothingPendsAfterDrain(clients: seq<Client>, events: seq<Event>, m: nat, n: nat)
    requires IsRun(clients, events) && m <= n < |clients| && clients[m].drained
    ensures clients[n].pending == map[]
    ensures forall i | 0 <= i < |clients[n].requests| && clients[n].requests[i].phase.Waiting? :: !clients[n].requests[i].mail.Empty?
  {
    DrainedStaysDrained(clients, events, m, n);
    RunsStayGood(clients, events, n);
    var c := clients[n];
    forall i | 0 <= i < |c.requests| && c.requests[i].phase.Waiting? ensures !c.requests[i].mail.Empty? {
      assert RequestOk(c.requests[i], i, c.pending, c.nextId);
    }
  }

  // ---- what a caller is told ---------------------------------------------------------------------------------

  /** Everything the connection itself says to a waiting request is one of the loss messages. */
  lemma CloseMessagesAreLosses(message: string)
    requires IsCloseMessage(message)
    ensures IsConnectionLoss(DaemonUnavailable(message))
  {
  }

  /**
   A call that changes state and whose write succeeded ends in the reply that was decoded for it, or in
   `CommittedReplyLost`; never in an error that only says that the connection was lost.
   */
  lemma MutateEndsInReplyOrReplyLost(clients: seq<Client>, events: seq<Event>, n: nat)
    requires IsRun(clients, events) && n < |events| && (events[n].Receive? || events[n].Timeout?)
    requires IsMutateRpc(clients[n].requests[events[n].request].name)
    ensures var i := events[n].request;
            var name, result := clients[n].requests[i].name, clients[n + 1].requests[i].phase;
      && result.Done?
      && match result.result
         case Ok(value) => i in clients[n].answered && clients[n].answered[i] == Ok(value)
         case Err(error) =>
           || error == CommittedReplyLost(name)
           || (i in clients[n].answered && clients[n].answered[i] == Err(error) && !IsConnectionLoss(error))
    ensures events[n].request < |clients[n].requests| && events[n].request < |clients[n + 1].requests|
  {
    RunsStayGood(clients, events, n);
    var c, i := clients[n], events[n].request;
    assert Enabled(c, events[n]);
    assert Explained(c.requests[i].mail, i, c.answered);
    var mail := c.requests[i].mail;
    if mail.Sent? && mail.reply.Err? && mail.reply.error.DaemonUnavailable? && IsCloseMessage(mail.reply.error.message) {
      CloseMessagesAreLosses(mail.reply.error.message);
    }
    hide IsMutateRpc, IsCloseMessage, IsConnectionLossMessage, Good, MailExplained;
  }

  // ---- the client as the source runs it -------------------------------------------------------------------------

  /** An incoming line, by the parts of it that matter; `None` is a member that is missing. */
  datatype Line = Line(
    parses: bool,
    versionOk: bool,
    request: Option<bool>,
    id: Option<Id>,
    result: Option<Option<int>>,
    error: Option<Option<HubError>>)

  datatype LineMeaning = Notification | ReplyTo(id: Id, reply: Reply) | Invalid

  /**
   `request` says whether the notification decodes.  `result` and `error` hold the decoded member, if it
   decodes.  A line with both, or with neither, is invalid, and so is a request from the server.
   */
  function Meaning(line: Line): (m: LineMeaning)
  {
    if !line.parses || !line.versionOk then Invalid
    else if line.request.Some? then (if line.request.value && line.id.None? then Notification else Invalid)
    else if line.id.None? || line.id.value.OtherId? then Invalid
    else if line.error.Some? then
      if line.result.Some? || line.error.value.None? then Invalid else ReplyTo(line.id.value, Err(line.error.value.value))
    else if line.result.Some? then
      if line.result.value.None? then Invalid else ReplyTo(line.id.value, Ok(line.result.value.value))
    else Invalid
  }

  /**
   A line is a reply exactly when it is a JSON-RPC 2.0 message without a method, with an id that is a string, a
   number or null, and with just one of a result and an error, which decodes.
   */
  lemma ReplyMeans(line: Line, id: Id, reply: Reply)
    ensures Meaning(line) == ReplyTo(id, reply) <==>
              && line.parses && line.versionOk && line.request.None? && line.id == Some(id) && id != OtherId
              && match reply
                 case Ok(value) => line.result == Some(Some(value)) && line.error.None?
                 case Err(error) => line.error == Some(Some(error)) && line.result.None?
  {
  }

  /** A line is a notification exactly when it has a method and no id, and decodes. */
  lemma NotificationMeans(line: Line)
    ensures Meaning(line) == Notification <==> line.parses && line.versionOk && line.request == Some(true) && line.id.None?
  {
  }

  class RpcClientInner {
    var pending: map<Id, nat>
    var mail: map<nat, Reply>
    var closed: bool

    constructor ()
      ensures pending == map[] && mail == map[] && !closed
    {
      pending, mail, closed := map[], map[], false;
    }

    method RegisterPending(id: Id, request: nat) returns (r: Result<(), HubError>)
      modifies this`pending
      ensures old(closed) ==> r == Err(DaemonUnavailable(CLOSED_MESSAGE)) && pending == old(pending)
      ensures !old(closed) ==> r == Ok(()) && pending == old(pending)[id := request]
    {
      if closed {
        return Err(DaemonUnavailable(CLOSED_MESSAGE));
      }
      pending := pending[id := request];
      return Ok(());
    }

    /** A valid reply goes to the one request that waits for its id; an invalid line closes the connection. */
    method HandleLine(line: Line) returns (ok: bool)
      modifies this`pending, this`mail
      ensures ok <==> !Meaning(line).Invalid?
      ensures match Meaning(line)
              case ReplyTo(id, reply) =>
                && pending == old(pending) - {id}
                && mail == if id in old(pending) then old(mail)[old(pending)[id] := reply] else old(mail)
              case _ => pending == old(pending) && mail == old(mail)
    {
      if !line.parses || !line.versionOk {
        return false;
      }
      if line.request.Some? {
        return line.request.value && line.id.None?;
      }
      if line.id.None? || line.id.value.OtherId? {
        return false;
      }
      var id := line.id.value;
      if line.error.Some? && line.result.Some? {
        return false;
      }
      var reply: Reply;
      if line.error.Some? {
        if line.error.value.None? {
          return false;
        }
        reply := Err(line.error.value.value);
      } else if line.result.Some? {
        if line.result.value.None? {
          return false;
        }
        reply := Ok(line.result.value.value);
      } else {
        return false;
      }
      if id in pending {
        mail := mail[pending[id] := reply];
        pending := pending - {id};
      } else {
        assert pending - {id} == pending;
      }
      return true;
    }

    /** Every pending request is failed with `message`, in any order, and none is left. */
    method ClosePending(message: string)
      modifies this
      ensures closed && pending == map[]
      ensures forall id | id in old(pending) :: old(pending)[id] in mail && mail[old(pending)[id]] == Err(DaemonUnavailable(message))
      ensures forall request | request in old(mail) && (forall id | id in old(pending) :: old(pending)[id] != request) ::
                request in mail && mail[request] == old(mail)[request]
    {
      closed := true;
      var left := pending.Keys;
      while left != {}
        invariant closed && left <= pending.Keys && pending == old(pending)
        invariant forall id | id in pending && id !in left :: pending[id] in mail && mail[pending[id]] == Err(DaemonUnavailable(message))
        invariant forall request | request in old(mail) && (forall id | id in pending :: pending[id] != request) ::
                    request in mail && mail[request] == old(mail)[request]
        decreases |left|
      {
        var id :| id in left;
        mail := mail[pending[id] := Err(DaemonUnavailable(message))];
        left := left - {id};
      }
      pending := map[];
    }
  }
}
