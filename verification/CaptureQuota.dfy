/**
 Session updates that arrive before their session is bound: queued per session, or held by the
 capture of a session being created, under one shared quota.  Every step is one lock section.
 */
module CaptureQuota {
  import opened Bytes
  import opened Outcomes
  import opened MapSums

  const MAX_PENDING_SESSIONS: nat := 64
  const MAX_PENDING_NOTIFICATIONS: nat := 1024
  const MAX_PENDING_NOTIFICATION_BYTES: nat := 4 * 1024 * 1024
  const MAX_PENDING_SINGLE_NOTIFICATION_BYTES: nat := 256 * 1024
  const MAX_PENDING_PER_SESSION: nat := 256

  type AgentId = nat
  type SessionId = nat
  type ConnectionId = nat

  datatype Key = Key(agent: AgentId, session: SessionId)

  /** `update` stands for the content of the notification. */
  datatype Entry = Entry(connection: ConnectionId, update: nat, bytes: nat)

  datatype KeyedEntry = KeyedEntry(key: Key, entry: Entry)

  datatype Capture = Capture(token: nat, connection: ConnectionId, entries: seq<KeyedEntry>, failed: bool)

  datatype Pending = Pending(sessions: map<Key, seq<Entry>>, draining: set<Key>, count: nat, bytes: nat)

  datatype Captures = Captures(agents: map<AgentId, Capture>, count: nat, bytes: nat)

  datatype CaptureError = TooLarge | TooManySessions | QuotaExceeded | SessionFull | NotCapturing | Conflict | Revoked | Stale | AlreadyBinding

  // ---- what the counters count -----------------------------------------------------------------

  function QueueLen(queue: seq<Entry>): (n: nat)
  {
    |queue|
  }

  function SumBytes(queue: seq<Entry>): (n: nat)
  {
    if |queue| == 0 then 0 else queue[0].bytes + SumBytes(queue[1..])
  }

  function QueueBytes(queue: seq<Entry>): (n: nat)
  {
    SumBytes(queue)
  }

  function EntriesBytes(entries: seq<KeyedEntry>): (n: nat)
  {
    if |entries| == 0 then 0 else entries[0].entry.bytes + EntriesBytes(entries[1..])
  }

  function CaptureLen(c: Capture): (n: nat)
  {
    |c.entries|
  }

  function CaptureBytes(c: Capture): (n: nat)
  {
    EntriesBytes(c.entries)
  }

  ghost predicate PendingExact(p: Pending)
  {
    p.count == MapSum(p.sessions, QueueLen) && p.bytes == MapSum(p.sessions, QueueBytes)
  }

  ghost predicate CapturesExact(c: Captures)
  {
    c.count == MapSum(c.agents, CaptureLen) && c.bytes == MapSum(c.agents, CaptureBytes)
  }

  lemma {:induction false} SumBytesAppend(a: seq<Entry>, b: seq<Entry>)
    ensures SumBytes(a + b) == SumBytes(a) + SumBytes(b)
  {
    if |a| == 0 {
      assert a + b == b;
    } else {
      SumBytesAppend(a[1..], b);
      assert (a + b)[1..] == a[1..] + b;
    }
  }

  lemma {:induction false} EntriesBytesAppend(a: seq<KeyedEntry>, b: seq<KeyedEntry>)
    ensures EntriesBytes(a + b) == EntriesBytes(a) + EntriesBytes(b)
  {
    if |a| == 0 {
      assert a + b == b;
    } else {
      EntriesBytesAppend(a[1..], b);
      assert (a + b)[1..] == a[1..] + b;
    }
  }

  // ---- admission ---------------------------------------------------------------------------------

  function QueueOf(p: Pending, key: Key): (q: seq<Entry>)
  {
    if key in p.sessions then p.sessions[key] else []
  }

  function CapturedKeys(c: Captures): (keys: set<Key>)
  {
    set agent, i | agent in c.agents && 0 <= i < |c.agents[agent].entries| :: c.agents[agent].entries[i].key
  }

  function DistinctKeys(p: Pending, c: Captures): (keys: set<Key>)
  {
    p.sessions.Keys + CapturedKeys(c)
  }

  /** The limits shared by both kinds of queue. */
  function QuotaOutcome(p: Pending, c: Captures, key: Key, bytes: nat): (r: Result<(), CaptureError>)
  {
    var keys := DistinctKeys(p, c);
    if key !in keys && |keys + {key}| > MAX_PENDING_SESSIONS then Err(TooManySessions)
    else if p.count + c.count >= MAX_PENDING_NOTIFICATIONS || p.bytes + c.bytes + bytes > MAX_PENDING_NOTIFICATION_BYTES then
      Err(QuotaExceeded)
    else Ok(())
  }

  function EnqueueOutcome(p: Pending, c: Captures, key: Key, entry: Entry): (r: Result<(), CaptureError>)
  {
    if entry.bytes > MAX_PENDING_SINGLE_NOTIFICATION_BYTES then Err(TooLarge)
    else
      var quota := QuotaOutcome(p, c, key, entry.bytes);
      if quota.Err? then quota
      else if |QueueOf(p, key)| >= MAX_PENDING_PER_SESSION then Err(SessionFull)
      else Ok(())
  }

  function CountKey(entries: seq<KeyedEntry>, key: Key): (n: nat)
  {
    if |entries| == 0 then 0 else (if entries[0].key == key then 1 else 0) + CountKey(entries[1..], key)
  }

  function CaptureOutcome(p: Pending, c: Captures, key: Key, entry: Entry): (r: Result<(), CaptureError>)
  {
    if entry.bytes > MAX_PENDING_SINGLE_NOTIFICATION_BYTES then Err(TooLarge)
    else if key.agent !in c.agents then Err(NotCapturing)
    else if CountKey(c.agents[key.agent].entries, key) + |QueueOf(p, key)| >= MAX_PENDING_PER_SESSION then Err(SessionFull)
    else QuotaOutcome(p, c, key, entry.bytes)
  }

  // ---- steps on the pending queues -----------------------------------------------------------------

  function Append(p: Pending, key: Key, entry: Entry): (r: Pending)
  {
    p.(sessions := p.sessions[key := QueueOf(p, key) + [entry]], count := p.count + 1, bytes := p.bytes + entry.bytes)
  }

  function AfterEnqueue(p: Pending, c: Captures, key: Key, entry: Entry): (r: Pending)
  {
    if EnqueueOutcome(p, c, key, entry).Ok? then Append(p, key, entry) else p
  }

  function AfterPop(p: Pending, key: Key): (r: Pending)
  {
    if |QueueOf(p, key)| == 0 then p else
      p.(sessions := p.sessions[key := p.sessions[key][1..]],
         count := SatSub(p.count, 1), bytes := SatSub(p.bytes, p.sessions[key][0].bytes))
  }

  /** A bind whose capture failed puts the entry back, unless the session was unbound meanwhile. */
  function AfterRollback(p: Pending, key: Key, entry: Entry): (r: Pending)
  {
    if key !in p.draining then p else
      Pending(p.sessions[key := [entry] + QueueOf(p, key)], p.draining - {key}, p.count + 1, p.bytes + entry.bytes)
  }

  function AfterBegin(p: Pending, key: Key): (r: Pending)
  {
    if key in p.draining then p else
      p.(sessions := p.sessions[key := QueueOf(p, key)], draining := p.draining + {key})
  }

  /** The last step of a bind: nothing is pending any more. */
  function AfterBound(p: Pending, key: Key): (r: Pending)
  {
    if key in p.draining && |QueueOf(p, key)| == 0 then p.(sessions := p.sessions - {key}, draining := p.draining - {key}) else p
  }

  function AfterUnbind(p: Pending, key: Key): (r: Pending)
  {
    Pending(p.sessions - {key}, p.draining - {key},
            SatSub(p.count, |QueueOf(p, key)|), SatSub(p.bytes, QueueBytes(QueueOf(p, key))))
  }

  function KeysOfAgent(p: Pending, agent: AgentId): (keys: set<Key>)
  {
    set key | key in p.sessions.Keys && key.agent == agent
  }

  ghost function AfterRevoke(p: Pending, agent: AgentId): (r: Pending)
  {
    var gone := Restrict(p.sessions, KeysOfAgent(p, agent));
    Pending(p.sessions - KeysOfAgent(p, agent), (set key | key in p.draining && key.agent != agent),
            SatSub(p.count, MapSum(gone, QueueLen)), SatSub(p.bytes, MapSum(gone, QueueBytes)))
  }

  // ---- steps on the captures -------------------------------------------------------------------------

  function AfterStart(c: Captures, agent: AgentId, token: nat, connection: ConnectionId): (r: Captures)
  {
    if agent in c.agents then c else c.(agents := c.agents[agent := Capture(token, connection, [], false)])
  }

  function AfterInsert(c: Captures, key: Key, entry: Entry): (r: Captures)
    requires key.agent in c.agents
  {
    var capture := c.agents[key.agent];
    Captures(c.agents[key.agent := capture.(entries := capture.entries + [KeyedEntry(key, entry)])],
             c.count + 1, c.bytes + entry.bytes)
  }

  function AfterRemove(c: Captures, agent: AgentId): (r: Captures)
  {
    if agent !in c.agents then c else
      Captures(c.agents - {agent}, SatSub(c.count, |c.agents[agent].entries|), SatSub(c.bytes, EntriesBytes(c.agents[agent].entries)))
  }

  /** The first failure of a capture is kept. */
  function AfterFailure(c: Captures, agent: AgentId, connection: ConnectionId): (r: Captures)
  {
    if agent in c.agents && c.agents[agent].connection == connection then
      c.(agents := c.agents[agent := c.agents[agent].(failed := true)])
    else c
  }

  predicate ForSession(e: KeyedEntry, session: Option<SessionId>)
  {
    session.Some? && e.key.session == session.value
  }

  /** The entries of the created session, in order. */
  function Matching(entries: seq<KeyedEntry>, session: Option<SessionId>): (r: seq<KeyedEntry>)
    ensures forall i | 0 <= i < |r| :: ForSession(r[i], session)
  {
    if |entries| == 0 then [] else
      var last := entries[|entries| - 1];
      Matching(entries[..|entries| - 1], session) + if ForSession(last, session) then [last] else []
  }

  /** The others, which are replayed into sessions already bound. */
  function Others(entries: seq<KeyedEntry>, session: Option<SessionId>): (r: seq<KeyedEntry>)
    ensures forall i | 0 <= i < |r| :: !ForSession(r[i], session)
  {
    if |entries| == 0 then [] else
      var last := entries[|entries| - 1];
      Others(entries[..|entries| - 1], session) + if ForSession(last, session) then [] else [last]
  }

  function AppendAll(p: Pending, entries: seq<KeyedEntry>): (r: Pending)
  {
    if |entries| == 0 then p else
      var last := entries[|entries| - 1];
      Append(AppendAll(p, entries[..|entries| - 1]), last.key, last.entry)
  }

  datatype Lease = Lease(agent: AgentId, connection: ConnectionId, token: nat)

  function FinishOutcome(c: Captures, lease: Lease, missingOk: bool): (r: Result<(), CaptureError>)
  {
    if lease.agent !in c.agents then (if missingOk then Ok(()) else Err(Revoked))
    else
      var capture := c.agents[lease.agent];
      if capture.token != lease.token || capture.connection != lease.connection then Err(Stale) else Ok(())
  }

  /** Whether the lease ends its own capture. */
  predicate Owns(c: Captures, lease: Lease)
  {
    lease.agent in c.agents && c.agents[lease.agent].token == lease.token && c.agents[lease.agent].connection == lease.connection
  }

  /** What a finished capture publishes: the created session's updates, unless capturing failed. */
  function Published(c: Captures, lease: Lease, session: Option<SessionId>, publish: bool): (r: seq<KeyedEntry>)
    requires Owns(c, lease)
  {
    var capture := c.agents[lease.agent];
    if publish && !capture.failed then Matching(capture.entries, session) else []
  }

  function AfterFinish(p: Pending, c: Captures, lease: Lease, session: Option<SessionId>, publish: bool): (r: (Pending, Captures))
  {
    if !Owns(c, lease) then (p, c)
    else (AppendAll(p, Published(c, lease, session, publish)), AfterRemove(c, lease.agent))
  }

  // ---- each step touches one session or one agent -------------------------------------------------------

  /** What a step of the queues on `key` does to the session of `other`, which may be the same or another one. */
  lemma StepsTouchOneSession(p: Pending, key: Key, entry: Entry, other: Key)
    ensures QueueOf(Append(p, key, entry), other) == QueueOf(p, other) + (if other == key then [entry] else [])
    ensures Append(p, key, entry).draining == AfterPop(p, key).draining == p.draining
    ensures QueueOf(AfterPop(p, key), other) == if other == key && |QueueOf(p, key)| > 0 then QueueOf(p, key)[1..] else QueueOf(p, other)
    ensures QueueOf(AfterRollback(p, key, entry), other) ==
              (if other == key && key in p.draining then [entry] else []) + QueueOf(p, other)
    ensures AfterRollback(p, key, entry).draining == p.draining - {key}
    ensures QueueOf(AfterBegin(p, key), other) == QueueOf(p, other) && AfterBegin(p, key).draining == p.draining + {key}
    ensures other in AfterBegin(p, key).sessions <==> other in p.sessions || (other == key && key !in p.draining)
    ensures QueueOf(AfterBound(p, key), other) == QueueOf(p, other)
    ensures other in AfterBound(p, key).sessions <==>
              other in p.sessions && (other != key || key !in p.draining || |QueueOf(p, key)| > 0)
    ensures other in AfterBound(p, key).draining <==>
              other in p.draining && (other != key || |QueueOf(p, key)| > 0)
    ensures QueueOf(AfterUnbind(p, key), other) == if other == key then [] else QueueOf(p, other)
    ensures AfterUnbind(p, key).draining == p.draining - {key} && key !in AfterUnbind(p, key).sessions
  {
    assert [] + QueueOf(p, other) == QueueOf(p, other) && QueueOf(p, other) + [] == QueueOf(p, other);
    hide SumBytes;
  }

  /** Revoking an agent leaves nothing of its sessions and does not touch those of other agents. */
  lemma RevokeTouchesOneAgent(p: Pending, agent: AgentId, key: Key)
    ensures var after := AfterRevoke(p, agent);
            if key.agent == agent then key !in after.sessions && key !in after.draining
            else QueueOf(after, key) == QueueOf(p, key) && (key in after.draining <==> key in p.draining)
  {
    hide MapSum;
  }

  /** What a step on the captures of one agent does to it and to any other. */
  lemma CaptureStepsTouchOneAgent(c: Captures, agent: AgentId, token: nat, connection: ConnectionId, other: AgentId)
    ensures var after := AfterStart(c, agent, token, connection).agents;
            other in after <==> other == agent || other in c.agents
    ensures var after := AfterStart(c, agent, token, connection).agents;
            other in after ==> after[other] == if other in c.agents then c.agents[other] else Capture(token, connection, [], false)
    ensures other in AfterRemove(c, agent).agents <==> other != agent && other in c.agents
    ensures other in AfterRemove(c, agent).agents ==> AfterRemove(c, agent).agents[other] == c.agents[other]
    ensures other in AfterFailure(c, agent, connection).agents <==> other in c.agents
    ensures other in c.agents ==>
              var was, now := c.agents[other], AfterFailure(c, agent, connection).agents[other];
              now == was.(failed := was.failed || (other == agent && was.connection == connection))
  {
    hide EntriesBytes;
  }

  lemma InsertTouchesOneAgent(c: Captures, key: Key, entry: Entry, other: AgentId)
    requires key.agent in c.agents
    ensures var after := AfterInsert(c, key, entry).agents;
      && (other in after <==> other in c.agents)
      && (other in c.agents ==>
            after[other] == if other == key.agent then c.agents[other].(entries := c.agents[other].entries + [KeyedEntry(key, entry)])
                            else c.agents[other])
  {
  }

  // ---- each step keeps the counters exact --------------------------------------------------------------

  lemma AppendKeepsExact(p: Pending, key: Key, entry: Entry)
    requires PendingExact(p)
    ensures PendingExact(Append(p, key, entry))
  {
    var queue := QueueOf(p, key);
    SumBytesAppend(queue, [entry]);
    MapSumUpdate(p.sessions, QueueLen, key, queue + [entry]);
    MapSumUpdate(p.sessions, QueueBytes, key, queue + [entry]);
    hide MapSum;
  }

  lemma PopKeepsExact(p: Pending, key: Key)
    requires PendingExact(p)
    ensures PendingExact(AfterPop(p, key))
    ensures |QueueOf(p, key)| > 0 ==> p.count >= 1 && p.bytes >= QueueOf(p, key)[0].bytes
  {
    if |QueueOf(p, key)| > 0 {
      var queue := p.sessions[key];
      MapSumUpdate(p.sessions, QueueLen, key, queue[1..]);
      MapSumUpdate(p.sessions, QueueBytes, key, queue[1..]);
      hide MapSum;
    }
  }

  lemma RollbackKeepsExact(p: Pending, key: Key, entry: Entry)
    requires PendingExact(p)
    ensures PendingExact(AfterRollback(p, key, entry))
  {
    var queue := QueueOf(p, key);
    SumBytesAppend([entry], queue);
    MapSumUpdate(p.sessions, QueueLen, key, [entry] + queue);
    MapSumUpdate(p.sessions, QueueBytes, key, [entry] + queue);
    hide MapSum;
  }

  lemma BeginKeepsExact(p: Pending, key: Key)
    requires PendingExact(p)
    ensures PendingExact(AfterBegin(p, key))
  {
    MapSumUpdate(p.sessions, QueueLen, key, QueueOf(p, key));
    MapSumUpdate(p.sessions, QueueBytes, key, QueueOf(p, key));
    hide MapSum;
  }

  lemma UnbindKeepsExact(p: Pending, key: Key)
    requires PendingExact(p)
    ensures PendingExact(AfterUnbind(p, key))
    ensures p.count >= |QueueOf(p, key)| && p.bytes >= QueueBytes(QueueOf(p, key))
  {
    hide MapSum, SumBytes;
    if key in p.sessions {
      MapSumRemove(p.sessions, QueueLen, key);
      MapSumRemove(p.sessions, QueueBytes, key);
    } else {
      EmptyQueue();
      assert p.sessions - {key} == p.sessions;
    }
  }

  lemma EmptyQueue()
    ensures QueueLen([]) == QueueBytes([]) == 0
  {
  }

  lemma BoundKeepsExact(p: Pending, key: Key)
    requires PendingExact(p)
    ensures PendingExact(AfterBound(p, key))
  {
    hide MapSum, SumBytes;
    EmptyQueue();
    if key in p.sessions {
      MapSumRemove(p.sessions, QueueLen, key);
      MapSumRemove(p.sessions, QueueBytes, key);
    } else {
      assert p.sessions - {key} == p.sessions;
    }
  }

  lemma RevokeKeepsExact(p: Pending, agent: AgentId)
    requires PendingExact(p)
    ensures PendingExact(AfterRevoke(p, agent))
    ensures AfterRevoke(p, agent).count <= p.count && AfterRevoke(p, agent).bytes <= p.bytes
  {
    MapSumSplit(p.sessions, QueueLen, KeysOfAgent(p, agent));
    MapSumSplit(p.sessions, QueueBytes, KeysOfAgent(p, agent));
    hide MapSum;
  }

  lemma StartKeepsExact(c: Captures, agent: AgentId, token: nat, connection: ConnectionId)
    requires CapturesExact(c)
    ensures CapturesExact(AfterStart(c, agent, token, connection))
  {
    MapSumUpdate(c.agents, CaptureLen, agent, Capture(token, connection, [], false));
    MapSumUpdate(c.agents, CaptureBytes, agent, Capture(token, connection, [], false));
    hide MapSum;
  }

  lemma InsertKeepsExact(c: Captures, key: Key, entry: Entry)
    requires CapturesExact(c) && key.agent in c.agents
    ensures CapturesExact(AfterInsert(c, key, entry))
  {
    var next := AfterInsert(c, key, entry).agents[key.agent];
    EntriesBytesAppend(c.agents[key.agent].entries, [KeyedEntry(key, entry)]);
    MapSumUpdate(c.agents, CaptureLen, key.agent, next);
    MapSumUpdate(c.agents, CaptureBytes, key.agent, next);
    hide MapSum;
  }

  lemma RemoveKeepsExact(c: Captures, agent: AgentId)
    requires CapturesExact(c)
    ensures CapturesExact(AfterRemove(c, agent))
    ensures agent in c.agents ==> c.count >= |c.agents[agent].entries| && c.bytes >= EntriesBytes(c.agents[agent].entries)
  {
    if agent in c.agents {
      MapSumRemove(c.agents, CaptureLen, agent);
      MapSumRemove(c.agents, CaptureBytes, agent);
      hide MapSum;
    }
  }

  lemma FailureKeepsExact(c: Captures, agent: AgentId, connection: ConnectionId)
    requires CapturesExact(c)
    ensures CapturesExact(AfterFailure(c, agent, connection))
  {
    if agent in c.agents {
      var next := c.agents[agent].(failed := true);
      MapSumUpdate(c.agents, CaptureLen, agent, next);
      MapSumUpdate(c.agents, CaptureBytes, agent, next);
      hide MapSum;
    }
  }

  /** Appending entries adds exactly them to the totals. */
  lemma {:induction false} AppendAllKeepsExact(p: Pending, entries: seq<KeyedEntry>)
    requires PendingExact(p)
    ensures var next := AppendAll(p, entries);
            PendingExact(next) && next.count == p.count + |entries| && next.bytes == p.bytes + EntriesBytes(entries)
  {
    if |entries| > 0 {
      var init, last := entries[..|entries| - 1], entries[|entries| - 1];
      AppendAllKeepsExact(p, init);
      AppendKeepsExact(AppendAll(p, init), last.key, last.entry);
      assert entries == init + [last];
      EntriesBytesAppend(init, [last]);
      hide PendingExact;
    }
  }

  lemma MatchingLast(init: seq<KeyedEntry>, last: KeyedEntry, session: Option<SessionId>)
    ensures Matching(init + [last], session) == Matching(init, session) + if ForSession(last, session) then [last] else []
    ensures Others(init + [last], session) == Others(init, session) + if ForSession(last, session) then [] else [last]
  {
    assert (init + [last])[..|init|] == init;
  }

  lemma EntriesBytesSnoc(init: seq<KeyedEntry>, last: KeyedEntry)
    ensures EntriesBytes(init + [last]) == EntriesBytes(init) + last.entry.bytes && EntriesBytes(init + []) == EntriesBytes(init)
  {
    EntriesBytesAppend(init, [last]);
    assert init + [] == init;
  }

  lemma {:induction false} MatchingIsPart(entries: seq<KeyedEntry>, session: Option<SessionId>)
    ensures |Matching(entries, session)| + |Others(entries, session)| == |entries|
    ensures EntriesBytes(Matching(entries, session)) + EntriesBytes(Others(entries, session)) == EntriesBytes(entries)
  {
    if |entries| > 0 {
      hide Matching, Others, EntriesBytes, ForSession;
      var init, last := entries[..|entries| - 1], entries[|entries| - 1];
      assert entries == init + [last];
      MatchingIsPart(init, session);
      MatchingLast(init, last, session);
      EntriesBytesSnoc(init, last);
      EntriesBytesSnoc(Matching(init, session), last);
      EntriesBytesSnoc(Others(init, session), last);
    }
  }

  /**
   Finishing a capture takes all its entries out of the captures and adds exactly the published ones
   to the pending queues: the combined total never grows, and it is conserved when every entry is
   published.
   */
  lemma PublishConserves(p: Pending, c: Captures, lease: Lease, session: Option<SessionId>, publish: bool)
    requires PendingExact(p) && CapturesExact(c)
    ensures var (p', c') := AfterFinish(p, c, lease, session, publish);
      && PendingExact(p') && CapturesExact(c')
      && p'.count + c'.count <= p.count + c.count && p'.bytes + c'.bytes <= p.bytes + c.bytes
      && (Owns(c, lease) ==>
            var kept := |Published(c, lease, session, publish)| == |c.agents[lease.agent].entries|;
            kept <==> p'.count + c'.count == p.count + c.count)
  {
    if Owns(c, lease) {
      AppendAllKeepsExact(p, Published(c, lease, session, publish));
      RemoveKeepsExact(c, lease.agent);
      MatchingIsPart(c.agents[lease.agent].entries, session);
    }
  }

  function EntriesFor(entries: seq<KeyedEntry>, key: Key): (r: seq<Entry>)
  {
    if |entries| == 0 then [] else
      var last := entries[|entries| - 1];
      EntriesFor(entries[..|entries| - 1], key) + if last.key == key then [last.entry] else []
  }

  /** Each queue grows by the published entries for its key, in the order they were captured. */
  lemma {:induction false} PublishKeepsOrder(p: Pending, entries: seq<KeyedEntry>, key: Key)
    ensures QueueOf(AppendAll(p, entries), key) == QueueOf(p, key) + EntriesFor(entries, key)
  {
    if |entries| > 0 {
      PublishKeepsOrder(p, entries[..|entries| - 1], key);
    }
  }

  /** The elements that satisfy `f`, in order. */
  function Keep<T>(s: seq<T>, f: T -> bool): (r: seq<T>)
  {
    if |s| == 0 then [] else Keep(s[..|s| - 1], f) + if f(s[|s| - 1]) then [s[|s| - 1]] else []
  }

  /** What is published are the entries of the created session, what is replayed are those of all other sessions. */
  lemma {:induction false} SplitBySession(entries: seq<KeyedEntry>, session: Option<SessionId>)
    ensures Matching(entries, session) == Keep(entries, (e: KeyedEntry) => session == Some(e.key.session))
    ensures Others(entries, session) == Keep(entries, (e: KeyedEntry) => session != Some(e.key.session))
  {
    if |entries| > 0 {
      SplitBySession(entries[..|entries| - 1], session);
    }
  }

  lemma {:induction false} MatchingForKey(entries: seq<KeyedEntry>, session: Option<SessionId>, key: Key)
    ensures EntriesFor(Matching(entries, session), key) == if session == Some(key.session) then EntriesFor(entries, key) else []
    ensures EntriesFor(Others(entries, session), key) == if session == Some(key.session) then [] else EntriesFor(entries, key)
  {
    if |entries| > 0 {
      var init, last := entries[..|entries| - 1], entries[|entries| - 1];
      MatchingForKey(init, session, key);
      assert Matching(init, session) + [] == Matching(init, session) && Others(init, session) + [] == Others(init, session);
      assert (Matching(init, session) + [last])[..|Matching(init, session)|] == Matching(init, session);
      assert (Others(init, session) + [last])[..|Others(init, session)|] == Others(init, session);
    }
  }

  /**
   Finishing a capture with its own lease ends it.  The queue of a key grows by exactly what was captured for that
   key, in order, when the key is of the created session, publishing is asked for and capturing did not fail;
   every other queue stays as it is.
   */
  lemma FinishPublishesTheSession(p: Pending, c: Captures, lease: Lease, session: Option<SessionId>, publish: bool, key: Key)
    requires Owns(c, lease)
    ensures var capture, (p', c') := c.agents[lease.agent], AfterFinish(p, c, lease, session, publish);
      && c'.agents == c.agents - {lease.agent} && p'.draining == p.draining
      && QueueOf(p', key) == QueueOf(p, key) +
           if publish && !capture.failed && session == Some(key.session) then EntriesFor(capture.entries, key) else []
  {
    var entries := Published(c, lease, session, publish);
    PublishKeepsOrder(p, entries, key);
    AppendAllKeepsDraining(p, entries);
    MatchingForKey(c.agents[lease.agent].entries, session, key);
  }

  lemma {:induction false} AppendAllKeepsDraining(p: Pending, entries: seq<KeyedEntry>)
    ensures AppendAll(p, entries).draining == p.draining
  {
    if |entries| > 0 {
      AppendAllKeepsDraining(p, entries[..|entries| - 1]);
    }
  }

  // ---- all lock sections, interleaved ------------------------------------------------------------------

  /**
   `admitting` is an update that has passed the checks of a capture and is not yet in it: its thread
   has let go of the pending queues but still holds the captures.  `hands` are the updates that bind calls
   have popped and not yet stored, dropped or put back.
   */
  datatype State = State(pending: Pending, captures: Captures, admitting: Option<KeyedEntry>, hands: map<nat, KeyedEntry>)

  datatype PendingEvent =
    | Begin(key: Key)
    | Bound(key: Key)
    | Unbind(key: Key)
    | Revoke(agent: AgentId)

  /** The steps of a bind call on the update it holds; `Settle` is a store or a drop. */
  datatype BindEvent =
    | Pop(call: nat, key: Key)
    | Settle(call: nat)
    | Rollback(call: nat)

  /** The steps that hold the captures' lock. */
  datatype CaptureEvent =
    | Enqueue(key: Key, entry: Entry)
    | Admit(key: Key, entry: Entry)
    | Insert
    | Start(agent: AgentId, token: nat, connection: ConnectionId)
    | Finish(lease: Lease, session: Option<SessionId>, publish: bool)
    | Remove(agent: AgentId)
    | Failure(agent: AgentId, connection: ConnectionId)

  datatype Event = OnPending(p: PendingEvent) | OnBind(b: BindEvent) | OnCaptures(c: CaptureEvent)

  ghost function PendingStep(p: Pending, e: PendingEvent): (r: Pending)
  {
    match e
    case Begin(key) => AfterBegin(p, key)
    case Bound(key) => AfterBound(p, key)
    case Unbind(key) => AfterUnbind(p, key)
    case Revoke(agent) => AfterRevoke(p, agent)
  }

  /** A call pops one update at a time; only the thread that is admitting an update can go on with the captures. */
  predicate Enabled(s: State, e: Event)
  {
    match e
    case OnPending(_) => true
    case OnBind(b) => b.Pop? <==> b.call !in s.hands
    case OnCaptures(c) => c.Insert? <==> s.admitting.Some?
  }

  predicate Admitted(s: State)
  {
    s.admitting.Some? ==> s.admitting.value.key.agent in s.captures.agents
  }

  function BindStep(s: State, e: BindEvent): (r: State)
    requires Enabled(s, OnBind(e))
  {
    match e
    case Pop(call, key) =>
      if |QueueOf(s.pending, key)| == 0 then s
      else s.(pending := AfterPop(s.pending, key), hands := s.hands[call := KeyedEntry(key, QueueOf(s.pending, key)[0])])
    case Settle(call) => s.(hands := s.hands - {call})
    case Rollback(call) =>
      s.(pending := AfterRollback(s.pending, s.hands[call].key, s.hands[call].entry), hands := s.hands - {call})
  }

  function CaptureStep(s: State, e: CaptureEvent): (r: State)
    requires Enabled(s, OnCaptures(e)) && Admitted(s)
  {
    match e
    case Enqueue(key, entry) => s.(pending := AfterEnqueue(s.pending, s.captures, key, entry))
    case Admit(key, entry) =>
      if CaptureOutcome(s.pending, s.captures, key, entry).Ok? then s.(admitting := Some(KeyedEntry(key, entry))) else s
    case Insert =>
      s.(captures := AfterInsert(s.captures, s.admitting.value.key, s.admitting.value.entry), admitting := None)
    case Start(agent, token, connection) => s.(captures := AfterStart(s.captures, agent, token, connection))
    case Finish(lease, session, publish) =>
      var next := AfterFinish(s.pending, s.captures, lease, session, publish);
      s.(pending := next.0, captures := next.1)
    case Remove(agent) => s.(captures := AfterRemove(s.captures, agent))
    case Failure(agent, connection) => s.(captures := AfterFailure(s.captures, agent, connection))
  }

  ghost function Step(s: State, e: Event): (r: State)
    requires Enabled(s, e) && Admitted(s)
  {
    match e
    case OnPending(p) => s.(pending := PendingStep(s.pending, p))
    case OnBind(b) => BindStep(s, b)
    case OnCaptures(c) => CaptureStep(s, c)
  }

  ghost predicate Exact(s: State)
  {
    PendingExact(s.pending) && CapturesExact(s.captures) && Admitted(s)
  }

  // ---- what is held ------------------------------------------------------------------------------------------

  /** Everything queued or captured, with what is being admitted. */
  function TotalCount(s: State): (n: nat)
  {
    s.pending.count + s.captures.count + if s.admitting.Some? then 1 else 0
  }

  function TotalBytes(s: State): (n: nat)
  {
    s.pending.bytes + s.captures.bytes + if s.admitting.Some? then s.admitting.value.entry.bytes else 0
  }

  predicate WithinCaps(s: State)
  {
    TotalCount(s) <= MAX_PENDING_NOTIFICATIONS && TotalBytes(s) <= MAX_PENDING_NOTIFICATION_BYTES
  }

  function HeldEntryBytes(e: KeyedEntry): (n: nat)
  {
    e.entry.bytes
  }

  /** What bind calls have in hand. */
  ghost function HandBytes(hands: map<nat, KeyedEntry>): (n: nat)
  {
    MapSum(hands, HeldEntryBytes)
  }

  /** Whether a rollback, if it restores anything, still finds room for it. */
  predicate FindsRoom(s: State, e: Event)
  {
    e.OnBind? && e.b.Rollback? && e.b.call in s.hands && s.hands[e.b.call].key in s.pending.draining ==>
      && TotalCount(s) < MAX_PENDING_NOTIFICATIONS
      && TotalBytes(s) + s.hands[e.b.call].entry.bytes <= MAX_PENDING_NOTIFICATION_BYTES
  }

  lemma PendingStepIsExact(p: Pending, e: PendingEvent)
    requires PendingExact(p)
    ensures PendingExact(PendingStep(p, e))
    ensures PendingStep(p, e).count <= p.count && PendingStep(p, e).bytes <= p.bytes
  {
    hide MapSum, SumBytes;
    match e
    case Begin(key) => BeginKeepsExact(p, key);
    case Bound(key) => BoundKeepsExact(p, key);
    case Unbind(key) => UnbindKeepsExact(p, key);
    case Revoke(agent) => RevokeKeepsExact(p, agent);
  }

  /** What bind calls move between the queues and their hands is conserved; only settling and a lost rollback lower it. */
  lemma BindStepIsExact(s: State, e: BindEvent)
    requires Exact(s) && Enabled(s, OnBind(e))
    ensures var next := BindStep(s, e);
      && Exact(next)
      && TotalCount(next) + |next.hands| <= TotalCount(s) + |s.hands|
      && TotalBytes(next) + HandBytes(next.hands) <= TotalBytes(s) + HandBytes(s.hands)
      && (!e.Rollback? ==> TotalCount(next) <= TotalCount(s) && TotalBytes(next) <= TotalBytes(s))
      && (e.Rollback? ==>
            var restored := s.hands[e.call].key in s.pending.draining;
            && TotalCount(next) == TotalCount(s) + (if restored then 1 else 0)
            && TotalBytes(next) == TotalBytes(s) + (if restored then s.hands[e.call].entry.bytes else 0))
  {
    hide PendingExact, CapturesExact, SumBytes, MapSum;
    match e
    case Pop(call, key) =>
      PopKeepsExact(s.pending, key);
      if |QueueOf(s.pending, key)| > 0 {
        MapSumUpdate(s.hands, HeldEntryBytes, call, KeyedEntry(key, QueueOf(s.pending, key)[0]));
      }
    case Settle(call) =>
      MapSumRemove(s.hands, HeldEntryBytes, call);
    case Rollback(call) =>
      RollbackKeepsExact(s.pending, s.hands[call].key, s.hands[call].entry);
      MapSumRemove(s.hands, HeldEntryBytes, call);
  }

  /** A step on the captures raises the total only by an update it admits, and then not above the caps. */
  lemma CaptureStepIsExact(s: State, e: CaptureEvent)
    requires Exact(s) && Enabled(s, OnCaptures(e))
    ensures var next := CaptureStep(s, e);
            && Exact(next) && next.hands == s.hands
            && (WithinCaps(next) || (TotalCount(next) <= TotalCount(s) && TotalBytes(next) <= TotalBytes(s)))
            && (TotalCount(next) > TotalCount(s) ==> WithinCaps(next))
  {
    hide PendingExact, CapturesExact, DistinctKeys, SumBytes, EntriesBytes, CountKey;
    match e
    case Enqueue(key, entry) => AppendKeepsExact(s.pending, key, entry);
    case Admit(key, entry) =>
    case Insert => InsertKeepsExact(s.captures, s.admitting.value.key, s.admitting.value.entry);
    case Start(agent, token, connection) => StartKeepsExact(s.captures, agent, token, connection);
    case Finish(lease, session, publish) => PublishConserves(s.pending, s.captures, lease, session, publish);
    case Remove(agent) => RemoveKeepsExact(s.captures, agent);
    case Failure(agent, connection) => FailureKeepsExact(s.captures, agent, connection);
  }

  /** From a state within the caps, a step stays within them if and only if it is no rollback that finds no room. */
  lemma CapsHoldExactlyWithRoom(s: State, e: Event)
    requires Exact(s) && Enabled(s, e)
    ensures Exact(Step(s, e))
    ensures WithinCaps(s) ==> (WithinCaps(Step(s, e)) <==> FindsRoom(s, e))
  {
    hide PendingExact, CapturesExact, HandBytes;
    match e
    case OnPending(p) =>
      PendingStepIsExact(s.pending, p);
      hide PendingStep;
    case OnBind(b) =>
      BindStepIsExact(s, b);
      hide BindStep;
    case OnCaptures(c) =>
      CaptureStepIsExact(s, c);
      hide CaptureStep;
  }

  /** The steps of the captures do what their operations do, to both sides at once. */
  lemma CaptureStepsMean(s: State, e: CaptureEvent)
    requires Exact(s) && Enabled(s, OnCaptures(e))
    ensures var next := CaptureStep(s, e);
      && (e.Finish? ==> (next.pending, next.captures) == AfterFinish(s.pending, s.captures, e.lease, e.session, e.publish))
      && (e.Insert? ==> next.pending == s.pending && next.admitting.None?
                        && next.captures == AfterInsert(s.captures, s.admitting.value.key, s.admitting.value.entry))
      && (e.Start? || e.Remove? || e.Failure? ==> next.pending == s.pending && next.admitting == s.admitting)
      && (e.Start? ==> next.captures == AfterStart(s.captures, e.agent, e.token, e.connection))
      && (e.Remove? ==> next.captures == AfterRemove(s.captures, e.agent))
      && (e.Failure? ==> next.captures == AfterFailure(s.captures, e.agent, e.connection))
  {
  }

  // ---- runs ----------------------------------------------------------------------------------------------------

  const NOTHING: State := State(Pending(map[], {}, 0, 0), Captures(map[], 0, 0), None, map[])

  ghost predicate IsRun(states: seq<State>, events: seq<Event>)
  {
    && |states| == |events| + 1
    && states[0] == NOTHING
    && forall i | 0 <= i < |events| :: Enabled(states[i], events[i]) && (Admitted(states[i]) ==> states[i + 1] == Step(states[i], events[i]))
  }

  lemma NothingIsExact()
    ensures Exact(NOTHING) && WithinCaps(NOTHING) && TotalCount(NOTHING) == TotalBytes(NOTHING) == 0 && NOTHING.hands == map[]
  {
  }

  /**
   In every interleaving both pairs of counters equal what their queues hold, so no subtraction is
   ever cut off at zero.
   */
  lemma {:induction false} CountersAreTheQueues(states: seq<State>, events: seq<Event>, n: nat)
    requires IsRun(states, events) && n < |states|
    ensures Exact(states[n])
  {
    if n == 0 {
      NothingIsExact();
    } else {
      CountersAreTheQueues(states, events, n - 1);
      hide PendingExact, CapturesExact, Step;
      CapsHoldExactlyWithRoom(states[n - 1], events[n - 1]);
    }
  }

  ghost predicate CapsHeld(states: seq<State>, n: nat)
    requires n < |states|
  {
    forall i | 0 <= i <= n :: WithinCaps(states[i])
  }

  ghost predicate RoomFound(states: seq<State>, events: seq<Event>, n: nat)
    requires |states| == |events| + 1 && n <= |events|
  {
    forall i | 0 <= i < n :: FindsRoom(states[i], events[i])
  }

  /** The caps have held so far if and only if every rollback that put an update back found room for it. */
  lemma {:induction false} CapsHoldExactlyWhileRollbacksFindRoom(states: seq<State>, events: seq<Event>, n: nat)
    requires IsRun(states, events) && n < |states|
    ensures CapsHeld(states, n) <==> RoomFound(states, events, n)
  {
    hide WithinCaps, FindsRoom, Exact, Step, Enabled;
    if n == 0 {
      NothingIsExact();
    } else {
      CapsHoldExactlyWhileRollbacksFindRoom(states, events, n - 1);
      assert CapsHeld(states, n) <==> CapsHeld(states, n - 1) && WithinCaps(states[n]);
      assert RoomFound(states, events, n) <==> RoomFound(states, events, n - 1) && FindsRoom(states[n - 1], events[n - 1]);
      if CapsHeld(states, n - 1) {
        CountersAreTheQueues(states, events, n - 1);
        AdmittedWhenExact(states[n - 1]);
        CapsHoldExactlyWithRoom(states[n - 1], events[n - 1]);
        assert WithinCaps(states[n - 1]);
      }
    }
  }

  lemma AdmittedWhenExact(s: State)
    requires Exact(s)
    ensures Admitted(s)
  {
  }

  /**
   However many rollbacks there are: the totals never pass the caps by more than the most that bind calls had
   in hand at one time.
   */
  lemma {:induction false} CapsPlusHands(states: seq<State>, events: seq<Event>, n: nat, most: nat, mostBytes: nat)
    requires IsRun(states, events) && n < |states|
    requires forall i | 0 <= i <= n :: |states[i].hands| <= most && HandBytes(states[i].hands) <= mostBytes
    ensures TotalCount(states[n]) + |states[n].hands| <= MAX_PENDING_NOTIFICATIONS + most
    ensures TotalBytes(states[n]) + HandBytes(states[n].hands) <= MAX_PENDING_NOTIFICATION_BYTES + mostBytes
  {
    hide HandBytes, PendingExact, CapturesExact;
    NothingIsExact();
    if n > 0 {
      CapsPlusHands(states, events, n - 1, most, mostBytes);
      CountersAreTheQueues(states, events, n - 1);
      StepKeepsPotential(states[n - 1], events[n - 1]);
    }
  }

  /** A step raises what is queued, captured and in hand together only by admitting an update within the caps. */
  lemma StepKeepsPotential(s: State, e: Event)
    requires Exact(s) && Enabled(s, e)
    ensures var next := Step(s, e);
      || (WithinCaps(next) && next.hands == s.hands)
      || (&& TotalCount(next) + |next.hands| <= TotalCount(s) + |s.hands|
          && TotalBytes(next) + HandBytes(next.hands) <= TotalBytes(s) + HandBytes(s.hands))
  {
    hide PendingExact, CapturesExact, HandBytes;
    match e
    case OnPending(p) =>
      PendingStepIsExact(s.pending, p);
      hide PendingStep;
    case OnBind(b) =>
      BindStepIsExact(s, b);
      hide BindStep;
    case OnCaptures(c) =>
      CaptureStepIsExact(s, c);
      hide CaptureStep;
  }

  /** How many updates for `key` the captures of its agent hold. */
  function CapturedFor(c: Captures, key: Key): (n: nat)
  {
    if key.agent in c.agents then |EntriesFor(c.agents[key.agent].entries, key)| else 0
  }

  lemma EntriesForFront(first: KeyedEntry, rest: seq<KeyedEntry>, key: Key)
    ensures EntriesFor([first] + rest, key) == (if first.key == key then [first.entry] else []) + EntriesFor(rest, key)
    decreases |rest|
  {
    if |rest| == 0 {
      assert ([first] + rest)[..|rest|] == [];
    } else {
      assert ([first] + rest)[..|rest|] == [first] + rest[..|rest| - 1];
      EntriesForFront(first, rest[..|rest| - 1], key);
    }
  }

  lemma {:induction false} CountKeyMeans(entries: seq<KeyedEntry>, key: Key)
    ensures CountKey(entries, key) == |EntriesFor(entries, key)|
  {
    if |entries| > 0 {
      assert entries == [entries[0]] + entries[1..];
      EntriesForFront(entries[0], entries[1..], key);
      CountKeyMeans(entries[1..], key);
    }
  }

  /** The sessions that count against their limit: those with a queue or a captured update. */
  lemma DistinctKeysMeans(p: Pending, c: Captures, key: Key)
    ensures key in DistinctKeys(p, c) <==>
              || key in p.sessions
              || exists agent, i | agent in c.agents && 0 <= i < |c.agents[agent].entries| :: c.agents[agent].entries[i].key == key
  {
  }

  /** The limits of an admission: one update, all together, the number of sessions. */
  predicate FitsTheQuota(s: State, key: Key, entry: Entry)
  {
    && entry.bytes <= 256 * 1024
    && TotalCount(s) < 1024 && TotalBytes(s) + entry.bytes <= 4 * 1024 * 1024
    && (key in DistinctKeys(s.pending, s.captures) || |DistinctKeys(s.pending, s.captures)| < 64)
  }

  lemma QuotaMeans(s: State, key: Key, entry: Entry)
    requires s.admitting.None?
    ensures entry.bytes <= 256 * 1024 && QuotaOutcome(s.pending, s.captures, key, entry.bytes).Ok? <==> FitsTheQuota(s, key, entry)
    ensures FitsTheQuota(s, key, entry) ==> TotalCount(s) + 1 <= MAX_PENDING_NOTIFICATIONS && TotalBytes(s) + entry.bytes <= MAX_PENDING_NOTIFICATION_BYTES
  {
    var keys := DistinctKeys(s.pending, s.captures);
    assert key !in keys ==> |keys + {key}| == |keys| + 1;
    hide DistinctKeys;
  }

  /**
   In any state an update that finds no binding is queued if and only if it meets the limits and its session
   holds less than 256 updates.
   */
  lemma QueuedExactlyWithinTheLimits(s: State, key: Key, entry: Entry)
    requires s.admitting.None?
    ensures var next := CaptureStep(s, Enqueue(key, entry));
      && (next != s <==> FitsTheQuota(s, key, entry) && |QueueOf(s.pending, key)| < 256)
      && (next != s ==> WithinCaps(next) && next == s.(pending := Append(s.pending, key, entry)))
  {
    QuotaMeans(s, key, entry);
    hide DistinctKeys, QuotaOutcome, FitsTheQuota;
  }

  /**
   In any state an update is captured if and only if it meets the limits, its agent has a running capture, and
   captured and queued updates of the session together are less than 256.
   */
  lemma CapturedExactlyWithinTheLimits(s: State, key: Key, entry: Entry)
    requires s.admitting.None? && Admitted(s)
    ensures var next := CaptureStep(s, Admit(key, entry));
      && (next != s <==>
           && FitsTheQuota(s, key, entry) && key.agent in s.captures.agents
           && CapturedFor(s.captures, key) + |QueueOf(s.pending, key)| < 256)
      && (next != s ==> WithinCaps(next) && next == s.(admitting := Some(KeyedEntry(key, entry))))
  {
    QuotaMeans(s, key, entry);
    if key.agent in s.captures.agents {
      CountKeyMeans(s.captures.agents[key.agent].entries, key);
    }
    hide DistinctKeys, QuotaOutcome, FitsTheQuota, CountKey, EntriesFor;
  }

  /** A refused update is refused for a limit that it does not meet, and the answer names that limit. */
  lemma RefusalsNameTheirLimit(p: Pending, c: Captures, key: Key, entry: Entry, captured: bool)
    ensures var outcome := if captured then CaptureOutcome(p, c, key, entry) else EnqueueOutcome(p, c, key, entry);
            outcome.Err? ==>
              match outcome.error
              case TooLarge => entry.bytes > 256 * 1024
              case TooManySessions => key !in DistinctKeys(p, c) && |DistinctKeys(p, c)| >= 64
              case QuotaExceeded => p.count + c.count >= 1024 || p.bytes + c.bytes + entry.bytes > 4 * 1024 * 1024
              case SessionFull => |QueueOf(p, key)| + (if captured then CapturedFor(c, key) else 0) >= 256
              case NotCapturing => captured && key.agent !in c.agents
              case _ => false
    ensures captured && key.agent in c.agents ==> CaptureOutcome(p, c, key, entry) != Err(NotCapturing)
  {
    var keys := DistinctKeys(p, c);
    assert key !in keys ==> |keys + {key}| == |keys| + 1;
    if key.agent in c.agents {
      CountKeyMeans(c.agents[key.agent].entries, key);
    }
    hide DistinctKeys, CountKey, EntriesFor;
  }

  /** A bind call has in hand exactly what it popped and has not settled or put back. */
  lemma HandsMean(s: State, e: BindEvent, call: nat)
    requires Enabled(s, OnBind(e))
    ensures var next := BindStep(s, e);
      && (call != e.call ==> (call in next.hands <==> call in s.hands) && (call in s.hands ==> next.hands[call] == s.hands[call]))
      && (e.Pop? ==> (e.call in next.hands <==> |QueueOf(s.pending, e.key)| > 0))
      && (e.Pop? && |QueueOf(s.pending, e.key)| > 0 ==> next.hands[e.call] == KeyedEntry(e.key, QueueOf(s.pending, e.key)[0]))
      && (!e.Pop? ==> e.call !in next.hands)
  {
  }

  // ---- a run that passes a cap -----------------------------------------------------------------------------------

  lemma OneMoreStep(states: seq<State>, events: seq<Event>, e: Event, next: State) returns (moreStates: seq<State>, moreEvents: seq<Event>)
    requires IsRun(states, events) && Enabled(states[|states| - 1], e)
    requires Admitted(states[|states| - 1]) && next == Step(states[|states| - 1], e)
    ensures IsRun(moreStates, moreEvents) && |moreStates| > 0 && moreStates[|moreStates| - 1] == next
  {
    moreStates, moreEvents := states + [next], events + [e];
    hide Step, Enabled, Admitted;
    forall i | 0 <= i < |moreEvents|
      ensures Enabled(moreStates[i], moreEvents[i]) && (Admitted(moreStates[i]) ==> moreStates[i + 1] == Step(moreStates[i], moreEvents[i]))
    {
      if i < |events| {
        assert moreStates[i] == states[i] && moreEvents[i] == events[i] && moreStates[i + 1] == states[i + 1];
      }
    }
  }

  /** The state after `n` equal updates have arrived for one session that is not bound. */
  function Waiting(key: Key, entry: Entry, n: nat, draining: set<Key>, hands: map<nat, KeyedEntry>): (s: State)
  {
    State(Pending(map[key := seq(n, i => entry)], draining, n, n * entry.bytes), Captures(map[], 0, 0), None, hands)
  }

  lemma OneMoreUpdate(key: Key, entry: Entry, n: nat, draining: set<Key>, hands: map<nat, KeyedEntry>)
    requires entry.bytes == MAX_PENDING_SINGLE_NOTIFICATION_BYTES && n < 16
    ensures var s := Waiting(key, entry, n, draining, hands);
            Enabled(s, OnCaptures(Enqueue(key, entry))) && Admitted(s)
            && Step(s, OnCaptures(Enqueue(key, entry))) == Waiting(key, entry, n + 1, draining, hands)
  {
    var s := Waiting(key, entry, n, draining, hands);
    assert QueueOf(s.pending, key) + [entry] == seq(n + 1, i => entry);
    assert key in DistinctKeys(s.pending, s.captures);
    assert EnqueueOutcome(s.pending, s.captures, key, entry).Ok?;
    assert s.pending.sessions[key := seq(n + 1, i => entry)] == map[key := seq(n + 1, i => entry)];
  }

  lemma FirstUpdate(key: Key, entry: Entry)
    requires entry.bytes == MAX_PENDING_SINGLE_NOTIFICATION_BYTES
    ensures Enabled(NOTHING, OnCaptures(Enqueue(key, entry))) && Admitted(NOTHING)
    ensures Step(NOTHING, OnCaptures(Enqueue(key, entry))) == Waiting(key, entry, 1, {}, map[])
  {
    assert [] + [entry] == seq(1, i => entry);
    assert DistinctKeys(NOTHING.pending, NOTHING.captures) == {};
    var nobody: set<Key> := {};
    assert nobody + {key} == {key};
    assert EnqueueOutcome(NOTHING.pending, NOTHING.captures, key, entry).Ok?;
    assert NOTHING.pending.sessions[key := seq(1, i => entry)] == map[key := seq(1, i => entry)];
  }

  lemma {:induction false} Fill(key: Key, entry: Entry, n: nat) returns (states: seq<State>, events: seq<Event>)
    requires entry.bytes == MAX_PENDING_SINGLE_NOTIFICATION_BYTES && 1 <= n <= 16
    ensures IsRun(states, events) && |states| > 0 && states[|states| - 1] == Waiting(key, entry, n, {}, map[])
    decreases n
  {
    if n == 1 {
      FirstUpdate(key, entry);
      states, events := OneMoreStep([NOTHING], [], OnCaptures(Enqueue(key, entry)), Waiting(key, entry, 1, {}, map[]));
    } else {
      states, events := Fill(key, entry, n - 1);
      OneMoreUpdate(key, entry, n - 1, {}, map[]);
      hide IsRun, Step, Enabled, Admitted, Waiting;
      states, events := OneMoreStep(states, events, OnCaptures(Enqueue(key, entry)), Waiting(key, entry, n, {}, map[]));
    }
  }

  /** A bind pops the front of sixteen updates, a seventeenth takes its place, and the bind rolls back. */
  lemma BindMoves(key: Key, entry: Entry)
    requires entry.bytes == MAX_PENDING_SINGLE_NOTIFICATION_BYTES
    ensures var none: map<nat, KeyedEntry>, hand := map[], map[0 := KeyedEntry(key, entry)];
      && Admitted(Waiting(key, entry, 16, {}, none)) && Enabled(Waiting(key, entry, 16, {}, none), OnPending(Begin(key)))
      && Step(Waiting(key, entry, 16, {}, none), OnPending(Begin(key))) == Waiting(key, entry, 16, {key}, none)
      && Admitted(Waiting(key, entry, 16, {key}, none)) && Enabled(Waiting(key, entry, 16, {key}, none), OnBind(Pop(0, key)))
      && Step(Waiting(key, entry, 16, {key}, none), OnBind(Pop(0, key))) == Waiting(key, entry, 15, {key}, hand)
      && Admitted(Waiting(key, entry, 16, {key}, hand)) && Enabled(Waiting(key, entry, 16, {key}, hand), OnBind(Rollback(0)))
      && Step(Waiting(key, entry, 16, {key}, hand), OnBind(Rollback(0))) == Waiting(key, entry, 17, {}, none)
  {
    var sixteen := seq(16, i => entry);
    var none: map<nat, KeyedEntry>, hand := map[], map[0 := KeyedEntry(key, entry)];
    var nobody: set<Key> := {};
    assert nobody + {key} == {key} && {key} - {key} == nobody;
    assert none[0 := KeyedEntry(key, entry)] == hand && hand - {0} == none;
    assert map[key := sixteen][key := sixteen] == map[key := sixteen];
    assert sixteen[1..] == seq(15, i => entry) && [entry] + sixteen == seq(17, i => entry);
    assert map[key := sixteen][key := sixteen[1..]] == map[key := sixteen[1..]];
    assert map[key := sixteen][key := [entry] + sixteen] == map[key := [entry] + sixteen];
  }

  /**
   A run from the empty state in which a rollback passes a cap: sixteen updates of the largest size fill the
   bytes, a bind takes one out, another one takes its place, and the bind puts the first one back.
   */
  lemma RollbackCanExceedTheCaps(key: Key, entry: Entry) returns (states: seq<State>, events: seq<Event>)
    requires entry.bytes == MAX_PENDING_SINGLE_NOTIFICATION_BYTES
    ensures IsRun(states, events) && |states| > 0
    ensures TotalBytes(states[|states| - 1]) == MAX_PENDING_NOTIFICATION_BYTES + MAX_PENDING_SINGLE_NOTIFICATION_BYTES
  {
    var hand := map[0 := KeyedEntry(key, entry)];
    states, events := Fill(key, entry, 16);
    BindMoves(key, entry);
    OneMoreUpdate(key, entry, 15, {key}, hand);
    assert TotalBytes(Waiting(key, entry, 17, {}, map[])) == 17 * MAX_PENDING_SINGLE_NOTIFICATION_BYTES;
    hide IsRun, Step, Enabled, Admitted, Waiting, TotalBytes;
    states, events := OneMoreStep(states, events, OnPending(Begin(key)), Waiting(key, entry, 16, {key}, map[]));
    states, events := OneMoreStep(states, events, OnBind(Pop(0, key)), Waiting(key, entry, 15, {key}, hand));
    states, events := OneMoreStep(states, events, OnCaptures(Enqueue(key, entry)), Waiting(key, entry, 16, {key}, hand));
    states, events := OneMoreStep(states, events, OnBind(Rollback(0)), Waiting(key, entry, 17, {}, map[]));
  }
}
