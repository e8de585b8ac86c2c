/** The pending queues and session-creation captures as the source runs them, updated in place. */
module SessionCapture {
  import opened Bytes
  import opened Outcomes
  import opened MapSums
  import opened CaptureQuota

  class PendingNotificationState {
    var sessions: map<Key, seq<Entry>>
    var draining: set<Key>
    var bytes: nat
    var count: nat

    function View(): (p: Pending)
      reads this
    {
      Pending(sessions, draining, count, bytes)
    }

    constructor ()
      ensures View() == Pending(map[], {}, 0, 0)
    {
      sessions, draining, bytes, count := map[], {}, 0, 0;
    }

    method PushBack(key: Key, entry: Entry)
      modifies this
      ensures View() == Append(old(View()), key, entry)
    {
      var queue := if key in sessions then sessions[key] else [];
      sessions := sessions[key := queue + [entry]];
      count := count + 1;
      bytes := bytes + entry.bytes;
    }

    method PopFront(key: Key) returns (entry: Option<Entry>)
      modifies this
      ensures entry == if |QueueOf(old(View()), key)| == 0 then None else Some(QueueOf(old(View()), key)[0])
      ensures View() == AfterPop(old(View()), key)
    {
      if key !in sessions || |sessions[key]| == 0 {
        return None;
      }
      var front := sessions[key][0];
      sessions := sessions[key := sessions[key][1..]];
      count := SatSub(count, 1);
      bytes := SatSub(bytes, front.bytes);
      return Some(front);
    }

    method BeginDraining(key: Key) returns (r: Result<(), CaptureError>)
      modifies this
      ensures r == if key in old(draining) then Err(AlreadyBinding) else Ok(())
      ensures View() == AfterBegin(old(View()), key)
    {
      if key in draining {
        return Err(AlreadyBinding);
      }
      draining := draining + {key};
      if key !in sessions {
        sessions := sessions[key := []];
      }
      assert sessions == old(sessions)[key := QueueOf(old(View()), key)];
      return Ok(());
    }

    /** The last lock section of a bind: `Ok(true)` when it is done, `Ok(false)` when updates arrived meanwhile. */
    method FinishDraining(key: Key) returns (r: Result<bool, CaptureError>)
      modifies this
      ensures r == if key !in old(draining) then Err(Revoked) else Ok(|QueueOf(old(View()), key)| == 0)
      ensures View() == AfterBound(old(View()), key)
    {
      if key !in draining {
        return Err(Revoked);
      }
      if key in sessions && |sessions[key]| > 0 {
        return Ok(false);
      }
      sessions := sessions - {key};
      draining := draining - {key};
      return Ok(true);
    }

    /** Puts a failed entry back in front; `false` when the session was unbound meanwhile. */
    method Restore(key: Key, entry: Entry) returns (restored: bool)
      modifies this
      ensures restored == (key in old(draining))
      ensures View() == AfterRollback(old(View()), key, entry)
    {
      if key !in draining {
        return false;
      }
      draining := draining - {key};
      var queue := if key in sessions then sessions[key] else [];
      sessions := sessions[key := [entry] + queue];
      count := count + 1;
      bytes := bytes + sessions[key][0].bytes;
      return true;
    }

    method RemoveQueue(key: Key)
      modifies this`sessions, this`count, this`bytes
      ensures View() == AfterUnbind(old(View()), key).(draining := draining)
    {
      if key in sessions {
        var queue := sessions[key];
        sessions := sessions - {key};
        count := SatSub(count, |queue|);
        bytes := SatSub(bytes, SumBytes(queue));
      } else {
        assert sessions - {key} == sessions;
      }
    }

    method Unbind(key: Key)
      modifies this
      ensures View() == AfterUnbind(old(View()), key)
    {
      RemoveQueue(key);
      draining := draining - {key};
    }

    /** Removes the queues of one agent, in any order. */
    method RevokeAgent(agent: AgentId)
      requires PendingExact(View())
      modifies this
      ensures View() == AfterRevoke(old(View()), agent)
    {
      var keys := set key | key in sessions.Keys && key.agent == agent;
      RevokeKeepsExact(View(), agent);
      hide MapSum, SumBytes, PendingExact;
      while keys != {}
        invariant sessions - keys == old(sessions) - KeysOfAgent(old(View()), agent)
        invariant draining == old(draining) && PendingExact(View())
        decreases |keys|
      {
        var key :| key in keys;
        UnbindKeepsExact(View(), key);
        WithoutOneMore(sessions, keys, key);
        ExactIgnoresDraining(AfterUnbind(View(), key), draining);
        RemoveQueue(key);
        keys := keys - {key};
      }
      draining := set key | key in draining && key.agent != agent;
      ExactIgnoresDraining(AfterRevoke(old(View()), agent), draining);
      SameSessionsSameCounts(View(), AfterRevoke(old(View()), agent), old(draining));
    }
  }

  lemma WithoutOneMore(m: map<Key, seq<Entry>>, keys: set<Key>, key: Key)
    requires key in keys
    ensures m - {key} - (keys - {key}) == m - keys
  {
  }

  lemma ExactIgnoresDraining(p: Pending, draining: set<Key>)
    requires PendingExact(p)
    ensures PendingExact(p.(draining := draining))
  {
  }

  /** The queues determine the counters. */
  lemma SameSessionsSameCounts(p: Pending, q: Pending, before: set<Key>)
    requires PendingExact(p.(draining := before)) && PendingExact(q) && p.sessions - {} == q.sessions && p.draining == q.draining
    ensures p == q
  {
    assert p.sessions - {} == p.sessions;
  }

  class SessionCreationCaptureState {
    var agents: map<AgentId, Capture>
    var count: nat
    var bytes: nat

    function View(): (c: Captures)
      reads this
    {
      Captures(agents, count, bytes)
    }

    constructor ()
      ensures View() == Captures(map[], 0, 0)
    {
      agents, count, bytes := map[], 0, 0;
    }

    method Start(agent: AgentId, token: nat, connection: ConnectionId) returns (r: Result<Lease, CaptureError>)
      modifies this
      ensures r == if agent in old(agents) then Err(Conflict) else Ok(Lease(agent, connection, token))
      ensures View() == AfterStart(old(View()), agent, token, connection)
    {
      if agent in agents {
        return Err(Conflict);
      }
      agents := agents[agent := Capture(token, connection, [], false)];
      return Ok(Lease(agent, connection, token));
    }

    method Insert(key: Key, entry: Entry)
      requires key.agent in agents
      modifies this
      ensures View() == AfterInsert(old(View()), key, entry)
    {
      count := count + 1;
      bytes := bytes + entry.bytes;
      var capture := agents[key.agent];
      agents := agents[key.agent := capture.(entries := capture.entries + [KeyedEntry(key, entry)])];
    }

    method RecordFailure(agent: AgentId, connection: ConnectionId)
      modifies this
      ensures View() == AfterFailure(old(View()), agent, connection)
    {
      if agent in agents && agents[agent].connection == connection {
        if !agents[agent].failed {
          agents := agents[agent := agents[agent].(failed := true)];
        } else {
          assert agents[agent := agents[agent].(failed := true)] == agents;
        }
      }
    }

    method Remove(agent: AgentId)
      modifies this
      ensures View() == AfterRemove(old(View()), agent)
    {
      if agent in agents {
        var entries := agents[agent].entries;
        agents := agents - {agent};
        count := SatSub(count, |entries|);
        bytes := SatSub(bytes, EntriesBytes(entries));
      }
    }
  }

  /** Queues an update for a session that is not bound, holding both locks. */
  method Enqueue(captures: SessionCreationCaptureState, pending: PendingNotificationState, key: Key, entry: Entry)
      returns (r: Result<(), CaptureError>)
    modifies pending
    ensures r == EnqueueOutcome(old(pending.View()), captures.View(), key, entry)
    ensures pending.View() == AfterEnqueue(old(pending.View()), captures.View(), key, entry)
  {
    if entry.bytes > MAX_PENDING_SINGLE_NOTIFICATION_BYTES {
      return Err(TooLarge);
    }
    var distinct := pending.sessions.Keys + CapturedKeys(captures.View());
    hide CapturedKeys;
    if key !in distinct && |distinct + {key}| > MAX_PENDING_SESSIONS {
      return Err(TooManySessions);
    }
    if pending.count + captures.count >= MAX_PENDING_NOTIFICATIONS
       || pending.bytes + captures.bytes + entry.bytes > MAX_PENDING_NOTIFICATION_BYTES {
      return Err(QuotaExceeded);
    }
    var queue := if key in pending.sessions then pending.sessions[key] else [];
    if |queue| >= MAX_PENDING_PER_SESSION {
      return Err(SessionFull);
    }
    pending.PushBack(key, entry);
    return Ok(());
  }

  method CountFor(entries: seq<KeyedEntry>, key: Key) returns (n: nat)
    ensures n == CountKey(entries, key)
  {
    n := 0;
    var i := 0;
    assert entries[0..] == entries;
    while i < |entries|
      invariant i <= |entries| && n + CountKey(entries[i..], key) == CountKey(entries, key)
    {
      assert entries[i..][1..] == entries[i + 1..];
      if entries[i].key == key {
        n := n + 1;
      }
      i := i + 1;
    }
  }

  /** Holds an update in the running capture of its agent; `Ok(false)` when there is none. */
  method CaptureCreation(captures: SessionCreationCaptureState, pending: PendingNotificationState, key: Key, entry: Entry)
      returns (r: Result<bool, CaptureError>)
    requires entry.bytes <= MAX_PENDING_SINGLE_NOTIFICATION_BYTES
    modifies captures
    ensures match CaptureOutcome(pending.View(), old(captures.View()), key, entry)
            case Ok(_) => r == Ok(true) && key.agent in old(captures.agents) && captures.View() == AfterInsert(old(captures.View()), key, entry)
            case Err(NotCapturing) => r == Ok(false) && captures.View() == old(captures.View())
            case Err(e) => r == Err(e) && captures.View() == old(captures.View())
  {
    if key.agent !in captures.agents {
      return Ok(false);
    }
    hide CapturedKeys, CountKey;
    var captured := CountFor(captures.agents[key.agent].entries, key);
    var queue := if key in pending.sessions then pending.sessions[key] else [];
    if captured + |queue| >= MAX_PENDING_PER_SESSION {
      return Err(SessionFull);
    }
    var distinct := pending.sessions.Keys + CapturedKeys(captures.View());
    if key !in distinct && |distinct + {key}| > MAX_PENDING_SESSIONS {
      return Err(TooManySessions);
    }
    if pending.count + captures.count >= MAX_PENDING_NOTIFICATIONS
       || pending.bytes + captures.bytes + entry.bytes > MAX_PENDING_NOTIFICATION_BYTES {
      return Err(QuotaExceeded);
    }
    captures.Insert(key, entry);
    return Ok(true);
  }

  /** Which entries of a finished capture are published and which are replayed, in order. */
  method Split(entries: seq<KeyedEntry>, session: Option<SessionId>, publish: bool)
      returns (matching: seq<KeyedEntry>, replay: seq<KeyedEntry>)
    ensures matching == if publish then Matching(entries, session) else []
    ensures replay == Others(entries, session)
  {
    matching, replay := [], [];
    var i := 0;
    while i < |entries|
      invariant i <= |entries|
      invariant matching == if publish then Matching(entries[..i], session) else []
      invariant replay == Others(entries[..i], session)
    {
      assert entries[..i + 1] == entries[..i] + [entries[i]];
      MatchingLast(entries[..i], entries[i], session);
      if ForSession(entries[i], session) {
        if publish {
          matching := matching + [entries[i]];
        }
      } else {
        replay := replay + [entries[i]];
      }
      i := i + 1;
    }
    assert entries[..|entries|] == entries;
  }

  method PublishAll(pending: PendingNotificationState, entries: seq<KeyedEntry>)
    modifies pending
    ensures pending.View() == AppendAll(old(pending.View()), entries)
  {
    var i := 0;
    while i < |entries|
      invariant i <= |entries| && pending.View() == AppendAll(old(pending.View()), entries[..i])
    {
      assert entries[..i + 1][..i] == entries[..i];
      pending.PushBack(entries[i].key, entries[i].entry);
      i := i + 1;
    }
    assert entries[..|entries|] == entries;
  }

  /** Ends a capture: its session's updates become pending, and the others are returned for replay, with whether capturing failed. */
  method Finish(captures: SessionCreationCaptureState, pending: PendingNotificationState, lease: Lease,
                session: Option<SessionId>, publish: bool, missingOk: bool)
      returns (r: Result<seq<KeyedEntry>, CaptureError>, failed: bool)
    modifies captures, pending
    ensures var agents := old(captures.agents);
            if lease.agent !in agents then r == (if missingOk then Ok([]) else Err(Revoked)) && !failed
            else if agents[lease.agent].token != lease.token || agents[lease.agent].connection != lease.connection then
              r == Err(Stale) && !failed
            else r.Ok? && lease.agent !in captures.agents && failed == agents[lease.agent].failed
    ensures var before, outcome := old(captures.View()), FinishOutcome(old(captures.View()), lease, missingOk);
            && (pending.View(), captures.View()) == AfterFinish(old(pending.View()), before, lease, session, publish)
            && (if outcome.Err? then r == Err(outcome.error)
                else r == Ok(if Owns(before, lease) then Others(before.agents[lease.agent].entries, session) else []))
  {
    if lease.agent !in captures.agents {
      return if missingOk then Ok([]) else Err(Revoked), false;
    }
    var capture := captures.agents[lease.agent];
    if capture.token != lease.token || capture.connection != lease.connection {
      return Err(Stale), false;
    }
    var matching, replay := Split(capture.entries, session, publish && !capture.failed);
    captures.Remove(lease.agent);
    PublishAll(pending, matching);
    return Ok(replay), capture.failed;
  }
}
