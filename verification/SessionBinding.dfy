/** Binding a session as the source runs it: drain the pending updates into the store, then publish the binding. */
module SessionBinding {
  import opened Bytes
  import opened Outcomes
  import opened CaptureQuota
  import opened SessionCapture
  import opened BindProtocol

  const MAX_CAPTURE_UPDATES_PER_TURN: nat := 4096
  const MAX_CAPTURE_BYTES_PER_TURN: nat := 16 * 1024 * 1024

  datatype BindError = Queue(reason: CaptureError) | BudgetSpent | StoreFailed

  /** What a session has captured in the current turn. */
  datatype CaptureBudget = CaptureBudget(updates: nat, bytes: nat)

  class HubSessions {
    const pending: PendingNotificationState
    var bound: set<Key>
    var connections: map<AgentId, ConnectionId>
    var budgets: map<Key, CaptureBudget>

    constructor ()
      ensures bound == {} && connections == map[] && budgets == map[] && fresh(pending)
    {
      pending := new PendingNotificationState();
      bound := {};
      connections := map[];
      budgets := map[];
    }
  }

  // ---- the budget of a turn ----------------------------------------------------------------------------

  function BudgetOf(budgets: map<Key, CaptureBudget>, key: Key): (b: CaptureBudget)
  {
    if key in budgets then budgets[key] else CaptureBudget(0, 0)
  }

  predicate Affords(b: CaptureBudget, entry: Entry)
  {
    b.updates < MAX_CAPTURE_UPDATES_PER_TURN && SatAdd(b.bytes, entry.bytes) <= MAX_CAPTURE_BYTES_PER_TURN
  }

  predicate Within(b: CaptureBudget)
  {
    b.updates <= MAX_CAPTURE_UPDATES_PER_TURN && b.bytes <= MAX_CAPTURE_BYTES_PER_TURN
  }

  function Charged(b: CaptureBudget, entries: seq<Entry>): (r: CaptureBudget)
  {
    CaptureBudget(b.updates + |entries|, b.bytes + SumBytes(entries))
  }

  ghost predicate SameElsewhere(budgets: map<Key, CaptureBudget>, others: map<Key, CaptureBudget>, key: Key)
  {
    forall other | other != key :: BudgetOf(budgets, other) == BudgetOf(others, other)
  }

  /** A session that has captured nothing in this turn may capture 4096 updates of 16 MiB together, and no more. */
  lemma NewTurnAffords(budgets: map<Key, CaptureBudget>, key: Key, entries: seq<Entry>)
    requires key !in budgets
    ensures Within(Charged(BudgetOf(budgets, key), entries)) <==> |entries| <= 4096 && SumBytes(entries) <= 16 * 1024 * 1024
  {
  }

  lemma ChargedAppend(b: CaptureBudget, a: seq<Entry>, more: seq<Entry>)
    ensures Charged(b, a + more) == Charged(Charged(b, a), more)
  {
    SumBytesAppend(a, more);
  }

  lemma AffordsMeans(b: CaptureBudget, entry: Entry)
    ensures Affords(b, entry) ==> Within(Charged(b, [entry]))
    ensures Within(Charged(b, [entry])) ==> Affords(b, entry)
  {
    assert SumBytes([entry]) == entry.bytes + SumBytes([entry][1..]) && [entry][1..] == [];
  }

  /** When an entry does not fit any more, neither does any list that goes on with it. */
  lemma NeverFits(b: CaptureBudget, stored: seq<Entry>, entry: Entry, rest: seq<Entry>)
    requires !Affords(Charged(b, stored), entry)
    ensures !Within(Charged(b, stored + ([entry] + rest)))
  {
    AffordsMeans(Charged(b, stored), entry);
    ChargedAppend(b, stored, [entry] + rest);
    ChargedAppend(Charged(b, stored), [entry], rest);
  }

  /** The store's log of the conversation a session is being bound to. */
  class Conversation {
    var stored: seq<Entry>
    const reliable: bool

    constructor (reliable: bool)
      ensures stored == [] && this.reliable == reliable
    {
      stored := [];
      this.reliable := reliable;
    }

    /** A durable write either appends the update or, when the store is not reliable, may change nothing. */
    method Capture(entry: Entry) returns (ok: bool)
      modifies this
      ensures stored == if ok then old(stored) + [entry] else old(stored)
      ensures !ok ==> !reliable
    {
      if !reliable {
        if * {
          return false;
        }
      }
      stored := stored + [entry];
      return true;
    }
  }

  /** The updates of a queue that still belong to the agent's connection, if it has one. */
  function LiveIn(connections: map<AgentId, ConnectionId>, key: Key, queue: seq<Entry>): (r: seq<Entry>)
  {
    if key.agent in connections then Live(queue, connections[key.agent]) else []
  }

  lemma LiveInFront(connections: map<AgentId, ConnectionId>, key: Key, entry: Entry, queue: seq<Entry>)
    ensures LiveIn(connections, key, [entry] + queue) ==
              (if key.agent in connections && connections[key.agent] == entry.connection then [entry] else []) + LiveIn(connections, key, queue)
  {
    if key.agent in connections {
      LiveFront(entry, queue, connections[key.agent]);
    }
  }

  lemma LiveInAppend(connections: map<AgentId, ConnectionId>, key: Key, a: seq<Entry>, b: seq<Entry>)
    ensures LiveIn(connections, key, a + b) == LiveIn(connections, key, a) + LiveIn(connections, key, b)
  {
    if key.agent in connections {
      LiveAppend(a, b, connections[key.agent]);
    }
  }

  lemma AppendAllToOneQueue(p: Pending, key: Key, entry: Entry)
    ensures QueueOf(Append(p, key, entry), key) == QueueOf(p, key) + [entry] && Append(p, key, entry).draining == p.draining
  {
  }

  /** Updates that other threads queue between two lock sections of a bind. */
  method LetArrive(pending: PendingNotificationState, key: Key, batch: seq<Entry>)
    modifies pending
    ensures QueueOf(pending.View(), key) == QueueOf(old(pending.View()), key) + batch
    ensures pending.draining == old(pending.draining)
  {
    var i := 0;
    while i < |batch|
      invariant i <= |batch| && pending.draining == old(pending.draining)
      invariant QueueOf(pending.View(), key) == QueueOf(old(pending.View()), key) + batch[..i]
    {
      AppendAllToOneQueue(pending.View(), key, batch[i]);
      pending.PushBack(key, batch[i]);
      assert batch[..i + 1] == batch[..i] + [batch[i]];
      i := i + 1;
    }
    assert batch[..|batch|] == batch;
  }

  /** Charges the turn, then writes; a write that fails gives the charge back. */
  method CaptureBound(hub: HubSessions, key: Key, conversation: Conversation, entry: Entry) returns (r: Result<(), BindError>)
    modifies hub`budgets, conversation
    ensures var was, now := BudgetOf(old(hub.budgets), key), BudgetOf(hub.budgets, key);
      && SameElsewhere(hub.budgets, old(hub.budgets), key)
      && (r.Ok? ==> Affords(was, entry) && now == Charged(was, [entry]) && conversation.stored == old(conversation.stored) + [entry])
      && (r.Err? ==> r.error == (if Affords(was, entry) then StoreFailed else BudgetSpent)
                     && now == was && conversation.stored == old(conversation.stored))
      && (r == Err(StoreFailed) ==> !conversation.reliable)
  {
    var budget := BudgetOf(hub.budgets, key);
    AffordsMeans(budget, entry);
    if budget.updates >= MAX_CAPTURE_UPDATES_PER_TURN || SatAdd(budget.bytes, entry.bytes) > MAX_CAPTURE_BYTES_PER_TURN {
      hub.budgets := hub.budgets[key := budget];
      return Err(BudgetSpent);
    }
    hub.budgets := hub.budgets[key := CaptureBudget(budget.updates + 1, budget.bytes + entry.bytes)];
    assert SumBytes([entry]) == entry.bytes + SumBytes([entry][1..]) && [entry][1..] == [];
    var written := conversation.Capture(entry);
    if !written {
      budget := hub.budgets[key];
      hub.budgets := hub.budgets[key := CaptureBudget(SatSub(budget.updates, 1), SatSub(budget.bytes, entry.bytes))];
      return Err(StoreFailed);
    }
    return Ok(());
  }

  /** One entry off the queue: dropped when it is stale, captured, or put back in front when capturing fails. */
  method DrainOne(hub: HubSessions, key: Key, conversation: Conversation, entry: Entry, late: seq<Entry>)
      returns (r: Result<(), BindError>, ghost arrived: seq<Entry>)
    requires key in hub.pending.draining
    modifies hub`budgets, hub.pending, conversation
    ensures SameElsewhere(hub.budgets, old(hub.budgets), key)
    ensures r.Ok? ==>
              var live := LiveIn(hub.connections, key, [entry]);
              && arrived == [] && key in hub.pending.draining && hub.pending.View() == old(hub.pending.View())
              && conversation.stored == old(conversation.stored) + live
              && BudgetOf(hub.budgets, key) == Charged(BudgetOf(old(hub.budgets), key), live)
              && (live == [entry] ==> Affords(BudgetOf(old(hub.budgets), key), entry))
    ensures r.Err? ==>
              && arrived == late && key !in hub.pending.draining && LiveIn(hub.connections, key, [entry]) == [entry]
              && r.error == (if Affords(BudgetOf(hub.budgets, key), entry) then StoreFailed else BudgetSpent)
              && (r.error == StoreFailed ==> !conversation.reliable)
              && conversation.stored == old(conversation.stored) && BudgetOf(hub.budgets, key) == BudgetOf(old(hub.budgets), key)
              && QueueOf(hub.pending.View(), key) == [entry] + QueueOf(old(hub.pending.View()), key) + late
  {
    arrived := [];
    LiveInFront(hub.connections, key, entry, []);
    assert [entry] + [] == [entry] && LiveIn(hub.connections, key, []) == [];
    if key.agent !in hub.connections || hub.connections[key.agent] != entry.connection {
      return Ok(()), arrived;
    }
    var before := BudgetOf(hub.budgets, key);
    var captured := CaptureBound(hub, key, conversation, entry);
    if captured.Ok? {
      return Ok(()), arrived;
    }
    LetArrive(hub.pending, key, late);
    arrived := late;
    ghost var queue := QueueOf(hub.pending.View(), key);
    var restored := hub.pending.Restore(key, entry);
    assert QueueOf(hub.pending.View(), key) == [entry] + queue;
    if restored {
      hub.budgets := hub.budgets[key := before];
    }
    return captured, arrived;
  }

  /** Stored and pending together are `all`, and the turn is charged what was stored. */
  ghost predicate OnTrack(connections: map<AgentId, ConnectionId>, key: Key, was: CaptureBudget, all: seq<Entry>,
                          stored: seq<Entry>, queue: seq<Entry>, budget: CaptureBudget)
  {
    && stored + LiveIn(connections, key, queue) == LiveIn(connections, key, all)
    && budget == Charged(was, stored)
    && (Within(was) ==> Within(budget))
  }

  /** A bind that ended: what it did with `live`, which is all that was live and pending or arrived meanwhile. */
  ghost predicate Ended(connections: map<AgentId, ConnectionId>, key: Key, was: CaptureBudget, live: seq<Entry>,
                        stored: seq<Entry>, queue: seq<Entry>, budget: CaptureBudget, r: Result<(), BindError>, reliable: bool)
  {
    && stored + LiveIn(connections, key, queue) == live
    && budget == Charged(was, stored)
    && (r.Ok? ==> queue == [])
    && (r.Err? ==>
          && |queue| > 0 && LiveIn(connections, key, [queue[0]]) == [queue[0]]
          && r.error == (if Affords(budget, queue[0]) then StoreFailed else BudgetSpent)
          && (r.error == StoreFailed ==> !reliable))
    && (reliable && Within(was) ==> (r.Ok? <==> Within(Charged(was, live))))
  }

  lemma OnTrackAtFirst(connections: map<AgentId, ConnectionId>, key: Key, was: CaptureBudget, queue: seq<Entry>)
    ensures OnTrack(connections, key, was, queue, [], queue, was)
  {
    assert [] + LiveIn(connections, key, queue) == LiveIn(connections, key, queue);
  }

  /** A batch that arrives is behind everything pending. */
  lemma OnTrackArrived(connections: map<AgentId, ConnectionId>, key: Key, was: CaptureBudget, all: seq<Entry>,
                       stored: seq<Entry>, queue: seq<Entry>, budget: CaptureBudget, batch: seq<Entry>)
    requires OnTrack(connections, key, was, all, stored, queue, budget)
    ensures OnTrack(connections, key, was, all + batch, stored, queue + batch, budget)
  {
    LiveInAppend(connections, key, queue, batch);
    LiveInAppend(connections, key, all, batch);
    hide LiveIn, Charged, Within;
    assert stored + (LiveIn(connections, key, queue) + LiveIn(connections, key, batch)) ==
           (stored + LiveIn(connections, key, queue)) + LiveIn(connections, key, batch);
  }

  /** Storing the live part of the front entry keeps stored and pending together what they were. */
  lemma LiveStored(connections: map<AgentId, ConnectionId>, key: Key, stored: seq<Entry>, queue: seq<Entry>)
    requires |queue| > 0
    ensures var live := LiveIn(connections, key, [queue[0]]);
      && (live == [] || live == [queue[0]])
      && (stored + live) + LiveIn(connections, key, queue[1..]) == stored + LiveIn(connections, key, queue)
  {
    LiveInFront(connections, key, queue[0], []);
    assert LiveIn(connections, key, []) == [] && [queue[0]] + [] == [queue[0]];
    assert queue == [queue[0]] + queue[1..];
    LiveInAppend(connections, key, [queue[0]], queue[1..]);
  }

  lemma OnTrackStored(connections: map<AgentId, ConnectionId>, key: Key, was: CaptureBudget, all: seq<Entry>,
                      stored: seq<Entry>, queue: seq<Entry>, budget: CaptureBudget)
    requires |queue| > 0 && OnTrack(connections, key, was, all, stored, queue, budget)
    requires LiveIn(connections, key, [queue[0]]) == [queue[0]] ==> Affords(budget, queue[0])
    ensures var live := LiveIn(connections, key, [queue[0]]);
            OnTrack(connections, key, was, all, stored + live, queue[1..], Charged(budget, live))
  {
    assert Charged(budget, []) == budget;
    hide LiveIn, Affords, Within, Charged;
    var live := LiveIn(connections, key, [queue[0]]);
    LiveStored(connections, key, stored, queue);
    ChargedAppend(was, stored, live);
    AffordsMeans(budget, queue[0]);
  }

  lemma EndsWell(connections: map<AgentId, ConnectionId>, key: Key, was: CaptureBudget, all: seq<Entry>,
                 stored: seq<Entry>, budget: CaptureBudget, reliable: bool)
    requires OnTrack(connections, key, was, all, stored, [], budget)
    ensures Ended(connections, key, was, LiveIn(connections, key, all), stored, [], budget, Ok(()), reliable)
  {
    assert LiveIn(connections, key, []) == [] && stored + [] == stored;
  }

  /** What the budget refuses in front of the queue, it refuses in everything live. */
  lemma EndsRefused(connections: map<AgentId, ConnectionId>, key: Key, was: CaptureBudget, before: seq<Entry>, arrived: seq<Entry>,
                    late: seq<Entry>, stored: seq<Entry>, queue: seq<Entry>, budget: CaptureBudget, error: BindError, reliable: bool)
    requires OnTrack(connections, key, was, before + arrived, stored, queue, budget)
    requires |queue| > 0 && LiveIn(connections, key, [queue[0]]) == [queue[0]]
    requires error == (if Affords(budget, queue[0]) then StoreFailed else BudgetSpent) && (error == StoreFailed ==> !reliable)
    ensures Ended(connections, key, was, LiveIn(connections, key, before + (arrived + late)), stored, queue + late, budget,
                  Err(error), reliable)
  {
    OnTrackArrived(connections, key, was, before + arrived, stored, queue, budget, late);
    assert before + arrived + late == before + (arrived + late);
    var rest := queue[1..] + late;
    assert queue + late == [queue[0]] + rest;
    LiveInAppend(connections, key, [queue[0]], rest);
    hide LiveIn, Affords, Within, Charged;
    if !Affords(budget, queue[0]) {
      NeverFits(was, stored, queue[0], LiveIn(connections, key, rest));
    }
  }

  lemma StoredFrom(log: seq<Entry>, from: nat, live: seq<Entry>)
    requires from <= |log|
    ensures (log + live)[from..] == log[from..] + live
  {
  }

  /** Updates that arrive during a bind join what is pending. */
  method LetArriveOnTrack(hub: HubSessions, key: Key, ghost was: CaptureBudget, ghost before: seq<Entry>, ghost arrived: seq<Entry>,
                          ghost stored: seq<Entry>, batch: seq<Entry>)
      returns (ghost now: seq<Entry>)
    requires OnTrack(hub.connections, key, was, before + arrived, stored, QueueOf(hub.pending.View(), key), BudgetOf(hub.budgets, key))
    modifies hub.pending
    ensures now == arrived + batch && hub.pending.draining == old(hub.pending.draining)
    ensures QueueOf(hub.pending.View(), key) == QueueOf(old(hub.pending.View()), key) + batch
    ensures OnTrack(hub.connections, key, was, before + now, stored, QueueOf(hub.pending.View(), key), BudgetOf(hub.budgets, key))
  {
    hide OnTrack, QueueOf;
    OnTrackArrived(hub.connections, key, was, before + arrived, stored, QueueOf(hub.pending.View(), key), BudgetOf(hub.budgets, key), batch);
    LetArrive(hub.pending, key, batch);
    now := arrived + batch;
    assert before + arrived + batch == before + now;
  }

  /**
   The lock section that takes the front entry; when there is none, the one that publishes the binding unless
   `more` came in between.
   */
  method TakeOrPublish(hub: HubSessions, key: Key, ghost was: CaptureBudget, ghost before: seq<Entry>, ghost arrived: seq<Entry>,
                       ghost stored: seq<Entry>, batch: seq<Entry>, more: seq<Entry>)
      returns (entry: Option<Entry>, published: bool, ghost now: seq<Entry>)
    requires key in hub.pending.draining
    requires OnTrack(hub.connections, key, was, before + arrived, stored, QueueOf(hub.pending.View(), key), BudgetOf(hub.budgets, key))
    modifies hub`bound, hub.pending
    ensures now == arrived + batch + if entry.None? then more else []
    ensures published ==> entry.None? && key !in hub.pending.draining && QueueOf(hub.pending.View(), key) == []
    ensures !published ==> key in hub.pending.draining && (entry.Some? || more != [])
    ensures hub.bound == if published then old(hub.bound) + {key} else old(hub.bound)
    ensures var queue := if entry.Some? then [entry.value] + QueueOf(hub.pending.View(), key) else QueueOf(hub.pending.View(), key);
      && OnTrack(hub.connections, key, was, before + now, stored, queue, BudgetOf(hub.budgets, key))
      && (entry.Some? ==> |queue| == |QueueOf(old(hub.pending.View()), key)| + |batch|)
  {
    hide OnTrack, BudgetOf;
    published := false;
    now := LetArriveOnTrack(hub, key, was, before, arrived, stored, batch);
    ghost var queue := QueueOf(hub.pending.View(), key);
    entry := hub.pending.PopFront(key);
    if entry.Some? {
      assert queue == [entry.value] + queue[1..] && arrived + batch + [] == arrived + batch;
      return;
    }
    now := LetArriveOnTrack(hub, key, was, before, now, stored, more);
    queue := QueueOf(hub.pending.View(), key);
    var finished := hub.pending.FinishDraining(key);
    if finished == Ok(true) {
      hub.bound := hub.bound + {key};
      published := true;
    }
  }

  lemma SameBudgets(budgets: map<Key, CaptureBudget>, key: Key)
    ensures var now := budgets[key := BudgetOf(budgets, key)];
            BudgetOf(now, key) == BudgetOf(budgets, key) && SameElsewhere(now, budgets, key)
    ensures SameElsewhere(budgets, budgets, key)
  {
  }

  lemma SameElsewhereStep(budgets: map<Key, CaptureBudget>, between: map<Key, CaptureBudget>, others: map<Key, CaptureBudget>, key: Key)
    requires SameElsewhere(budgets, between, key) && SameElsewhere(between, others, key)
    ensures SameElsewhere(budgets, others, key)
  {
  }

  /** One turn of the loop with an entry in hand. */
  method StoreTaken(hub: HubSessions, key: Key, conversation: Conversation, ghost was: CaptureBudget, ghost before: seq<Entry>,
                    ghost arrived: seq<Entry>, ghost from: nat, entry: Entry, late: seq<Entry>)
      returns (r: Result<(), BindError>, ghost now: seq<Entry>)
    requires key in hub.pending.draining && from <= |conversation.stored|
    requires OnTrack(hub.connections, key, was, before + arrived, conversation.stored[from..],
                     [entry] + QueueOf(hub.pending.View(), key), BudgetOf(hub.budgets, key))
    modifies hub`budgets, hub.pending, conversation
    ensures SameElsewhere(hub.budgets, old(hub.budgets), key) && old(conversation.stored) <= conversation.stored
    ensures r.Ok? ==>
              && now == arrived && key in hub.pending.draining && hub.pending.View() == old(hub.pending.View())
              && OnTrack(hub.connections, key, was, before + now, conversation.stored[from..],
                         QueueOf(hub.pending.View(), key), BudgetOf(hub.budgets, key))
    ensures r.Err? ==>
              && key !in hub.pending.draining
              && Ended(hub.connections, key, was, LiveIn(hub.connections, key, before + now), conversation.stored[from..],
                       QueueOf(hub.pending.View(), key), BudgetOf(hub.budgets, key), r, conversation.reliable)
  {
    ghost var stored, queue, budget := conversation.stored[from..], [entry] + QueueOf(hub.pending.View(), key), BudgetOf(hub.budgets, key);
    now := arrived;
    hide OnTrack, Ended, Affords, Charged, BudgetOf, SameElsewhere, LiveIn, QueueOf;
    ghost var more;
    r, more := DrainOne(hub, key, conversation, entry, late);
    if r.Ok? {
      OnTrackStored(hub.connections, key, was, before + arrived, stored, queue, budget);
      StoredFrom(old(conversation.stored), from, LiveIn(hub.connections, key, [entry]));
      assert queue[1..] == QueueOf(hub.pending.View(), key);
    } else {
      now := arrived + late;
      EndsRefused(hub.connections, key, was, before, arrived, late, stored, queue, budget, r.error, conversation.reliable);
    }
  }

  /**
   Binds a session while the batches of `arrivals` are queued between its lock sections.  On success
   everything live that was pending or arrived is stored once, in order, before the binding is
   published; on a failure nothing is bound and what is not stored is pending again, in order.  The
   turn is charged exactly what was stored.  With a reliable store a bind succeeds exactly when the
   turn's budget covers everything live.
   */
  method BindSession(hub: HubSessions, key: Key, conversation: Conversation, arrivals: seq<seq<Entry>>)
      returns (r: Result<(), BindError>, ghost arrived: seq<Entry>)
    modifies hub`bound, hub`budgets, hub.pending, conversation
    ensures SameElsewhere(hub.budgets, old(hub.budgets), key)
    ensures key in old(hub.pending.draining) ==>
              r == Err(Queue(AlreadyBinding)) && hub.bound == old(hub.bound) && hub.budgets == old(hub.budgets)
              && hub.pending.View() == old(hub.pending.View()) && conversation.stored == old(conversation.stored)
    ensures key !in old(hub.pending.draining) ==>
              && key !in hub.pending.draining && (key in hub.bound <==> r.Ok?)
              && old(conversation.stored) <= conversation.stored
              && Ended(hub.connections, key, BudgetOf(old(hub.budgets), key),
                       LiveIn(hub.connections, key, QueueOf(old(hub.pending.View()), key) + arrived),
                       conversation.stored[|old(conversation.stored)|..], QueueOf(hub.pending.View(), key),
                       BudgetOf(hub.budgets, key), r, conversation.reliable)
  {
    arrived := [];
    var began := hub.pending.BeginDraining(key);
    if began.Err? {
      return Err(Queue(began.error)), arrived;
    }
    hub.bound := hub.bound - {key};
    ghost var was := BudgetOf(hub.budgets, key);
    hub.budgets := hub.budgets[key := BudgetOf(hub.budgets, key)];
    var pending, next := hub.pending, 0;
    ghost var before, log := QueueOf(old(hub.pending.View()), key), conversation.stored;
    assert before + [] == before && log[|log|..] == [];
    OnTrackAtFirst(hub.connections, key, was, before);
    SameBudgets(old(hub.budgets), key);
    hide LiveIn, Affords, Charged, SameElsewhere, OnTrack, Ended, BudgetOf;
    while true
      invariant pending == hub.pending && key in pending.draining && key !in hub.bound && next <= |arrivals|
      invariant log <= conversation.stored && SameElsewhere(hub.budgets, old(hub.budgets), key)
      invariant OnTrack(hub.connections, key, was, before + arrived, conversation.stored[|log|..],
                        QueueOf(pending.View(), key), BudgetOf(hub.budgets, key))
      decreases |arrivals| - next, |QueueOf(pending.View(), key)|
    {
      ghost var stored, budgets := conversation.stored[|log|..], hub.budgets;
      var batch := if next < |arrivals| then arrivals[next] else [];
      next := if next < |arrivals| then next + 1 else next;
      var more := if next < |arrivals| then arrivals[next] else [];
      var entry, published, now := TakeOrPublish(hub, key, was, before, arrived, stored, batch, more);
      arrived := now;
      if published {
        EndsWell(hub.connections, key, was, before + arrived, stored, BudgetOf(hub.budgets, key), conversation.reliable);
        return Ok(()), arrived;
      }
      if entry.None? {
        next := if next < |arrivals| then next + 1 else next;
        continue;
      }
      var taken, all := StoreTaken(hub, key, conversation, was, before, arrived, |log|, entry.value, more);
      arrived := all;
      SameElsewhereStep(hub.budgets, budgets, old(hub.budgets), key);
      if taken.Err? {
        return taken, arrived;
      }
    }
  }
}
