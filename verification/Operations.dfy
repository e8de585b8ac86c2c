/** The operation map, the runtime cache and the run store that cancelling keeps in step. */
module Operations {
  import opened Outcomes
  import opened CancelProtocol

  type ConvId = nat
  type AgentId = nat

  datatype Kind = Prompt(run: Run, session: nat, cancelRequested: bool) | ExternalRun(run: Run)

  datatype Entry = Entry(token: Token, agent: AgentId, kind: Kind)

  datatype OperationError = Conflict(conv: ConvId)

  datatype Lease = Lease(conv: ConvId, token: Token)

  /** No agent works on two prompts at a time. */
  ghost predicate OnePromptPerAgent(entries: map<ConvId, Entry>)
  {
    forall a, b | a in entries && b in entries && entries[a].kind.Prompt? && entries[b].kind.Prompt? && entries[a].agent == entries[b].agent :: a == b
  }

  class OperationMap {
    var entries: map<ConvId, Entry>

    constructor ()
      ensures entries == map[] && OnePromptPerAgent(entries)
    {
      entries := map[];
    }

    /** Refused while the conversation has an operation, or, for a prompt, while its agent has a prompt. */
    method Reserve(conv: ConvId, agent: AgentId, kind: Kind, token: Token) returns (r: Result<Lease, OperationError>)
      modifies this
      ensures r.Err? <==>
                || conv in old(entries)
                || (kind.Prompt? && exists c | c in old(entries) :: old(entries)[c].agent == agent && old(entries)[c].kind.Prompt?)
      ensures r.Ok? ==> r.value == Lease(conv, token) && entries == old(entries)[conv := Entry(token, agent, kind)]
      ensures r.Err? ==> entries == old(entries)
      ensures old(OnePromptPerAgent(entries)) ==> OnePromptPerAgent(entries)
    {
      if conv in entries {
        return Err(Conflict(conv));
      }
      if kind.Prompt? && exists c | c in entries.Keys :: entries[c].agent == agent && entries[c].kind.Prompt? {
        return Err(Conflict(conv));
      }
      entries := entries[conv := Entry(token, agent, kind)];
      return Ok(Lease(conv, token));
    }

    /** Dropping a lease removes its own operation and never a later one. */
    method Release(lease: Lease)
      modifies this
      ensures entries == if lease.conv in old(entries) && old(entries)[lease.conv].token == lease.token
                         then old(entries) - {lease.conv} else old(entries)
      ensures old(OnePromptPerAgent(entries)) ==> OnePromptPerAgent(entries)
    {
      if lease.conv in entries && entries[lease.conv].token == lease.token {
        entries := entries - {lease.conv};
      }
    }
  }

  datatype State = LiveState | CancellingState

  datatype CacheEntry = CacheEntry(state: State, generation: nat)

  class RuntimeCache {
    var sessions: map<ConvId, CacheEntry>
    var nextGeneration: nat

    constructor ()
      ensures sessions == map[] && nextGeneration == 1
    {
      sessions, nextGeneration := map[], 1;
    }

    ghost function View(conv: ConvId): (r: Option<Runtime>)
      reads this
    {
      if conv !in sessions then None
      else if sessions[conv].state.LiveState? then Some(Live(sessions[conv].generation))
      else Some(BeingCancelled(sessions[conv].generation))
    }

    /** Taking a run lease: a fresh generation, and a live entry under it. */
    method AcquireLease(conv: ConvId) returns (generation: nat)
      modifies this
      ensures generation == old(nextGeneration) + 1 == nextGeneration
      ensures View(conv) == Some(Live(generation))
      ensures sessions == old(sessions)[conv := CacheEntry(LiveState, generation)]
      ensures forall other | other != conv :: View(other) == old(View(other))
    {
      nextGeneration := nextGeneration + 1;
      generation := nextGeneration;
      sessions := sessions[conv := CacheEntry(LiveState, generation)];
    }

    method Transition(conv: ConvId, from: State, to: State, generation: nat) returns (applied: bool)
      modifies this`sessions
      ensures applied <==> conv in old(sessions) && old(sessions)[conv].state == from && old(sessions)[conv].generation <= generation
      ensures sessions == if applied then old(sessions)[conv := old(sessions)[conv].(state := to)] else old(sessions)
    {
      if conv in sessions && sessions[conv].state == from && sessions[conv].generation <= generation {
        sessions := sessions[conv := sessions[conv].(state := to)];
        return true;
      }
      return false;
    }

    /** Completing a run lets its conversation go back to live, unless a later lease owns it. */
    method CompleteLease(conv: ConvId, generation: nat)
      modifies this`sessions
      ensures View(conv) == ToLive(old(View(conv)), generation)
      ensures sessions == if conv in old(sessions) && old(sessions)[conv].state == CancellingState && old(sessions)[conv].generation <= generation
                          then old(sessions)[conv := CacheEntry(LiveState, old(sessions)[conv].generation)] else old(sessions)
      ensures forall other | other != conv :: View(other) == old(View(other))
    {
      var applied := Transition(conv, CancellingState, LiveState, generation);
    }
  }

  class RunStore {
    var runs: map<Run, Status>
    const reliable: bool

    constructor (reliable: bool)
      ensures runs == map[] && this.reliable == reliable
    {
      runs := map[];
      this.reliable := reliable;
    }

    /** A compare-and-set; an unreliable database may fail it, which is `None` and changes nothing. */
    method CompareAndSet(run: Run, from: Status, to: Status) returns (r: Option<bool>)
      modifies this
      ensures r.None? ==> runs == old(runs) && !reliable
      ensures r.Some? ==> runs == Cas(old(runs), run, from, to) && (r.value <==> run in old(runs) && old(runs)[run] == from)
    {
      if !reliable {
        if * {
          return None;
        }
      }
      if run !in runs || runs[run] != from {
        return Some(false);
      }
      runs := runs[run := to];
      return Some(true);
    }
  }

  datatype CancelAnswer = Requested | NotRequested | NotBusy | StoreError | RuntimeLost | RollbackLost

  /** The first lock section: what a later section has to find unchanged. */
  method TakeSnapshotOf(operations: OperationMap, conv: ConvId) returns (r: Result<Entry, CancelAnswer>)
    ensures r.Ok? <==> conv in operations.entries && operations.entries[conv].kind.Prompt? && !operations.entries[conv].kind.cancelRequested
    ensures r.Ok? ==> r.value == operations.entries[conv]
    ensures r.Err? ==> r.error == if conv in operations.entries && operations.entries[conv].kind.Prompt? then NotRequested else NotBusy
  {
    if conv !in operations.entries || !operations.entries[conv].kind.Prompt? {
      return Err(NotBusy);
    }
    if operations.entries[conv].kind.cancelRequested {
      return Err(NotRequested);
    }
    return Ok(operations.entries[conv]);
  }

  /**
   The second lock section.  It answers `Requested` only when the operation is the snapshotted one, and
   then store, runtime and flag have all changed; with every other answer the flag and the runtime are
   untouched, and so is the store unless the rollback itself was lost.
   */
  method CancelSection(operations: OperationMap, runtime: RuntimeCache, store: RunStore, conv: ConvId, snapshot: Entry)
      returns (answer: CancelAnswer)
    requires snapshot.kind.Prompt? && !snapshot.kind.cancelRequested
    modifies operations, runtime`sessions, store
    ensures answer.Requested? ==>
              && conv in old(operations.entries) && old(operations.entries)[conv] == snapshot
              && snapshot.kind.run in old(store.runs) && old(store.runs)[snapshot.kind.run] == Running
              && store.runs == old(store.runs)[snapshot.kind.run := Cancelling]
              && old(runtime.View(conv)).Some? && old(runtime.View(conv)).value.Live?
              && conv in old(runtime.sessions)
              && runtime.sessions == old(runtime.sessions)[conv := CacheEntry(CancellingState, old(runtime.sessions)[conv].generation)]
              && runtime.View(conv) == Some(BeingCancelled(old(runtime.View(conv)).value.generation))
              && operations.entries == old(operations.entries)[conv := snapshot.(kind := snapshot.kind.(cancelRequested := true))]
    ensures !answer.Requested? ==>
              && operations.entries == old(operations.entries) && runtime.sessions == old(runtime.sessions)
              && (!answer.RollbackLost? ==> store.runs == old(store.runs))
    ensures match answer
            case Requested => true
            case NotRequested =>
              || conv !in old(operations.entries) || old(operations.entries)[conv] != snapshot
              || snapshot.kind.run !in old(store.runs) || old(store.runs)[snapshot.kind.run] != Running
            case RuntimeLost =>
              && conv in old(operations.entries) && old(operations.entries)[conv] == snapshot
              && snapshot.kind.run in old(store.runs) && old(store.runs)[snapshot.kind.run] == Running
              && (old(runtime.View(conv)).None? || old(runtime.View(conv)).value.BeingCancelled?)
            case NotBusy => false
            case _ => !store.reliable && conv in old(operations.entries) && old(operations.entries)[conv] == snapshot
  {
    if conv !in operations.entries || operations.entries[conv] != snapshot {
      return NotRequested;
    }
    var run := snapshot.kind.run;
    var marked := store.CompareAndSet(run, Running, Cancelling);
    if marked.None? {
      return StoreError;
    }
    if !marked.value {
      return NotRequested;
    }
    var claimed := false;
    if conv in runtime.sessions {
      claimed := runtime.Transition(conv, LiveState, CancellingState, runtime.sessions[conv].generation);
    }
    if !claimed {
      var rolledBack := store.CompareAndSet(run, Cancelling, Running);
      if rolledBack == Some(true) {
        assert store.runs == old(store.runs);
        return RuntimeLost;
      }
      return RollbackLost;
    }
    operations.entries := operations.entries[conv := snapshot.(kind := snapshot.kind.(cancelRequested := true))];
    return Requested;
  }
}
