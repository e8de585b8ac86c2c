/**
 The cache of live agent connections against the registry they are built from.  Any number of
 `agent_handle` calls and one registry mutation at a time interleave, one await or lock section a step.
 */
module HandleCache {
  import opened Outcomes
  import opened Registry

  /** An `agent_handle` call.  From `Locked` on it holds the agent's initialization lock. */
  datatype Call =
    | Outside
    | Waiting(agent: Id)
    | Locked(agent: Id)
    | Missing(agent: Id)
    | Snapshot(agent: Id, image: Image)
    | Started(agent: Id, image: Image, epoch: nat)
    | Connected(agent: Id, built: Built, epoch: nat)
    | EpochChecked(agent: Id, built: Built)
    | Confirmed(agent: Id, built: Built)

  /** The running mutation: it takes the locks of the affected agents, commits, and tears their handles down. */
  datatype Mutation =
    | NoMutation
    | Planning(next: Image, affected: set<Id>, locked: set<Id>)
    | Published(before: Image, affected: set<Id>)
    | Bumped(before: Image, affected: set<Id>)
    | TornDown(affected: set<Id>)

  datatype Owner = ByCall(call: nat) | ByMutation

  datatype Hub = Hub(image: Image, epoch: nat, handles: map<Id, Built>)

  /**
   `owners` are the initialization locks that are held.  `abandoned` are the agents of mutations that were
   dropped after their commit, until something removes or replaces the handle.
   */
  datatype World = World(hub: Hub, owners: map<Id, Owner>, calls: seq<Call>, mutation: Mutation, abandoned: set<Id>)

  datatype CallEvent =
    | Enter(agent: Id)
    | Lock
    | Recheck
    | ReadRegistry
    | LoadEpoch
    | Connect(succeeds: bool)
    | CheckEpoch
    | CheckConfig
    | Insert(cacheWritten: bool)
    | Cancel

  datatype MutationEvent =
    | Plan(change: Change)
    | TakeLock(agent: Id)
    | Abort
    | Publish
    | Bump
    | TearDown
    | Release
    | Drop

  datatype Event = OfCall(index: nat, c: CallEvent) | OfMutation(m: MutationEvent) | Evict(agent: Id)

  predicate Holds(call: Call)
  {
    !call.Outside? && !call.Waiting?
  }

  function LockedBy(m: Mutation): (ids: set<Id>)
  {
    match m
    case NoMutation => {}
    case Planning(_, _, locked) => locked
    case Published(_, affected) => affected
    case Bumped(_, affected) => affected
    case TornDown(affected) => affected
  }

  /** The agents whose handles may be out of date: those of a mutation between commit and teardown. */
  function Window(m: Mutation): (ids: set<Id>)
  {
    if m.Published? || m.Bumped? then m.affected else {}
  }

  // ---- steps -----------------------------------------------------------------------------------------

  predicate CallEnabled(w: World, i: nat, e: CallEvent)
  {
    i < |w.calls| &&
    match e
    case Enter(_) => w.calls[i].Outside?
    case Lock => w.calls[i].Waiting? && w.calls[i].agent !in w.owners
    case Recheck => w.calls[i].Locked?
    case ReadRegistry => w.calls[i].Missing?
    case LoadEpoch => w.calls[i].Snapshot?
    case Connect(_) => w.calls[i].Started?
    case CheckEpoch => w.calls[i].Connected?
    case CheckConfig => w.calls[i].EpochChecked?
    case Insert(_) => w.calls[i].Confirmed?
    case Cancel => !w.calls[i].Outside?
  }

  /** What a call does next, and the handle it inserts, if any; `Outside` ends it and lets go of the lock.  A caller may cancel it at any await. */
  function CallNext(hub: Hub, call: Call, e: CallEvent): (r: (Call, Option<Built>))
  {
    match (call, e)
    case (Outside, Enter(agent)) => (if agent in hub.handles then Outside else Waiting(agent), None)
    case (Waiting(agent), Lock) => (Locked(agent), None)
    case (Locked(agent), Recheck) => (if agent in hub.handles then Outside else Missing(agent), None)
    case (Missing(agent), ReadRegistry) => (Snapshot(agent, hub.image), None)
    case (Snapshot(agent, image), LoadEpoch) => (Started(agent, image, hub.epoch), None)
    case (Started(agent, image, epoch), Connect(succeeds)) =>
      var built := Resolve(image, agent);
      (if built.Some? && succeeds then Connected(agent, built.value, epoch) else Outside, None)
    case (Connected(agent, built, epoch), CheckEpoch) => (if hub.epoch == epoch then EpochChecked(agent, built) else Outside, None)
    case (EpochChecked(agent, built), CheckConfig) =>
      (if agent in hub.image.agents && hub.image.agents[agent] == built.config then Confirmed(agent, built) else Outside, None)
    case (Confirmed(agent, built), Insert(cacheWritten)) => (Outside, if cacheWritten then Some(built) else None)
    case (_, Cancel) => (Outside, None)
    case _ => (call, None)
  }

  function ApplyCall(w: World, i: nat, e: CallEvent): (r: World)
    requires CallEnabled(w, i, e)
  {
    var call := w.calls[i];
    var (next, inserted) := CallNext(w.hub, call, e);
    var owners := if e.Lock? then w.owners[call.agent := ByCall(i)]
                  else if Holds(call) && !Holds(next) then w.owners - {call.agent} else w.owners;
    var hub := if inserted.Some? then w.hub.(handles := w.hub.handles[call.agent := inserted.value]) else w.hub;
    World(hub, owners, w.calls[i := next], w.mutation, if inserted.Some? then w.abandoned - {call.agent} else w.abandoned)
  }

  ghost predicate MutationEnabled(w: World, e: MutationEvent)
  {
    match e
    case Plan(change) => w.mutation.NoMutation? && Changed(w.hub.image, change).Ok?
    case TakeLock(agent) =>
      w.mutation.Planning? && agent in w.mutation.affected && agent !in w.mutation.locked && agent !in w.owners
    case Abort => w.mutation.Planning?
    case Publish => w.mutation.Planning? && w.mutation.locked == w.mutation.affected
    case Bump => w.mutation.Published?
    case TearDown => w.mutation.Bumped?
    case Release => w.mutation.TornDown?
    case Drop => w.mutation.Bumped?
  }

  /**
   Waiting for the handles is the one await between commit and teardown.  A mutation that is dropped there,
   with the request it serves, lets go of its locks and leaves the handles as they are.
   */
  ghost function ApplyMutation(w: World, e: MutationEvent): (r: World)
    requires MutationEnabled(w, e)
  {
    match e
    case Plan(change) =>
      var next := Changed(w.hub.image, change).value;
      w.(mutation := Planning(next, Affected(w.hub.image, next), {}))
    case TakeLock(agent) =>
      w.(owners := w.owners[agent := ByMutation], mutation := w.mutation.(locked := w.mutation.locked + {agent}))
    case Abort => w.(owners := w.owners - w.mutation.locked, mutation := NoMutation)
    case Publish => w.(hub := w.hub.(image := w.mutation.next), mutation := Published(w.hub.image, w.mutation.affected))
    case Bump => w.(hub := w.hub.(epoch := w.hub.epoch + 1), mutation := Bumped(w.mutation.before, w.mutation.affected))
    case TearDown =>
      w.(hub := w.hub.(handles := w.hub.handles - w.mutation.affected), mutation := TornDown(w.mutation.affected),
         abandoned := w.abandoned - w.mutation.affected)
    case Release => w.(owners := w.owners - w.mutation.affected, mutation := NoMutation)
    case Drop =>
      w.(owners := w.owners - w.mutation.affected, mutation := NoMutation, abandoned := w.abandoned + w.mutation.affected)
  }

  ghost predicate Enabled(w: World, e: Event)
  {
    match e
    case OfCall(i, c) => CallEnabled(w, i, c)
    case OfMutation(m) => MutationEnabled(w, m)
    case Evict(_) => true
  }

  ghost function Apply(w: World, e: Event): (r: World)
    requires Enabled(w, e)
  {
    match e
    case OfCall(i, c) => ApplyCall(w, i, c)
    case OfMutation(m) => ApplyMutation(w, m)
    case Evict(agent) => w.(hub := w.hub.(handles := w.hub.handles - {agent}), abandoned := w.abandoned - {agent})
  }

  // ---- the invariant -----------------------------------------------------------------------------------

  /** Every held lock has the one holder that its owner says. */
  ghost predicate LocksExclusive(w: World)
  {
    && (forall i | 0 <= i < |w.calls| && Holds(w.calls[i]) ::
          w.calls[i].agent in w.owners && w.owners[w.calls[i].agent] == ByCall(i))
    && (forall id | id in LockedBy(w.mutation) :: id in w.owners && w.owners[id] == ByMutation)
    && (forall id | id in w.owners && w.owners[id].ByCall? ::
          w.owners[id].call < |w.calls| && Holds(w.calls[w.owners[id].call]) && w.calls[w.owners[id].call].agent == id)
    && (forall id | id in w.owners && w.owners[id].ByMutation? :: id in LockedBy(w.mutation))
  }

  /** What a call has read or built is what the registry says now. */
  ghost predicate CallCurrent(call: Call, image: Image)
  {
    match call
    case Snapshot(agent, seen) => Resolve(seen, agent) == Resolve(image, agent)
    case Started(agent, seen, _) => Resolve(seen, agent) == Resolve(image, agent)
    case Connected(agent, built, _) => Resolve(image, agent) == Some(built)
    case EpochChecked(agent, built) => Resolve(image, agent) == Some(built)
    case Confirmed(agent, built) => Resolve(image, agent) == Some(built)
    case _ => true
  }

  ghost predicate CallsCurrent(calls: seq<Call>, image: Image)
  {
    forall i | 0 <= i < |calls| :: CallCurrent(calls[i], image)
  }

  /** Every cached handle outside the window is built from the current configuration and proxies. */
  ghost predicate HandlesCurrent(hub: Hub, window: set<Id>)
  {
    forall id | id in hub.handles && id !in window :: Resolve(hub.image, id) == Some(hub.handles[id])
  }

  ghost predicate PlanSound(w: World)
  {
    && (w.mutation.Planning? ==>
          && Valid(w.mutation.next)
          && w.mutation.affected == Affected(w.hub.image, w.mutation.next)
          && w.mutation.locked <= w.mutation.affected)
    && (w.mutation.Published? || w.mutation.Bumped? ==>
          && Valid(w.mutation.before)
          && w.mutation.affected == Affected(w.mutation.before, w.hub.image))
  }

  /** What a committed mutation has not torn down is still what was current before it. */
  ghost predicate OldHandles(w: World)
  {
    w.mutation.Published? || w.mutation.Bumped? ==>
      forall id | id in w.hub.handles && id in w.mutation.affected && id !in w.abandoned ::
        Resolve(w.mutation.before, id) == Some(w.hub.handles[id])
  }

  ghost predicate Coherent(w: World)
  {
    && Valid(w.hub.image)
    && LocksExclusive(w)
    && PlanSound(w)
    && CallsCurrent(w.calls, w.hub.image)
    && HandlesCurrent(w.hub, Window(w.mutation) + w.abandoned)
    && OldHandles(w)
  }

  // ---- every step keeps it ---------------------------------------------------------------------------------

  lemma CallKeepsLocks(w: World, i: nat, e: CallEvent)
    requires LocksExclusive(w) && CallEnabled(w, i, e)
    ensures LocksExclusive(ApplyCall(w, i, e))
    ensures Holds(w.calls[i]) ==> w.calls[i].agent !in LockedBy(w.mutation)
  {
    hide Resolve;
    var next := ApplyCall(w, i, e);
    assert Holds(w.calls[i]) ==> w.owners[w.calls[i].agent] == ByCall(i);
    assert forall j | 0 <= j < |w.calls| && j != i :: next.calls[j] == w.calls[j];
  }

  lemma MutationKeepsLocks(w: World, e: MutationEvent)
    requires LocksExclusive(w) && PlanSound(w) && MutationEnabled(w, e)
    ensures LocksExclusive(ApplyMutation(w, e))
  {
    hide Changed, Affected, Valid;
    var next := ApplyMutation(w, e);
    assert next.calls == w.calls;
    assert forall i | 0 <= i < |w.calls| && Holds(w.calls[i]) :: w.owners[w.calls[i].agent] == ByCall(i);
  }

  lemma CallNextIsCurrent(hub: Hub, call: Call, e: CallEvent)
    requires CallCurrent(call, hub.image)
    ensures var (next, inserted) := CallNext(hub, call, e);
            && CallCurrent(next, hub.image)
            && (inserted.Some? ==> Holds(call) && Resolve(hub.image, call.agent) == inserted)
  {
    hide Resolve;
  }

  lemma CallKeepsCurrent(w: World, i: nat, e: CallEvent)
    requires Coherent(w) && CallEnabled(w, i, e)
    ensures Coherent(ApplyCall(w, i, e))
  {
    CallKeepsLocks(w, i, e);
    assert CallCurrent(w.calls[i], w.hub.image);
    CallNextIsCurrent(w.hub, w.calls[i], e);
    hide Valid, LocksExclusive, Resolve, CallNext, CallCurrent;
  }

  /** A commit changes nothing for an agent whose lock a call holds, nor for any agent outside the new window. */
  lemma PublishKeepsCurrent(w: World)
    requires Coherent(w) && MutationEnabled(w, Publish)
    ensures var next := ApplyMutation(w, Publish);
            && CallsCurrent(next.calls, next.hub.image)
            && HandlesCurrent(next.hub, Window(next.mutation) + next.abandoned)
            && OldHandles(next)
  {
    var before, after := w.hub.image, w.mutation.next;
    forall i | 0 <= i < |w.calls| ensures CallCurrent(w.calls[i], after) {
      var call := w.calls[i];
      assert CallCurrent(call, before);
      if Holds(call) {
        assert w.owners[call.agent] == ByCall(i);
        UnaffectedResolveAlike(before, after, call.agent);
      }
    }
    forall id | id in w.hub.handles && id !in w.mutation.affected + w.abandoned ensures Resolve(after, id) == Some(w.hub.handles[id]) {
      UnaffectedResolveAlike(before, after, id);
    }
  }

  lemma MutationKeepsCurrent(w: World, e: MutationEvent)
    requires Coherent(w) && MutationEnabled(w, e)
    ensures Coherent(ApplyMutation(w, e))
  {
    MutationKeepsLocks(w, e);
    if e.Publish? {
      PublishKeepsCurrent(w);
    } else if e.Plan? {
      ChangesKeepValid(w.hub.image, e.change);
    }
    hide Valid, LocksExclusive, Resolve, CallsCurrent, Changed, Affected;
  }

  lemma ApplyKeepsCoherent(w: World, e: Event)
    requires Coherent(w) && Enabled(w, e)
    ensures Coherent(Apply(w, e))
  {
    match e
    case OfCall(i, c) => CallKeepsCurrent(w, i, c);
    case OfMutation(m) => MutationKeepsCurrent(w, m);
    case Evict(agent) => hide Valid, Resolve, CallsCurrent;
  }

  // ---- runs ------------------------------------------------------------------------------------------------

  /** Runs start with a valid registry, no handle, no lock held, and every call outside. */
  ghost predicate IsRun(worlds: seq<World>, events: seq<Event>)
  {
    && |worlds| == |events| + 1
    && Valid(worlds[0].hub.image) && worlds[0].hub.handles == map[] && worlds[0].owners == map[]
    && worlds[0].mutation.NoMutation? && worlds[0].abandoned == {} && (forall i | 0 <= i < |worlds[0].calls| :: worlds[0].calls[i].Outside?)
    && forall i | 0 <= i < |events| :: Enabled(worlds[i], events[i]) && worlds[i + 1] == Apply(worlds[i], events[i])
  }

  lemma {:induction false} RunsStayCoherent(worlds: seq<World>, events: seq<Event>, n: nat)
    requires IsRun(worlds, events) && n < |worlds|
    ensures Coherent(worlds[n])
  {
    if n > 0 {
      RunsStayCoherent(worlds, events, n - 1);
      ApplyKeepsCoherent(worlds[n - 1], events[n - 1]);
    }
  }

  /** No lock is ever leaked: with no mutation and no call past its lock, every lock is free. */
  lemma NoLockIsLeaked(worlds: seq<World>, events: seq<Event>, n: nat)
    requires IsRun(worlds, events) && n < |worlds|
    requires worlds[n].mutation.NoMutation? && forall i | 0 <= i < |worlds[n].calls| :: !Holds(worlds[n].calls[i])
    ensures worlds[n].owners == map[]
  {
    RunsStayCoherent(worlds, events, n);
    var w := worlds[n];
    assert LocksExclusive(w);
    assert w.owners.Keys == {};
  }

  /**
   In every interleaving, and unless a mutation of its agent was dropped after its commit, a cached handle
   is built from the agent configuration and the resolved proxy chain of the current registry if and only
   if no mutation of the agent is between its commit and its teardown; and every agent of the registry
   still resolves.
   */
  lemma CachedHandlesAreCurrent(worlds: seq<World>, events: seq<Event>, n: nat)
    requires IsRun(worlds, events) && n < |worlds|
    ensures var w := worlds[n];
      && (forall id | id in w.hub.handles && id !in w.abandoned ::
            Resolve(w.hub.image, id) == Some(w.hub.handles[id]) <==> id !in Window(w.mutation))
      && (forall id | id in w.hub.image.agents :: Resolve(w.hub.image, id).Some?)
  {
    RunsStayCoherent(worlds, events, n);
    var w := worlds[n];
    forall id | id in w.hub.image.agents ensures Resolve(w.hub.image, id).Some? {
      ValidMeansResolvable(w.hub.image, id);
    }
    forall id | id in w.hub.handles && id in Window(w.mutation) && id !in w.abandoned
      ensures Resolve(w.hub.image, id) != Some(w.hub.handles[id])
    {
      AffectedExactlyWhenBuildChanges(w.mutation.before, w.hub.image, id);
    }
  }

  /**
   What a dropped mutation leaves behind: no mutation runs, and a handle that was not abandoned before is
   current if and only if its agent was not affected, which is to say that its build did not change.
   */
  lemma DroppedMutationLeavesStaleHandles(worlds: seq<World>, events: seq<Event>, n: nat)
    requires IsRun(worlds, events) && n < |events| && events[n] == OfMutation(Drop)
    ensures worlds[n].mutation.Bumped? && worlds[n + 1].mutation.NoMutation?
    ensures var w, before, affected := worlds[n + 1], worlds[n].mutation.before, worlds[n].mutation.affected;
            forall id | id in w.hub.handles && id !in worlds[n].abandoned ::
              && (Resolve(w.hub.image, id) == Some(w.hub.handles[id]) <==> id !in affected)
              && (id !in affected <==> Resolve(before, id) == Resolve(w.hub.image, id))
  {
    CachedHandlesAreCurrent(worlds, events, n);
    RunsStayCoherent(worlds, events, n);
    assert Enabled(worlds[n], events[n]);
    forall id ensures id in worlds[n].mutation.affected <==> Resolve(worlds[n].mutation.before, id) != Resolve(worlds[n].hub.image, id) {
      AffectedExactlyWhenBuildChanges(worlds[n].mutation.before, worlds[n].hub.image, id);
    }
  }

  /** As long as no mutation is dropped after its commit, nothing is abandoned. */
  lemma {:induction false} NothingAbandonedWithoutDrop(worlds: seq<World>, events: seq<Event>, n: nat)
    requires IsRun(worlds, events) && n < |worlds|
    requires forall i | 0 <= i < n :: events[i] != OfMutation(Drop)
    ensures worlds[n].abandoned == {}
  {
    if n > 0 {
      NothingAbandonedWithoutDrop(worlds, events, n - 1);
      assert worlds[n] == Apply(worlds[n - 1], events[n - 1]);
    }
  }

  /** A handle that a call inserts is current when it is inserted, and its agent is in no window. */
  lemma InsertedHandleIsCurrent(worlds: seq<World>, events: seq<Event>, n: nat)
    requires IsRun(worlds, events) && n < |events|
    requires events[n].OfCall? && events[n].c == Insert(true)
    ensures var w, agent := worlds[n + 1], worlds[n].calls[events[n].index].agent;
            agent in w.hub.handles && agent !in Window(w.mutation) + w.abandoned && Resolve(w.hub.image, agent) == Some(w.hub.handles[agent])
  {
    RunsStayCoherent(worlds, events, n);
    assert Enabled(worlds[n], events[n]);
    CallKeepsLocks(worlds[n], events[n].index, events[n].c);
    assert CallCurrent(worlds[n].calls[events[n].index], worlds[n].hub.image);
  }

  // ---- a run that leaves a stale handle --------------------------------------------------------------------

  lemma OneMoreStep(worlds: seq<World>, events: seq<Event>, e: Event) returns (moreWorlds: seq<World>, moreEvents: seq<Event>)
    requires IsRun(worlds, events) && Enabled(worlds[|worlds| - 1], e)
    ensures IsRun(moreWorlds, moreEvents) && |moreWorlds| == |worlds| + 1
    ensures moreWorlds[|worlds|] == Apply(worlds[|worlds| - 1], e)
  {
    moreWorlds, moreEvents := worlds + [Apply(worlds[|worlds| - 1], e)], events + [e];
    forall i | 0 <= i < |moreEvents|
      ensures Enabled(moreWorlds[i], moreEvents[i]) && moreWorlds[i + 1] == Apply(moreWorlds[i], moreEvents[i])
    {
      if i < |events| {
        assert moreWorlds[i] == worlds[i] && moreEvents[i] == events[i] && moreWorlds[i + 1] == worlds[i + 1];
      }
    }
  }

  /** A registry of one agent, with the given settings and no proxies. */
  function OneAgent(id: Id, settings: nat): (image: Image)
  {
    Image(map[id := AgentConfig(settings, [])], map[])
  }

  lemma OneAgentFacts(id: Id, before: nat, after: nat)
    requires IsValidId(id) && before != after
    ensures Valid(OneAgent(id, before)) && Resolve(OneAgent(id, before), id) == Some(Built(AgentConfig(before, []), []))
    ensures Changed(OneAgent(id, before), RegisterAgent(id, AgentConfig(after, []))) == Ok(OneAgent(id, after))
    ensures Affected(OneAgent(id, before), OneAgent(id, after)) == {id}
  {
    var first, next := OneAgent(id, before), OneAgent(id, after);
    assert first.agents[id := AgentConfig(after, [])] == next.agents;
    assert Valid(next) && ResolveChain([], map[]) == Some([]);
    assert first.agents[id] != next.agents[id];
  }

  /** The hub of one agent with one call, while no mutation runs. */
  function Calling(image: Image, handles: map<Id, Built>, owners: map<Id, Owner>, call: Call): (w: World)
  {
    World(Hub(image, 0, handles), owners, [call], NoMutation, {})
  }

  ghost predicate Steps(w: World, e: Event, next: World)
  {
    Enabled(w, e) && next == Apply(w, e)
  }

  lemma CallMoves(image: Image, handles: map<Id, Built>, owners: map<Id, Owner>, call: Call, e: CallEvent, next: Call)
    requires CallEnabled(Calling(image, handles, owners, call), 0, e)
    requires CallNext(Hub(image, 0, handles), call, e) == (next, None) && !e.Lock? && (Holds(call) ==> Holds(next))
    ensures Steps(Calling(image, handles, owners, call), OfCall(0, e), Calling(image, handles, owners, next))
  {
    assert [call][0 := next] == [next];
  }

  lemma TakesTheLock(image: Image, id: Id)
    ensures Steps(Calling(image, map[], map[], Waiting(id)), OfCall(0, Lock), Calling(image, map[], map[id := ByCall(0)], Locked(id)))
  {
    assert [Waiting(id)][0 := Locked(id)] == [Locked(id)];
  }

  lemma InsertsTheHandle(image: Image, id: Id, built: Built)
    ensures Steps(Calling(image, map[], map[id := ByCall(0)], Confirmed(id, built)), OfCall(0, Insert(true)),
                  Calling(image, map[id := built], map[], Outside))
  {
    assert [Confirmed(id, built)][0 := Outside] == [Outside];
    assert map[id := ByCall(0)] - {id} == map[];
    var nobody: set<Id> := {};
    assert nobody - {id} == nobody;
  }

  lemma NextWorld(worlds: seq<World>, events: seq<Event>, e: Event, next: World)
      returns (moreWorlds: seq<World>, moreEvents: seq<Event>)
    requires IsRun(worlds, events) && Steps(worlds[|worlds| - 1], e, next)
    ensures IsRun(moreWorlds, moreEvents) && |moreWorlds| > 0 && moreWorlds[|moreWorlds| - 1] == next
  {
    moreWorlds, moreEvents := OneMoreStep(worlds, events, e);
  }

  /** The first half of a connecting call: from the first lookup to the epoch. */
  lemma StartConnecting(id: Id, image: Image) returns (worlds: seq<World>, events: seq<Event>)
    requires Valid(image)
    ensures IsRun(worlds, events) && |worlds| > 0
    ensures worlds[|worlds| - 1] == Calling(image, map[], map[id := ByCall(0)], Started(id, image, 0))
  {
    var held := map[id := ByCall(0)];
    CallMoves(image, map[], map[], Outside, Enter(id), Waiting(id));
    TakesTheLock(image, id);
    CallMoves(image, map[], held, Locked(id), Recheck, Missing(id));
    CallMoves(image, map[], held, Missing(id), ReadRegistry, Snapshot(id, image));
    CallMoves(image, map[], held, Snapshot(id, image), LoadEpoch, Started(id, image, 0));
    worlds, events := [Calling(image, map[], map[], Outside)], [];
    assert IsRun(worlds, events);
    hide IsRun, Steps, Calling, Valid, Resolve;
    worlds, events := NextWorld(worlds, events, OfCall(0, Enter(id)), Calling(image, map[], map[], Waiting(id)));
    worlds, events := NextWorld(worlds, events, OfCall(0, Lock), Calling(image, map[], held, Locked(id)));
    worlds, events := NextWorld(worlds, events, OfCall(0, Recheck), Calling(image, map[], held, Missing(id)));
    worlds, events := NextWorld(worlds, events, OfCall(0, ReadRegistry), Calling(image, map[], held, Snapshot(id, image)));
    worlds, events := NextWorld(worlds, events, OfCall(0, LoadEpoch), Calling(image, map[], held, Started(id, image, 0)));
  }

  /** A call connects the agent: from the first lookup to the inserted handle. */
  lemma ConnectOnce(id: Id, image: Image, built: Built) returns (worlds: seq<World>, events: seq<Event>)
    requires Valid(image) && Resolve(image, id) == Some(built)
    ensures IsRun(worlds, events) && |worlds| > 0
    ensures worlds[|worlds| - 1] == Calling(image, map[id := built], map[], Outside)
  {
    var held := map[id := ByCall(0)];
    CallMoves(image, map[], held, Started(id, image, 0), Connect(true), Connected(id, built, 0));
    CallMoves(image, map[], held, Connected(id, built, 0), CheckEpoch, EpochChecked(id, built));
    CallMoves(image, map[], held, EpochChecked(id, built), CheckConfig, Confirmed(id, built));
    InsertsTheHandle(image, id, built);
    hide IsRun, Steps, Calling, Valid, Resolve;
    worlds, events := StartConnecting(id, image);
    worlds, events := NextWorld(worlds, events, OfCall(0, Connect(true)), Calling(image, map[], held, Connected(id, built, 0)));
    worlds, events := NextWorld(worlds, events, OfCall(0, CheckEpoch), Calling(image, map[], held, EpochChecked(id, built)));
    worlds, events := NextWorld(worlds, events, OfCall(0, CheckConfig), Calling(image, map[], held, Confirmed(id, built)));
    worlds, events := NextWorld(worlds, events, OfCall(0, Insert(true)), Calling(image, map[id := built], map[], Outside));
  }

  /** The hub of one agent with a cached handle and an idle call, while a mutation runs. */
  function Mutating(image: Image, epoch: nat, handles: map<Id, Built>, owners: map<Id, Owner>, mutation: Mutation, abandoned: set<Id>): (w: World)
  {
    World(Hub(image, epoch, handles), owners, [Outside], mutation, abandoned)
  }

  /** The steps of a mutation that changes the one agent and is dropped while it waits for the handles. */
  lemma MutationMoves(id: Id, first: Image, next: Image, change: Change, handles: map<Id, Built>)
    requires Changed(first, change) == Ok(next) && Affected(first, next) == {id}
    ensures var none: map<Id, Owner>, held: map<Id, Owner> := map[], map[id := ByMutation];
      && Steps(Mutating(first, 0, handles, none, NoMutation, {}), OfMutation(Plan(change)),
               Mutating(first, 0, handles, none, Planning(next, {id}, {}), {}))
      && Steps(Mutating(first, 0, handles, none, Planning(next, {id}, {}), {}), OfMutation(TakeLock(id)),
               Mutating(first, 0, handles, held, Planning(next, {id}, {id}), {}))
      && Steps(Mutating(first, 0, handles, held, Planning(next, {id}, {id}), {}), OfMutation(Publish),
               Mutating(next, 0, handles, held, Published(first, {id}), {}))
      && Steps(Mutating(next, 0, handles, held, Published(first, {id}), {}), OfMutation(Bump),
               Mutating(next, 1, handles, held, Bumped(first, {id}), {}))
      && Steps(Mutating(next, 1, handles, held, Bumped(first, {id}), {}), OfMutation(Drop),
               Mutating(next, 1, handles, none, NoMutation, {id}))
  {
    hide Changed, Affected;
    var nobody: set<Id> := {};
    assert nobody + {id} == {id};
    assert map[id := ByMutation] - {id} == map[];
  }

  /**
   A reachable hub that serves a stale handle with no mutation running: the agent was connected, then its
   registration changed, and that request was aborted while it waited for the handles.  The
   next call for the agent ends with the cached handle.
   */
  lemma ADroppedMutationLeavesAStaleHandle(id: Id, before: nat, after: nat) returns (worlds: seq<World>, events: seq<Event>)
    requires IsValidId(id) && before != after
    ensures IsRun(worlds, events) && |worlds| > 0
    ensures var w := worlds[|worlds| - 1];
      && w.mutation.NoMutation? && w.owners == map[] && w.hub.image == OneAgent(id, after)
      && id in w.hub.handles && Resolve(w.hub.image, id).Some? && Resolve(w.hub.image, id) != Some(w.hub.handles[id])
      && CallNext(w.hub, Outside, Enter(id)) == (Outside, None)
  {
    var first, next := OneAgent(id, before), OneAgent(id, after);
    var built, change := Built(AgentConfig(before, []), []), RegisterAgent(id, AgentConfig(after, []));
    var handles, none: map<Id, Owner>, held := map[id := built], map[], map[id := ByMutation];
    OneAgentFacts(id, before, after);
    OneAgentFacts(id, after, before);
    hide Valid, Resolve, Changed, Affected, OneAgent;
    worlds, events := ConnectOnce(id, first, built);
    assert Calling(first, handles, none, Outside) == Mutating(first, 0, handles, none, NoMutation, {});
    MutationMoves(id, first, next, change, handles);
    hide IsRun, Steps, Calling;
    worlds, events := NextWorld(worlds, events, OfMutation(Plan(change)), Mutating(first, 0, handles, none, Planning(next, {id}, {}), {}));
    worlds, events := NextWorld(worlds, events, OfMutation(TakeLock(id)), Mutating(first, 0, handles, held, Planning(next, {id}, {id}), {}));
    worlds, events := NextWorld(worlds, events, OfMutation(Publish), Mutating(next, 0, handles, held, Published(first, {id}), {}));
    worlds, events := NextWorld(worlds, events, OfMutation(Bump), Mutating(next, 1, handles, held, Bumped(first, {id}), {}));
    worlds, events := NextWorld(worlds, events, OfMutation(Drop), Mutating(next, 1, handles, none, NoMutation, {id}));
  }
}
