/**
 Cancelling the active prompt of a conversation: a snapshot under the operations lock, then, under
 the lock again, a re-validation, a mark in the store, a claim in the runtime cache, and the flag.
 Prompts, cancels, supervisors and external runs of one conversation interleave; what needs the
 operations lock waits for it, everything else also runs between two steps of a locked section.
 */
module CancelProtocol {
  import opened Outcomes

  type Token = nat
  type Run = nat

  datatype Status = Running | Cancelling | Completed | Cancelled | Failed

  /** The runtime cache entry of the conversation. */
  datatype Runtime = Live(generation: nat) | BeingCancelled(generation: nat)

  datatype Operation =
    | PromptOp(token: Token, run: Run, session: nat, cancelRequested: bool)
    | ExternalOp(token: Token)

  datatype Shared = Shared(op: Option<Operation>, runs: map<Run, Status>, runtime: Option<Runtime>, lastGeneration: nat)

  /** The prompt that owns the operation, between two of its steps. */
  datatype Prompt = NoPrompt | Reserved | Created | Leased(generation: nat) | Finalized(generation: nat) | Leaving

  datatype Snapshot = Snapshot(token: Token, run: Run, session: nat)

  /** Where the cancel call that holds the operations lock stands. */
  datatype Phase = Validated | Marked | Read(generation: nat) | Moved | Lost

  datatype Section = Section(snapshot: Snapshot, phase: Phase)

  /** `requested`: the tokens for which a cancel answered that it requested the cancellation. */
  datatype Log = Log(issued: map<Token, Run>, requested: seq<Token>, supervised: set<Run>)

  /**
   What happened to the current operation: a cancel claimed the runtime before the run lease was taken;
   a rollback failed; a supervisor reset the runtime after the run lease was taken.
   */
  datatype Marks = Marks(early: bool, stuck: bool, reset: bool)

  datatype World = World(shared: Shared, prompt: Prompt, section: Option<Section>, snapshots: set<Snapshot>, log: Log, marks: Marks)

  datatype PromptEvent =
    | Reserve(token: Token, run: Run, session: nat)
    | Create(succeeds: bool)
    | AcquireLease
    | Finalize(status: Status, succeeds: bool)
    | Complete
    | Release

  datatype CancelEvent =
    | TakeSnapshot
    | EnterSection(snapshot: Snapshot)
    | MarkStore(succeeds: bool)
    | ReadRuntime
    | MoveRuntime
    | SetFlag
    | RollbackStore(succeeds: bool)

  datatype OtherEvent =
    | SuperviseFinalize(run: Run)
    | SuperviseReset
    | ReserveExternal(token: Token)
    | ReleaseExternal

  datatype Event = OfPrompt(p: PromptEvent) | OfCancel(c: CancelEvent) | OfOther(o: OtherEvent)

  // ---- the pieces ----------------------------------------------------------------------------------

  predicate Active(runs: map<Run, Status>, run: Run)
  {
    run in runs && (runs[run].Running? || runs[run].Cancelling?)
  }

  /** The compare-and-set of the store: `from` becomes `to`, or nothing changes. */
  function Cas(runs: map<Run, Status>, run: Run, from: Status, to: Status): (r: map<Run, Status>)
  {
    if run in runs && runs[run] == from then runs[run := to] else runs
  }

  /** Conditional transitions of the runtime cache; `None` when they do not apply. */
  function ToCancelling(runtime: Option<Runtime>, generation: nat): (r: Option<Runtime>)
  {
    if runtime.Some? && runtime.value.Live? && runtime.value.generation <= generation then
      Some(BeingCancelled(runtime.value.generation))
    else None
  }

  function ToLive(runtime: Option<Runtime>, generation: nat): (r: Option<Runtime>)
  {
    if runtime.Some? && runtime.value.BeingCancelled? && runtime.value.generation <= generation then
      Some(Live(runtime.value.generation))
    else runtime
  }

  predicate Terminal(status: Status)
  {
    !status.Running? && !status.Cancelling?
  }

  predicate Owning(w: World)
  {
    w.shared.op.Some? && w.shared.op.value.PromptOp?
  }

  predicate Unlocked(w: World)
  {
    w.section.None?
  }

  // ---- prompts ---------------------------------------------------------------------------------------

  /**
   Only reserving and releasing need the lock here: the worker finalizes while holding it, but the
   error path of a prompt finalizes without, so finalizing is allowed at any time.
   */
  predicate PromptEnabled(w: World, e: PromptEvent)
  {
    match e
    case Reserve(token, run, _) =>
      && Unlocked(w) && w.shared.op.None? && w.prompt.NoPrompt?
      && token !in w.log.issued && run !in w.log.issued.Values && run !in w.shared.runs
    case Create(_) => w.prompt.Reserved? && Owning(w)
    case AcquireLease => w.prompt.Created? && Owning(w)
    case Finalize(status, _) => w.prompt.Leased? && Owning(w) && Terminal(status)
    case Complete => w.prompt.Finalized?
    case Release => w.prompt.Leaving? && Unlocked(w)
  }

  function ApplyPrompt(w: World, e: PromptEvent): (r: World)
    requires PromptEnabled(w, e)
  {
    var s := w.shared;
    match e
    case Reserve(token, run, session) =>
      w.(shared := s.(op := Some(PromptOp(token, run, session, false))), prompt := Reserved,
         log := w.log.(issued := w.log.issued[token := run]), marks := Marks(false, false, false))
    case Create(succeeds) =>
      if succeeds && s.op.value.run !in s.runs then w.(shared := s.(runs := s.runs[s.op.value.run := Running]), prompt := Created)
      else w.(prompt := Leaving)
    case AcquireLease =>
      var generation := s.lastGeneration + 1;
      w.(shared := s.(runtime := Some(Live(generation)), lastGeneration := generation), prompt := Leased(generation),
         marks := w.marks.(reset := false))
    case Finalize(status, succeeds) =>
      var run := s.op.value.run;
      w.(shared := if succeeds && Active(s.runs, run) then s.(runs := s.runs[run := status]) else s,
         prompt := Finalized(w.prompt.generation))
    case Complete => w.(shared := s.(runtime := ToLive(s.runtime, w.prompt.generation)), prompt := Leaving)
    case Release => w.(shared := s.(op := None), prompt := NoPrompt)
  }

  // ---- cancels -----------------------------------------------------------------------------------------

  predicate Matches(op: Option<Operation>, snapshot: Snapshot)
  {
    op == Some(PromptOp(snapshot.token, snapshot.run, snapshot.session, false))
  }

  predicate CancelEnabled(w: World, e: CancelEvent)
  {
    match e
    case TakeSnapshot => Unlocked(w) && Owning(w) && !w.shared.op.value.cancelRequested
    case EnterSection(snapshot) => Unlocked(w) && snapshot in w.snapshots
    case MarkStore(_) => w.section.Some? && w.section.value.phase.Validated?
    case ReadRuntime => w.section.Some? && w.section.value.phase.Marked?
    case MoveRuntime => w.section.Some? && w.section.value.phase.Read?
    case SetFlag => w.section.Some? && w.section.value.phase.Moved? && Owning(w)
    case RollbackStore(_) => w.section.Some? && w.section.value.phase.Lost?
  }

  function AtPhase(w: World, phase: Phase): (r: World)
    requires w.section.Some?
  {
    w.(section := Some(w.section.value.(phase := phase)))
  }

  /** Snapshots are kept, so a call may come back with one at any later time, and any number of calls may share it. */
  function ApplyCancel(w: World, e: CancelEvent): (r: World)
    requires CancelEnabled(w, e)
  {
    var s := w.shared;
    match e
    case TakeSnapshot =>
      w.(snapshots := w.snapshots + {Snapshot(s.op.value.token, s.op.value.run, s.op.value.session)})
    case EnterSection(snapshot) =>
      if Matches(s.op, snapshot) then w.(section := Some(Section(snapshot, Validated))) else w
    case MarkStore(succeeds) =>
      var run := w.section.value.snapshot.run;
      if succeeds && run in s.runs && s.runs[run] == Running then
        AtPhase(w, Marked).(shared := s.(runs := Cas(s.runs, run, Running, Cancelling)))
      else w.(section := None)
    case ReadRuntime =>
      AtPhase(w, if s.runtime.None? then Lost else Read(s.runtime.value.generation))
    case MoveRuntime =>
      var moved := ToCancelling(s.runtime, w.section.value.phase.generation);
      if moved.None? then AtPhase(w, Lost)
      else AtPhase(w, Moved).(shared := s.(runtime := moved), marks := w.marks.(early := !w.prompt.Leased?))
    case SetFlag =>
      var op := s.op.value;
      w.(shared := s.(op := Some(op.(cancelRequested := true))), section := None,
         log := w.log.(requested := w.log.requested + [w.section.value.snapshot.token],
                       supervised := w.log.supervised + {w.section.value.snapshot.run}))
    case RollbackStore(succeeds) =>
      var run := w.section.value.snapshot.run;
      if succeeds && run in s.runs && s.runs[run] == Cancelling then
        w.(shared := s.(runs := Cas(s.runs, run, Cancelling, Running)), section := None)
      else w.(section := None, marks := w.marks.(stuck := true))
  }

  // ---- the rest ------------------------------------------------------------------------------------------

  predicate OtherEnabled(w: World, e: OtherEvent)
  {
    match e
    case SuperviseFinalize(run) => run in w.log.supervised
    case SuperviseReset => w.shared.runtime.Some?
    case ReserveExternal(token) => Unlocked(w) && w.shared.op.None? && token !in w.log.issued
    case ReleaseExternal => Unlocked(w) && w.shared.op.Some? && w.shared.op.value.ExternalOp?
  }

  /** A supervisor that finalized a run resets the runtime later, under whatever generation it then finds. */
  function ApplyOther(w: World, e: OtherEvent): (r: World)
    requires OtherEnabled(w, e)
  {
    var s := w.shared;
    match e
    case SuperviseFinalize(run) => w.(shared := s.(runs := Cas(s.runs, run, Cancelling, Cancelled)))
    case SuperviseReset =>
      w.(shared := s.(runtime := ToLive(s.runtime, s.runtime.value.generation)), marks := w.marks.(reset := true))
    case ReserveExternal(token) => w.(shared := s.(op := Some(ExternalOp(token))))
    case ReleaseExternal => w.(shared := s.(op := None))
  }

  predicate Enabled(w: World, e: Event)
  {
    match e
    case OfPrompt(p) => PromptEnabled(w, p)
    case OfCancel(c) => CancelEnabled(w, c)
    case OfOther(o) => OtherEnabled(w, o)
  }

  function Apply(w: World, e: Event): (r: World)
    requires Enabled(w, e)
  {
    match e
    case OfPrompt(p) => ApplyPrompt(w, p)
    case OfCancel(c) => ApplyCancel(w, c)
    case OfOther(o) => ApplyOther(w, o)
  }

  // ---- who is who --------------------------------------------------------------------------------------

  predicate Flagged(w: World)
  {
    Owning(w) && w.shared.op.value.cancelRequested
  }

  ghost predicate Distinct(tokens: seq<Token>)
  {
    forall i, j | 0 <= i < j < |tokens| :: tokens[i] != tokens[j]
  }

  ghost predicate IssuedOnce(log: Log)
  {
    && (forall t, u | t in log.issued && u in log.issued && t != u :: log.issued[t] != log.issued[u])
    && Distinct(log.requested)
    && (forall t | t in log.requested :: t in log.issued)
    && (forall t | t in log.issued && log.issued[t] in log.supervised :: t in log.requested)
    && log.supervised <= log.issued.Values
  }

  /** Tokens and runs belong together, and a token is answered for exactly when its operation carries the flag. */
  ghost predicate Identified(w: World)
  {
    && IssuedOnce(w.log)
    && (w.prompt.NoPrompt? <==> !Owning(w))
    && (Owning(w) ==>
          var op := w.shared.op.value;
          op.token in w.log.issued && w.log.issued[op.token] == op.run && (op.token in w.log.requested <==> op.cancelRequested))
    && (forall s | s in w.snapshots :: s.token in w.log.issued && w.log.issued[s.token] == s.run)
    && (w.section.Some? ==> Matches(w.shared.op, w.section.value.snapshot))
  }

  lemma PromptKeepsIdentified(w: World, e: PromptEvent)
    requires Identified(w) && PromptEnabled(w, e)
    ensures Identified(ApplyPrompt(w, e))
  {
  }

  lemma CancelKeepsIdentified(w: World, e: CancelEvent)
    requires Identified(w) && CancelEnabled(w, e)
    ensures Identified(ApplyCancel(w, e))
    ensures e.SetFlag? ==>
              var op := w.shared.op.value;
              w.log.issued[op.token] == op.run && w.section.value.snapshot == Snapshot(op.token, op.run, op.session)
  {
  }

  lemma OtherKeepsIdentified(w: World, e: OtherEvent)
    requires Identified(w) && OtherEnabled(w, e)
    ensures Identified(ApplyOther(w, e))
  {
  }

  // ---- the store mark and the flag -----------------------------------------------------------------------

  /** The running section has marked the store and has not yet set the flag or rolled back. */
  predicate Between(w: World)
  {
    w.section.Some? && !w.section.value.phase.Validated?
  }

  /** Outside that gap, and unless a rollback failed, the store is marked exactly when the flag is set. */
  ghost predicate StoreInStep(w: World)
  {
    Owning(w) ==>
      var run, runs, flagged := w.shared.op.value.run, w.shared.runs, w.shared.op.value.cancelRequested;
      && (w.prompt.Reserved? ==> run !in runs)
      && (flagged || Between(w) ==> run in runs && runs[run] != Running)
      && (w.prompt.Created? || w.prompt.Leased? ==>
            && run in runs
            && (runs[run] != Running ==> flagged || Between(w) || w.marks.stuck))
  }

  lemma PromptKeepsStore(w: World, e: PromptEvent)
    requires Identified(w) && StoreInStep(w) && PromptEnabled(w, e)
    ensures StoreInStep(ApplyPrompt(w, e))
  {
    hide IssuedOnce;
  }

  lemma CancelKeepsStore(w: World, e: CancelEvent)
    requires Identified(w) && StoreInStep(w) && CancelEnabled(w, e)
    ensures StoreInStep(ApplyCancel(w, e))
  {
    hide IssuedOnce;
  }

  lemma OtherKeepsStore(w: World, e: OtherEvent)
    requires Identified(w) && StoreInStep(w) && OtherEnabled(w, e)
    ensures StoreInStep(ApplyOther(w, e))
  {
  }

  // ---- the runtime and the flag ----------------------------------------------------------------------------

  /** The runtime has been claimed for the current operation. */
  predicate Claimed(w: World)
  {
    Flagged(w) || (w.section.Some? && w.section.value.phase.Moved?)
  }

  /** While the run lease is held the runtime is its own, and cancelling exactly when it was claimed since. */
  ghost predicate RuntimeInStep(w: World)
  {
    && (w.prompt.Reserved? || w.prompt.Created? ==> Claimed(w) ==> w.marks.early)
    && (w.prompt.Leased? ==>
          && w.shared.runtime.Some? && w.shared.runtime.value.generation == w.prompt.generation
          && (!w.marks.reset ==> (w.shared.runtime.value.BeingCancelled? <==> Claimed(w) && !w.marks.early)))
  }

  lemma PromptKeepsRuntime(w: World, e: PromptEvent)
    requires Identified(w) && RuntimeInStep(w) && PromptEnabled(w, e)
    ensures RuntimeInStep(ApplyPrompt(w, e))
  {
    hide IssuedOnce;
  }

  lemma CancelKeepsRuntime(w: World, e: CancelEvent)
    requires Identified(w) && RuntimeInStep(w) && CancelEnabled(w, e)
    ensures RuntimeInStep(ApplyCancel(w, e))
  {
    hide IssuedOnce;
  }

  lemma OtherKeepsRuntime(w: World, e: OtherEvent)
    requires Identified(w) && RuntimeInStep(w) && OtherEnabled(w, e)
    ensures RuntimeInStep(ApplyOther(w, e))
  {
    hide IssuedOnce;
  }

  // ---- what can happen to a run ------------------------------------------------------------------------------

  /** The steps of one run's status: it starts running, may be marked and unmarked, and ends once and for all. */
  predicate Allowed(from: Option<Status>, to: Option<Status>)
  {
    || from == to
    || (from == None && to == Some(Running))
    || (from == Some(Running) && to.Some? && to.value in {Cancelling, Completed, Cancelled, Failed})
    || (from == Some(Cancelling) && to.Some? && to.value in {Running, Completed, Cancelled, Failed})
  }

  function StatusOf(w: World, run: Run): (r: Option<Status>)
  {
    if run in w.shared.runs then Some(w.shared.runs[run]) else None
  }

  /** Every step takes every run along an allowed edge; so a run that has ended never changes again. */
  lemma StepsAreAllowed(w: World, e: Event, run: Run)
    requires Enabled(w, e)
    ensures Allowed(StatusOf(w, run), StatusOf(Apply(w, e), run))
  {
  }

  /** A run that completed, failed or was cancelled stays so, whatever cancels and supervisors still do. */
  lemma {:induction false} EndedRunsStayEnded(worlds: seq<World>, events: seq<Event>, m: nat, n: nat, run: Run)
    requires IsRun(worlds, events) && m <= n < |worlds|
    requires StatusOf(worlds[m], run).Some? && StatusOf(worlds[m], run).value in {Completed, Cancelled, Failed}
    ensures StatusOf(worlds[n], run) == StatusOf(worlds[m], run)
    decreases n - m
  {
    if m < n {
      hide Apply, Enabled;
      EndedRunsStayEnded(worlds, events, m, n - 1, run);
      StepsAreAllowed(worlds[n - 1], events[n - 1], run);
    }
  }

  /** What each step of a cancel does, said of the state alone. */
  lemma CancelStepsMean(w: World, e: CancelEvent)
    requires CancelEnabled(w, e)
    ensures var next := ApplyCancel(w, e);
      && next.prompt == w.prompt
      && (next.shared.op != w.shared.op ==> e.SetFlag?)
      && (next.shared.runs != w.shared.runs ==> e.MarkStore? || e.RollbackStore?)
      && (next.shared.runtime != w.shared.runtime ==>
            && e.MoveRuntime? && w.shared.runtime.Some? && w.shared.runtime.value.Live?
            && next.shared.runtime == Some(BeingCancelled(w.shared.runtime.value.generation)))
      && (e.SetFlag? ==> next.section.None? && Flagged(next))
      && (e.MarkStore? ==>
            (next.section.Some? <==> e.succeeds && StatusOf(w, w.section.value.snapshot.run) == Some(Running)))
      && (e.RollbackStore? ==> next.section.None?)
      && (e.EnterSection? ==>
            var expected := PromptOp(e.snapshot.token, e.snapshot.run, e.snapshot.session, false);
            next.section.Some? <==> w.shared.op == Some(expected))
  {
  }

  /**
   When the marks are set: `stuck` only when a rollback does not find the run cancelling or fails, `early` only when the
   runtime is claimed before the run lease is taken, `reset` only by a supervisor.  Taking the lease clears `reset`,
   and a new operation starts with none.
   */
  lemma MarksMean(w: World, e: Event)
    requires Enabled(w, e)
    ensures var was, now := w.marks, Apply(w, e).marks;
      && (now.stuck && !was.stuck ==>
            && e.OfCancel? && e.c.RollbackStore?
            && !(e.c.succeeds && StatusOf(w, w.section.value.snapshot.run) == Some(Cancelling)))
      && (now.early && !was.early ==> e.OfCancel? && e.c.MoveRuntime? && !w.prompt.Leased?)
      && (now.reset && !was.reset ==> e.OfOther? && e.o.SuperviseReset?)
      && (e.OfPrompt? && e.p.AcquireLease? ==> !now.reset)
      && (e.OfPrompt? && e.p.Reserve? ==> now == Marks(false, false, false))
  {
  }

  /** What each step of a prompt does, said of the state alone. */
  lemma PromptStepsMean(w: World, e: PromptEvent)
    requires PromptEnabled(w, e)
    ensures var next, run := ApplyPrompt(w, e), if Owning(w) then w.shared.op.value.run else 0;
      && next.section == w.section
      && (next.shared.op != w.shared.op ==> e.Reserve? || e.Release?)
      && (e.Reserve? ==> Owning(next) && !Flagged(next) && next.shared.op.value.token == e.token && next.shared.op.value.run == e.run)
      && (e.Create? ==> (next.prompt.Created? <==> e.succeeds && run !in w.shared.runs) && (next.prompt.Leaving? <==> !next.prompt.Created?))
      && (e.Create? ==> (next.shared.runs != w.shared.runs <==> next.prompt.Created?))
      && (e.AcquireLease? ==>
            && next.shared.runtime == Some(Live(next.prompt.generation)) && next.prompt.generation > w.shared.lastGeneration
            && next.shared.lastGeneration == next.prompt.generation)
      && (e.Finalize? ==> (StatusOf(next, run) == Some(e.status) <==>
            StatusOf(w, run) == Some(e.status) || (e.succeeds && StatusOf(w, run) in {Some(Running), Some(Cancelling)})))
      && (e.Complete? ==>
            var was := w.shared.runtime;
            next.shared.runtime == if was.Some? && was.value.BeingCancelled? && was.value.generation <= w.prompt.generation
                                   then Some(Live(was.value.generation)) else was)
      && (e.Release? ==> next.shared.op.None?)
  {
  }

  // ---- runs --------------------------------------------------------------------------------------------------

  ghost predicate Good(w: World)
  {
    Identified(w) && StoreInStep(w) && RuntimeInStep(w)
  }

  lemma ApplyKeepsGood(w: World, e: Event)
    requires Good(w) && Enabled(w, e)
    ensures Good(Apply(w, e))
  {
    match e
    case OfPrompt(p) =>
      PromptKeepsIdentified(w, p);
      PromptKeepsStore(w, p);
      PromptKeepsRuntime(w, p);
    case OfCancel(c) =>
      CancelKeepsIdentified(w, c);
      CancelKeepsStore(w, c);
      CancelKeepsRuntime(w, c);
    case OfOther(o) =>
      OtherKeepsIdentified(w, o);
      OtherKeepsStore(w, o);
      OtherKeepsRuntime(w, o);
  }

  /** Runs start idle, with any runtime entry left over from before. */
  ghost predicate IsRun(worlds: seq<World>, events: seq<Event>)
  {
    && |worlds| == |events| + 1
    && worlds[0].shared.op.None? && worlds[0].shared.runs == map[] && worlds[0].prompt.NoPrompt? && worlds[0].section.None?
    && worlds[0].snapshots == {} && worlds[0].log == Log(map[], [], {})
    && forall i | 0 <= i < |events| :: Enabled(worlds[i], events[i]) && worlds[i + 1] == Apply(worlds[i], events[i])
  }

  lemma {:induction false} RunsStayGood(worlds: seq<World>, events: seq<Event>, n: nat)
    requires IsRun(worlds, events) && n < |worlds|
    ensures Good(worlds[n])
  {
    if n > 0 {
      RunsStayGood(worlds, events, n - 1);
      hide Good, Apply, Enabled;
      ApplyKeepsGood(worlds[n - 1], events[n - 1]);
    }
  }

  /**
   However cancels, finalizations, supervisors and new prompts interleave: a cancellation is requested
   at most once for each operation token, and only for the run that token was issued with.
   */
  lemma CancelIsOnceOnly(worlds: seq<World>, events: seq<Event>, n: nat)
    requires IsRun(worlds, events) && n < |worlds|
    ensures Distinct(worlds[n].log.requested)
    ensures n < |events| && events[n] == OfCancel(SetFlag) ==>
              && Owning(worlds[n]) && worlds[n].section.Some?
              && var op, snapshot := worlds[n].shared.op.value, worlds[n].section.value.snapshot;
                 && op.token == snapshot.token && op.run == snapshot.run && op.token !in worlds[n].log.requested
                 && op.token in worlds[n].log.issued && worlds[n].log.issued[op.token] == op.run
  {
    RunsStayGood(worlds, events, n);
    if n < |events| && events[n] == OfCancel(SetFlag) {
      assert Enabled(worlds[n], events[n]);
    }
  }

  /**
   Whenever the operations lock is free and the run lease is held: the store is marked exactly when the
   flag is set, unless a rollback failed; and the runtime is cancelling exactly when the flag is set,
   unless the claim came before the run lease or a supervisor reset it.
   */
  lemma StoreRuntimeAndFlagTogether(worlds: seq<World>, events: seq<Event>, n: nat)
    requires IsRun(worlds, events) && n < |worlds|
    requires Unlocked(worlds[n]) && worlds[n].prompt.Leased?
    ensures var w := worlds[n];
      && Owning(w) && w.shared.op.value.run in w.shared.runs && w.shared.runtime.Some?
      && (!w.marks.stuck ==> (Flagged(w) <==> w.shared.runs[w.shared.op.value.run] != Running))
      && (!w.marks.reset && !w.marks.early ==> (Flagged(w) <==> w.shared.runtime.value.BeingCancelled?))
      && (!w.marks.reset && w.marks.early ==> w.shared.runtime.value.Live?)
  {
    RunsStayGood(worlds, events, n);
    hide IssuedOnce;
  }

  // ---- a run whose cancel is overwritten -------------------------------------------------------------------

  ghost predicate Steps(w: World, e: Event, next: World)
  {
    Enabled(w, e) && next == Apply(w, e)
  }

  lemma OneMoreStep(worlds: seq<World>, events: seq<Event>, e: Event, next: World) returns (moreWorlds: seq<World>, moreEvents: seq<Event>)
    requires IsRun(worlds, events) && Steps(worlds[|worlds| - 1], e, next)
    ensures IsRun(moreWorlds, moreEvents) && |moreWorlds| > 0 && moreWorlds[|moreWorlds| - 1] == next
  {
    moreWorlds, moreEvents := worlds + [next], events + [e];
    hide Enabled, Apply;
    forall i | 0 <= i < |moreEvents|
      ensures Enabled(moreWorlds[i], moreEvents[i]) && moreWorlds[i + 1] == Apply(moreWorlds[i], moreEvents[i])
    {
      if i < |events| {
        assert moreWorlds[i] == worlds[i] && moreEvents[i] == events[i] && moreWorlds[i + 1] == worlds[i + 1];
      }
    }
  }

  /** The hub before the prompt, with the runtime entry of an earlier turn. */
  function BeforePrompt(generation: nat): (w: World)
  {
    World(Shared(None, map[], Some(Live(generation)), generation), NoPrompt, None, {}, Log(map[], [], {}), Marks(false, false, false))
  }

  /** The prompt has its run row and not yet its run lease. */
  function RowWithoutLease(token: Token, run: Run, session: nat, generation: nat): (w: World)
  {
    World(Shared(Some(PromptOp(token, run, session, false)), map[run := Running], Some(Live(generation)), generation),
          Created, None, {}, Log(map[token := run], [], {}), Marks(false, false, false))
  }

  /** A cancel has claimed that runtime entry and set the flag. */
  function ClaimedEarly(token: Token, run: Run, session: nat, generation: nat): (w: World)
  {
    World(Shared(Some(PromptOp(token, run, session, true)), map[run := Cancelling], Some(BeingCancelled(generation)), generation),
          Created, None, {Snapshot(token, run, session)}, Log(map[token := run], [token], {run}), Marks(true, false, false))
  }

  lemma ReachRowWithoutLease(token: Token, run: Run, session: nat, generation: nat) returns (worlds: seq<World>, events: seq<Event>)
    ensures IsRun(worlds, events) && |worlds| > 0 && worlds[|worlds| - 1] == RowWithoutLease(token, run, session, generation)
  {
    var w0 := BeforePrompt(generation);
    var w1 := ApplyPrompt(w0, Reserve(token, run, session));
    var w2 := ApplyPrompt(w1, Create(true));
    assert w2 == RowWithoutLease(token, run, session, generation);
    worlds, events := [w0], [];
    assert IsRun(worlds, events);
    hide IsRun;
    worlds, events := OneMoreStep(worlds, events, OfPrompt(Reserve(token, run, session)), w1);
    worlds, events := OneMoreStep(worlds, events, OfPrompt(Create(true)), w2);
  }

  /** Both lock sections of the cancel, step by step. */
  lemma CancelMoves(token: Token, run: Run, session: nat, generation: nat) returns (w: seq<World>)
    ensures |w| == 7 && w[0] == RowWithoutLease(token, run, session, generation) && w[6] == ClaimedEarly(token, run, session, generation)
    ensures Steps(w[0], OfCancel(TakeSnapshot), w[1])
    ensures Steps(w[1], OfCancel(EnterSection(Snapshot(token, run, session))), w[2])
    ensures Steps(w[2], OfCancel(MarkStore(true)), w[3])
    ensures Steps(w[3], OfCancel(ReadRuntime), w[4])
    ensures Steps(w[4], OfCancel(MoveRuntime), w[5])
    ensures Steps(w[5], OfCancel(SetFlag), w[6])
  {
    var nobody: set<Run> := {};
    var nothing: set<Snapshot> := {};
    assert nobody + {run} == {run} && nothing + {Snapshot(token, run, session)} == {Snapshot(token, run, session)};
    assert map[run := Running][run := Cancelling] == map[run := Cancelling];
    assert [] + [token] == [token];
    var w0 := RowWithoutLease(token, run, session, generation);
    var w1 := ApplyCancel(w0, TakeSnapshot);
    var w2 := ApplyCancel(w1, EnterSection(Snapshot(token, run, session)));
    var w3 := ApplyCancel(w2, MarkStore(true));
    var w4 := ApplyCancel(w3, ReadRuntime);
    var w5 := ApplyCancel(w4, MoveRuntime);
    var w6 := ApplyCancel(w5, SetFlag);
    w := [w0, w1, w2, w3, w4, w5, w6];
  }

  /**
   A cancel that comes after the run row exists and before the run lease is taken claims the runtime entry
   of an earlier turn; taking the lease then makes the runtime live again, under a cancellation that was
   answered as requested.
   */
  lemma EarlyClaimIsOverwritten(token: Token, run: Run, session: nat, generation: nat) returns (worlds: seq<World>, events: seq<Event>)
    ensures IsRun(worlds, events) && |worlds| > 0
    ensures var w := worlds[|worlds| - 1];
      && w.shared.op == Some(PromptOp(token, run, session, true)) && w.log.requested == [token]
      && w.shared.runs == map[run := Cancelling]
      && w.prompt == Leased(generation + 1) && w.shared.runtime == Some(Live(generation + 1))
  {
    worlds, events := ReachRowWithoutLease(token, run, session, generation);
    var w := CancelMoves(token, run, session, generation);
    var leased := ApplyPrompt(ClaimedEarly(token, run, session, generation), AcquireLease);
    assert Steps(w[6], OfPrompt(AcquireLease), leased);
    hide IsRun, Steps, RowWithoutLease, ClaimedEarly;
    worlds, events := OneMoreStep(worlds, events, OfCancel(TakeSnapshot), w[1]);
    worlds, events := OneMoreStep(worlds, events, OfCancel(EnterSection(Snapshot(token, run, session))), w[2]);
    worlds, events := OneMoreStep(worlds, events, OfCancel(MarkStore(true)), w[3]);
    worlds, events := OneMoreStep(worlds, events, OfCancel(ReadRuntime), w[4]);
    worlds, events := OneMoreStep(worlds, events, OfCancel(MoveRuntime), w[5]);
    worlds, events := OneMoreStep(worlds, events, OfCancel(SetFlag), w[6]);
    worlds, events := OneMoreStep(worlds, events, OfPrompt(AcquireLease), leased);
  }
}
