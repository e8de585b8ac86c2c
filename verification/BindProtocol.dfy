/**
 Binding a session while its updates keep arriving, one lock section a step: any number of bind
 calls, arrivals, direct captures and unbinds of one session interleave.  The agent's connection does
 not change, which would discard what is pending.
 */
module BindProtocol {
  import opened Outcomes
  import opened CaptureQuota

  /** A bind call between two of its lock sections. */
  datatype Phase = Idle | Head | Holding(entry: Entry) | Failing(entry: Entry) | Drained

  datatype Session = Session(queue: seq<Entry>, draining: bool, bound: bool, stored: seq<Entry>)

  /**
   `arrivals`: everything that was queued and that no unbind made the hub discard.  `drained`: what binds
   stored.  `everBound`: a binding was once visible.
   */
  datatype History = History(arrivals: seq<Entry>, drained: seq<Entry>, everBound: bool)

  /** `owner` is the bind call that inserted the mark the session is draining under. */
  datatype World = World(session: Session, history: History, calls: seq<Phase>, owner: Option<nat>)

  datatype Event =
    | Begin(call: nat)
    | Pop(call: nat)
    | Publish(call: nat)
    | Store(call: nat, succeeds: bool)
    | Rollback(call: nat)
    | Arrive(entry: Entry)
    | Direct(entry: Entry)
    | Unbind

  // ---- entries ---------------------------------------------------------------------------------------

  /** The entries that still belong to the agent's connection. */
  function Live(entries: seq<Entry>, connection: ConnectionId): (r: seq<Entry>)
  {
    if |entries| == 0 then [] else
      var last := entries[|entries| - 1];
      Live(entries[..|entries| - 1], connection) + if last.connection == connection then [last] else []
  }

  lemma {:induction false} LiveAppend(a: seq<Entry>, b: seq<Entry>, connection: ConnectionId)
    ensures Live(a + b, connection) == Live(a, connection) + Live(b, connection)
    decreases |b|
  {
    if |b| == 0 {
      assert a + b == a;
    } else {
      var init := b[..|b| - 1];
      assert (a + b)[..|a + b| - 1] == a + init;
      LiveAppend(a, init, connection);
    }
  }

  lemma LiveOne(entry: Entry, connection: ConnectionId)
    ensures Live([entry], connection) == if entry.connection == connection then [entry] else []
  {
    assert [entry][..0] == [];
  }

  lemma LiveFront(entry: Entry, queue: seq<Entry>, connection: ConnectionId)
    ensures Live([entry] + queue, connection) == (if entry.connection == connection then [entry] else []) + Live(queue, connection)
  {
    LiveAppend([entry], queue, connection);
    LiveOne(entry, connection);
  }

  /** All but the last `n` entries. */
  function WithoutLast(entries: seq<Entry>, n: nat): (r: seq<Entry>)
  {
    if n <= |entries| then entries[..|entries| - n] else []
  }

  // ---- steps -----------------------------------------------------------------------------------------

  predicate Enabled(w: World, e: Event)
  {
    match e
    case Begin(i) => i < |w.calls| && w.calls[i].Idle?
    case Pop(i) => i < |w.calls| && w.calls[i].Head?
    case Publish(i) => i < |w.calls| && w.calls[i].Drained?
    case Store(i, _) => i < |w.calls| && w.calls[i].Holding?
    case Rollback(i) => i < |w.calls| && w.calls[i].Failing?
    case Arrive(_) => true
    case Direct(_) => w.history.everBound
    case Unbind => true
  }

  /** A failed store of a call whose session was unbound: its entry, just before the queue, is discarded. */
  function Discarded(arrivals: seq<Entry>, queue: seq<Entry>): (r: seq<Entry>)
  {
    if |queue| <= |arrivals| then WithoutLast(arrivals, |queue| + 1) + arrivals[|arrivals| - |queue|..] else arrivals
  }

  function Next(w: World, e: Event, connection: ConnectionId): (r: World)
    requires Enabled(w, e)
  {
    var s, h := w.session, w.history;
    match e
    case Begin(i) =>
      if s.draining then w
      else World(s.(draining := true, bound := false), h, w.calls[i := Head], Some(i))
    case Pop(i) =>
      if |s.queue| == 0 then w.(calls := w.calls[i := Drained])
      else w.(session := s.(queue := s.queue[1..]), calls := w.calls[i := Holding(s.queue[0])])
    case Publish(i) =>
      if !s.draining then w.(calls := w.calls[i := Idle])
      else if |s.queue| > 0 then w.(calls := w.calls[i := Head])
      else World(s.(draining := false, bound := true), h.(everBound := true), w.calls[i := Idle], None)
    case Store(i, succeeds) =>
      var entry := w.calls[i].entry;
      if entry.connection != connection then w.(calls := w.calls[i := Head])
      else if succeeds then
        World(s.(stored := s.stored + [entry]), h.(drained := h.drained + [entry]), w.calls[i := Head], w.owner)
      else w.(calls := w.calls[i := Failing(entry)])
    case Rollback(i) =>
      if !s.draining then w.(history := h.(arrivals := Discarded(h.arrivals, s.queue)), calls := w.calls[i := Idle])
      else World(s.(queue := [w.calls[i].entry] + s.queue, draining := false), h, w.calls[i := Idle], None)
    case Arrive(entry) =>
      w.(session := s.(queue := s.queue + [entry]), history := h.(arrivals := h.arrivals + [entry]))
    case Direct(entry) => w.(session := s.(stored := s.stored + [entry]))
    case Unbind =>
      World(s.(queue := [], draining := false, bound := false), h.(arrivals := WithoutLast(h.arrivals, |s.queue|)), w.calls, None)
  }

  // ---- one bind at a time ------------------------------------------------------------------------------

  /** The mark belongs to a bind call that is running. */
  ghost predicate OwnerRuns(w: World)
  {
    && (w.session.draining <==> w.owner.Some?)
    && (w.owner.Some? ==> w.owner.value < |w.calls| && !w.calls[w.owner.value].Idle?)
  }

  /** At most one bind call is running. */
  ghost predicate OneBinder(w: World)
  {
    forall i, j | 0 <= i < j < |w.calls| :: w.calls[i].Idle? || w.calls[j].Idle?
  }

  /** A bind begins while one that was unbound under it is still running. */
  ghost predicate Overlaps(w: World, e: Event)
  {
    e.Begin? && !w.session.draining && exists j | 0 <= j < |w.calls| :: !w.calls[j].Idle?
  }

  lemma NextKeepsOwner(w: World, e: Event, connection: ConnectionId)
    requires OwnerRuns(w) && Enabled(w, e)
    ensures OwnerRuns(Next(w, e, connection))
  {
  }

  /** A step ends the rule of one bind at a time exactly when it is an overlapping begin. */
  lemma OneBinderExactlyWithoutOverlap(w: World, e: Event, connection: ConnectionId)
    requires OwnerRuns(w) && OneBinder(w) && Enabled(w, e)
    ensures OneBinder(Next(w, e, connection)) <==> !Overlaps(w, e)
  {
    var next := Next(w, e, connection);
    if Overlaps(w, e) {
      var j :| 0 <= j < |w.calls| && !w.calls[j].Idle?;
      assert !next.calls[e.call].Idle? && !next.calls[j].Idle? && j != e.call;
    } else {
      assert forall i | 0 <= i < |w.calls| && !next.calls[i].Idle? :: !w.calls[i].Idle? || (e.Begin? && !w.session.draining && i == e.call);
    }
  }

  // ---- order -------------------------------------------------------------------------------------------

  function Hand(call: Phase): (r: seq<Entry>)
  {
    if call.Holding? || call.Failing? then [call.entry] else []
  }

  /** The entries that bind calls have taken off the queue and not yet settled. */
  function Hands(calls: seq<Phase>): (r: seq<Entry>)
  {
    if |calls| == 0 then [] else Hand(calls[0]) + Hands(calls[1..])
  }

  lemma {:induction false} HandsOfOne(calls: seq<Phase>, i: nat)
    requires forall j | 0 <= j < |calls| && j != i :: calls[j].Idle?
    ensures Hands(calls) == if i < |calls| then Hand(calls[i]) else []
  {
    if |calls| > 0 {
      if i == 0 {
        HandsOfOne(calls[1..], |calls|);
      } else {
        HandsOfOne(calls[1..], i - 1);
      }
    }
  }

  /** What has arrived and is not settled, in order. */
  function Unsettled(w: World): (r: seq<Entry>)
  {
    Hands(w.calls) + w.session.queue
  }

  /** The arrivals are what is settled, then what is not; and binds have stored the live part of what is settled. */
  ghost predicate Splits(arrivals: seq<Entry>, drained: seq<Entry>, unsettled: seq<Entry>, connection: ConnectionId)
  {
    && |unsettled| <= |arrivals|
    && arrivals == WithoutLast(arrivals, |unsettled|) + unsettled
    && drained == Live(WithoutLast(arrivals, |unsettled|), connection)
  }

  ghost predicate InOrder(w: World, connection: ConnectionId)
  {
    Splits(w.history.arrivals, w.history.drained, Unsettled(w), connection)
  }

  /** What is settled, the entry that is being settled, and the rest. */
  lemma SettledEntryRest(settled: seq<Entry>, entry: Entry, rest: seq<Entry>)
    ensures var arrivals := settled + ([entry] + rest);
      && WithoutLast(arrivals, |rest| + 1) == settled
      && WithoutLast(arrivals, |rest|) == settled + [entry] && arrivals == settled + [entry] + rest
      && Discarded(arrivals, rest) == settled + rest && WithoutLast(settled + rest, |rest|) == settled
  {
    var arrivals := settled + ([entry] + rest);
    assert arrivals[|arrivals| - |rest|..] == rest;
    assert WithoutLast(arrivals, |rest| + 1) == settled;
  }

  lemma SplitsSettle(arrivals: seq<Entry>, drained: seq<Entry>, entry: Entry, rest: seq<Entry>, connection: ConnectionId)
    requires Splits(arrivals, drained, [entry] + rest, connection)
    ensures Splits(arrivals, if entry.connection == connection then drained + [entry] else drained, rest, connection)
    ensures Splits(Discarded(arrivals, rest), drained, rest, connection)
  {
    var settled := WithoutLast(arrivals, |[entry] + rest|);
    SettledEntryRest(settled, entry, rest);
    LiveAppend(settled, [entry], connection);
    LiveOne(entry, connection);
    hide Live, WithoutLast, Discarded;
    assert drained + [] == drained;
  }

  lemma SplitsDiscard(arrivals: seq<Entry>, drained: seq<Entry>, hands: seq<Entry>, queue: seq<Entry>, connection: ConnectionId)
    requires Splits(arrivals, drained, hands + queue, connection)
    ensures Splits(WithoutLast(arrivals, |queue|), drained, hands, connection)
  {
    var settled := WithoutLast(arrivals, |hands + queue|);
    hide Live;
    assert arrivals == settled + hands + queue;
    assert WithoutLast(arrivals, |queue|) == settled + hands;
    assert WithoutLast(settled + hands, |hands|) == settled;
  }

  lemma SplitsArrive(arrivals: seq<Entry>, drained: seq<Entry>, unsettled: seq<Entry>, entry: Entry, connection: ConnectionId)
    requires Splits(arrivals, drained, unsettled, connection)
    ensures Splits(arrivals + [entry], drained, unsettled + [entry], connection)
  {
    var settled := WithoutLast(arrivals, |unsettled|);
    assert arrivals + [entry] == settled + (unsettled + [entry]);
    assert WithoutLast(arrivals + [entry], |unsettled| + 1) == settled;
  }

  predicate ByCall(e: Event)
  {
    e.Pop? || e.Publish? || e.Store? || e.Rollback?
  }

  /** While one bind runs, what is in hand is what its call holds. */
  lemma HandsOfTheBinder(w: World, i: nat, p: Phase)
    requires OneBinder(w) && i < |w.calls| && !w.calls[i].Idle?
    ensures Hands(w.calls) == Hand(w.calls[i]) && Hands(w.calls[i := p]) == Hand(p)
  {
    HandsOfOne(w.calls, i);
    HandsOfOne(w.calls[i := p], i);
  }

  /** What is unsettled before and after a call moves on: entries in hand come before the queue. */
  lemma UnsettledByCall(w: World, e: Event, connection: ConnectionId)
    requires OneBinder(w) && Enabled(w, e) && ByCall(e)
    ensures var next := Next(w, e, connection);
      && Unsettled(w) == Hand(w.calls[e.call]) + w.session.queue
      && Unsettled(next) == Hand(next.calls[e.call]) + next.session.queue
  {
    var next := Next(w, e, connection);
    assert next.calls == w.calls[e.call := next.calls[e.call]];
    hide Next, Hand;
    HandsOfTheBinder(w, e.call, next.calls[e.call]);
  }

  /** A pop and the end of a bind move entries between queue and hand, and settle none. */
  lemma PassingOn(w: World, e: Event, connection: ConnectionId)
    requires OneBinder(w) && Enabled(w, e) && (e.Pop? || e.Publish?)
    ensures var next := Next(w, e, connection); Unsettled(next) == Unsettled(w) && next.history.(everBound := w.history.everBound) == w.history
  {
    UnsettledByCall(w, e, connection);
    hide OneBinder, Unsettled;
    var queue := w.session.queue;
    assert |queue| > 0 ==> [] + queue == [queue[0]] + queue[1..];
  }

  /** A store that succeeds or drops a stale entry settles the entry in hand; one that fails leaves it in hand. */
  lemma StoreSettles(w: World, i: nat, succeeds: bool, connection: ConnectionId)
    requires OneBinder(w) && Enabled(w, Event.Store(i, succeeds))
    ensures var entry, next := w.calls[i].entry, Next(w, Event.Store(i, succeeds), connection);
      && Unsettled(w) == [entry] + w.session.queue && next.history.arrivals == w.history.arrivals
      && (if entry.connection == connection && !succeeds
          then Unsettled(next) == Unsettled(w) && next.history.drained == w.history.drained
          else && Unsettled(next) == w.session.queue
               && next.history.drained == if entry.connection == connection then w.history.drained + [entry] else w.history.drained)
  {
    UnsettledByCall(w, Event.Store(i, succeeds), connection);
    hide OneBinder, Unsettled;
    assert [] + w.session.queue == w.session.queue;
  }

  /** A rollback puts the entry in hand back in front, or discards it when the mark is gone. */
  lemma RollbackSettles(w: World, i: nat, connection: ConnectionId)
    requires OneBinder(w) && Enabled(w, Event.Rollback(i))
    ensures var queue, next := w.session.queue, Next(w, Event.Rollback(i), connection);
      && Unsettled(w) == [w.calls[i].entry] + queue && next.history.drained == w.history.drained
      && (if w.session.draining
          then Unsettled(next) == Unsettled(w) && next.history.arrivals == w.history.arrivals
          else Unsettled(next) == queue && next.history.arrivals == Discarded(w.history.arrivals, queue))
  {
    UnsettledByCall(w, Event.Rollback(i), connection);
    hide OneBinder, Unsettled, Discarded;
    var queue := [w.calls[i].entry] + w.session.queue;
    assert [] + w.session.queue == w.session.queue && [] + queue == queue;
  }

  lemma StoreKeepsOrder(w: World, i: nat, succeeds: bool, connection: ConnectionId)
    requires OneBinder(w) && InOrder(w, connection) && Enabled(w, Event.Store(i, succeeds))
    ensures InOrder(Next(w, Event.Store(i, succeeds), connection), connection)
  {
    StoreSettles(w, i, succeeds, connection);
    hide OneBinder, Unsettled, Splits, Next;
    SplitsSettle(w.history.arrivals, w.history.drained, w.calls[i].entry, w.session.queue, connection);
  }

  lemma RollbackKeepsOrder(w: World, i: nat, connection: ConnectionId)
    requires OneBinder(w) && InOrder(w, connection) && Enabled(w, Event.Rollback(i))
    ensures InOrder(Next(w, Event.Rollback(i), connection), connection)
  {
    RollbackSettles(w, i, connection);
    hide OneBinder, Unsettled, Splits, Next, Discarded;
    SplitsSettle(w.history.arrivals, w.history.drained, w.calls[i].entry, w.session.queue, connection);
  }

  lemma ArriveKeepsOrder(w: World, entry: Entry, connection: ConnectionId)
    requires InOrder(w, connection)
    ensures InOrder(Next(w, Event.Arrive(entry), connection), connection)
  {
    SplitsArrive(w.history.arrivals, w.history.drained, Unsettled(w), entry, connection);
    hide Hands, Live, Splits;
    assert Hands(w.calls) + (w.session.queue + [entry]) == Unsettled(w) + [entry];
  }

  lemma BeginKeepsOrder(w: World, i: nat, connection: ConnectionId)
    requires InOrder(w, connection) && Enabled(w, Event.Begin(i)) && !Overlaps(w, Event.Begin(i))
    ensures InOrder(Next(w, Event.Begin(i), connection), connection)
  {
    if !w.session.draining {
      HandsOfOne(w.calls, i);
      HandsOfOne(w.calls[i := Head], i);
    }
    hide Live, Splits, Hands;
  }

  lemma UnbindKeepsOrder(w: World, connection: ConnectionId)
    requires InOrder(w, connection)
    ensures InOrder(Next(w, Event.Unbind, connection), connection)
  {
    hide Live, Splits, Hands, OneBinder, WithoutLast;
    SplitsDiscard(w.history.arrivals, w.history.drained, Hands(w.calls), w.session.queue, connection);
    assert Hands(w.calls) + [] == Hands(w.calls);
  }

  lemma NextKeepsOrder(w: World, e: Event, connection: ConnectionId)
    requires OneBinder(w) && InOrder(w, connection) && Enabled(w, e) && !Overlaps(w, e)
    ensures InOrder(Next(w, e, connection), connection)
  {
    if e.Arrive? {
      ArriveKeepsOrder(w, e.entry, connection);
    } else if e.Begin? {
      BeginKeepsOrder(w, e.call, connection);
    } else if e.Unbind? {
      UnbindKeepsOrder(w, connection);
    } else if e.Store? {
      StoreKeepsOrder(w, e.call, e.succeeds, connection);
    } else if e.Rollback? {
      RollbackKeepsOrder(w, e.call, connection);
    } else if e.Pop? || e.Publish? {
      PassingOn(w, e, connection);
      hide Unsettled, Splits, OneBinder;
    } else {
      hide Splits, OneBinder;
    }
  }

  ghost predicate Good(w: World, connection: ConnectionId)
  {
    && OneBinder(w)
    && InOrder(w, connection)
    && (!w.history.everBound ==> w.session.stored == w.history.drained)
  }

  lemma NextKeepsGood(w: World, e: Event, connection: ConnectionId)
    requires OwnerRuns(w) && Good(w, connection) && Enabled(w, e) && !Overlaps(w, e)
    ensures Good(Next(w, e, connection), connection)
  {
    OneBinderExactlyWithoutOverlap(w, e, connection);
    NextKeepsOrder(w, e, connection);
    hide InOrder, OneBinder, OwnerRuns, Live;
  }

  // ---- runs --------------------------------------------------------------------------------------------

  /** A run on a session that has never been bound, with every call idle. */
  ghost predicate IsRun(worlds: seq<World>, events: seq<Event>, connection: ConnectionId)
  {
    && |worlds| == |events| + 1
    && worlds[0].session == Session([], false, false, []) && worlds[0].history == History([], [], false)
    && worlds[0].owner.None? && (forall i | 0 <= i < |worlds[0].calls| :: worlds[0].calls[i].Idle?)
    && forall i | 0 <= i < |events| :: Enabled(worlds[i], events[i]) && worlds[i + 1] == Next(worlds[i], events[i], connection)
  }

  ghost predicate NoOverlap(worlds: seq<World>, events: seq<Event>, n: nat)
    requires |worlds| == |events| + 1 && n <= |events|
  {
    forall i | 0 <= i < n :: !Overlaps(worlds[i], events[i])
  }

  ghost predicate OneBinderUpTo(worlds: seq<World>, n: nat)
    requires n < |worlds|
  {
    forall i | 0 <= i <= n :: OneBinder(worlds[i])
  }

  lemma {:induction false} OwnerAlwaysRuns(worlds: seq<World>, events: seq<Event>, connection: ConnectionId, n: nat)
    requires IsRun(worlds, events, connection) && n < |worlds|
    ensures OwnerRuns(worlds[n])
  {
    if n > 0 {
      OwnerAlwaysRuns(worlds, events, connection, n - 1);
      NextKeepsOwner(worlds[n - 1], events[n - 1], connection);
    }
  }

  /** There has been at most one bind at a time if and only if none began while one that was unbound under it still ran. */
  lemma {:induction false} OneBinderExactlyWhileNoOverlap(worlds: seq<World>, events: seq<Event>, connection: ConnectionId, n: nat)
    requires IsRun(worlds, events, connection) && n < |worlds|
    ensures OneBinderUpTo(worlds, n) <==> NoOverlap(worlds, events, n)
  {
    if n > 0 {
      OneBinderExactlyWhileNoOverlap(worlds, events, connection, n - 1);
      OwnerAlwaysRuns(worlds, events, connection, n - 1);
      hide Overlaps, OneBinder, OwnerRuns, Next;
      assert OneBinderUpTo(worlds, n) <==> OneBinderUpTo(worlds, n - 1) && OneBinder(worlds[n]);
      assert NoOverlap(worlds, events, n) <==> NoOverlap(worlds, events, n - 1) && !Overlaps(worlds[n - 1], events[n - 1]);
      if OneBinderUpTo(worlds, n - 1) {
        assert OneBinder(worlds[n - 1]);
        OneBinderExactlyWithoutOverlap(worlds[n - 1], events[n - 1], connection);
      }
    }
  }

  lemma {:induction false} RunsStayGood(worlds: seq<World>, events: seq<Event>, connection: ConnectionId, n: nat)
    requires IsRun(worlds, events, connection) && n < |worlds| && NoOverlap(worlds, events, n)
    ensures Good(worlds[n], connection)
  {
    if n == 0 {
      HandsOfOne(worlds[0].calls, |worlds[0].calls|);
    } else {
      assert NoOverlap(worlds, events, n - 1) && !Overlaps(worlds[n - 1], events[n - 1]);
      RunsStayGood(worlds, events, connection, n - 1);
      OwnerAlwaysRuns(worlds, events, connection, n - 1);
      hide Good, Overlaps, OwnerRuns, Next;
      NextKeepsGood(worlds[n - 1], events[n - 1], connection);
    }
  }

  /** No bind call has an entry in hand: it is at the head of its loop, or at its end, or not running. */
  predicate NothingInHand(w: World)
  {
    forall i | 0 <= i < |w.calls| :: !w.calls[i].Holding? && !w.calls[i].Failing?
  }

  lemma {:induction false} NoHands(calls: seq<Phase>)
    requires forall i | 0 <= i < |calls| :: !calls[i].Holding? && !calls[i].Failing?
    ensures Hands(calls) == []
  {
    if |calls| > 0 {
      NoHands(calls[1..]);
    }
  }

  lemma InOrderMeans(w: World, connection: ConnectionId)
    requires InOrder(w, connection) && NothingInHand(w)
    ensures w.history.drained + Live(w.session.queue, connection) == Live(w.history.arrivals, connection)
  {
    NoHands(w.calls);
    assert [] + w.session.queue == w.session.queue;
    LiveAppend(WithoutLast(w.history.arrivals, |w.session.queue|), w.session.queue, connection);
  }

  /** A binding appears only when nothing is pending. */
  lemma BindingMeansDrained(w: World, e: Event, connection: ConnectionId)
    requires Enabled(w, e) && !w.session.bound && Next(w, e, connection).session.bound
    ensures e.Publish? && Next(w, e, connection).session.queue == [] && Next(w, e, connection).calls == w.calls[e.call := Idle]
  {
  }

  /** A drained bind publishes, or goes on when updates arrived meanwhile, or ends without a binding when its mark is gone. */
  lemma PublishMeans(w: World, i: nat, connection: ConnectionId)
    requires Enabled(w, Event.Publish(i))
    ensures var s, next := w.session, Next(w, Event.Publish(i), connection);
      && (s.draining && s.queue == [] ==> next.session.bound && !next.session.draining && next.calls[i].Idle?)
      && (s.draining && s.queue != [] ==> next.session == s && next.calls[i].Head?)
      && (!s.draining ==> next.session == s && next.calls[i].Idle?)
  {
  }

  /** The steps of a session are the steps of its pending queue. */
  lemma StepsAreThoseOfTheQueue(w: World, e: Event, connection: ConnectionId, p: Pending, key: Key)
    requires Enabled(w, e) && !e.Store? && !e.Direct?
    requires QueueOf(p, key) == w.session.queue && (key in p.draining <==> w.session.draining)
    ensures var next, q := Next(w, e, connection).session, QueueStep(w, e, p, key);
            QueueOf(q, key) == next.queue && (key in q.draining <==> next.draining)
  {
    hide SumBytes;
  }

  /** What a lock section does to the pending queues. */
  function QueueStep(w: World, e: Event, p: Pending, key: Key): (r: Pending)
    requires Enabled(w, e)
  {
    match e
    case Begin(_) => AfterBegin(p, key)
    case Pop(_) => AfterPop(p, key)
    case Publish(_) => AfterBound(p, key)
    case Store(_, _) => p
    case Rollback(i) => AfterRollback(p, key, w.calls[i].entry)
    case Arrive(entry) => Append(p, key, entry)
    case Direct(_) => p
    case Unbind => AfterUnbind(p, key)
  }

  /** A session becomes bound by such a publication and by nothing else. */
  lemma OnlyPublishBinds(w: World, e: Event, connection: ConnectionId)
    requires Enabled(w, e) && !w.session.bound
    ensures Next(w, e, connection).session.bound <==> e.Publish? && w.session.draining && w.session.queue == []
  {
  }

  /**
   As long as no bind begins while one that was unbound under it still runs: whenever no bind has an entry in
   hand, what binds have stored so far, followed by the live part of the queue, is everything that arrived over
   the live connection and was not discarded by an unbind, in order and once each.  As long as the session was
   never bound the store holds nothing else, and the binding appears only when nothing is left to store.
   */
  lemma BindStoresInOrderExactlyOnce(worlds: seq<World>, events: seq<Event>, connection: ConnectionId, n: nat)
    requires IsRun(worlds, events, connection) && n < |worlds| && NoOverlap(worlds, events, n)
    ensures var w := worlds[n];
      && (NothingInHand(w) ==> w.history.drained + Live(w.session.queue, connection) == Live(w.history.arrivals, connection))
      && (!w.history.everBound ==> w.session.stored == w.history.drained)
      && (n > 0 && !worlds[n - 1].session.bound && w.session.bound ==>
            w.session.queue == [] && w.history.drained == Live(w.history.arrivals, connection))
  {
    RunsStayGood(worlds, events, connection, n);
    var w := worlds[n];
    if NothingInHand(w) {
      InOrderMeans(w, connection);
    }
    if n > 0 && !worlds[n - 1].session.bound && w.session.bound {
      assert NoOverlap(worlds, events, n - 1);
      RunsStayGood(worlds, events, connection, n - 1);
      PublishedAlone(worlds[n - 1], events[n - 1], connection);
      InOrderMeans(w, connection);
    }
  }

  lemma PublishedAlone(w: World, e: Event, connection: ConnectionId)
    requires OneBinder(w) && Enabled(w, e) && !w.session.bound && Next(w, e, connection).session.bound
    ensures var next := Next(w, e, connection);
            NothingInHand(next) && next.session.queue == [] && Live(next.session.queue, connection) == []
  {
    BindingMeansDrained(w, e, connection);
    assert forall j | 0 <= j < |w.calls| && j != e.call :: w.calls[j].Idle?;
  }

  // ---- a run that stores out of order ------------------------------------------------------------------

  ghost predicate Steps(w: World, e: Event, connection: ConnectionId, next: World)
  {
    Enabled(w, e) && next == Next(w, e, connection)
  }

  lemma OneMoreStep(worlds: seq<World>, events: seq<Event>, connection: ConnectionId, e: Event, next: World)
      returns (moreWorlds: seq<World>, moreEvents: seq<Event>)
    requires IsRun(worlds, events, connection) && Steps(worlds[|worlds| - 1], e, connection, next)
    ensures IsRun(moreWorlds, moreEvents, connection) && |moreWorlds| > 0 && moreWorlds[|moreWorlds| - 1] == next
  {
    moreWorlds, moreEvents := worlds + [next], events + [e];
    hide Enabled, Next;
    forall i | 0 <= i < |moreEvents|
      ensures Enabled(moreWorlds[i], moreEvents[i]) && moreWorlds[i + 1] == Next(moreWorlds[i], moreEvents[i], connection)
    {
      if i < |events| {
        assert moreWorlds[i] == worlds[i] && moreEvents[i] == events[i] && moreWorlds[i + 1] == worlds[i + 1];
      }
    }
  }

  /** Two bind calls; `marked` is the one the draining mark belongs to, if any. */
  function TwoCalls(queue: seq<Entry>, stored: seq<Entry>, arrivals: seq<Entry>, first: Phase, second: Phase, marked: Option<nat>): (w: World)
  {
    World(Session(queue, marked.Some?, false, stored), History(arrivals, stored, false), [first, second], marked)
  }

  /** Until the first bind holds an entry, loses its mark to an unbind, and a second bind begins. */
  lemma OverlapMoves(a: Entry, connection: ConnectionId)
    ensures Steps(TwoCalls([], [], [], Idle, Idle, None), Event.Arrive(a), connection, TwoCalls([a], [], [a], Idle, Idle, None))
    ensures Steps(TwoCalls([a], [], [a], Idle, Idle, None), Event.Begin(0), connection, TwoCalls([a], [], [a], Head, Idle, Some(0)))
    ensures Steps(TwoCalls([a], [], [a], Head, Idle, Some(0)), Event.Pop(0), connection, TwoCalls([], [], [a], Holding(a), Idle, Some(0)))
    ensures Steps(TwoCalls([], [], [a], Holding(a), Idle, Some(0)), Event.Unbind, connection, TwoCalls([], [], [a], Holding(a), Idle, None))
    ensures Steps(TwoCalls([], [], [a], Holding(a), Idle, None), Event.Begin(1), connection, TwoCalls([], [], [a], Holding(a), Head, Some(1)))
  {
    assert [] + [a] == [a] && [a][1..] == [] && [a][..1] == [a];
    assert [Idle, Idle][0 := Head] == [Head, Idle] && [Head, Idle][0 := Holding(a)] == [Holding(a), Idle];
    assert [Holding(a), Idle][1 := Head] == [Holding(a), Head];
  }

  /** Two more updates arrive, each bind pops one, and the second stores first. */
  lemma OutOfOrderMoves(a: Entry, b: Entry, c: Entry, connection: ConnectionId)
    requires a.connection == connection && b.connection == connection && c.connection == connection
    ensures Steps(TwoCalls([], [], [a], Holding(a), Head, Some(1)), Event.Arrive(b), connection, TwoCalls([b], [], [a, b], Holding(a), Head, Some(1)))
    ensures Steps(TwoCalls([b], [], [a, b], Holding(a), Head, Some(1)), Event.Arrive(c), connection,
                  TwoCalls([b, c], [], [a, b, c], Holding(a), Head, Some(1)))
    ensures Steps(TwoCalls([b, c], [], [a, b, c], Holding(a), Head, Some(1)), Event.Store(0, true), connection,
                  TwoCalls([b, c], [a], [a, b, c], Head, Head, Some(1)))
    ensures Steps(TwoCalls([b, c], [a], [a, b, c], Head, Head, Some(1)), Event.Pop(0), connection,
                  TwoCalls([c], [a], [a, b, c], Holding(b), Head, Some(1)))
    ensures Steps(TwoCalls([c], [a], [a, b, c], Holding(b), Head, Some(1)), Event.Pop(1), connection,
                  TwoCalls([], [a], [a, b, c], Holding(b), Holding(c), Some(1)))
    ensures Steps(TwoCalls([], [a], [a, b, c], Holding(b), Holding(c), Some(1)), Event.Store(1, true), connection,
                  TwoCalls([], [a, c], [a, b, c], Holding(b), Head, Some(1)))
    ensures Steps(TwoCalls([], [a, c], [a, b, c], Holding(b), Head, Some(1)), Event.Store(0, true), connection,
                  TwoCalls([], [a, c, b], [a, b, c], Head, Head, Some(1)))
  {
    assert [] + [b] == [b] && [a] + [b] == [a, b] && [b] + [c] == [b, c] && [a, b] + [c] == [a, b, c];
    assert [] + [a] == [a] && [a] + [c] == [a, c] && [a, c] + [b] == [a, c, b];
    assert [b, c][1..] == [c] && [c][1..] == [];
    assert [Holding(a), Head][0 := Head] == [Head, Head] && [Head, Head][0 := Holding(b)] == [Holding(b), Head];
    assert [Holding(b), Head][1 := Holding(c)] == [Holding(b), Holding(c)];
    assert [Holding(b), Holding(c)][1 := Head] == [Holding(b), Head] && [Holding(b), Head][0 := Head] == [Head, Head];
  }

  /** With overlapping binds updates that were never discarded are stored in another order than they arrived in. */
  lemma OverlappingBindsStoreOutOfOrder(a: Entry, b: Entry, c: Entry, connection: ConnectionId)
      returns (worlds: seq<World>, events: seq<Event>)
    requires a.connection == connection && b.connection == connection && c.connection == connection
    ensures IsRun(worlds, events, connection) && |worlds| > 0
    ensures var w := worlds[|worlds| - 1];
            w.session.stored == w.history.drained == [a, c, b] && w.history.arrivals == [a, b, c] && !w.session.bound
  {
    OverlapMoves(a, connection);
    OutOfOrderMoves(a, b, c, connection);
    worlds, events := [TwoCalls([], [], [], Idle, Idle, None)], [];
    assert IsRun(worlds, events, connection);
    hide IsRun, Steps, TwoCalls;
    worlds, events := OneMoreStep(worlds, events, connection, Event.Arrive(a), TwoCalls([a], [], [a], Idle, Idle, None));
    worlds, events := OneMoreStep(worlds, events, connection, Event.Begin(0), TwoCalls([a], [], [a], Head, Idle, Some(0)));
    worlds, events := OneMoreStep(worlds, events, connection, Event.Pop(0), TwoCalls([], [], [a], Holding(a), Idle, Some(0)));
    worlds, events := OneMoreStep(worlds, events, connection, Event.Unbind, TwoCalls([], [], [a], Holding(a), Idle, None));
    worlds, events := OneMoreStep(worlds, events, connection, Event.Begin(1), TwoCalls([], [], [a], Holding(a), Head, Some(1)));
    worlds, events := OneMoreStep(worlds, events, connection, Event.Arrive(b), TwoCalls([b], [], [a, b], Holding(a), Head, Some(1)));
    worlds, events := OneMoreStep(worlds, events, connection, Event.Arrive(c), TwoCalls([b, c], [], [a, b, c], Holding(a), Head, Some(1)));
    worlds, events := OneMoreStep(worlds, events, connection, Event.Store(0, true), TwoCalls([b, c], [a], [a, b, c], Head, Head, Some(1)));
    worlds, events := OneMoreStep(worlds, events, connection, Event.Pop(0), TwoCalls([c], [a], [a, b, c], Holding(b), Head, Some(1)));
    worlds, events := OneMoreStep(worlds, events, connection, Event.Pop(1), TwoCalls([], [a], [a, b, c], Holding(b), Holding(c), Some(1)));
    worlds, events := OneMoreStep(worlds, events, connection, Event.Store(1, true), TwoCalls([], [a, c], [a, b, c], Holding(b), Head, Some(1)));
    worlds, events := OneMoreStep(worlds, events, connection, Event.Store(0, true), TwoCalls([], [a, c, b], [a, b, c], Head, Head, Some(1)));
    LastOfThree(a, b, c);
  }

  lemma LastOfThree(a: Entry, b: Entry, c: Entry)
    ensures var w := TwoCalls([], [a, c, b], [a, b, c], Head, Head, Some(1));
            w.session.stored == w.history.drained == [a, c, b] && w.history.arrivals == [a, b, c] && !w.session.bound
  {
  }
}
