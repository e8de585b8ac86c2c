/** Outbound HTTP posts: lanes with one post in flight each, and one budget shared by what they queue. */
module PostQueue {
  import opened Bytes
  import opened Outcomes

  const MAX_PENDING_HTTP_POST_FRAMES: nat := 64
  const MAX_PENDING_HTTP_POST_BYTES: nat := MAX_ACP_FRAME_BYTES

  datatype PostError = FrameTooLarge | QueueFull

  datatype Post = Post(id: nat, bodyBytes: nat)

  /** A queued post with the bytes its reservation holds. */
  datatype ReservedPost = ReservedPost(post: Post, reserved: nat)

  datatype Usage = Usage(frames: nat, bytes: nat)

  datatype Lane = Lane(queued: seq<ReservedPost>, inFlight: Option<Post>)

  // ---- what the operations do ------------------------------------------------------------------

  predicate Fits(usage: Usage, size: nat)
  {
    usage.frames + 1 <= MAX_PENDING_HTTP_POST_FRAMES && usage.bytes + size <= MAX_PENDING_HTTP_POST_BYTES
  }

  function PushOutcome(usage: Usage, lane: Lane, post: Post): (r: Result<(), PostError>)
  {
    if post.bodyBytes > MAX_PENDING_HTTP_POST_BYTES then Err(FrameTooLarge)
    else if lane.inFlight.None? || Fits(usage, post.bodyBytes) then Ok(())
    else Err(QueueFull)
  }

  function AfterPush(usage: Usage, lane: Lane, post: Post): (r: (Usage, Lane))
  {
    if PushOutcome(usage, lane, post).Err? then (usage, lane)
    else if lane.inFlight.None? then (usage, lane.(inFlight := Some(post)))
    else (Usage(usage.frames + 1, usage.bytes + post.bodyBytes),
          lane.(queued := lane.queued + [ReservedPost(post, post.bodyBytes)]))
  }

  function Released(usage: Usage, reserved: nat): (u: Usage)
  {
    Usage(SatSub(usage.frames, 1), SatSub(usage.bytes, reserved))
  }

  function AfterStart(usage: Usage, lane: Lane): (r: (Usage, Lane))
  {
    if lane.inFlight.None? && |lane.queued| > 0 then
      (Released(usage, lane.queued[0].reserved), Lane(lane.queued[1..], Some(lane.queued[0].post)))
    else (usage, lane)
  }

  function ReleasedAll(usage: Usage, queued: seq<ReservedPost>): (u: Usage)
    decreases |queued|
  {
    if |queued| == 0 then usage else ReleasedAll(Released(usage, queued[0].reserved), queued[1..])
  }

  function AfterClose(usage: Usage, lane: Lane): (r: (Usage, Lane))
  {
    (ReleasedAll(usage, lane.queued), Lane([], None))
  }

  // ---- the classes of the source ---------------------------------------------------------------

  class PostBudget {
    var frames: nat
    var bytes: nat

    ghost function View(): (u: Usage)
      reads this
    {
      Usage(frames, bytes)
    }

    constructor ()
      ensures View() == Usage(0, 0)
    {
      frames, bytes := 0, 0;
    }

    /** An addition that would overflow in the source is past the limits, and refused alike. */
    method Reserve(size: nat) returns (r: Result<nat, PostError>)
      modifies this
      ensures r == if size > MAX_PENDING_HTTP_POST_BYTES then Err(FrameTooLarge)
                   else if Fits(old(View()), size) then Ok(size)
                   else Err(QueueFull)
      ensures View() == if r.Ok? then Usage(old(frames) + 1, old(bytes) + size) else old(View())
    {
      if size > MAX_PENDING_HTTP_POST_BYTES {
        return Err(FrameTooLarge);
      }
      var nextFrames := frames + 1;
      var nextBytes := bytes + size;
      if nextFrames > MAX_PENDING_HTTP_POST_FRAMES || nextBytes > MAX_PENDING_HTTP_POST_BYTES {
        return Err(QueueFull);
      }
      frames := nextFrames;
      bytes := nextBytes;
      return Ok(size);
    }

    /** What dropping a reservation does. */
    method Release(reserved: nat)
      modifies this
      ensures View() == Released(old(View()), reserved)
    {
      frames := SatSub(frames, 1);
      bytes := SatSub(bytes, reserved);
    }
  }

  class PostLane {
    const budget: PostBudget
    var queued: seq<ReservedPost>
    var inFlight: Option<Post>

    ghost function View(): (lane: Lane)
      reads this
    {
      Lane(queued, inFlight)
    }

    constructor (budget: PostBudget)
      ensures this.budget == budget && View() == Lane([], None)
    {
      this.budget := budget;
      queued, inFlight := [], None;
    }

    method Push(post: Post) returns (r: Result<(), PostError>)
      modifies this, budget
      ensures r == PushOutcome(old(budget.View()), old(View()), post)
      ensures (budget.View(), View()) == AfterPush(old(budget.View()), old(View()), post)
    {
      if post.bodyBytes > MAX_PENDING_HTTP_POST_BYTES {
        return Err(FrameTooLarge);
      }
      if inFlight.None? {
        inFlight := Some(post);
        return Ok(());
      }
      var reservation := budget.Reserve(post.bodyBytes);
      if reservation.Err? {
        return Err(reservation.error);
      }
      queued := queued + [ReservedPost(post, reservation.value)];
      return Ok(());
    }

    method StartNext()
      modifies this, budget
      ensures (budget.View(), View()) == AfterStart(old(budget.View()), old(View()))
      ensures if old(inFlight).Some? || |old(queued)| == 0 then inFlight == old(inFlight) && queued == old(queued)
              else inFlight == Some(old(queued)[0].post) && queued == old(queued)[1..]
    {
      if inFlight.None? && |queued| > 0 {
        var next := queued[0];
        queued := queued[1..];
        budget.Release(next.reserved);
        inFlight := Some(next.post);
      }
    }

    /** `None` stands for waiting for ever, with nothing in flight and nothing queued. */
    method NextCompletion() returns (completed: Option<Post>)
      modifies this, budget
      ensures budget.View() == AfterStart(old(budget.View()), old(View())).0 && inFlight == None
      ensures if old(inFlight).Some? || |old(queued)| == 0 then completed == old(inFlight) && queued == old(queued)
              else completed == Some(old(queued)[0].post) && queued == old(queued)[1..]
    {
      StartNext();
      completed := inFlight;
      inFlight := None;
    }

    method Close()
      modifies this, budget
      ensures (budget.View(), View()) == AfterClose(old(budget.View()), old(View()))
    {
      while |queued| > 0
        invariant ReleasedAll(budget.View(), queued) == old(ReleasedAll(budget.View(), queued))
        decreases |queued|
      {
        budget.Release(queued[0].reserved);
        queued := queued[1..];
      }
      inFlight := None;
    }
  }

  // ---- lanes over one budget ---------------------------------------------------------------------

  /**
   The past of a lane: `pushed`, `started` and `completed` are all accepted, all started and all completed
   posts, `waited` and `resumed` only those that went through the queue.  What a close discards, in flight
   or queued, leaves the first two and `waited`.
   */
  datatype Log = Log(pushed: seq<Post>, started: seq<Post>, completed: seq<Post>, waited: seq<Post>, resumed: seq<Post>)

  datatype Track = Track(lane: Lane, log: Log)

  datatype Event = Push(post: Post) | StartNext | Complete | Close

  function Posts(queued: seq<ReservedPost>): (r: seq<Post>)
    ensures |r| == |queued|
  {
    seq(|queued|, i requires 0 <= i < |queued| => queued[i].post)
  }

  function TrackStep(usage: Usage, t: Track, e: Event): (r: (Usage, Track))
  {
    var lane, log := t.lane, t.log;
    match e
    case Push(post) =>
      var next := AfterPush(usage, lane, post);
      if PushOutcome(usage, lane, post).Err? then (usage, t)
      else if lane.inFlight.None? then
        (next.0, Track(next.1, log.(pushed := log.pushed + [post], started := log.started + [post])))
      else
        (next.0, Track(next.1, log.(pushed := log.pushed + [post], waited := log.waited + [post])))
    case StartNext =>
      var next := AfterStart(usage, lane);
      if lane.inFlight.None? && |lane.queued| > 0 then
        var post := lane.queued[0].post;
        (next.0, Track(next.1, log.(started := log.started + [post], resumed := log.resumed + [post])))
      else (usage, t)
    case Complete =>
      (usage, Track(lane.(inFlight := None), log.(completed := log.completed + InFlight(lane))))
    case Close =>
      var next := AfterClose(usage, lane);
      (next.0, Track(next.1, log.(pushed := log.completed, started := log.completed, waited := log.resumed)))
  }

  function InFlight(lane: Lane): (r: seq<Post>)
  {
    if lane.inFlight.Some? then [lane.inFlight.value] else []
  }

  function QueuedBytes(queued: seq<ReservedPost>): (n: nat)
  {
    if |queued| == 0 then 0 else queued[0].post.bodyBytes + QueuedBytes(queued[1..])
  }

  function TotalFrames(tracks: seq<Track>): (n: nat)
  {
    if |tracks| == 0 then 0 else |tracks[0].lane.queued| + TotalFrames(tracks[1..])
  }

  function TotalBytes(tracks: seq<Track>): (n: nat)
  {
    if |tracks| == 0 then 0 else QueuedBytes(tracks[0].lane.queued) + TotalBytes(tracks[1..])
  }

  /**
   Every queued post holds a reservation of its own size, the posts of the queue wait in push order, and what
   has started is what has completed and then the post in flight.
   */
  ghost predicate TrackOk(t: Track)
  {
    && (forall i | 0 <= i < |t.lane.queued| :: t.lane.queued[i].reserved == t.lane.queued[i].post.bodyBytes)
    && t.log.waited == t.log.resumed + Posts(t.lane.queued)
    && t.log.started == t.log.completed + InFlight(t.lane)
  }

  /** Every post that was pushed is completed, in flight or queued, as often as it was pushed. */
  ghost predicate NothingLost(t: Track)
  {
    multiset(t.log.pushed) == multiset(t.log.completed) + multiset(InFlight(t.lane)) + multiset(Posts(t.lane.queued))
  }

  /** The budget is exactly what the lanes have queued, within the limits. */
  ghost predicate Exact(usage: Usage, tracks: seq<Track>)
  {
    && usage == Usage(TotalFrames(tracks), TotalBytes(tracks))
    && usage.frames <= MAX_PENDING_HTTP_POST_FRAMES && usage.bytes <= MAX_PENDING_HTTP_POST_BYTES
    && forall i | 0 <= i < |tracks| :: TrackOk(tracks[i]) && NothingLost(tracks[i])
  }

  lemma {:induction false} UpdateTrack(tracks: seq<Track>, i: nat, t: Track)
    requires i < |tracks|
    ensures TotalFrames(tracks[i := t]) == TotalFrames(tracks) - |tracks[i].lane.queued| + |t.lane.queued|
    ensures TotalBytes(tracks[i := t]) == TotalBytes(tracks) - QueuedBytes(tracks[i].lane.queued) + QueuedBytes(t.lane.queued)
    ensures TotalFrames(tracks) >= |tracks[i].lane.queued| && TotalBytes(tracks) >= QueuedBytes(tracks[i].lane.queued)
  {
    if i == 0 {
      assert tracks[0 := t][1..] == tracks[1..];
    } else {
      UpdateTrack(tracks[1..], i - 1, t);
      assert tracks[i := t][1..] == tracks[1..][i - 1 := t];
    }
  }

  lemma {:induction false} QueuedBytesSnoc(queued: seq<ReservedPost>, last: ReservedPost)
    ensures QueuedBytes(queued + [last]) == QueuedBytes(queued) + last.post.bodyBytes
    ensures Posts(queued + [last]) == Posts(queued) + [last.post]
  {
    if |queued| > 0 {
      QueuedBytesSnoc(queued[1..], last);
      assert (queued + [last])[1..] == queued[1..] + [last];
    }
  }

  /** Dropping a whole queue gives back exactly what it holds. */
  lemma {:induction false} ReleasedAllIsExact(usage: Usage, queued: seq<ReservedPost>)
    requires forall i | 0 <= i < |queued| :: queued[i].reserved == queued[i].post.bodyBytes
    requires usage.frames >= |queued| && usage.bytes >= QueuedBytes(queued)
    ensures ReleasedAll(usage, queued) == Usage(usage.frames - |queued|, usage.bytes - QueuedBytes(queued))
    decreases |queued|
  {
    if |queued| > 0 {
      ReleasedAllIsExact(Released(usage, queued[0].reserved), queued[1..]);
    }
  }

  /** A step changes the budget by what it changes in its own queue; nothing is released twice or too little. */
  lemma TrackStepIsExact(usage: Usage, t: Track, e: Event)
    requires TrackOk(t) && usage.frames >= |t.lane.queued| && usage.bytes >= QueuedBytes(t.lane.queued)
    requires usage.frames <= MAX_PENDING_HTTP_POST_FRAMES && usage.bytes <= MAX_PENDING_HTTP_POST_BYTES
    ensures var next := TrackStep(usage, t, e);
            && TrackOk(next.1)
            && next.0.frames == usage.frames - |t.lane.queued| + |next.1.lane.queued| <= MAX_PENDING_HTTP_POST_FRAMES
            && next.0.bytes == usage.bytes - QueuedBytes(t.lane.queued) + QueuedBytes(next.1.lane.queued) <= MAX_PENDING_HTTP_POST_BYTES
  {
    match e
    case Push(post) =>
      QueuedBytesSnoc(t.lane.queued, ReservedPost(post, post.bodyBytes));
    case StartNext =>
      if t.lane.inFlight.None? && |t.lane.queued| > 0 {
        var queued := t.lane.queued;
        assert Posts(queued) == [queued[0].post] + Posts(queued[1..]);
        assert t.log.resumed + Posts(queued) == t.log.resumed + [queued[0].post] + Posts(queued[1..]);
      }
    case Complete => assert t.log.completed + InFlight(t.lane) + [] == t.log.completed + InFlight(t.lane);
    case Close => ReleasedAllIsExact(usage, t.lane.queued);
  }

  /** A step loses no post and doubles none. */
  lemma TrackStepLosesNothing(usage: Usage, t: Track, e: Event)
    requires NothingLost(t)
    ensures NothingLost(TrackStep(usage, t, e).1)
  {
    match e
    case Push(post) => QueuedBytesSnoc(t.lane.queued, ReservedPost(post, post.bodyBytes));
    case StartNext =>
      if t.lane.inFlight.None? && |t.lane.queued| > 0 {
        var queued := t.lane.queued;
        assert Posts(queued) == [queued[0].post] + Posts(queued[1..]);
      }
    case Complete =>
    case Close =>
  }

  // ---- runs ----------------------------------------------------------------------------------------

  datatype Move = Move(lane: nat, event: Event)

  datatype System = System(usage: Usage, tracks: seq<Track>)

  function Apply(s: System, m: Move): (r: System)
    requires m.lane < |s.tracks|
  {
    var next := TrackStep(s.usage, s.tracks[m.lane], m.event);
    System(next.0, s.tracks[m.lane := next.1])
  }

  lemma ApplyKeepsExact(s: System, m: Move)
    requires m.lane < |s.tracks| && Exact(s.usage, s.tracks)
    ensures var next := Apply(s, m); Exact(next.usage, next.tracks)
  {
    hide TrackOk, NothingLost, TrackStep, TotalFrames, TotalBytes, QueuedBytes;
    var t := s.tracks[m.lane];
    UpdateTrack(s.tracks, m.lane, TrackStep(s.usage, t, m.event).1);
    TrackStepIsExact(s.usage, t, m.event);
    TrackStepLosesNothing(s.usage, t, m.event);
  }

  ghost predicate Fresh(t: Track)
  {
    t == Track(Lane([], None), Log([], [], [], [], []))
  }

  ghost predicate IsRun(states: seq<System>, moves: seq<Move>)
  {
    && |states| == |moves| + 1
    && states[0].usage == Usage(0, 0) && (forall i | 0 <= i < |states[0].tracks| :: Fresh(states[0].tracks[i]))
    && forall i | 0 <= i < |moves| :: moves[i].lane < |states[i].tracks| && states[i + 1] == Apply(states[i], moves[i])
  }

  lemma {:induction false} FreshTracksAreEmpty(tracks: seq<Track>)
    requires forall i | 0 <= i < |tracks| :: Fresh(tracks[i])
    ensures Exact(Usage(0, 0), tracks)
  {
    if |tracks| > 0 {
      FreshTracksAreEmpty(tracks[1..]);
      assert Fresh(tracks[0]);
      assert forall i | 0 < i < |tracks| :: tracks[i] == tracks[1..][i - 1];
    }
  }

  /**
   In every run over any number of lanes: the shared budget is exactly the queued posts of all lanes,
   within both limits; in every lane the posts that had to wait start in the order of their pushes, posts
   complete in the order in which they started, the one in flight is the one that started last, and every
   post is completed, in flight or queued exactly as often as it was pushed.
   */
  lemma {:induction false} BudgetIsTheQueues(states: seq<System>, moves: seq<Move>, n: nat)
    requires IsRun(states, moves) && n < |states|
    ensures Exact(states[n].usage, states[n].tracks)
    ensures forall i | 0 <= i < |states[n].tracks| ::
              var lane, log := states[n].tracks[i].lane, states[n].tracks[i].log;
              && log.resumed <= log.waited && log.started == log.completed + InFlight(lane)
              && multiset(log.pushed) == multiset(log.completed) + multiset(InFlight(lane)) + multiset(Posts(lane.queued))
  {
    if n == 0 {
      FreshTracksAreEmpty(states[0].tracks);
    } else {
      BudgetIsTheQueues(states, moves, n - 1);
      ApplyKeepsExact(states[n - 1], moves[n - 1]);
    }
    assert forall i | 0 <= i < |states[n].tracks| :: TrackOk(states[n].tracks[i]) && NothingLost(states[n].tracks[i]);
  }

  /** A push is refused only for its size or a full budget; then nothing changes; an idle lane takes any legal frame. */
  lemma PushIsAllOrNothing(s: System, m: Move)
    requires m.lane < |s.tracks| && m.event.Push?
    ensures var lane, post := s.tracks[m.lane].lane, m.event.post;
            var refused := PushOutcome(s.usage, lane, post).Err?;
            && (refused ==> Apply(s, m) == s)
            && (post.bodyBytes <= MAX_PENDING_HTTP_POST_BYTES && lane.inFlight.None? ==> !refused)
            && (Exact(s.usage, s.tracks) && lane.inFlight.Some? ==>
                 (refused <==>
                   || TotalFrames(s.tracks) >= MAX_PENDING_HTTP_POST_FRAMES
                   || TotalBytes(s.tracks) + post.bodyBytes > MAX_PENDING_HTTP_POST_BYTES))
  {
    assert s.tracks[m.lane := s.tracks[m.lane]] == s.tracks;
  }

  // ---- order across the whole lane -------------------------------------------------------------------

  /** Everything started, then everything queued, is everything pushed, in the order of the pushes. */
  ghost predicate InOrder(t: Track)
  {
    t.log.started + Posts(t.lane.queued) == t.log.pushed
  }

  /** A push that finds nothing in flight but posts still waiting goes past them. */
  predicate Overtakes(t: Track, e: Event)
  {
    e.Push? && e.post.bodyBytes <= MAX_PENDING_HTTP_POST_BYTES && t.lane.inFlight.None? && |t.lane.queued| > 0
  }

  /** A lane that was in order stays in order exactly when the step is not an overtaking push. */
  lemma OrderIsLostExactlyByOvertaking(usage: Usage, t: Track, e: Event)
    requires TrackOk(t) && InOrder(t)
    requires e.Push? ==> e.post !in Posts(t.lane.queued)
    ensures InOrder(TrackStep(usage, t, e).1) <==> !Overtakes(t, e)
  {
    var queued := t.lane.queued;
    match e
    case Push(post) =>
      QueuedBytesSnoc(queued, ReservedPost(post, post.bodyBytes));
      if Overtakes(t, e) {
        var next := TrackStep(usage, t, e).1;
        assert (next.log.started + Posts(queued))[|t.log.started|] == post;
        assert (t.log.pushed + [post])[|t.log.started|] == Posts(queued)[0];
      } else {
        assert t.log.started + (Posts(queued) + [post]) == t.log.pushed + [post];
      }
    case StartNext =>
      if t.lane.inFlight.None? && |queued| > 0 {
        assert Posts(queued) == [queued[0].post] + Posts(queued[1..]);
        assert t.log.started + Posts(queued) == t.log.started + [queued[0].post] + Posts(queued[1..]);
      }
    case Complete =>
    case Close => assert t.log.completed + [] == t.log.completed;
  }

  /** Three pushes around a completion: the third post is in flight while the second still waits. */
  lemma APostCanOvertake(a: Post, b: Post, c: Post)
    requires a.bodyBytes <= MAX_PENDING_HTTP_POST_BYTES && b.bodyBytes <= MAX_PENDING_HTTP_POST_BYTES
    requires c.bodyBytes <= MAX_PENDING_HTTP_POST_BYTES && b != c
    ensures var s0 := System(Usage(0, 0), [Track(Lane([], None), Log([], [], [], [], []))]);
            var s4 := Apply(Apply(Apply(Apply(s0, Move(0, Push(a))), Move(0, Push(b))), Move(0, Complete)), Move(0, Push(c)));
            && s4.tracks[0].lane == Lane([ReservedPost(b, b.bodyBytes)], Some(c))
            && s4.tracks[0].log.pushed == [a, b, c] && s4.tracks[0].log.started == [a, c]
            && !InOrder(s4.tracks[0])
  {
    var s0 := System(Usage(0, 0), [Track(Lane([], None), Log([], [], [], [], []))]);
    var s1 := Apply(s0, Move(0, Push(a)));
    assert [] + [a] == [a];
    assert s1 == System(Usage(0, 0), [Track(Lane([], Some(a)), Log([a], [a], [], [], []))]);
    var s2 := Apply(s1, Move(0, Push(b)));
    assert [] + [b] == [b];
    assert s2.tracks[0] == Track(Lane([ReservedPost(b, b.bodyBytes)], Some(a)), Log([a, b], [a], [], [b], []));
    var s3 := Apply(s2, Move(0, Complete));
    var s4 := Apply(s3, Move(0, Push(c)));
    assert s4.tracks[0].log.started + Posts(s4.tracks[0].lane.queued) == [a, c, b];
  }
}
