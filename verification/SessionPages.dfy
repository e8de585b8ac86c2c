/** Collecting an agent's paged session list from an agent that may answer anything. */
module SessionPages {
  import opened Bytes
  import opened Outcomes

  const MAX_SESSION_LIST_PAGES: nat := 256
  const MAX_SESSION_LIST_RECEIVED_SESSIONS: nat := 20_000
  const MAX_SESSION_LIST_CURSOR_BYTES: nat := 8 * 1024
  const MAX_SESSION_LIST_SERIALIZED_BYTES: nat := 64 * 1024 * 1024

  datatype Limits = Limits(pages: nat, sessions: nat, cursorBytes: nat, serializedBytes: nat)

  const DEFAULT_LIMITS: Limits :=
    Limits(MAX_SESSION_LIST_PAGES, MAX_SESSION_LIST_RECEIVED_SESSIONS, MAX_SESSION_LIST_CURSOR_BYTES, MAX_SESSION_LIST_SERIALIZED_BYTES)

  datatype Session = Session(id: nat, info: nat)

  /** One answer; `pieces` are the lengths of the writes that serializing it makes, if it can be serialized. */
  datatype Page = Page(sessions: seq<Session>, next: Option<seq<Byte>>, pieces: Option<seq<nat>>)

  /** What the agent answers to each fetch, in turn; `None` is a failed fetch. */
  type Agent = nat -> Option<Page>

  datatype ListError = FetchFailed | SerializeFailed | TooManyBytes | TooManySessions | CursorTooLong | CursorRepeated | TooManyPages

  // ---- what a list should be -----------------------------------------------------------------------

  predicate HasId(sessions: seq<Session>, id: nat)
  {
    exists i | 0 <= i < |sessions| :: sessions[i].id == id
  }

  /** The first session of every id, in order. */
  function FirstOccurrences(sessions: seq<Session>): (r: seq<Session>)
  {
    if |sessions| == 0 then [] else
      var init, last := sessions[..|sessions| - 1], sessions[|sessions| - 1];
      FirstOccurrences(init) + if HasId(init, last.id) then [] else [last]
  }

  lemma FirstOccurrencesSnoc(init: seq<Session>, last: Session)
    ensures FirstOccurrences(init + [last]) == FirstOccurrences(init) + if HasId(init, last.id) then [] else [last]
  {
    assert (init + [last])[..|init|] == init;
  }

  lemma {:induction false} FirstOccurrencesHaveTheIds(sessions: seq<Session>, id: nat)
    ensures HasId(FirstOccurrences(sessions), id) <==> HasId(sessions, id)
  {
    if |sessions| > 0 {
      var init, last := sessions[..|sessions| - 1], sessions[|sessions| - 1];
      assert sessions == init + [last];
      FirstOccurrencesSnoc(init, last);
      FirstOccurrencesHaveTheIds(init, id);
      HasIdSnoc(init, last, id);
      HasIdSnoc(FirstOccurrences(init), last, id);
      hide FirstOccurrences, HasId;
      assert FirstOccurrences(init) + [] == FirstOccurrences(init);
    }
  }

  /** Every id is there once, with the session that came first, and the order is kept. */
  lemma {:induction false} FirstOccurrencesMeans(sessions: seq<Session>)
    ensures var r := FirstOccurrences(sessions);
      && (forall i, j | 0 <= i < j < |r| :: r[i].id != r[j].id)
      && (forall j | 0 <= j < |r| :: IsFirst(sessions, r[j]))
      && (forall id :: HasId(r, id) <==> HasId(sessions, id))
  {
    forall id ensures HasId(FirstOccurrences(sessions), id) <==> HasId(sessions, id) {
      FirstOccurrencesHaveTheIds(sessions, id);
    }
    if |sessions| > 0 {
      var init, last := sessions[..|sessions| - 1], sessions[|sessions| - 1];
      assert sessions == init + [last];
      FirstOccurrencesSnoc(init, last);
      FirstOccurrencesMeans(init);
      var before, r := FirstOccurrences(init), FirstOccurrences(sessions);
      hide FirstOccurrences, IsFirst;
      forall j | 0 <= j < |before| ensures IsFirst(sessions, before[j]) && HasId(before, before[j].id) {
        FirstStaysFirst(init, last, before[j]);
      }
      FirstOfNewId(init, last);
      assert forall i | 0 <= i < |before| :: r[i] == before[i];
    }
  }

  lemma FirstStaysFirst(init: seq<Session>, last: Session, s: Session)
    requires IsFirst(init, s)
    ensures IsFirst(init + [last], s)
  {
    var i :| 0 <= i < |init| && init[i] == s && forall k | 0 <= k < i :: init[k].id != s.id;
    assert (init + [last])[i] == s;
  }

  lemma FirstOfNewId(init: seq<Session>, last: Session)
    ensures !HasId(init, last.id) ==> IsFirst(init + [last], last)
  {
    assert (init + [last])[|init|] == last;
  }

  predicate IsFirst(sessions: seq<Session>, s: Session)
  {
    exists i | 0 <= i < |sessions| :: sessions[i] == s && forall k | 0 <= k < i :: sessions[k].id != s.id
  }

  lemma HasIdSnoc(init: seq<Session>, last: Session, id: nat)
    ensures HasId(init + [last], id) <==> HasId(init, id) || last.id == id
  {
    var all := init + [last];
    assert all[|init|] == last && forall i | 0 <= i < |init| :: all[i] == init[i];
  }

  // ---- the pages so far -----------------------------------------------------------------------------

  function Total(pieces: seq<nat>): (n: nat)
  {
    if |pieces| == 0 then 0 else Total(pieces[..|pieces| - 1]) + pieces[|pieces| - 1]
  }

  predicate Served(agent: Agent, n: nat)
  {
    forall i | 0 <= i < n :: agent(i).Some? && agent(i).value.pieces.Some?
  }

  /** The sessions of the first `n` pages, duplicates and all. */
  function Received(agent: Agent, n: nat): (r: seq<Session>)
    requires Served(agent, n)
  {
    if n == 0 then [] else Received(agent, n - 1) + agent(n - 1).value.sessions
  }

  function Serialized(agent: Agent, n: nat): (r: nat)
    requires Served(agent, n)
  {
    if n == 0 then 0 else Serialized(agent, n - 1) + Total(agent(n - 1).value.pieces.value)
  }

  /** The lengths of all writes that serializing the first `n` pages makes, page after page. */
  function AllPieces(agent: Agent, n: nat): (r: seq<nat>)
    requires Served(agent, n)
  {
    if n == 0 then [] else AllPieces(agent, n - 1) + agent(n - 1).value.pieces.value
  }

  lemma {:induction false} TotalAppend(a: seq<nat>, b: seq<nat>)
    ensures Total(a + b) == Total(a) + Total(b)
    decreases |b|
  {
    if |b| == 0 {
      assert a + b == a;
    } else {
      TotalAppend(a, b[..|b| - 1]);
      assert (a + b)[..|a + b| - 1] == a + b[..|b| - 1];
    }
  }

  /** The bytes that are charged add up over the pages: no page starts anew. */
  lemma {:induction false} SerializedAddsUp(agent: Agent, n: nat)
    requires Served(agent, n)
    ensures Serialized(agent, n) == Total(AllPieces(agent, n))
    ensures n > 0 ==> Serialized(agent, n) == Serialized(agent, n - 1) + Total(agent(n - 1).value.pieces.value)
  {
    if n > 0 {
      SerializedAddsUp(agent, n - 1);
      TotalAppend(AllPieces(agent, n - 1), agent(n - 1).value.pieces.value);
    }
  }

  /** Every write counts, in whatever page. */
  lemma {:induction false} EachPieceCounts(pieces: seq<nat>, i: nat)
    requires i < |pieces|
    ensures Total(pieces) == Total(pieces[..i] + pieces[i + 1..]) + pieces[i]
  {
    var last := [pieces[i]];
    assert pieces == pieces[..i] + last + pieces[i + 1..];
    TotalAppend(pieces[..i] + last, pieces[i + 1..]);
    TotalAppend(pieces[..i], last);
    TotalAppend(pieces[..i], pieces[i + 1..]);
    assert Total(last[..0]) == 0;
  }

  predicate WithinBudgets(agent: Agent, limits: Limits, n: nat)
    requires Served(agent, n)
  {
    Serialized(agent, n) <= limits.serializedBytes && |Received(agent, n)| <= limits.sessions
  }

  /** The cursors of the first `n` pages. */
  function CursorsOf(agent: Agent, n: nat): (r: set<seq<Byte>>)
    requires Served(agent, n)
  {
    if n == 0 then {} else
      CursorsOf(agent, n - 1) + if agent(n - 1).value.next.Some? then {agent(n - 1).value.next.value} else {}
  }

  predicate CursorsFit(agent: Agent, limits: Limits, n: nat)
    requires Served(agent, n)
  {
    n == 0 ||
    var next := agent(n - 1).value.next;
    CursorsFit(agent, limits, n - 1) && next.Some? && |next.value| <= limits.cursorBytes && next.value !in CursorsOf(agent, n - 1)
  }

  lemma {:induction false} CursorsOfMeans(agent: Agent, n: nat, c: seq<Byte>)
    requires Served(agent, n)
    ensures c in CursorsOf(agent, n) <==> exists i | 0 <= i < n :: agent(i).value.next == Some(c)
  {
    if n > 0 {
      CursorsOfMeans(agent, n - 1, c);
    }
  }

  /** The cursors fit exactly when all pages have one, short enough, and no two are the same. */
  lemma {:induction false} CursorsFitMeans(agent: Agent, limits: Limits, n: nat)
    requires Served(agent, n)
    ensures CursorsFit(agent, limits, n) <==>
              && (forall i | 0 <= i < n :: agent(i).value.next.Some? && |agent(i).value.next.value| <= limits.cursorBytes)
              && (forall i, j | 0 <= i < j < n :: agent(i).value.next != agent(j).value.next)
  {
    if n > 0 {
      CursorsFitMeans(agent, limits, n - 1);
      var next := agent(n - 1).value.next;
      if next.Some? {
        CursorsOfMeans(agent, n - 1, next.value);
      }
    }
  }

  /** The first `n` pages all lead on, by distinct cursors that are short enough, within the budgets. */
  predicate LeadsOn(agent: Agent, limits: Limits, n: nat)
  {
    Served(agent, n) && WithinBudgets(agent, limits, n) && CursorsFit(agent, limits, n)
  }

  /** The chain ends with the page after the first `n`, within every limit. */
  predicate EndsAfter(agent: Agent, limits: Limits, n: nat)
  {
    && n < limits.pages
    && LeadsOn(agent, limits, n)
    && Served(agent, n + 1) && agent(n).value.next.None?
    && WithinBudgets(agent, limits, n + 1)
  }

  /**
   Why collecting failed at page `n`: the pages before lead on, and this is the first rule that this one breaks,
   in the order in which they are checked.
   */
  predicate FailsAt(agent: Agent, limits: Limits, n: nat, e: ListError)
  {
    && n < limits.pages && LeadsOn(agent, limits, n)
    && match e
       case FetchFailed => agent(n).None?
       case SerializeFailed => agent(n).Some? && agent(n).value.pieces.None?
       case TooManyBytes => Served(agent, n + 1) && Serialized(agent, n + 1) > limits.serializedBytes
       case TooManySessions =>
         Served(agent, n + 1) && Serialized(agent, n + 1) <= limits.serializedBytes && |Received(agent, n + 1)| > limits.sessions
       case CursorTooLong =>
         && Served(agent, n + 1) && WithinBudgets(agent, limits, n + 1)
         && agent(n).value.next.Some? && |agent(n).value.next.value| > limits.cursorBytes
       case CursorRepeated =>
         && Served(agent, n + 1) && WithinBudgets(agent, limits, n + 1)
         && agent(n).value.next.Some? && |agent(n).value.next.value| <= limits.cursorBytes
         && agent(n).value.next.value in CursorsOf(agent, n)
       case TooManyPages => LeadsOn(agent, limits, n + 1) && n + 1 == limits.pages
  }

  /** Every page before `k` leads to another one, by a new cursor that is short enough. */
  predicate NewShortCursors(agent: Agent, limits: Limits, k: nat)
    requires Served(agent, k)
  {
    && (forall i | 0 <= i < k :: agent(i).value.next.Some? && |agent(i).value.next.value| <= limits.cursorBytes)
    && (forall i, j | 0 <= i < j < k :: agent(i).value.next != agent(j).value.next)
  }

  /** What it takes for a list to be returned, page by page. */
  lemma EndsAfterMeans(agent: Agent, limits: Limits, k: nat)
    ensures EndsAfter(agent, limits, k) ==> Served(agent, k + 1)
    ensures Served(agent, k + 1) ==>
              (EndsAfter(agent, limits, k) <==>
                && k < limits.pages && NewShortCursors(agent, limits, k) && agent(k).value.next.None?
                && Total(AllPieces(agent, k + 1)) <= limits.serializedBytes && |Received(agent, k + 1)| <= limits.sessions)
  {
    if Served(agent, k + 1) {
      assert Served(agent, k);
      CursorsFitMeans(agent, limits, k);
      SerializedAddsUp(agent, k + 1);
      BudgetsGrow(agent, k, k + 1);
      hide Serialized, Received, AllPieces, CursorsFit, Total;
    }
  }

  lemma {:induction false} BudgetsGrow(agent: Agent, m: nat, n: nat)
    requires m <= n && Served(agent, n)
    ensures Serialized(agent, m) <= Serialized(agent, n) && |Received(agent, m)| <= |Received(agent, n)|
    decreases n - m
  {
    if m < n {
      BudgetsGrow(agent, m, n - 1);
    }
  }

  /** A chain that fails at some page ends nowhere. */
  lemma FailureExcludesEnd(agent: Agent, limits: Limits, n: nat, e: ListError, k: nat)
    requires FailsAt(agent, limits, n, e)
    ensures !EndsAfter(agent, limits, k)
  {
    if k > n && LeadsOn(agent, limits, k) {
      LeadsOnEarlier(agent, limits, n + 1, k);
    } else if k < n {
      LeadsOnEarlier(agent, limits, k + 1, n);
    }
  }

  lemma {:induction false} LeadsOnEarlier(agent: Agent, limits: Limits, m: nat, n: nat)
    requires m <= n && LeadsOn(agent, limits, n)
    ensures LeadsOn(agent, limits, m)
    decreases n - m
  {
    if m < n {
      assert Served(agent, n - 1);
      LeadsOnEarlier(agent, limits, m, n - 1);
    }
  }

  // ---- the source's loops ------------------------------------------------------------------------------

  class CanonicalByteCounter {
    var bytes: nat
    const limit: nat
    var exceeded: bool

    constructor (bytes: nat, limit: nat)
      ensures this.bytes == bytes && this.limit == limit && !exceeded
    {
      this.bytes, this.limit, exceeded := bytes, limit, false;
    }

    method Write(length: nat) returns (ok: bool)
      requires limit < USIZE_MAX
      modifies this
      ensures ok <==> old(bytes) + length <= limit
      ensures bytes == old(bytes) + if ok then length else 0
      ensures exceeded == (old(exceeded) || !ok)
    {
      var next := SatAdd(bytes, length);
      if next > limit {
        exceeded := true;
        return false;
      }
      bytes := next;
      return true;
    }
  }

  lemma TotalGrows(pieces: seq<nat>, i: nat)
    requires i <= |pieces|
    ensures Total(pieces[..i]) <= Total(pieces)
    decreases |pieces| - i
  {
    if i < |pieces| {
      TotalGrows(pieces, i + 1);
      assert pieces[..i + 1][..i] == pieces[..i];
    } else {
      assert pieces[..i] == pieces;
    }
  }

  /** However serializing splits a page into writes, it is charged exactly when its whole length still fits. */
  method ChargePage(pieces: Option<seq<nat>>, used: nat, limit: nat) returns (r: Result<nat, ListError>)
    requires limit < USIZE_MAX && used <= limit
    ensures r == if pieces.None? then Err(SerializeFailed)
                 else if used + Total(pieces.value) > limit then Err(TooManyBytes)
                 else Ok(used + Total(pieces.value))
  {
    if pieces.None? {
      return Err(SerializeFailed);
    }
    var counter := new CanonicalByteCounter(used, limit);
    var i := 0;
    while i < |pieces.value|
      invariant i <= |pieces.value| && !counter.exceeded
      invariant counter.bytes == used + Total(pieces.value[..i]) <= limit
    {
      assert pieces.value[..i + 1][..i] == pieces.value[..i];
      var ok := counter.Write(pieces.value[i]);
      if !ok {
        TotalGrows(pieces.value, i + 1);
        return Err(TooManyBytes);
      }
      i := i + 1;
    }
    assert pieces.value[..|pieces.value|] == pieces.value;
    return Ok(counter.bytes);
  }

  ghost predicate Seen(seen: set<nat>, sessions: seq<Session>)
  {
    forall id :: id in seen <==> HasId(sessions, id)
  }

  /** Adds the sessions of one page whose ids are new. */
  method AddPage(page: seq<Session>, seen: set<nat>, sessions: seq<Session>, ghost before: seq<Session>)
      returns (newSeen: set<nat>, newSessions: seq<Session>)
    requires Seen(seen, before) && sessions == FirstOccurrences(before)
    ensures Seen(newSeen, before + page) && newSessions == FirstOccurrences(before + page)
  {
    newSeen, newSessions := seen, sessions;
    var i := 0;
    assert before + page[..0] == before;
    while i < |page|
      invariant i <= |page| && Seen(newSeen, before + page[..i]) && newSessions == FirstOccurrences(before + page[..i])
    {
      ghost var all := before + page[..i];
      assert before + page[..i + 1] == all + [page[i]];
      assert (all + [page[i]])[..|all|] == all;
      forall id ensures HasId(all + [page[i]], id) <==> HasId(all, id) || page[i].id == id {
        HasIdSnoc(all, page[i], id);
      }
      if page[i].id !in newSeen {
        newSeen := newSeen + {page[i].id};
        newSessions := newSessions + [page[i]];
      }
      i := i + 1;
    }
    assert page[..|page|] == page;
  }

  /** What the loop holds after the first `n` pages. */
  ghost predicate Collected(agent: Agent, n: nat, used: nat, received: nat, seen: set<nat>, sessions: seq<Session>)
  {
    && Served(agent, n)
    && used == Serialized(agent, n)
    && received == |Received(agent, n)|
    && Seen(seen, Received(agent, n))
    && sessions == FirstOccurrences(Received(agent, n))
  }

  /** Charges one page, counts its sessions, and adds the new ones. */
  method TakePage(agent: Agent, limits: Limits, n: nat, used: nat, received: nat, seen: set<nat>, sessions: seq<Session>)
      returns (r: Result<nat, ListError>, newReceived: nat, newSeen: set<nat>, newSessions: seq<Session>)
    requires n < limits.pages && LeadsOn(agent, limits, n) && agent(n).Some? && limits.serializedBytes < USIZE_MAX
    requires Collected(agent, n, used, received, seen, sessions)
    ensures r.Err? ==> FailsAt(agent, limits, n, r.error)
    ensures r.Ok? ==> Collected(agent, n + 1, r.value, newReceived, newSeen, newSessions) && WithinBudgets(agent, limits, n + 1)
  {
    hide FirstOccurrences, Seen;
    newReceived, newSeen, newSessions := received, seen, sessions;
    var page := agent(n).value;
    var charged := ChargePage(page.pieces, used, limits.serializedBytes);
    if charged.Err? {
      return Err(charged.error), newReceived, newSeen, newSessions;
    }
    assert Served(agent, n + 1);
    newReceived := received + |page.sessions|;
    if newReceived > limits.sessions {
      return Err(TooManySessions), newReceived, newSeen, newSessions;
    }
    newSeen, newSessions := AddPage(page.sessions, seen, sessions, Received(agent, n));
    return charged, newReceived, newSeen, newSessions;
  }

  /**
   Whatever the agent answers, at most `limits.pages` fetches are made; the list is returned exactly when
   the chain of cursors ends within every limit, and it is then the first occurrences of everything
   received; every error names the rule that was broken first.  (A byte limit of usize::MAX would never
   be exceeded.)
   */
  method CollectSessionPagesWithLimits(agent: Agent, limits: Limits) returns (r: Result<seq<Session>, ListError>, fetched: nat)
    requires limits.serializedBytes < USIZE_MAX
    ensures fetched <= limits.pages
    ensures r.Ok? ==>
              && fetched > 0 && EndsAfter(agent, limits, fetched - 1)
              && r.value == FirstOccurrences(Received(agent, fetched))
    ensures r.Err? ==>
              if limits.pages == 0 then r == Err(TooManyPages) && fetched == 0
              else fetched > 0 && FailsAt(agent, limits, fetched - 1, r.error)
    ensures r.Ok? <==> exists k :: EndsAfter(agent, limits, k)
  {
    var sessions: seq<Session> := [];
    var seenCursors: set<seq<Byte>> := {};
    var seenSessions: set<nat> := {};
    var received, serialized, pageIndex := 0, 0, 0;
    fetched := 0;
    assert Collected(agent, 0, 0, 0, {}, []);
    hide Collected, WithinBudgets, FirstOccurrences;
    while pageIndex < limits.pages
      invariant fetched == pageIndex <= limits.pages
      invariant LeadsOn(agent, limits, pageIndex) && Collected(agent, pageIndex, serialized, received, seenSessions, sessions)
      invariant seenCursors == CursorsOf(agent, pageIndex)
      invariant pageIndex == limits.pages ==> limits.pages == 0
    {
      fetched := fetched + 1;
      var reply := agent(pageIndex);
      if reply.None? {
        return Failure(agent, limits, pageIndex, FetchFailed), fetched;
      }
      var charged;
      charged, received, seenSessions, sessions := TakePage(agent, limits, pageIndex, serialized, received, seenSessions, sessions);
      if charged.Err? {
        return Failure(agent, limits, pageIndex, charged.error), fetched;
      }
      serialized := charged.value;
      CollectedMeans(agent, pageIndex + 1, serialized, received, seenSessions, sessions);
      if reply.value.next.None? {
        assert EndsAfter(agent, limits, pageIndex);
        return Ok(sessions), fetched;
      }
      var next := reply.value.next.value;
      if |next| > limits.cursorBytes {
        return Failure(agent, limits, pageIndex, CursorTooLong), fetched;
      }
      if next in seenCursors {
        return Failure(agent, limits, pageIndex, CursorRepeated), fetched;
      }
      seenCursors := seenCursors + {next};
      if pageIndex + 1 == limits.pages {
        return Failure(agent, limits, pageIndex, TooManyPages), fetched;
      }
      pageIndex := pageIndex + 1;
    }
    return Err(TooManyPages), fetched;
  }

  lemma CollectedMeans(agent: Agent, n: nat, used: nat, received: nat, seen: set<nat>, sessions: seq<Session>)
    requires Collected(agent, n, used, received, seen, sessions)
    ensures Served(agent, n) && sessions == FirstOccurrences(Received(agent, n))
  {
  }

  function Failure(agent: Agent, limits: Limits, n: nat, e: ListError): (r: Result<seq<Session>, ListError>)
    requires FailsAt(agent, limits, n, e)
    ensures r == Err(e) && forall k :: !EndsAfter(agent, limits, k)
  {
    assert forall k :: !EndsAfter(agent, limits, k) by {
      forall k ensures !EndsAfter(agent, limits, k) {
        FailureExcludesEnd(agent, limits, n, e, k);
      }
    }
    Err(e)
  }

  lemma {:induction false} NoMoreThanReceived(sessions: seq<Session>)
    ensures |FirstOccurrences(sessions)| <= |sessions|
  {
    if |sessions| > 0 {
      NoMoreThanReceived(sessions[..|sessions| - 1]);
    }
  }

  /** With the hub's own limits no agent makes it fetch or keep more than they say. */
  method CollectSessionPages(agent: Agent) returns (r: Result<seq<Session>, ListError>, fetched: nat)
    ensures fetched <= MAX_SESSION_LIST_PAGES
    ensures r.Ok? ==>
              && Served(agent, fetched) && r.value == FirstOccurrences(Received(agent, fetched))
              && |r.value| <= |Received(agent, fetched)| <= MAX_SESSION_LIST_RECEIVED_SESSIONS
              && Total(AllPieces(agent, fetched)) == Serialized(agent, fetched) <= MAX_SESSION_LIST_SERIALIZED_BYTES
    ensures r.Err? ==> fetched > 0 && FailsAt(agent, DEFAULT_LIMITS, fetched - 1, r.error)
    ensures r.Ok? <==> exists k :: EndsAfter(agent, DEFAULT_LIMITS, k)
  {
    r, fetched := CollectSessionPagesWithLimits(agent, DEFAULT_LIMITS);
    if r.Ok? {
      NoMoreThanReceived(Received(agent, fetched));
      SerializedAddsUp(agent, fetched);
    }
  }
}
