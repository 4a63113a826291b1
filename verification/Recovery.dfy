// Resuming a run after a disconnect: the (seq, subIndex) cursor kept by the live stream
// and the replay that continues from it.

module Recovery {
  import opened Identity

  datatype Event = Event(runId: string, kind: string, seqNo: Option<int>, sub: Option<int>, body: string)

  datatype Cursor = Cursor(seqNo: int, sub: int)

  const ORIGIN := Cursor(0, 0)

  /** A missing subIndex counts as 0. */
  function Position(e: Event): Cursor
    requires e.seqNo.Some?
  {
    Cursor(e.seqNo.value, if e.sub.Some? then e.sub.value else 0)
  }

  predicate Before(a: Cursor, b: Cursor) {
    a.seqNo < b.seqNo || (a.seqNo == b.seqNo && a.sub < b.sub)
  }

  // ------------------------------------------------------------ the live cursor

  datatype Live = Live(runId: string, at: Cursor)

  const NOT_LIVE := Live("", ORIGIN)

  function Note(l: Live, e: Event): Live {
    var m := if e.runId != "" && e.runId != l.runId then Live(e.runId, ORIGIN) else l;
    if e.seqNo.Some? && Before(m.at, Position(e)) then m.(at := Position(e)) else m
  }

  function NoteAll(l: Live, events: seq<Event>): Live {
    if events == [] then l else Note(NoteAll(l, events[..|events| - 1]), events[|events| - 1])
  }

  /** The variables of one runAgent call that follow its events. */
  class LiveCursor {
    var lastRunId: string
    var lastSeq: int
    var lastSubIndex: int

    function State(): Live
      reads this
    {
      Live(lastRunId, Cursor(lastSeq, lastSubIndex))
    }

    constructor ()
      ensures State() == NOT_LIVE && lastRunId == "" && lastSeq == lastSubIndex == 0
    {
      lastRunId, lastSeq, lastSubIndex := "", 0, 0;
    }

    /** An event that names another run makes it current and starts its cursor over; a
        sequenced event moves the cursor if it comes later. */
    method OnEvent(event: Event)
      modifies this
      ensures State() == Note(old(State()), event)
      ensures var changes := event.runId != "" && event.runId != old(lastRunId);
        var fromSeq, fromSub := if changes then 0 else old(lastSeq), if changes then 0 else old(lastSubIndex);
        var sub := if event.sub.Some? then event.sub.value else 0;
        var later := event.seqNo.Some?
          && (event.seqNo.value > fromSeq || (event.seqNo.value == fromSeq && sub > fromSub));
        && lastRunId == (if changes then event.runId else old(lastRunId))
        && lastSeq == (if later then event.seqNo.value else fromSeq)
        && lastSubIndex == if later then sub else fromSub
    {
      if event.runId != "" && event.runId != lastRunId {
        lastRunId := event.runId;
        lastSeq := 0;
        lastSubIndex := 0;
      }
      if event.seqNo.Some? {
        var subIndex := if event.sub.Some? then event.sub.value else 0;
        if event.seqNo.value > lastSeq {
          lastSeq := event.seqNo.value;
          lastSubIndex := subIndex;
        } else if event.seqNo.value == lastSeq && subIndex > lastSubIndex {
          lastSubIndex := subIndex;
        }
      }
    }

    /** The events of one live stream, in order. */
    method OnEvents(events: seq<Event>)
      modifies this
      ensures State() == NoteAll(old(State()), events)
    {
      for i := 0 to |events|
        invariant State() == NoteAll(old(State()), events[..i])
      {
        assert events[..i + 1][..i] == events[..i];
        OnEvent(events[i]);
      }
      assert events[..|events|] == events;
    }
  }

  // ----------------------------------------------------------------- the replay

  /** The answer to a status request: lost on the way, without a status, or a status. */
  datatype StatusReply = Lost | Unknown | Known(name: string)

  /** The answers to one attempt; no page when the request failed. */
  datatype Reply = Reply(page: Option<seq<Event>>, status: StatusReply)

  datatype Outcome = NoRunId | ReplayFailed | Completed | Paused | TimedOut

  datatype Replay = Replay(outcome: Outcome, delivered: seq<Event>, at: Cursor, attempts: nat)

  predicate IsTerminal(e: Event) {
    e.kind == "RUN_FINISHED" || e.kind == "RUN_ERROR"
  }

  predicate IsOver(status: string) {
    status == "completed" || status == "failed" || status == "cancelled"
  }

  predicate IsWaiting(status: string) {
    status == "awaiting_approval" || status == "awaiting_input"
  }

  predicate IsOld(at: Cursor, e: Event) {
    e.seqNo.Some? && !Before(at, Position(e))
  }

  function Advance(at: Cursor, e: Event): Cursor {
    if e.seqNo.Some? then Position(e) else at
  }

  /** The events of a page that are handed on, given the cursor. */
  function Fresh(at: Cursor, page: seq<Event>): seq<Event>
    decreases |page|
  {
    if page == [] then []
    else if IsOld(at, page[0]) then Fresh(at, page[1..])
    else [page[0]] + Fresh(Advance(at, page[0]), page[1..])
  }

  /** The cursor after handing on those events. */
  function Moved(at: Cursor, page: seq<Event>): Cursor
    decreases |page|
  {
    if page == [] then at
    else Moved(if IsOld(at, page[0]) then at else Advance(at, page[0]), page[1..])
  }

  predicate HasTerminal(events: seq<Event>) {
    exists i :: 0 <= i < |events| && IsTerminal(events[i])
  }

  /** recoverRun for a run with an id, answered by one reply per attempt. */
  function Recover(at: Cursor, replies: seq<Reply>): Replay
    decreases |replies|
  {
    if replies == [] then Replay(TimedOut, [], at, 0)
    else if replies[0].page.None? then Replay(ReplayFailed, [], at, 1)
    else
      var page := replies[0].page.value;
      var handed, next := Fresh(at, page), Moved(at, page);
      if HasTerminal(handed) then Replay(Completed, handed, next, 1)
      else match replies[0].status
        case Lost => Replay(ReplayFailed, handed, next, 1)
        case Known(name) =>
          if IsOver(name) then Replay(Completed, handed, next, 1)
          else if IsWaiting(name) then Replay(Paused, handed, next, 1)
          else Later(handed, Recover(next, replies[1..]))
        case Unknown => Later(handed, Recover(next, replies[1..]))
  }

  function Later(handed: seq<Event>, more: Replay): Replay {
    more.(delivered := handed + more.delivered, attempts := more.attempts + 1)
  }

  /** e comes strictly after a position, a missing subIndex counting as 0. */
  predicate ComesAfter(e: Event, seqNo: int, sub: int)
    requires e.seqNo.Some?
  {
    e.seqNo.value > seqNo || (e.seqNo.value == seqNo && (if e.sub.Some? then e.sub.value else 0) > sub)
  }

  /** An event of a page is handed on if it has no seq, or comes after the cursor the page
      was asked for and after all sequenced events before it in the page. */
  predicate IsNew(at: Cursor, page: seq<Event>, e: Event) {
    e.seqNo.Some? ==>
      && ComesAfter(e, at.seqNo, at.sub)
      && forall i :: 0 <= i < |page| && page[i].seqNo.Some? ==>
           ComesAfter(e, page[i].seqNo.value, if page[i].sub.Some? then page[i].sub.value else 0)
  }

  lemma {:induction false} FreshConcat(at: Cursor, a: seq<Event>, b: seq<Event>)
    ensures Fresh(at, a + b) == Fresh(at, a) + Fresh(Moved(at, a), b)
    ensures Moved(at, a + b) == Moved(Moved(at, a), b)
    decreases |a|
  {
    if a == [] {
      assert a + b == b;
    } else {
      assert (a + b)[0] == a[0] && (a + b)[1..] == a[1..] + b;
      FreshConcat(if IsOld(at, a[0]) then at else Advance(at, a[0]), a[1..], b);
      hide IsOld, Advance;
    }
  }

  lemma {:induction false} MovedIsLatest(at: Cursor, page: seq<Event>, e: Event)
    requires e.seqNo.Some?
    ensures IsOld(Moved(at, page), e) <==> !IsNew(at, page, e)
    decreases |page|
  {
    if page != [] {
      var next := if IsOld(at, page[0]) then at else Advance(at, page[0]);
      MovedIsLatest(next, page[1..], e);
      assert forall i :: 1 <= i < |page| ==> page[i] == page[1..][i - 1];
    }
  }

  /** One more event at the end of a page is handed on, and becomes the cursor, exactly if
      it is new. */
  lemma FreshExactly(at: Cursor, page: seq<Event>, e: Event)
    ensures Fresh(at, page + [e]) == Fresh(at, page) + if IsNew(at, page, e) then [e] else []
    ensures Moved(at, page + [e]) ==
      if e.seqNo.Some? && IsNew(at, page, e) then Cursor(e.seqNo.value, if e.sub.Some? then e.sub.value else 0)
      else Moved(at, page)
  {
    FreshConcat(at, page, [e]);
    if e.seqNo.Some? {
      MovedIsLatest(at, page, e);
    }
    assert [e][1..] == [] && [e] + [] == [e];
    hide IsNew;
  }

  /** The reply after which nothing more is asked, given the cursor it was asked from. */
  predicate IsFinal(at: Cursor, reply: Reply) {
    || reply.page.None?
    || HandsOnTerminal(at, reply.page.value)
    || reply.status.Lost?
    || (reply.status.Known? && reply.status.name in
         ["completed", "failed", "cancelled", "awaiting_approval", "awaiting_input"])
  }

  predicate HandsOnTerminal(at: Cursor, page: seq<Event>) {
    exists e :: e in Fresh(at, page) && (e.kind == "RUN_FINISHED" || e.kind == "RUN_ERROR")
  }

  /** The outcome that a final reply stands for. */
  function OutcomeOf(at: Cursor, reply: Reply): Outcome
    requires IsFinal(at, reply)
  {
    if reply.page.None? then ReplayFailed
    else if HandsOnTerminal(at, reply.page.value) then Completed
    else if reply.status.Lost? then ReplayFailed
    else if reply.status.name in ["completed", "failed", "cancelled"] then Completed
    else Paused
  }

  /** The cursor and the events handed on after the first n replies, all answered. */
  function CursorAfter(at: Cursor, replies: seq<Reply>, n: nat): Cursor
    requires n <= |replies|
  {
    if n == 0 then at
    else
      var before := CursorAfter(at, replies, n - 1);
      if replies[n - 1].page.None? then before else Moved(before, replies[n - 1].page.value)
  }

  function HandedBy(at: Cursor, replies: seq<Reply>, n: nat): seq<Event>
    requires n <= |replies|
  {
    if n == 0 then []
    else
      var page := replies[n - 1].page;
      HandedBy(at, replies, n - 1) + if page.None? then [] else Fresh(CursorAfter(at, replies, n - 1), page.value)
  }

  /** The replay uses the replies up to the first final one and has the outcome that it
      stands for; it times out, with all replies used, exactly when none is final. */
  ghost predicate IsReplay(at: Cursor, replies: seq<Reply>, replay: Replay) {
    var n := replay.attempts;
    && n <= |replies|
    && (forall i :: 0 <= i < n - 1 ==> !IsFinal(CursorAfter(at, replies, i), replies[i]))
    && (if n > 0 && IsFinal(CursorAfter(at, replies, n - 1), replies[n - 1])
        then replay.outcome == OutcomeOf(CursorAfter(at, replies, n - 1), replies[n - 1])
        else replay.outcome == TimedOut && n == |replies|)
    && replay.at == CursorAfter(at, replies, n)
    && replay.delivered == HandedBy(at, replies, n)
  }

  lemma {:induction false} CursorAfterFirst(at: Cursor, replies: seq<Reply>, n: nat)
    requires 0 < n <= |replies|
    ensures var page := replies[0].page;
      var next := if page.None? then at else Moved(at, page.value);
      && CursorAfter(at, replies, n) == CursorAfter(next, replies[1..], n - 1)
      && HandedBy(at, replies, n)
           == (if page.None? then [] else Fresh(at, page.value)) + HandedBy(next, replies[1..], n - 1)
  {
    hide Fresh, Moved;
    if n > 1 {
      CursorAfterFirst(at, replies, n - 1);
      assert replies[n - 1] == replies[1..][n - 2];
    } else {
      assert CursorAfter(at, replies, 0) == at && HandedBy(at, replies, 0) == [];
    }
  }

  lemma TerminalsExactly(at: Cursor, page: seq<Event>)
    ensures HasTerminal(Fresh(at, page)) <==> HandsOnTerminal(at, page)
  {
    var handed := Fresh(at, page);
    hide Fresh;
    if HasTerminal(handed) {
      var i :| 0 <= i < |handed| && IsTerminal(handed[i]);
      assert handed[i] in handed;
    }
  }

  lemma FirstFinal(at: Cursor, replies: seq<Reply>)
    requires replies != [] && IsFinal(at, replies[0])
    ensures var replay := Recover(at, replies);
      && replay.attempts == 1 && replay.outcome == OutcomeOf(at, replies[0])
      && replay.at == CursorAfter(at, replies, 1) && replay.delivered == HandedBy(at, replies, 1)
  {
    var page := replies[0].page;
    if page.Some? {
      TerminalsExactly(at, page.value);
    }
    hide Fresh, Moved, HasTerminal, HandsOnTerminal;
    assert CursorAfter(at, replies, 0) == at && HandedBy(at, replies, 0) == [];
  }

  lemma NotFirstFinal(at: Cursor, replies: seq<Reply>)
    requires replies != [] && !IsFinal(at, replies[0])
    ensures var page := replies[0].page.value;
      Recover(at, replies) == Later(Fresh(at, page), Recover(Moved(at, page), replies[1..]))
  {
    TerminalsExactly(at, replies[0].page.value);
    hide Fresh, Moved, HasTerminal, HandsOnTerminal;
  }

  lemma CursorAtStart(at: Cursor, replies: seq<Reply>)
    ensures CursorAfter(at, replies, 0) == at && HandedBy(at, replies, 0) == []
  {
  }

  /** One reply that is not final, and the replay of those after it. */
  lemma ReplayGoesOn(at: Cursor, replies: seq<Reply>, more: Replay)
    requires replies != [] && replies[0].page.Some? && !IsFinal(at, replies[0])
    requires IsReplay(Moved(at, replies[0].page.value), replies[1..], more)
    ensures IsReplay(at, replies, Later(Fresh(at, replies[0].page.value), more))
  {
    hide Fresh, Moved, IsFinal, OutcomeOf, HandedBy, CursorAfter;
    var next := Moved(at, replies[0].page.value);
    CursorAtStart(at, replies);
    forall i | 0 <= i <= more.attempts
      ensures CursorAfter(at, replies, i + 1) == CursorAfter(next, replies[1..], i)
    {
      CursorAfterFirst(at, replies, i + 1);
    }
    CursorAfterFirst(at, replies, more.attempts + 1);
    forall i | 0 <= i < more.attempts
      ensures !IsFinal(CursorAfter(at, replies, i), replies[i])
    {
      if i > 0 {
        assert CursorAfter(at, replies, (i - 1) + 1) == CursorAfter(next, replies[1..], i - 1);
        assert replies[i] == replies[1..][i - 1];
      }
    }
    var n := more.attempts;
    if n > 0 {
      assert CursorAfter(at, replies, (n - 1) + 1) == CursorAfter(next, replies[1..], n - 1);
      assert replies[n] == replies[1..][n - 1];
    }
  }

  lemma {:induction false} ReplayExactly(at: Cursor, replies: seq<Reply>)
    ensures IsReplay(at, replies, Recover(at, replies))
    decreases |replies|
  {
    if replies == [] {
      CursorAtStart(at, replies);
      hide CursorAfter, HandedBy;
    } else if IsFinal(at, replies[0]) {
      hide Fresh, Moved, OutcomeOf, Recover, HandedBy, IsFinal;
      FirstFinal(at, replies);
      CursorAtStart(at, replies);
      hide CursorAfter;
    } else {
      var page := replies[0].page.value;
      NotFirstFinal(at, replies);
      ReplayExactly(Moved(at, page), replies[1..]);
      hide *;
      ReplayGoesOn(at, replies, Recover(Moved(at, page), replies[1..]));
    }
  }

  /** One event of a page. */
  lemma PageStep(at: Cursor, page: seq<Event>, i: nat)
    requires i < |page|
    ensures var e := page[i];
      && (IsOld(at, e) ==>
            Fresh(at, page[i..]) == Fresh(at, page[i + 1..]) && Moved(at, page[i..]) == Moved(at, page[i + 1..]))
      && (!IsOld(at, e) ==> Fresh(at, page[i..]) == [e] + Fresh(Advance(at, e), page[i + 1..])
                            && Moved(at, page[i..]) == Moved(Advance(at, e), page[i + 1..]))
  {
    assert page[i..][0] == page[i] && page[i..][1..] == page[i + 1..];
    hide IsOld, Advance;
  }

  /** The loop over one page. */
  method DeliverPage(at: Cursor, page: seq<Event>) returns (handed: seq<Event>, next: Cursor, terminal: bool)
    ensures handed == Fresh(at, page) && next == Moved(at, page) && terminal == HasTerminal(handed)
  {
    hide Fresh, Moved, HasTerminal;
    handed, terminal := [], false;
    var cursor, cursorSubIndex := at.seqNo, at.sub;
    assert page[0..] == page && !HasTerminal([]) by { NoTerminal(); }
    for i := 0 to |page|
      invariant Fresh(at, page) == handed + Fresh(Cursor(cursor, cursorSubIndex), page[i..])
      invariant Moved(at, page) == Moved(Cursor(cursor, cursorSubIndex), page[i..])
      invariant terminal == HasTerminal(handed)
    {
      var event := page[i];
      PageStep(Cursor(cursor, cursorSubIndex), page, i);
      if event.seqNo.Some? {
        var subIndex := if event.sub.Some? then event.sub.value else 0;
        if event.seqNo.value < cursor || (event.seqNo.value == cursor && subIndex <= cursorSubIndex) {
          continue;
        }
        cursor := event.seqNo.value;
        cursorSubIndex := subIndex;
      }
      TerminalPush(handed, event);
      Associate(handed, [event], Fresh(Cursor(cursor, cursorSubIndex), page[i + 1..]));
      handed := handed + [event];
      if event.kind == "RUN_FINISHED" || event.kind == "RUN_ERROR" {
        terminal := true;
      }
    }
    next := Cursor(cursor, cursorSubIndex);
    PageEnd(next, page);
  }

  lemma NoTerminal()
    ensures !HasTerminal([])
  {
  }

  lemma PageEnd(at: Cursor, page: seq<Event>)
    ensures Fresh(at, page[|page|..]) == [] && Moved(at, page[|page|..]) == at
  {
  }

  lemma TerminalPush(events: seq<Event>, e: Event)
    ensures HasTerminal(events + [e]) <==> HasTerminal(events) || IsTerminal(e)
  {
    if HasTerminal(events) {
      var i :| 0 <= i < |events| && IsTerminal(events[i]);
      assert (events + [e])[i] == events[i];
    }
    if IsTerminal(e) {
      assert (events + [e])[|events|] == e;
    }
  }

  /** recoverRun: maxAttempts is the number of replies.  It asks until a reply has no page,
      hands on a terminal event, loses its status, or finds the run over or waiting. */
  method RecoverRun(runId: string, afterSeq: int, afterSubIndex: int, replies: seq<Reply>) returns (replay: Replay)
    ensures replay == if runId == "" then Replay(NoRunId, [], Cursor(afterSeq, afterSubIndex), 0)
                      else Recover(Cursor(afterSeq, afterSubIndex), replies)
    ensures runId != "" ==> IsReplay(Cursor(afterSeq, afterSubIndex), replies, replay)
  {
    var start := Cursor(afterSeq, afterSubIndex);
    ReplayExactly(start, replies);
    hide IsReplay;
    if runId == "" {
      return Replay(NoRunId, [], start, 0);
    }
    var cursor := start;
    var delivered: seq<Event> := [];
    for attempt := 0 to |replies|
      invariant var more := Recover(cursor, replies[attempt..]);
        Recover(start, replies) == Replay(more.outcome, delivered + more.delivered, more.at, attempt + more.attempts)
    {
      var reply := replies[attempt];
      assert replies[attempt..][0] == reply && replies[attempt..][1..] == replies[attempt + 1..];
      if reply.page.None? {
        return Replay(ReplayFailed, delivered, cursor, attempt + 1);
      }
      var handed, next, terminal := DeliverPage(cursor, reply.page.value);
      Associate(delivered, handed, Recover(next, replies[attempt + 1..]).delivered);
      cursor, delivered := next, delivered + handed;
      if terminal {
        return Replay(Completed, delivered, cursor, attempt + 1);
      }
      if reply.status.Lost? {
        return Replay(ReplayFailed, delivered, cursor, attempt + 1);
      }
      if reply.status.Known? {
        if IsOver(reply.status.name) {
          return Replay(Completed, delivered, cursor, attempt + 1);
        }
        if IsWaiting(reply.status.name) {
          return Replay(Paused, delivered, cursor, attempt + 1);
        }
      }
    }
    return Replay(TimedOut, delivered, cursor, |replies|);
  }

  lemma Associate(a: seq<Event>, b: seq<Event>, c: seq<Event>)
    ensures a + (b + c) == (a + b) + c
  {
  }
}
