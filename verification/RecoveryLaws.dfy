// A replay never repeats and never goes back, whatever the server answers; and when the
// server answers with stretches of the log, live events and replay are the log so far.

module RecoveryLaws {
  import opened Identity
  import opened Recovery

  predicate AtMost(a: Cursor, b: Cursor) {
    a == b || Before(a, b)
  }

  // ---------------------------------------------------- whatever the server says

  /** The sequenced events come strictly later than at and strictly one after the other. */
  predicate Rises(at: Cursor, events: seq<Event>) {
    && (forall i :: 0 <= i < |events| && events[i].seqNo.Some? ==> Before(at, Position(events[i])))
    && (forall i, j :: 0 <= i < j < |events| && events[i].seqNo.Some? && events[j].seqNo.Some? ==>
          Before(Position(events[i]), Position(events[j])))
  }

  /** None of them is later than end. */
  predicate Ends(events: seq<Event>, end: Cursor) {
    forall i :: 0 <= i < |events| && events[i].seqNo.Some? ==> AtMost(Position(events[i]), end)
  }

  lemma RisesConcat(at: Cursor, a: seq<Event>, mid: Cursor, b: seq<Event>, end: Cursor)
    requires Rises(at, a) && Ends(a, mid) && AtMost(at, mid) && Rises(mid, b) && Ends(b, end) && AtMost(mid, end)
    ensures Rises(at, a + b) && Ends(a + b, end)
  {
    var all := a + b;
    forall i | 0 <= i < |all| && all[i].seqNo.Some?
      ensures Before(at, Position(all[i])) && AtMost(Position(all[i]), end)
    {
      assert all[i] == if i < |a| then a[i] else b[i - |a|];
    }
    forall i, j | 0 <= i < j < |all| && all[i].seqNo.Some? && all[j].seqNo.Some?
      ensures Before(Position(all[i]), Position(all[j]))
    {
      assert all[i] == if i < |a| then a[i] else b[i - |a|];
      assert all[j] == if j < |a| then a[j] else b[j - |a|];
    }
  }

  lemma {:induction false} FreshRises(at: Cursor, page: seq<Event>)
    ensures Rises(at, Fresh(at, page)) && Ends(Fresh(at, page), Moved(at, page)) && AtMost(at, Moved(at, page))
    decreases |page|
  {
    if page != [] {
      var e := page[0];
      if IsOld(at, e) {
        FreshRises(at, page[1..]);
      } else {
        FreshRises(Advance(at, e), page[1..]);
        assert Rises(at, [e]) && Ends([e], Advance(at, e));
        RisesConcat(at, [e], Advance(at, e), Fresh(Advance(at, e), page[1..]), Moved(at, page));
      }
    }
  }

  /** Whatever pages the server returns, the replayed events that carry a seq rise
      strictly in (seq, subIndex), all past the cursor the replay started from. */
  lemma {:induction false} ReplayRises(at: Cursor, replies: seq<Reply>)
    ensures var replay := Recover(at, replies);
      Rises(at, replay.delivered) && Ends(replay.delivered, replay.at) && AtMost(at, replay.at)
    decreases |replies|
  {
    hide Rises, Ends, Fresh, Moved, HasTerminal, IsOver, IsWaiting;
    NothingRises(at);
    if replies != [] && replies[0].page.Some? {
      var page := replies[0].page.value;
      var next := Moved(at, page);
      FreshRises(at, page);
      ReplayRises(next, replies[1..]);
      var more := Recover(next, replies[1..]);
      RisesConcat(at, Fresh(at, page), next, more.delivered, more.at);
    }
  }

  lemma NothingRises(at: Cursor)
    ensures Rises(at, []) && Ends([], at)
  {
  }

  // ------------------------------------------------------ after a live stream

  /** The run named last. */
  function RunAfter(events: seq<Event>): string {
    if events == [] then ""
    else
      var n := |events| - 1;
      if events[n].runId != "" then events[n].runId else RunAfter(events[..n])
  }

  /** Where the run last changed: the event that first named the current run since another
      run, or no run, was current. */
  function Since(events: seq<Event>): (i: nat)
    ensures i <= |events|
  {
    if events == [] then 0
    else
      var n := |events| - 1;
      if events[n].runId != "" && events[n].runId != RunAfter(events[..n]) then n else Since(events[..n])
  }

  /** cursor is the greatest of the origin and the positions of the events from i on. */
  predicate IsGreatestFrom(events: seq<Event>, i: nat, cursor: Cursor)
    requires i <= |events|
  {
    && Ends(events[i..], cursor) && AtMost(ORIGIN, cursor)
    && (cursor == ORIGIN || exists j :: i <= j < |events| && HasPosition(events, j, cursor))
  }

  predicate HasPosition(events: seq<Event>, j: nat, cursor: Cursor) {
    j < |events| && events[j].seqNo.Some? && Position(events[j]) == cursor
  }

  lemma GreatestPush(events: seq<Event>, i: nat, cursor: Cursor, e: Event)
    requires i <= |events| && IsGreatestFrom(events, i, cursor)
    ensures var next := if e.seqNo.Some? && Before(cursor, Position(e)) then Position(e) else cursor;
      IsGreatestFrom(events + [e], i, next)
  {
    var all := events + [e];
    var next := if e.seqNo.Some? && Before(cursor, Position(e)) then Position(e) else cursor;
    assert all[i..] == events[i..] + [e];
    if next != cursor {
      assert HasPosition(all, |events|, next);
    } else if cursor != ORIGIN {
      var j :| i <= j < |events| && HasPosition(events, j, cursor);
      assert HasPosition(all, j, cursor);
    }
  }

  /** After any live stream the cursor is for the run named last, and is the greatest of
      (0, 0) and the positions since that run became current. */
  lemma {:induction false} LiveCursorIsGreatest(live: seq<Event>)
    ensures var l := NoteAll(NOT_LIVE, live);
      l.runId == RunAfter(live) && IsGreatestFrom(live, Since(live), l.at)
  {
    if live != [] {
      var n := |live| - 1;
      var front, e := live[..n], live[n];
      assert live == front + [e];
      LiveCursorIsGreatest(front);
      var m := NoteAll(NOT_LIVE, front);
      var start := if Since(live) == n && e.runId != "" && e.runId != m.runId then ORIGIN else m.at;
      assert front[n..] == [];
      assert IsGreatestFrom(front, Since(live), start);
      hide IsGreatestFrom;
      GreatestPush(front, Since(live), start, e);
    }
  }

  /** What is handed on after a disconnect; nothing is asked for while no run is known. */
  function Resumed(live: seq<Event>, replies: seq<Reply>): seq<Event> {
    var l := NoteAll(NOT_LIVE, live);
    if l.runId == "" then [] else Recover(l.at, replies).delivered
  }

  /** All that is replayed comes later than the i-th live event. */
  ghost predicate NeverRepeated(live: seq<Event>, i: nat)
    requires i < |live| && live[i].seqNo.Some?
  {
    forall replies, k ::
      0 <= k < |Resumed(live, replies)| && Resumed(live, replies)[k].seqNo.Some? ==>
        Before(Position(live[i]), Position(Resumed(live, replies)[k]))
  }

  /** The origin, or an event since the run last changed, is at or past the i-th event. */
  predicate Covered(live: seq<Event>, i: nat)
    requires i < |live| && live[i].seqNo.Some?
  {
    || AtMost(Position(live[i]), ORIGIN)
    || exists j :: Since(live) <= j < |live| && IsLaterFrom(live, j, Position(live[i]))
  }

  predicate IsLaterFrom(live: seq<Event>, j: nat, cursor: Cursor) {
    j < |live| && live[j].seqNo.Some? && AtMost(cursor, Position(live[j]))
  }

  lemma CoveredExactly(live: seq<Event>, i: nat)
    requires i < |live| && live[i].seqNo.Some?
    ensures Covered(live, i) <==> AtMost(Position(live[i]), NoteAll(NOT_LIVE, live).at)
  {
    LiveCursorIsGreatest(live);
    var at, since := NoteAll(NOT_LIVE, live).at, Since(live);
    hide NoteAll, Since;
    if j :| since <= j < |live| && IsLaterFrom(live, j, Position(live[i])) {
      assert live[since..][j - since] == live[j];
      assert AtMost(Position(live[j]), at);
    }
    if AtMost(Position(live[i]), at) && at != ORIGIN {
      var j :| since <= j < |live| && HasPosition(live, j, at);
      assert IsLaterFrom(live, j, Position(live[i]));
    }
  }

  lemma NoRunNoChange(live: seq<Event>)
    requires RunAfter(live) == ""
    ensures Since(live) == 0
  {
  }

  /** An event on its own, in the only page of a run that is over. */
  function OnlyPage(e: Event): seq<Reply> {
    [Reply(Some([e]), Known("completed"))]
  }

  lemma OnlyPageDelivers(at: Cursor, e: Event)
    requires e.seqNo.Some? && Before(at, Position(e))
    ensures Recover(at, OnlyPage(e)).delivered == [e]
  {
    assert [e][1..] == [] && Fresh(Position(e), []) == [];
    assert Fresh(at, [e]) == [e] + [];
  }

  /** For any live stream and each of its sequenced events: nothing at or before its
      position is ever replayed, whatever the server answers, exactly when the event is at
      most the origin or an event since the run last changed. */
  lemma NothingLiveRepeatsExactly(live: seq<Event>, i: nat)
    requires i < |live| && live[i].seqNo.Some?
    ensures NeverRepeated(live, i) <==> Covered(live, i)
  {
    var l := NoteAll(NOT_LIVE, live);
    CoveredExactly(live, i);
    LiveCursorIsGreatest(live);
    if l.runId == "" {
      NoRunNoChange(live);
      assert IsLaterFrom(live, i, Position(live[i]));
    } else if Covered(live, i) {
      forall replies, k | 0 <= k < |Resumed(live, replies)| && Resumed(live, replies)[k].seqNo.Some?
        ensures Before(Position(live[i]), Position(Resumed(live, replies)[k]))
      {
        ReplayRises(l.at, replies);
      }
    } else {
      OnlyPageDelivers(l.at, live[i]);
      assert Resumed(live, OnlyPage(live[i]))[0] == live[i];
    }
  }

  /** The i-th live event belongs to the run the stream ends in. */
  predicate OfLastRun(live: seq<Event>, i: nat)
    requires i < |live|
  {
    RunAfter(live[..i + 1]) == RunAfter(live)
  }

  /** So a replay repeats nothing of the run that was delivered live, whatever the server
      answers, exactly when each of the run's events before the stream last changed runs is
      at most the origin or a later one. */
  lemma RunNeverRepeatsExactly(live: seq<Event>)
    ensures (forall i: nat :: i < |live| && live[i].seqNo.Some? && OfLastRun(live, i) ==> NeverRepeated(live, i)) <==>
      (forall i: nat :: i < Since(live) && live[i].seqNo.Some? && OfLastRun(live, i) ==> Covered(live, i))
  {
    forall i: nat | i < |live| && live[i].seqNo.Some?
      ensures NeverRepeated(live, i) <==> Covered(live, i)
      ensures i >= Since(live) ==> Covered(live, i)
    {
      NothingLiveRepeatsExactly(live, i);
      assert IsLaterFrom(live, i, Position(live[i]));
    }
    hide NeverRepeated, Covered, OfLastRun;
  }

  /** A run left and entered again: its first event is delivered live and replayed. */
  lemma RunLeftAndEnteredRepeats(a: Event, b: Event, c: Event)
    requires a.runId == c.runId != "" && b.runId != "" && b.runId != a.runId
    requires a.seqNo == Some(5) && a.sub == None && b.seqNo == Some(1) && c.seqNo.None?
    ensures NoteAll(NOT_LIVE, [a, b, c]) == Live(a.runId, ORIGIN)
    ensures Resumed([a, b, c], OnlyPage(a)) == [a]
  {
    assert [a, b, c][..2] == [a, b] && [a, b][..1] == [a] && [a][..0] == [];
    assert NoteAll(NOT_LIVE, []) == NOT_LIVE;
    assert NoteAll(NOT_LIVE, [a]).runId == a.runId;
    assert NoteAll(NOT_LIVE, [a, b]).runId == b.runId;
    OnlyPageDelivers(ORIGIN, a);
  }

  // ----------------------------------------------------- stretches of one log

  /** The durable log of a run: every event sequenced, strictly rising past (0, 0). */
  predicate IsLog(runId: string, log: seq<Event>) {
    && runId != ""
    && (forall i :: 0 <= i < |log| ==> log[i].seqNo.Some? && log[i].runId == runId)
    && Rises(ORIGIN, log)
  }

  /** The position of the last of the first m events. */
  function CursorAt(log: seq<Event>, m: nat): Cursor
    requires m <= |log| && forall i :: 0 <= i < |log| ==> log[i].seqNo.Some?
  {
    if m == 0 then ORIGIN else Position(log[m - 1])
  }

  lemma {:induction false} LiveAlongLog(runId: string, log: seq<Event>, m: nat)
    requires IsLog(runId, log) && m <= |log|
    ensures NoteAll(NOT_LIVE, log[..m]).at == CursorAt(log, m)
    ensures m > 0 ==> NoteAll(NOT_LIVE, log[..m]).runId == runId
    decreases m
  {
    if m > 0 {
      LiveAlongLog(runId, log, m - 1);
      assert log[..m][..m - 1] == log[..m - 1];
      assert Before(CursorAt(log, m - 1), Position(log[m - 1]));
    }
  }

  /** Which events of the log are past the cursor. */
  lemma PastCursor(runId: string, log: seq<Event>, m: nat, i: nat)
    requires IsLog(runId, log) && m <= |log| && i < |log|
    ensures IsOld(CursorAt(log, m), log[i]) <==> i < m
  {
    if i < m - 1 {
      assert Before(Position(log[i]), Position(log[m - 1]));
    } else if m > 0 && i > m - 1 {
      assert Before(Position(log[m - 1]), Position(log[i]));
    }
  }

  function Max(a: nat, b: nat): nat {
    if a < b then b else a
  }

  /** A page log[a..b] that begins no later than what was delivered adds what it has
      beyond that. */
  lemma {:induction false} StretchDelivers(runId: string, log: seq<Event>, m: nat, a: nat, b: nat)
    requires IsLog(runId, log) && a <= m <= |log| && a <= b <= |log|
    ensures Fresh(CursorAt(log, m), log[a..b]) == log[m..Max(m, b)]
    ensures Moved(CursorAt(log, m), log[a..b]) == CursorAt(log, Max(m, b))
    decreases b - a
  {
    var page := log[a..b];
    if a < b {
      PastCursor(runId, log, m, a);
      assert page[0] == log[a] && page[1..] == log[a + 1..b];
      hide IsLog, IsOld;
      if a < m {
        StretchDelivers(runId, log, m, a + 1, b);
      } else {
        assert IsLog(runId, log);
        StretchDelivers(runId, log, m + 1, a + 1, b);
        assert Advance(CursorAt(log, m), log[a]) == CursorAt(log, m + 1);
        assert [log[a]] + log[m + 1..b] == log[m..b];
      }
    } else {
      assert log[m..m] == [];
    }
  }

  /** Where each page lies in the log; an unanswered request is an empty stretch. */
  datatype Span = Span(from: nat, to: nat)

  /** How far the first m events and the stretches reach. */
  function Reach(m: nat, spans: seq<Span>): nat
    decreases |spans|
  {
    if spans == [] then m else Reach(Max(m, spans[0].to), spans[1..])
  }

  /** Every page is a stretch of the log that begins no later than what came before. */
  predicate Stretches(log: seq<Event>, m: nat, replies: seq<Reply>, spans: seq<Span>)
    decreases |replies|
  {
    && |spans| == |replies| && m <= |log|
    && (replies != [] ==>
          && spans[0].from <= m && spans[0].from <= spans[0].to <= |log|
          && (if replies[0].page.Some? then replies[0].page.value == log[spans[0].from..spans[0].to]
              else spans[0].to <= m)
          && Stretches(log, Max(m, spans[0].to), replies[1..], spans[1..]))
  }

  lemma {:induction false} ReplayFollowsLog(runId: string, log: seq<Event>, m: nat, replies: seq<Reply>,
                                            spans: seq<Span>)
    requires IsLog(runId, log) && Stretches(log, m, replies, spans)
    ensures var replay := Recover(CursorAt(log, m), replies);
      && replay.attempts <= |spans|
      && m <= Reach(m, spans[..replay.attempts]) <= |log|
      && replay.delivered == log[m..Reach(m, spans[..replay.attempts])]
      && replay.at == CursorAt(log, Reach(m, spans[..replay.attempts]))
    decreases |replies|
  {
    if replies == [] {
      assert spans[..0] == [] && log[m..m] == [];
    } else if replies[0].page.None? {
      assert Reach(m, spans[..1]) == m by { ReachOne(m, spans); }
      assert log[m..m] == [];
    } else {
      hide IsLog, HasTerminal, IsOver, IsWaiting, CursorAt, Recover;
      var k := Max(m, spans[0].to);
      StretchDelivers(runId, log, m, spans[0].from, spans[0].to);
      ReplayFollowsLog(runId, log, k, replies[1..], spans[1..]);
      var more := Recover(CursorAt(log, k), replies[1..]);
      RecoverStep(CursorAt(log, m), replies);
      hide Stretches, Fresh, Moved;
      if Recover(CursorAt(log, m), replies) == Later(log[m..k], more) {
        ReachMore(m, spans, more.attempts);
        LogJoins(log, m, k, Reach(k, spans[1..][..more.attempts]));
      } else {
        ReachOne(m, spans);
      }
    }
  }

  /** An answered attempt either ends the replay or passes the cursor on. */
  lemma RecoverStep(at: Cursor, replies: seq<Reply>)
    requires replies != [] && replies[0].page.Some?
    ensures var page := replies[0].page.value; var replay := Recover(at, replies);
      || replay == Later(Fresh(at, page), Recover(Moved(at, page), replies[1..]))
      || (replay.delivered == Fresh(at, page) && replay.at == Moved(at, page) && replay.attempts == 1)
  {
    hide Fresh, Moved, HasTerminal;
  }

  lemma ReachOne(m: nat, spans: seq<Span>)
    requires spans != []
    ensures Reach(m, spans[..1]) == Max(m, spans[0].to)
  {
    assert spans[..1][1..] == [];
  }

  lemma ReachMore(m: nat, spans: seq<Span>, n: nat)
    requires spans != [] && n < |spans|
    ensures Reach(m, spans[..n + 1]) == Reach(Max(m, spans[0].to), spans[1..][..n])
  {
    assert spans[..n + 1][0] == spans[0];
    assert spans[..n + 1][1..] == spans[1..][..n];
  }

  lemma LogJoins(log: seq<Event>, m: nat, k: nat, n: nat)
    requires m <= k <= n <= |log|
    ensures log[m..k] + log[k..n] == log[m..n]
  {
  }

  /** If the live stream delivered the first m events of the log and every page is a
      stretch of it that leaves no gap, what was handed on live and after the disconnect
      together is exactly the log as far as it was read.  A stream that broke off before
      its first event has no run to ask for, and nothing is handed on. */
  lemma LiveThenReplayIsLog(runId: string, log: seq<Event>, m: nat, replies: seq<Reply>, spans: seq<Span>)
    requires IsLog(runId, log) && Stretches(log, m, replies, spans)
    ensures m == 0 ==> Resumed(log[..m], replies) == []
    ensures m > 0 ==>
      var attempts := Recover(NoteAll(NOT_LIVE, log[..m]).at, replies).attempts;
      && attempts <= |spans| && Reach(m, spans[..attempts]) <= |log|
      && log[..m] + Resumed(log[..m], replies) == log[..Reach(m, spans[..attempts])]
  {
    LiveAlongLog(runId, log, m);
    if m > 0 {
      hide IsLog, Recover, NoteAll;
      ReplayFollowsLog(runId, log, m, replies, spans);
      LogJoins(log, 0, m, Reach(m, spans[..Recover(NoteAll(NOT_LIVE, log[..m]).at, replies).attempts]));
    }
  }

  /** A run found over after one page without its terminal event counts as complete, with
      the log delivered to its end exactly when the page limit was enough for it. */
  lemma CompletedEarlyExactly(runId: string, log: seq<Event>, m: nat, limit: nat, status: string, later: seq<Reply>)
    requires IsLog(runId, log) && m <= |log| && IsOver(status)
    requires var end := if m + limit < |log| then m + limit else |log|; !HasTerminal(log[m..end])
    ensures var end := if m + limit < |log| then m + limit else |log|;
      var replay := Recover(CursorAt(log, m), [Reply(Some(log[m..end]), Known(status))] + later);
      replay.outcome == Completed && (log[..m] + replay.delivered == log <==> |log| - m <= limit)
  {
    var end := if m + limit < |log| then m + limit else |log|;
    StretchDelivers(runId, log, m, m, end);
    LogJoins(log, 0, m, end);
    hide IsLog, CursorAt, Fresh, Moved, HasTerminal;
    assert log[..end] == log <==> end == |log|;
  }
}
