// Dead-letter rows: what is kept of a frame that cannot be processed, and exactly when
// the row built for it is refused by its own validation.

module DeadLetters {
  import opened AttemptBounds
  import opened Characters
  import opened Identity

  /** The identity fields of a frame as far as JSON gives them. */
  datatype RawFrame = RawFrame(eventId: string, runId: string, seqNo: int, kind: string, occurredAt: string)

  /** What is taken over from a frame; "" and 0 stand for nothing. */
  datatype Metadata = Metadata(eventId: string, runId: string, seqNo: int, kind: string, occurredAt: string)

  const NO_METADATA := Metadata("", "", 0, "", "")

  datatype Row = Row(
    eventId: string, consumerKey: string, runId: string, seqNo: int, kind: string,
    attempts: int, errorClass: string, firstSeen: string, lastSeen: string,
    streamKey: string, streamEntryId: string)

  predicate IsErrorClass(s: string) {
    s == "decode_error" || s == "unknown_schema_version" || s == "type_not_allowed" || s == "size_exceeded"
    || s == "security_redaction_required" || s == "handler_error" || s == "store_error"
    || s == "idempotency_conflict" || s == "timeout" || s == "unknown"
  }

  predicate IsAllowedType(s: string) {
    s == "run_started" || s == "run_finished" || s == "run_error" || s == "message_start" || s == "message_delta"
    || s == "message_end" || s == "state_update" || s == "activity_snapshot" || s == "tool_call_start"
    || s == "tool_call_args" || s == "tool_call_end" || s == "agent_turn_started" || s == "agent_turn_content"
    || s == "agent_turn_finished"
  }

  lemma AllowedTypesExactly(s: string)
    ensures IsAllowedType(s) <==>
      s in ["run_started", "run_finished", "run_error", "message_start", "message_delta", "message_end",
        "state_update", "activity_snapshot", "tool_call_start", "tool_call_args", "tool_call_end",
        "agent_turn_started", "agent_turn_content", "agent_turn_finished"]
  {
  }

  predicate DigitsAt(s: string, from: nat, to: nat) {
    from <= to <= |s| && AllDigits(s[from..to])
  }

  /** YYYY-MM-DDTHH:MM:SS, an optional fraction of one to nine digits, and Z. */
  predicate IsUtc(s: string) {
    && |s| >= 20
    && DigitsAt(s, 0, 4) && s[4] == '-' && DigitsAt(s, 5, 7) && s[7] == '-' && DigitsAt(s, 8, 10) && s[10] == 'T'
    && DigitsAt(s, 11, 13) && s[13] == ':' && DigitsAt(s, 14, 16) && s[16] == ':' && DigitsAt(s, 17, 19)
    && s[|s| - 1] == 'Z'
    && (|s| == 20 || (22 <= |s| <= 30 && s[19] == '.' && DigitsAt(s, 20, |s| - 1)))
  }

  predicate IsConsumerKeyChar(c: char) {
    'a' <= c <= 'z' || IsDigit(c) || c == '_' || c == '.' || c == ':' || c == '-'
  }

  predicate IsEnvChar(c: char) {
    'a' <= c <= 'z' || IsDigit(c) || c == '_' || c == '-'
  }

  predicate IsConsumerKey(s: string) {
    1 <= |s| <= 128 && forall i :: 0 <= i < |s| ==> IsConsumerKeyChar(s[i])
  }

  const KEY_HEAD := "agenthub:"
  const KEY_TAIL := ":run:events"

  predicate IsStreamKey(s: string) {
    && KEY_HEAD <= s && |KEY_HEAD| + 1 + |KEY_TAIL| <= |s| <= |KEY_HEAD| + 32 + |KEY_TAIL|
    && s[|s| - |KEY_TAIL|..] == KEY_TAIL
    && forall i :: |KEY_HEAD| <= i < |s| - |KEY_TAIL| ==> IsEnvChar(s[i])
  }

  predicate IsStreamEntry(s: string) {
    exists dash :: 1 <= dash <= 19 && dash < |s| && s[dash] == '-' && 1 <= |s| - dash - 1 <= 10
                   && DigitsAt(s, 0, dash) && DigitsAt(s, dash + 1, |s|)
  }

  lemma EnvCharsExactly(c: char)
    ensures IsEnvChar(c) <==> c in "abcdefghijklmnopqrstuvwxyz0123456789" + "_-"
    ensures IsConsumerKeyChar(c) <==> c in "abcdefghijklmnopqrstuvwxyz0123456789" + "_.:-"
  {
    SmallSpelled(c, "_-");
    SmallSpelled(c, "_.:-");
  }

  /** The patterns of stream keys, consumer keys, entry ids and timestamps, in their parts. */
  lemma StreamKeyExactly(s: string)
    ensures IsStreamKey(s) <==> exists env :: s == "agenthub:" + env + ":run:events" && IsHead(env, IsEnvChar, 32)
  {
    if IsStreamKey(s) {
      var env := s[9..|s| - 11];
      assert s == s[..9] + env + s[|s| - 11..];
      assert s == "agenthub:" + env + ":run:events";
    }
    forall env | s == "agenthub:" + env + ":run:events" && IsHead(env, IsEnvChar, 32)
      ensures IsStreamKey(s)
    {
      assert s[|s| - 11..] == ":run:events";
      assert forall i :: 9 <= i < |s| - 11 ==> s[i] == env[i - 9];
    }
  }

  lemma ConsumerKeyExactly(s: string)
    ensures IsConsumerKey(s) <==> IsHead(s, IsConsumerKeyChar, 128)
  {
  }

  lemma StreamEntryExactly(s: string)
    ensures IsStreamEntry(s) <==> exists ms, n :: s == ms + "-" + n && IsDigits(ms, 1, 19) && IsDigits(n, 1, 10)
  {
    forall dash | 1 <= dash <= 19 && dash < |s| && s[dash] == '-'
      ensures s == s[..dash] + "-" + s[dash + 1..]
      ensures DigitsAt(s, 0, dash) <==> IsDigits(s[..dash], 1, 19)
      ensures 1 <= |s| - dash - 1 <= 10 && DigitsAt(s, dash + 1, |s|) <==> IsDigits(s[dash + 1..], 1, 10)
    {
      IsDigitsExactly(s[..dash], 1, 19);
      IsDigitsExactly(s[dash + 1..], 1, 10);
    }
    forall ms, n | s == ms + "-" + n && IsDigits(ms, 1, 19) && IsDigits(n, 1, 10)
      ensures IsStreamEntry(s)
    {
      assert s[..|ms|] == ms && s[|ms|] == '-' && s[|ms| + 1..] == n;
    }
  }

  /** Nothing, or a point and one to nine digits. */
  ghost predicate IsFraction(s: string) {
    s == "" || exists f :: s == "." + f && IsDigits(f, 1, 9)
  }

  function UtcText(y: string, mo: string, d: string, h: string, mi: string, sec: string, fraction: string): string {
    y + "-" + mo + "-" + d + "T" + h + ":" + mi + ":" + sec + fraction + "Z"
  }

  lemma UtcTextParts(y: string, mo: string, d: string, h: string, mi: string, sec: string, fraction: string)
    requires |y| == 4 && |mo| == |d| == |h| == |mi| == |sec| == 2
    ensures var s := UtcText(y, mo, d, h, mi, sec, fraction);
      && |s| == 20 + |fraction|
      && s[0..4] == y && s[4] == '-' && s[5..7] == mo && s[7] == '-' && s[8..10] == d && s[10] == 'T'
      && s[11..13] == h && s[13] == ':' && s[14..16] == mi && s[16] == ':' && s[17..19] == sec
      && s[19..|s| - 1] == fraction && s[|s| - 1] == 'Z'
  {
  }

  lemma FractionExactly(s: string)
    requires |s| >= 20
    ensures IsFraction(s[19..|s| - 1])
       <==> |s| == 20 || (22 <= |s| <= 30 && s[19] == '.' && DigitsAt(s, 20, |s| - 1))
  {
    var fraction := s[19..|s| - 1];
    if |s| > 20 {
      var f := s[20..|s| - 1];
      assert fraction == [s[19]] + f;
      IsDigitsExactly(f, 1, 9);
      forall g | fraction == "." + g ensures g == f {
        assert g == fraction[1..] == f;
      }
    }
  }

  lemma UtcExactly(s: string)
    ensures IsUtc(s) <==>
      exists y, mo, d, h, mi, sec, fraction ::
        && s == UtcText(y, mo, d, h, mi, sec, fraction)
        && IsDigits(y, 4, 4) && IsDigits(mo, 2, 2) && IsDigits(d, 2, 2)
        && IsDigits(h, 2, 2) && IsDigits(mi, 2, 2) && IsDigits(sec, 2, 2) && IsFraction(fraction)
  {
    if IsUtc(s) {
      FractionExactly(s);
      UtcDigits(s);
      hide IsUtc, DigitsAt, IsFraction, IsDigits;
      assert s == UtcText(s[0..4], s[5..7], s[8..10], s[11..13], s[14..16], s[17..19], s[19..|s| - 1]);
    }
    forall y, mo, d, h, mi, sec, fraction |
      && s == UtcText(y, mo, d, h, mi, sec, fraction)
      && IsDigits(y, 4, 4) && IsDigits(mo, 2, 2) && IsDigits(d, 2, 2)
      && IsDigits(h, 2, 2) && IsDigits(mi, 2, 2) && IsDigits(sec, 2, 2) && IsFraction(fraction)
      ensures IsUtc(s)
    {
      UtcTextParts(y, mo, d, h, mi, sec, fraction);
      hide UtcText, IsFraction;
      FractionExactly(s);
      UtcDigits(s);
    }
  }

  lemma UtcDigits(s: string)
    requires |s| >= 20
    ensures DigitsAt(s, 0, 4) <==> IsDigits(s[0..4], 4, 4)
    ensures DigitsAt(s, 5, 7) <==> IsDigits(s[5..7], 2, 2)
    ensures DigitsAt(s, 8, 10) <==> IsDigits(s[8..10], 2, 2)
    ensures DigitsAt(s, 11, 13) <==> IsDigits(s[11..13], 2, 2)
    ensures DigitsAt(s, 14, 16) <==> IsDigits(s[14..16], 2, 2)
    ensures DigitsAt(s, 17, 19) <==> IsDigits(s[17..19], 2, 2)
  {
    IsDigitsExactly(s[0..4], 4, 4);
    IsDigitsExactly(s[5..7], 2, 2);
    IsDigitsExactly(s[8..10], 2, 2);
    IsDigitsExactly(s[11..13], 2, 2);
    IsDigitsExactly(s[14..16], 2, 2);
    IsDigitsExactly(s[17..19], 2, 2);
    hide IsDigits, AllDigits;
  }

  ghost predicate IsEventIdField(s: string) {
    MatchesEventId(s) && |s| <= 160
  }

  /** partialMetadata: each field that satisfies its own pattern.  parses is RFC 3339
      parsing, which also accepts offsets. */
  ghost function PartialMetadata(frame: Option<RawFrame>, parses: string -> bool): Metadata {
    if frame.None? then NO_METADATA
    else
      var raw := frame.value;
      Metadata(if IsEventIdField(raw.eventId) then raw.eventId else "",
               if MatchesRunId(raw.runId) && |raw.runId| <= 64 then raw.runId else "",
               if raw.seqNo > 0 then raw.seqNo else 0,
               if IsAllowedType(raw.kind) then raw.kind else "",
               if parses(raw.occurredAt) then raw.occurredAt else "")
  }

  /** NewDLQEntry. */
  function NewRow(m: Metadata, consumerKey: string, attempts: int, errorClass: string, streamKey: string,
                  transportId: string, stamp: string): Row {
    Row(m.eventId, consumerKey, m.runId, m.seqNo, m.kind,
        if attempts < 1 then 1 else if attempts > MAX_ATTEMPTS_CAP then MAX_ATTEMPTS_CAP else attempts,
        if IsErrorClass(errorClass) then errorClass else "unknown",
        if m.occurredAt != "" then m.occurredAt else stamp,
        stamp,
        if IsStreamKey(streamKey) then streamKey else "",
        if IsStreamEntry(transportId) then transportId else "")
  }

  /** Every row has the identity fields, the consumer key and the time it was given; its
      class is the given one exactly when that is one of the ten; stream key and entry id are
      kept exactly when they have their form; a count out of bounds goes to the nearer bound. */
  lemma NewRowExactly(m: Metadata, consumerKey: string, attempts: int, errorClass: string, streamKey: string,
                      transportId: string, stamp: string) returns (row: Row)
    ensures row == NewRow(m, consumerKey, attempts, errorClass, streamKey, transportId, stamp)
    ensures row.eventId == m.eventId && row.runId == m.runId && row.seqNo == m.seqNo && row.kind == m.kind
    ensures row.consumerKey == consumerKey && row.lastSeen == stamp
    ensures row.firstSeen == if m.occurredAt == "" then stamp else m.occurredAt
    ensures 1 <= attempts <= 32 ==> row.attempts == attempts
    ensures (attempts < 1 ==> row.attempts == 1) && (attempts > 32 ==> row.attempts == 32)
    ensures var classes := ["decode_error", "unknown_schema_version", "type_not_allowed", "size_exceeded",
      "security_redaction_required", "handler_error", "store_error", "idempotency_conflict", "timeout", "unknown"];
      row.errorClass == if errorClass in classes then errorClass else "unknown"
    ensures row.streamKey in {"", streamKey}
    ensures row.streamKey != "" <==>
      exists env :: streamKey == "agenthub:" + env + ":run:events" && IsHead(env, IsEnvChar, 32)
    ensures row.streamEntryId in {"", transportId}
    ensures row.streamEntryId != "" <==>
      exists ms, n :: transportId == ms + "-" + n && IsDigits(ms, 1, 19) && IsDigits(n, 1, 10)
  {
    row := NewRow(m, consumerKey, attempts, errorClass, streamKey, transportId, stamp);
    assert !IsStreamKey("") && !IsStreamEntry("");
    StreamKeyExactly(streamKey);
    StreamEntryExactly(transportId);
    hide IsStreamKey, IsStreamEntry, IsHead, IsDigits;
  }

  /** DLQEntry.Validate accepts the row. */
  ghost predicate RowAccepted(row: Row) {
    && (row.eventId == "" || IsEventIdField(row.eventId))
    && IsConsumerKey(row.consumerKey)
    && (row.runId == "" || MatchesRunId(row.runId))
    && row.seqNo >= 0
    && (row.kind == "" || IsAllowedType(row.kind))
    && 1 <= row.attempts <= MAX_ATTEMPTS_CAP
    && IsErrorClass(row.errorClass)
    && IsUtc(row.firstSeen) && IsUtc(row.lastSeen)
    && (row.streamKey == "" || IsStreamKey(row.streamKey))
    && (row.streamEntryId == "" || IsStreamEntry(row.streamEntryId))
  }

  /** The row of an entry that is dead-lettered by the read loop or the reclaim pass. */
  ghost function PartialRow(frame: Option<RawFrame>, parses: string -> bool, consumerKey: string, attempts: int,
                            errorClass: string, streamKey: string, transportId: string, stamp: string): Row {
    NewRow(PartialMetadata(frame, parses), consumerKey, attempts, errorClass, streamKey, transportId, stamp)
  }

  /** Whatever the attempt count, the error class, the keys and the frame, the row of a
      frame is accepted exactly when the frame has no timestamp that parses without being
      in UTC form. */
  lemma PartialRowAcceptedExactly(frame: Option<RawFrame>, parses: string -> bool, consumerKey: string, attempts: int,
                                  errorClass: string, streamKey: string, transportId: string, stamp: string)
    requires IsConsumerKey(consumerKey) && IsUtc(stamp)
    ensures
      RowAccepted(PartialRow(frame, parses, consumerKey, attempts, errorClass, streamKey, transportId, stamp)) <==>
      (frame.Some? && frame.value.occurredAt != "" && parses(frame.value.occurredAt) ==> IsUtc(frame.value.occurredAt))
  {
    hide IsUtc, IsStreamKey, IsStreamEntry, IsEventIdField, MatchesRunId, IsConsumerKey, IsAllowedType;
  }

  /** Every timestamp that parses and does not end in Z, such as one with an offset, makes
      a row that is refused: the frame cannot be dead-lettered. */
  lemma OffsetTimestampRefused(raw: RawFrame, parses: string -> bool, consumerKey: string, attempts: int,
                               errorClass: string, streamKey: string, transportId: string, stamp: string)
    requires raw.occurredAt != "" && parses(raw.occurredAt) && raw.occurredAt[|raw.occurredAt| - 1] != 'Z'
    ensures
      !RowAccepted(PartialRow(Some(raw), parses, consumerKey, attempts, errorClass, streamKey, transportId, stamp))
  {
    var row := PartialRow(Some(raw), parses, consumerKey, attempts, errorClass, streamKey, transportId, stamp);
    assert row.firstSeen == raw.occurredAt;
    hide IsStreamKey, IsStreamEntry, IsEventIdField, MatchesRunId, IsConsumerKey, IsAllowedType;
  }

  /** A row may be built for the frame under this key at this time; timeParses says whether
      RFC 3339 parsing takes the frame's timestamp. */
  predicate Applies(frame: Option<RawFrame>, timeParses: bool, parses: string -> bool, consumerKey: string,
                    stamp: string)
  {
    IsConsumerKey(consumerKey) && IsUtc(stamp) && (frame.Some? ==> parses(frame.value.occurredAt) == timeParses)
  }

  /** Whatever the consumer key, the count, the class, the keys and the time of writing, the
      row of the frame passes its validation. */
  ghost predicate IsWritable(frame: Option<RawFrame>, timeParses: bool) {
    forall parses: string -> bool, consumerKey, attempts, errorClass, streamKey, transportId, stamp |
      Applies(frame, timeParses, parses, consumerKey, stamp) ::
      RowAccepted(PartialRow(frame, parses, consumerKey, attempts, errorClass, streamKey, transportId, stamp))
  }

  /** Whatever they are, it is refused. */
  ghost predicate IsRefused(frame: Option<RawFrame>, timeParses: bool) {
    forall parses: string -> bool, consumerKey, attempts, errorClass, streamKey, transportId, stamp |
      Applies(frame, timeParses, parses, consumerKey, stamp) ::
      !RowAccepted(PartialRow(frame, parses, consumerKey, attempts, errorClass, streamKey, transportId, stamp))
  }

  /** The frame has no timestamp that parses without being in UTC form. */
  predicate TimeFits(frame: Option<RawFrame>, timeParses: bool) {
    frame.Some? && frame.value.occurredAt != "" && timeParses ==> IsUtc(frame.value.occurredAt)
  }

  lemma RowFits(frame: Option<RawFrame>, timeParses: bool, parses: string -> bool, consumerKey: string, attempts: int,
                errorClass: string, streamKey: string, transportId: string, stamp: string)
    requires Applies(frame, timeParses, parses, consumerKey, stamp)
    ensures RowAccepted(PartialRow(frame, parses, consumerKey, attempts, errorClass, streamKey, transportId, stamp))
       <==> TimeFits(frame, timeParses)
  {
    hide IsUtc, IsConsumerKey, RowAccepted, PartialRow;
    PartialRowAcceptedExactly(frame, parses, consumerKey, attempts, errorClass, streamKey, transportId, stamp);
  }

  /** A frame's row is writable exactly when its timestamp fits, and refused exactly when it
      does not. */
  lemma WritableExactly(frame: Option<RawFrame>, timeParses: bool)
    ensures IsWritable(frame, timeParses) <==> TimeFits(frame, timeParses)
    ensures IsRefused(frame, timeParses) <==> !TimeFits(frame, timeParses)
  {
    var parses := SomeApplies(frame, timeParses);
    hide Applies, TimeFits, RowAccepted, PartialRow;
    forall parses: string -> bool, consumerKey, attempts, errorClass, streamKey, transportId, stamp |
      Applies(frame, timeParses, parses, consumerKey, stamp)
      ensures RowAccepted(PartialRow(frame, parses, consumerKey, attempts, errorClass, streamKey, transportId, stamp))
         <==> TimeFits(frame, timeParses)
    {
      RowFits(frame, timeParses, parses, consumerKey, attempts, errorClass, streamKey, transportId, stamp);
    }
    assert RowAccepted(PartialRow(frame, parses, "k", 1, "unknown", "", "", STAMP)) <==> TimeFits(frame, timeParses);
  }

  lemma SomeApplies(frame: Option<RawFrame>, timeParses: bool) returns (parses: string -> bool)
    ensures Applies(frame, timeParses, parses, "k", STAMP)
  {
    SomeKeyAndStamp();
    hide IsUtc, IsConsumerKey;
    parses := s => timeParses;
  }

  const STAMP := "2026-01-02T03:04:05Z"

  lemma SomeKeyAndStamp()
    ensures IsConsumerKey("k") && IsUtc(STAMP)
  {
    assert STAMP[0..4] == "2026" && STAMP[5..7] == "01" && STAMP[8..10] == "02";
    assert STAMP[11..13] == "03" && STAMP[14..16] == "04" && STAMP[17..19] == "05";
  }

  /** The metadata of an envelope that passed validation. */
  function EnvelopeMetadata(e: Envelope, kind: string, occurredAt: string): Metadata {
    Metadata(e.eventId, e.runId, e.seqNo as int, kind, occurredAt)
  }

  /** The row written when a decoded message has spent its budget is always accepted, and
      has the message's own identity and time, the class of its failure and its attempts. */
  lemma MessageRowAccepted(e: Envelope, kind: string, occurredAt: string, consumerKey: string, attempts: int,
                           errorClass: string, streamKey: string, transportId: string, stamp: string)
    requires ValidIdentity(e) && |e.eventId| <= 160 && IsAllowedType(kind) && IsUtc(occurredAt)
    requires IsConsumerKey(consumerKey) && IsUtc(stamp)
    ensures var m := EnvelopeMetadata(e, kind, occurredAt);
      var row := NewRow(m, consumerKey, attempts, errorClass, streamKey, transportId, stamp);
      && RowAccepted(row)
      && row.eventId == e.eventId && row.runId == e.runId && row.seqNo == e.seqNo as int && row.kind == kind
      && row.firstSeen == occurredAt && row.lastSeen == stamp && row.consumerKey == consumerKey
      && (IsErrorClass(errorClass) ==> row.errorClass == errorClass)
      && (1 <= attempts <= 32 ==> row.attempts == attempts)
      && (IsStreamKey(streamKey) ==> row.streamKey == streamKey)
      && (IsStreamEntry(transportId) ==> row.streamEntryId == transportId)
  {
    hide IsUtc, IsStreamKey, IsStreamEntry, MatchesRunId, IsConsumerKey, IsAllowedType, MatchesEventId,
         MatchesIdempotencyKey;
    assert occurredAt != "" by { UtcNotEmpty(occurredAt); }
  }

  lemma UtcNotEmpty(s: string)
    requires IsUtc(s)
    ensures s != ""
  {
  }

  /** Nothing is fabricated: a field of the row is the frame's own or empty, and is kept
      exactly when it satisfies its pattern. */
  lemma PartialRowIsHonest(raw: RawFrame, parses: string -> bool, consumerKey: string, attempts: int,
                           errorClass: string, streamKey: string, transportId: string, stamp: string)
    returns (row: Row)
    ensures row == PartialRow(Some(raw), parses, consumerKey, attempts, errorClass, streamKey, transportId, stamp)
    ensures row.eventId in {"", raw.eventId}
    ensures row.eventId != "" <==> MatchesEventId(raw.eventId) && |raw.eventId| <= 160
    ensures row.runId in {"", raw.runId} && (row.runId != "" <==> MatchesRunId(raw.runId) && |raw.runId| <= 64)
    ensures row.seqNo == if raw.seqNo > 0 then raw.seqNo else 0
    ensures row.kind in {"", raw.kind} && (row.kind != "" <==> IsAllowedType(raw.kind))
    ensures row.firstSeen == if parses(raw.occurredAt) && raw.occurredAt != "" then raw.occurredAt else stamp
    ensures var m := PartialMetadata(Some(raw), parses);
      row == NewRow(m, consumerKey, attempts, errorClass, streamKey, transportId, stamp)
  {
    row := PartialRow(Some(raw), parses, consumerKey, attempts, errorClass, streamKey, transportId, stamp);
    hide IsUtc, IsStreamKey, IsStreamEntry;
  }

  /** An entry without a frame, or with one that is no JSON object, gives no identity. */
  lemma NoFrameNoIdentity(parses: string -> bool, consumerKey: string, attempts: int, errorClass: string,
                          streamKey: string, transportId: string, stamp: string)
    ensures var row := PartialRow(None, parses, consumerKey, attempts, errorClass, streamKey, transportId, stamp);
      && row.eventId == row.runId == row.kind == "" && row.seqNo == 0 && row.firstSeen == row.lastSeen == stamp
      && row == NewRow(NO_METADATA, consumerKey, attempts, errorClass, streamKey, transportId, stamp)
  {
  }
}
