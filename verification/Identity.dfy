// Event identity: the derived eventId and idempotencyKey of an envelope.
//
// An eventId is evt_<runId>_<seq>_<subIndex>.  A runId may itself contain '_' and
// digits, so that the id still determines the run is a fact about the decimal
// fields being free of the separator, read from the right.

module Identity {
  import opened Characters

  /** A 64-bit signed integer, the width of the source's seq and subIndex. */
  newtype Int64 = x: int | -0x8000_0000_0000_0000 <= x < 0x8000_0000_0000_0000

  datatype Option<+T> = None | Some(value: T)

  // ---------------------------------------------------------------- decimals

  function Digit(d: nat): (c: char)
    requires d < 10
  {
    '0' + d as char
  }

  predicate IsDigit(c: char) {
    '0' <= c <= '9'
  }

  predicate AllDigits(s: string) {
    forall i :: 0 <= i < |s| ==> IsDigit(s[i])
  }

  function Decimal(n: nat): (s: string)
    ensures |s| > 0 && AllDigits(s)
  {
    if n < 10 then [Digit(n)] else Decimal(n / 10) + [Digit(n % 10)]
  }

  /** The "%d" verb: a sign is printed for negative values only. */
  function FormatInt(n: int): string {
    if n < 0 then "-" + Decimal(-n) else Decimal(n)
  }

  function ParseDecimal(s: string): nat
    requires AllDigits(s)
  {
    if s == [] then 0
    else 10 * ParseDecimal(s[..|s| - 1]) + (s[|s| - 1] - '0') as nat
  }

  lemma {:induction false} ParseDecimalInvertsDecimal(n: nat)
    ensures ParseDecimal(Decimal(n)) == n
  {
    if n >= 10 {
      ParseDecimalInvertsDecimal(n / 10);
      assert Decimal(n)[..|Decimal(n)| - 1] == Decimal(n / 10);
    }
  }

  /** One more digit at the end of a number is that digit at the end of its text. */
  lemma DecimalDigits(n: nat, d: nat)
    requires d < 10
    ensures Decimal(10 * n + d) == (if n == 0 then "" else Decimal(n)) + ["0123456789"[d]]
  {
    assert (10 * n + d) / 10 == n && (10 * n + d) % 10 == d;
  }

  function Pow10(k: nat): (p: nat)
    ensures p > 0
  {
    if k == 0 then 1 else 10 * Pow10(k - 1)
  }

  /** A number prints in at most k digits exactly when it is below 10^k. */
  lemma {:induction false} DecimalLength(n: nat, k: nat)
    requires k > 0
    ensures |Decimal(n)| <= k <==> n < Pow10(k)
  {
    if n >= 10 {
      if k == 1 {
        assert Pow10(1) == 10 * Pow10(0);
      } else {
        DecimalLength(n / 10, k - 1);
        DivBelow(n, Pow10(k - 1));
      }
    } else {
      assert Pow10(k) == 10 * Pow10(k - 1);
    }
  }

  lemma DivBelow(n: nat, p: nat)
    ensures n / 10 < p <==> n < 10 * p
  {
  }

  // ------------------------------------------------------------- derived ids

  function DeriveEventId(runId: string, seqNo: int, subIndex: int): string {
    "evt_" + runId + "_" + FormatInt(seqNo) + "_" + FormatInt(subIndex)
  }

  function DeriveIdempotencyKey(runId: string, seqNo: int, subIndex: int): string {
    runId + ":" + FormatInt(seqNo) + ":" + FormatInt(subIndex)
  }

  /** What an id encodes. */
  datatype Key = Key(runId: string, seqNo: nat, subIndex: nat)

  /** Index just past the last occurrence of c, 0 when c does not occur. */
  function AfterLast(s: string, c: char): (i: nat)
    ensures i <= |s|
  {
    if s == [] then 0
    else if s[|s| - 1] == c then |s|
    else AfterLast(s[..|s| - 1], c)
  }

  lemma {:induction false} AfterLastFinds(x: string, c: char, y: string)
    requires c !in y
    ensures AfterLast(x + [c] + y, c) == |x| + 1
  {
    var s := x + [c] + y;
    if y == [] {
      assert s[|s| - 1] == c;
    } else {
      assert s[|s| - 1] == y[|y| - 1];
      assert s[..|s| - 1] == x + [c] + y[..|y| - 1];
      AfterLastFinds(x, c, y[..|y| - 1]);
    }
  }

  /** Cuts s around the last occurrence of c. */
  function CutLast(s: string, c: char): Option<(string, string)> {
    var i := AfterLast(s, c);
    if i == 0 then None else Some((s[..i - 1], s[i..]))
  }

  lemma CutLastFinds(x: string, c: char, y: string)
    requires c !in y
    ensures CutLast(x + [c] + y, c) == Some((x, y))
  {
    AfterLastFinds(x, c, y);
    var s := x + [c] + y;
    assert s[..|x|] == x && s[|x| + 1..] == y;
  }

  /** A decimal field at the end of s, and what precedes its separator. */
  function ParseLastField(s: string, sep: char): Option<(string, nat)> {
    match CutLast(s, sep)
    case Some((front, field)) =>
      if field != [] && AllDigits(field) then Some((front, ParseDecimal(field))) else None
    case None => None
  }

  lemma ParseLastFieldInverts(front: string, sep: char, n: nat)
    requires !IsDigit(sep)
    ensures ParseLastField(front + [sep] + Decimal(n), sep) == Some((front, n))
  {
    CutLastFinds(front, sep, Decimal(n));
    ParseDecimalInvertsDecimal(n);
  }

  /** Reads "<head><sep><digits><sep><digits>" from the right. */
  function ParseFields(s: string, sep: char): Option<Key> {
    match ParseLastField(s, sep)
    case None => None
    case Some((front, subIndex)) =>
      match ParseLastField(front, sep)
      case None => None
      case Some((head, seqNo)) => Some(Key(head, seqNo, subIndex))
  }

  function ParseEventId(s: string): Option<Key> {
    if |s| < 4 || s[..4] != "evt_" then None else ParseFields(s[4..], '_')
  }

  function ParseIdempotencyKey(s: string): Option<Key> {
    ParseFields(s, ':')
  }

  lemma ParseFieldsInverts(runId: string, seqNo: nat, subIndex: nat, sep: char)
    requires !IsDigit(sep)
    ensures ParseFields(runId + [sep] + Decimal(seqNo) + [sep] + Decimal(subIndex), sep)
         == Some(Key(runId, seqNo, subIndex))
  {
    var front := runId + [sep] + Decimal(seqNo);
    ParseLastFieldInverts(front, sep, subIndex);
    ParseLastFieldInverts(runId, sep, seqNo);
  }

  /** ParseEventId is a left inverse of DeriveEventId, whatever the runId contains. */
  lemma EventIdRoundTrip(runId: string, seqNo: nat, subIndex: nat)
    ensures ParseEventId(DeriveEventId(runId, seqNo, subIndex)) == Some(Key(runId, seqNo, subIndex))
  {
    var s := DeriveEventId(runId, seqNo, subIndex);
    var fields := runId + ['_'] + Decimal(seqNo) + ['_'] + Decimal(subIndex);
    assert s == "evt_" + fields;
    assert s[..4] == "evt_" && s[4..] == fields;
    ParseFieldsInverts(runId, seqNo, subIndex, '_');
  }

  lemma IdempotencyKeyRoundTrip(runId: string, seqNo: nat, subIndex: nat)
    ensures ParseIdempotencyKey(DeriveIdempotencyKey(runId, seqNo, subIndex)) == Some(Key(runId, seqNo, subIndex))
  {
    assert DeriveIdempotencyKey(runId, seqNo, subIndex)
        == runId + [':'] + Decimal(seqNo) + [':'] + Decimal(subIndex);
    ParseFieldsInverts(runId, seqNo, subIndex, ':');
  }

  /** Two logical events share an eventId exactly when they are the same event, and
      the two derived identifiers separate events equally well. */
  lemma IdsAreInjective(r1: string, q1: nat, b1: nat, r2: string, q2: nat, b2: nat)
    ensures DeriveEventId(r1, q1, b1) == DeriveEventId(r2, q2, b2)
       <==> r1 == r2 && q1 == q2 && b1 == b2
    ensures DeriveIdempotencyKey(r1, q1, b1) == DeriveIdempotencyKey(r2, q2, b2)
       <==> DeriveEventId(r1, q1, b1) == DeriveEventId(r2, q2, b2)
  {
    EventIdRoundTrip(r1, q1, b1);
    EventIdRoundTrip(r2, q2, b2);
    IdempotencyKeyRoundTrip(r1, q1, b1);
    IdempotencyKeyRoundTrip(r2, q2, b2);
  }

  // -------------------------------------------------------- identity checks

  /** The identity fields of an envelope. */
  datatype Envelope = Envelope(
    eventId: string,
    runId: string,
    seqNo: Int64,
    subIndex: Int64,
    idempotencyKey: string,
    attempt: int)

  predicate IsIdChar(c: char) {
    'A' <= c <= 'Z' || 'a' <= c <= 'z' || IsDigit(c) || c == '_' || c == '-'
  }

  predicate IsKeyChar(c: char) {
    IsIdChar(c) || c == '.' || c == ':'
  }

  predicate AllIn(s: string, inClass: char -> bool) {
    forall i :: 0 <= i < |s| ==> inClass(s[i])
  }

  /** ^run_[A-Za-z0-9_-]{1,64}$ */
  predicate MatchesRunId(s: string) {
    |s| >= 4 && s[..4] == "run_" && 1 <= |s[4..]| <= 64 && AllIn(s[4..], IsIdChar)
  }

  /** Text of the form <head><sep>[0-9]{1,19}<sep>[0-9]{1,10} with a head of 1..80
      characters of one class; head, q and b witness the match. */
  ghost predicate FieldsMatch(s: string, sep: char, inClass: char -> bool, head: string, q: string, b: string) {
    && s == head + [sep] + q + [sep] + b
    && 1 <= |head| <= 80 && AllIn(head, inClass)
    && 1 <= |q| <= 19 && AllDigits(q)
    && 1 <= |b| <= 10 && AllDigits(b)
  }

  /** ^evt_[A-Za-z0-9_-]{1,80}_[0-9]{1,19}_[0-9]{1,10}$ */
  ghost predicate MatchesEventId(s: string) {
    && |s| >= 4 && s[..4] == "evt_"
    && exists head, q, b :: FieldsMatch(s[4..], '_', IsIdChar, head, q, b)
  }

  /** ^[A-Za-z0-9_.:-]{1,80}:[0-9]{1,19}:[0-9]{1,10}$ */
  ghost predicate MatchesIdempotencyKey(s: string) {
    exists head, q, b :: FieldsMatch(s, ':', IsKeyChar, head, q, b)
  }

  lemma IdCharsExactly(c: char)
    ensures IsDigit(c) <==> c in "0123456789"
    ensures IsIdChar(c) <==> c in "ABCDEFGHIJKLMNOPQRSTUVWXYZabcdefghijklmnopqrstuvwxyz0123456789" + "_-"
    ensures IsKeyChar(c) <==> c in "ABCDEFGHIJKLMNOPQRSTUVWXYZabcdefghijklmnopqrstuvwxyz0123456789" + "_.:-"
  {
    DigitsSpelled(c);
    AlphanumericSpelled(c, "_-");
    AlphanumericSpelled(c, "_.:-");
  }

  predicate IsDigits(s: string, lo: nat, hi: nat) {
    lo <= |s| <= hi && forall i :: 0 <= i < |s| ==> s[i] in "0123456789"
  }

  predicate IsHead(s: string, inClass: char -> bool, hi: nat) {
    1 <= |s| <= hi && forall i :: 0 <= i < |s| ==> inClass(s[i])
  }

  lemma IsDigitsExactly(s: string, lo: nat, hi: nat)
    ensures IsDigits(s, lo, hi) <==> lo <= |s| <= hi && AllDigits(s)
  {
    forall c ensures IsDigit(c) <==> c in "0123456789" {
      DigitsSpelled(c);
    }
  }

  /** The patterns of run ids, event ids and idempotency keys, in their parts. */
  lemma RunIdExactly(s: string)
    ensures MatchesRunId(s) <==> exists x :: s == "run_" + x && IsHead(x, IsIdChar, 64)
  {
    if MatchesRunId(s) {
      assert s == "run_" + s[4..];
    }
  }

  lemma EventIdExactly(s: string)
    ensures MatchesEventId(s) <==>
      exists head, q, b ::
        && s == "evt_" + head + "_" + q + "_" + b
        && IsHead(head, IsIdChar, 80) && IsDigits(q, 1, 19) && IsDigits(b, 1, 10)
  {
    forall head, q, b
      ensures |s| >= 4 && s[..4] == "evt_" && FieldsMatch(s[4..], '_', IsIdChar, head, q, b) <==>
        s == "evt_" + head + "_" + q + "_" + b && IsHead(head, IsIdChar, 80) && IsDigits(q, 1, 19) && IsDigits(b, 1, 10)
    {
      IsDigitsExactly(q, 1, 19);
      IsDigitsExactly(b, 1, 10);
      var fields := head + "_" + q + "_" + b;
      assert "evt_" + head + "_" + q + "_" + b == "evt_" + fields;
      PrefixCuts("evt_", fields);
      assert |s| >= 4 ==> s == s[..4] + s[4..];
    }
  }

  lemma IdempotencyKeyExactly(s: string)
    ensures MatchesIdempotencyKey(s) <==>
      exists head, q, b ::
        && s == head + ":" + q + ":" + b
        && IsHead(head, IsKeyChar, 80) && IsDigits(q, 1, 19) && IsDigits(b, 1, 10)
  {
    forall head, q, b
      ensures FieldsMatch(s, ':', IsKeyChar, head, q, b) <==>
        s == head + ":" + q + ":" + b && IsHead(head, IsKeyChar, 80) && IsDigits(q, 1, 19) && IsDigits(b, 1, 10)
    {
      IsDigitsExactly(q, 1, 19);
      IsDigitsExactly(b, 1, 10);
    }
  }

  datatype IdentityCheck = Accepted | BadRunId | BadSeq | BadSubIndex | BadEventId | BadIdempotencyKey

  /** The identity rules of Envelope.Validate, in the order they are applied. */
  ghost function CheckIdentity(e: Envelope): IdentityCheck {
    if !MatchesRunId(e.runId) || |e.runId| > 64 then BadRunId
    else if e.seqNo < 1 then BadSeq
    else if e.subIndex < 0 then BadSubIndex
    else if !MatchesEventId(e.eventId) || |e.eventId| > 160 then BadEventId
    else if e.eventId != DeriveEventId(e.runId, e.seqNo as int, e.subIndex as int) then BadEventId
    else if !MatchesIdempotencyKey(e.idempotencyKey) || |e.idempotencyKey| > 160 then BadIdempotencyKey
    else if e.idempotencyKey != DeriveIdempotencyKey(e.runId, e.seqNo as int, e.subIndex as int) then BadIdempotencyKey
    else Accepted
  }

  ghost predicate ValidIdentity(e: Envelope) {
    CheckIdentity(e) == Accepted
  }

  const SUB_INDEX_LIMIT: nat := 10_000_000_000

  lemma SplitAtLast(x: string, y: string, x': string, y': string, c: char)
    requires x + [c] + y == x' + [c] + y'
    requires c !in y && c !in y'
    ensures x == x' && y == y'
  {
    CutLastFinds(x, c, y);
    CutLastFinds(x', c, y');
  }

  lemma Pow10Values()
    ensures Pow10(10) == SUB_INDEX_LIMIT
    ensures Pow10(19) == 10_000_000_000_000_000_000
  {
    assert Pow10(5) == 100_000 by {
      assert Pow10(3) == 1000;
    }
    assert Pow10(7) == 10_000_000;
    assert Pow10(9) == 1_000_000_000;
    assert Pow10(11) == 100_000_000_000;
    assert Pow10(13) == 10_000_000_000_000;
    assert Pow10(15) == 1_000_000_000_000_000;
    assert Pow10(17) == 100_000_000_000_000_000;
  }

  /** A derived identifier fits its pattern exactly when subIndex prints in ten digits. */
  lemma DerivedFieldsMatch(runId: string, seqNo: Int64, subIndex: Int64, sep: char, inClass: char -> bool)
    requires 1 <= |runId| <= 80 && AllIn(runId, inClass)
    requires seqNo >= 1 && subIndex >= 0 && !IsDigit(sep)
    ensures var s := runId + [sep] + Decimal(seqNo as int) + [sep] + Decimal(subIndex as int);
      (exists head, q, b :: FieldsMatch(s, sep, inClass, head, q, b)) <==> subIndex as int < SUB_INDEX_LIMIT
  {
    var q0, b0 := Decimal(seqNo as int), Decimal(subIndex as int);
    var s := runId + [sep] + q0 + [sep] + b0;
    DecimalsFit(seqNo, subIndex);
    if subIndex as int < SUB_INDEX_LIMIT {
      assert FieldsMatch(s, sep, inClass, runId, q0, b0);
    }
    forall head, q, b | FieldsMatch(s, sep, inClass, head, q, b)
      ensures subIndex as int < SUB_INDEX_LIMIT
    {
      SplitAtLast(runId + [sep] + q0, b0, head + [sep] + q, b, sep);
    }
  }

  /** Exactly which identities the publisher gate accepts.  The pattern bounds are
      redundant except for one: a subIndex of eleven or more digits is refused even
      though its derived ids are correct. */
  lemma IdentityAcceptedExactly(e: Envelope)
    ensures ValidIdentity(e) <==>
      && MatchesRunId(e.runId) && |e.runId| <= 64
      && e.seqNo >= 1
      && 0 <= e.subIndex < 10_000_000_000
      && e.eventId == "evt_" + e.runId + "_" + Decimal(e.seqNo as int) + "_" + Decimal(e.subIndex as int)
      && e.idempotencyKey == e.runId + ":" + Decimal(e.seqNo as int) + ":" + Decimal(e.subIndex as int)
  {
    if MatchesRunId(e.runId) && |e.runId| <= 64 && e.seqNo >= 1 && e.subIndex >= 0 {
      DerivedEventIdMatches(e.runId, e.seqNo, e.subIndex);
      DerivedIdempotencyKeyMatches(e.runId, e.seqNo, e.subIndex);
    }
  }

  lemma DerivedEventIdMatches(r: string, seqNo: Int64, subIndex: Int64)
    requires MatchesRunId(r) && |r| <= 64 && seqNo >= 1 && subIndex >= 0
    ensures var id := DeriveEventId(r, seqNo as int, subIndex as int);
      MatchesEventId(id) && |id| <= 160 <==> subIndex as int < SUB_INDEX_LIMIT
  {
    var q, b := Decimal(seqNo as int), Decimal(subIndex as int);
    RunIdChars(r);
    DerivedFieldsMatch(r, seqNo, subIndex, '_', IsIdChar);
    DecimalsFit(seqNo, subIndex);
    var id := DeriveEventId(r, seqNo as int, subIndex as int);
    assert id == "evt_" + (r + ['_'] + q + ['_'] + b);
    PrefixCuts("evt_", r + ['_'] + q + ['_'] + b);
  }

  lemma PrefixCuts(prefix: string, rest: string)
    ensures (prefix + rest)[..|prefix|] == prefix && (prefix + rest)[|prefix|..] == rest
  {
  }

  lemma DerivedIdempotencyKeyMatches(r: string, seqNo: Int64, subIndex: Int64)
    requires MatchesRunId(r) && |r| <= 64 && seqNo >= 1 && subIndex >= 0
    ensures var key := DeriveIdempotencyKey(r, seqNo as int, subIndex as int);
      MatchesIdempotencyKey(key) && |key| <= 160 <==> subIndex as int < SUB_INDEX_LIMIT
  {
    RunIdChars(r);
    DerivedFieldsMatch(r, seqNo, subIndex, ':', IsKeyChar);
    DecimalsFit(seqNo, subIndex);
    assert DeriveIdempotencyKey(r, seqNo as int, subIndex as int)
        == r + [':'] + Decimal(seqNo as int) + [':'] + Decimal(subIndex as int);
  }

  lemma DecimalsFit(seqNo: Int64, subIndex: Int64)
    requires seqNo >= 1 && subIndex >= 0
    ensures |Decimal(seqNo as int)| <= 19
    ensures |Decimal(subIndex as int)| <= 10 <==> subIndex as int < SUB_INDEX_LIMIT
  {
    Pow10Values();
    DecimalLength(seqNo as int, 19);
    DecimalLength(subIndex as int, 10);
  }

  lemma RunIdChars(r: string)
    requires MatchesRunId(r)
    ensures AllIn(r, IsIdChar) && AllIn(r, IsKeyChar)
  {
    forall i | 0 <= i < |r| ensures IsIdChar(r[i]) {
      if i < 4 {
        assert r[i] == r[..4][i];
      } else {
        assert r[i] == r[4..][i - 4];
      }
    }
  }

  /** The run that an eventId belongs to. */
  function RunOf(eventId: string): string {
    match ParseEventId(eventId)
    case Some(key) => key.runId
    case None => ""
  }

  /** Among accepted envelopes the eventId alone determines the run, the position in
      the run and the idempotency key. */
  lemma ValidEventIdDeterminesRun(e: Envelope)
    requires ValidIdentity(e)
    ensures RunOf(e.eventId) == e.runId
  {
    EventIdRoundTrip(e.runId, e.seqNo as int, e.subIndex as int);
  }

  lemma ValidEventIdDeterminesEvent(a: Envelope, b: Envelope)
    requires ValidIdentity(a) && ValidIdentity(b)
    ensures a.eventId == b.eventId <==>
      a.runId == b.runId && a.seqNo == b.seqNo && a.subIndex == b.subIndex && a.idempotencyKey == b.idempotencyKey
  {
    IdsAreInjective(a.runId, a.seqNo as int, a.subIndex as int, b.runId, b.seqNo as int, b.subIndex as int);
  }
}
