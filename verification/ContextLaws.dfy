// What BuildContext promises of its output: exactly when it fails, that it keeps order
// and every required item, that trimming is oldest-first and stops at the first fit,
// and when the output keeps pairs whole and is its own window.

module ContextLaws {
  import opened Context

  // -------------------------------------------------------- the required items

  /** Pinned and system items stay, except results without a call. */
  predicate Required(items: seq<Item>, i: nat)
    requires i < |items|
  {
    Protected(items[i]) && !Orphan(items, i)
  }

  function RequiredAll(items: seq<Item>): (sel: seq<bool>)
    ensures |sel| == |items|
    ensures forall i :: 0 <= i < |items| ==> sel[i] == Required(items, i)
  {
    seq(|items|, i requires 0 <= i < |items| => Required(items, i))
  }

  function RequiredChars(items: seq<Item>): nat {
    Chars(items, RequiredAll(items))
  }

  /** The window has every required item and no orphan result. */
  lemma WindowRequired(items: seq<Item>, limits: Limits, i: nat)
    requires i < |items|
    ensures Required(items, i) ==> Window(items, limits)[i]
    ensures Orphan(items, i) ==> !Window(items, limits)[i]
  {
  }

  /** Trimming only unselects, and never a protected item. */
  lemma {:induction false} TrimmedKeeps(items: seq<Item>, sel: seq<bool>, i: nat, max: int, x: nat)
    requires |sel| == |items| && i <= |items| && x < |items|
    ensures Trimmed(items, sel, i, max)[x] ==> sel[x]
    ensures Protected(items[x]) ==> Trimmed(items, sel, i, max)[x] == sel[x]
    decreases |items| - i
  {
    if i < |items| && Chars(items, sel) > max {
      TrimmedKeeps(items, if Droppable(items, sel, i) then Drop(items, sel, i) else sel, i + 1, max, x);
    }
  }

  lemma {:induction false} CharsMonotone(items: seq<Item>, a: seq<bool>, b: seq<bool>, n: nat)
    requires |a| == |b| == |items| && n <= |items| && forall i :: 0 <= i < n ==> a[i] ==> b[i]
    ensures CharsTo(items, a, n) <= CharsTo(items, b, n)
  {
    if n > 0 {
      CharsMonotone(items, a, b, n - 1);
    }
  }

  /** An item selected on top of the others adds its text. */
  lemma {:induction false} CharsExtra(items: seq<Item>, a: seq<bool>, b: seq<bool>, n: nat, x: nat)
    requires |a| == |b| == |items| && x < n <= |items| && forall i :: 0 <= i < n ==> a[i] ==> b[i]
    requires b[x] && !a[x]
    ensures CharsTo(items, a, n) + |items[x].text| <= CharsTo(items, b, n)
  {
    if x == n - 1 {
      CharsMonotone(items, a, b, n - 1);
    } else {
      CharsExtra(items, a, b, n - 1, x);
    }
  }

  /** Every selection BuildContext makes contains the required items and no orphan. */
  lemma SelectionRequired(items: seq<Item>, limits: Limits)
    ensures forall i :: 0 <= i < |items| && Required(items, i) ==> Selection(items, limits)[i]
    ensures forall i :: 0 <= i < |items| && Selection(items, limits)[i] ==>
      Window(items, limits)[i] && !Orphan(items, i)
    ensures RequiredChars(items) <= Chars(items, Selection(items, limits))
  {
    forall i | 0 <= i < |items|
      ensures Required(items, i) ==> Selection(items, limits)[i]
      ensures Selection(items, limits)[i] ==> Window(items, limits)[i] && !Orphan(items, i)
    {
      WindowRequired(items, limits, i);
      TrimmedKeeps(items, Window(items, limits), 0, limits.maxChars, i);
    }
    CharsMonotone(items, RequiredAll(items), Selection(items, limits), |items|);
  }

  /** BuildContext rejects exactly the bad limits, and fails with too large a context
      exactly when the required items alone exceed MaxChars. */
  lemma BuildFailsExactly(items: seq<Item>, limits: Limits)
    ensures Build(items, limits) == Failed(BadMaxChars) <==> limits.maxChars <= 0
    ensures Build(items, limits) == Failed(BadWindow) <==>
      limits.maxChars > 0 && (limits.keepFirst < 0 || limits.keepLast < 0)
    ensures Build(items, limits) == Failed(TooLarge) <==>
      limits.maxChars > 0 && limits.keepFirst >= 0 && limits.keepLast >= 0 && RequiredChars(items) > limits.maxChars
  {
    var sel := Selection(items, limits);
    SelectionRequired(items, limits);
    TrimmedBare(items, Window(items, limits), 0, limits.maxChars);
    if Chars(items, sel) > limits.maxChars {
      forall i | 0 <= i < |items| ensures sel[i] == RequiredAll(items)[i] {
        assert !Droppable(items, sel, i);
      }
      assert sel == RequiredAll(items);
    }
  }

  // -------------------------------------------------------- order and contents

  /** The positions of the selected items among the first n. */
  function Positions(sel: seq<bool>, n: nat): (pos: seq<nat>)
    requires n <= |sel|
    ensures forall k :: 0 <= k < |pos| ==> pos[k] < n && sel[pos[k]]
    ensures forall j, k :: 0 <= j < k < |pos| ==> pos[j] < pos[k]
    ensures forall i :: 0 <= i < n && sel[i] ==> i in pos
  {
    if n == 0 then [] else Positions(sel, n - 1) + if sel[n - 1] then [n - 1] else []
  }

  lemma {:induction false} PickedAt(items: seq<Item>, sel: seq<bool>, n: nat)
    requires |sel| == |items| && n <= |items|
    ensures |PickedTo(items, sel, n)| == |Positions(sel, n)|
    ensures forall k :: 0 <= k < |Positions(sel, n)| ==> PickedTo(items, sel, n)[k] == items[Positions(sel, n)[k]]
  {
    if n > 0 {
      PickedAt(items, sel, n - 1);
      PickedOnce(items, PickedTo(items, sel, n - 1), Positions(sel, n - 1), n - 1);
    }
  }

  lemma PickedOnce(items: seq<Item>, picked: seq<Item>, pos: seq<nat>, i: nat)
    requires i < |items| && |picked| == |pos|
    requires forall k :: 0 <= k < |pos| ==> pos[k] < |items| && picked[k] == items[pos[k]]
    ensures forall k :: 0 <= k <= |pos| ==>
      (pos + [i])[k] < |items| && (picked + [items[i]])[k] == items[(pos + [i])[k]]
  {
  }

  function All(n: nat): (sel: seq<bool>)
    ensures |sel| == n && forall i :: 0 <= i < n ==> sel[i]
  {
    seq(n, i => true)
  }

  lemma {:induction false} PickedChars(items: seq<Item>, sel: seq<bool>, n: nat, m: nat)
    requires |sel| == |items| && n <= |items| && m == |PickedTo(items, sel, n)| <= |PickedTo(items, sel, |items|)|
    requires PickedTo(items, sel, n) == PickedTo(items, sel, |items|)[..m]
    ensures CharsTo(items, sel, n) == CharsTo(PickedTo(items, sel, |items|), All(|PickedTo(items, sel, |items|)|), m)
  {
    if n > 0 {
      PickedChars(items, sel, n - 1, |PickedTo(items, sel, n - 1)|);
    }
  }

  /** What a successful call returns: some of the items in their order, all the required
      ones among them and no orphan result, and no more text than allowed. */
  lemma OutputIsBoundedSubsequence(items: seq<Item>, limits: Limits, out: seq<Item>)
    requires Build(items, limits) == Built.Built(out)
    ensures var pos := Positions(Selection(items, limits), |items|);
      && |out| == |pos|
      && (forall k :: 0 <= k < |out| ==> pos[k] < |items| && out[k] == items[pos[k]] && !Orphan(items, pos[k]))
      && (forall j, k :: 0 <= j < k < |out| ==> pos[j] < pos[k])
      && (forall i :: 0 <= i < |items| && Required(items, i) ==> i in pos)
    ensures Chars(out, All(|out|)) <= limits.maxChars
  {
    var sel := Selection(items, limits);
    PickedAt(items, sel, |items|);
    SelectionRequired(items, limits);
    PickedChars(items, sel, |items|, |out|);
  }

  // ------------------------------------------------------------ unique pairing

  /** No two calls and no two results share an id. */
  predicate UniqueIds(items: seq<Item>) {
    forall i, j :: 0 <= i < j < |items| && items[i].callId != "" && items[i].callId == items[j].callId ==>
      items[i].isResult != items[j].isResult
  }

  predicate Pair(items: seq<Item>, c: nat, r: nat) {
    c < |items| && r < |items| && IsCall(items[c]) && IsResult(items[r]) && items[c].callId == items[r].callId
  }

  lemma PairFound(items: seq<Item>, c: nat, r: nat)
    requires UniqueIds(items) && Pair(items, c, r)
    ensures CallOf(items, items[r].callId) == c && ResultOf(items, items[c].callId) == r
  {
    var id := items[c].callId;
    var c', r' := CallOf(items, id), ResultOf(items, id);
    assert 0 <= c' < |items| && 0 <= r' < |items|;
    assert c' == c && r' == r;
  }

  /** With unique ids the window has both halves of a pair or neither: both exactly when
      one of them is marked. */
  lemma WindowClosed(items: seq<Item>, limits: Limits, c: nat, r: nat)
    requires UniqueIds(items) && Pair(items, c, r)
    ensures Window(items, limits)[c] == Window(items, limits)[r] ==
      (Marked(items, limits, c) || Marked(items, limits, r))
  {
    PairFound(items, c, r);
    var marked := MarkedAll(items, limits);
    var claimed := ClaimedAll(items, marked);
    assert claimed[c] == Claimed(items, marked, |items|, c);
    if claimed[c] && !marked[c] {
      var j :| 0 <= j < |items| && marked[j] && IsResult(items[j]) && CallOf(items, items[j].callId) == c;
      PairFound(items, c, j);
    }
    if Answered(items, claimed, |items|, r) && !claimed[r] {
      var j :| 0 <= j < |items| && claimed[j] && IsCall(items[j]) && ResultOf(items, items[j].callId) == r;
      PairFound(items, j, r);
    }
  }

  /** An item without the other half of a pair is in the window exactly when it is marked
      and not an orphan. */
  lemma WindowAlone(items: seq<Item>, limits: Limits, x: nat)
    requires x < |items| && (forall y :: 0 <= y < |items| ==> !Pair(items, x, y) && !Pair(items, y, x))
    ensures Window(items, limits)[x] == (Marked(items, limits, x) && !Orphan(items, x))
  {
    var marked := MarkedAll(items, limits);
    var claimed := ClaimedAll(items, marked);
    if IsResult(items[x]) {
      forall j | 0 <= j < |items| && IsCall(items[j]) ensures ResultOf(items, items[j].callId) != x {
        assert !Pair(items, j, x);
      }
    } else {
      forall j | 0 <= j < |items| && IsResult(items[j]) ensures CallOf(items, items[j].callId) != x {
        assert !Pair(items, x, j);
      }
      assert claimed[x] == marked[x];
    }
  }

  /** Companions are the unprotected other halves of pairs, seen from either side. */
  lemma CompanionPairs(items: seq<Item>, x: nat)
    requires UniqueIds(items) && x < |items|
    ensures var p := Companion(items, x);
      p >= 0 ==> (Pair(items, x, p) || Pair(items, p, x)) && (!Protected(items[x]) ==> Companion(items, p) == x)
  {
    var p := Companion(items, x);
    if p >= 0 {
      if items[x].isResult {
        PairFound(items, p, x);
      } else {
        PairFound(items, x, p);
      }
    }
  }

  predicate GoodLimits(limits: Limits) {
    limits.maxChars > 0 && limits.keepFirst >= 0 && limits.keepLast >= 0
  }

  /** Item y is the other half of item x's pair. */
  predicate Partners(items: seq<Item>, x: nat, y: nat) {
    Pair(items, x, y) || Pair(items, y, x)
  }

  /** Pinned, a system item, one of the first keepFirst or one of the last keepLast. */
  predicate Wanted(items: seq<Item>, limits: Limits, x: nat) {
    && x < |items|
    && (items[x].pinned || items[x].role == "system" || x < limits.keepFirst || |items| - x <= limits.keepLast)
  }

  /** When all items fit, exactly the wanted items and the partners of wanted items are
      returned, orphan results aside. */
  lemma FittingOutputExactly(items: seq<Item>, limits: Limits, x: nat)
    requires UniqueIds(items) && GoodLimits(limits) && x < |items| && Chars(items, All(|items|)) <= limits.maxChars
    ensures Build(items, limits).Built? && Build(items, limits).items == Picked(items, Selection(items, limits))
    ensures Selection(items, limits)[x] <==>
      !Orphan(items, x) && (Wanted(items, limits, x) || exists y :: Partners(items, x, y) && Wanted(items, limits, y))
  {
    var window := Window(items, limits);
    CharsMonotone(items, window, All(|items|), |items|);
    assert Selection(items, limits) == window;
    assert forall y: nat :: y < |items| ==> (Wanted(items, limits, y) <==> Marked(items, limits, y));
    if y: nat :| Partners(items, x, y) {
      PairsMeet(items, limits, x, y);
      forall z: nat | Partners(items, x, z) ensures z == y {
        PartnerUnique(items, x, y, z);
      }
    } else {
      forall y | 0 <= y < |items| ensures !Pair(items, x, y) && !Pair(items, y, x) {
        assert !Partners(items, x, y);
      }
      WindowAlone(items, limits, x);
    }
    hide Window, Chars, Orphan;
  }

  lemma PairsMeet(items: seq<Item>, limits: Limits, x: nat, y: nat)
    requires UniqueIds(items) && Partners(items, x, y)
    ensures Window(items, limits)[x] == (Marked(items, limits, x) || Marked(items, limits, y)) && !Orphan(items, x)
  {
    if Pair(items, x, y) {
      WindowClosed(items, limits, x, y);
    } else {
      WindowClosed(items, limits, y, x);
      PairFound(items, y, x);
    }
    hide Window;
  }

  lemma PartnerUnique(items: seq<Item>, x: nat, y: nat, z: nat)
    requires UniqueIds(items) && Partners(items, x, y) && Partners(items, x, z)
    ensures y == z
  {
    if Pair(items, x, y) {
      PairFound(items, x, y);
      PairFound(items, x, z);
    } else {
      PairFound(items, y, x);
      PairFound(items, z, x);
    }
  }

  // ----------------------------------------------- trimming is oldest-first

  /** What is left of a selection once the items before k, but no later one, have had
      their turn: the protected items, and the others from k on whose companion, if
      any, is from k on too. */
  predicate Survives(items: seq<Item>, sel: seq<bool>, k: nat, x: nat)
    requires |sel| == |items| && x < |items|
  {
    sel[x] && (Protected(items[x]) || (x >= k && !(0 <= Companion(items, x) < k)))
  }

  function After(items: seq<Item>, sel: seq<bool>, k: nat): (out: seq<bool>)
    requires |sel| == |items|
    ensures |out| == |items|
    ensures forall x :: 0 <= x < |items| ==> out[x] == Survives(items, sel, k, x)
  {
    seq(|items|, x requires 0 <= x < |items| => Survives(items, sel, k, x))
  }

  /** A pair's halves are both in or both out. */
  ghost predicate Closed(items: seq<Item>, sel: seq<bool>)
    requires |sel| == |items|
  {
    forall c: nat, r: nat :: Pair(items, c, r) ==> sel[c] == sel[r]
  }

  /** Item k having its turn takes the selection from After(k) to After(k + 1). */
  lemma AfterStep(items: seq<Item>, sel: seq<bool>, k: nat)
    requires UniqueIds(items) && |sel| == |items| && Closed(items, sel) && k < |items|
    ensures
      (if Droppable(items, After(items, sel, k), k) then Drop(items, After(items, sel, k), k) else After(items, sel, k))
            == After(items, sel, k + 1)
  {
    var before, after := After(items, sel, k), After(items, sel, k + 1);
    CompanionPairs(items, k);
    forall x | 0 <= x < |items|
      ensures after[x] ==
        if Droppable(items, before, k) then before[x] && x != k && x != Companion(items, k) else before[x]
    {
      CompanionPairs(items, x);
    }
    if Droppable(items, before, k) {
      assert Drop(items, before, k) == after;
    } else {
      assert before == after;
    }
  }

  /** The first k from which the rest fits, or the number of items. */
  function Cut(items: seq<Item>, sel: seq<bool>, k: nat, max: int): (cut: nat)
    requires |sel| == |items| && k <= |items|
    ensures k <= cut <= |items|
    ensures forall j :: k <= j < cut ==> Chars(items, After(items, sel, j)) > max
    ensures cut < |items| ==> Chars(items, After(items, sel, cut)) <= max
    decreases |items| - k
  {
    if k == |items| || Chars(items, After(items, sel, k)) <= max then k else Cut(items, sel, k + 1, max)
  }

  lemma {:induction false} TrimmedIsAfter(items: seq<Item>, sel: seq<bool>, k: nat, max: int)
    requires UniqueIds(items) && |sel| == |items| && Closed(items, sel) && k <= |items|
    ensures Trimmed(items, After(items, sel, k), k, max) == After(items, sel, Cut(items, sel, k, max))
    decreases |items| - k
  {
    if k < |items| && Chars(items, After(items, sel, k)) > max {
      AfterStep(items, sel, k);
      TrimmedIsAfter(items, sel, k + 1, max);
    }
  }

  /** With unique ids there is a least k such that exactly the protected items of the
      window and those from k on whose pair partner does not lie unprotected before k
      survive; with any smaller k the context would not fit. */
  lemma TrimmingIsOldestFirst(items: seq<Item>, limits: Limits) returns (k: nat)
    requires UniqueIds(items)
    ensures k <= |items| && Selection(items, limits) == After(items, Window(items, limits), k)
    ensures forall j :: 0 <= j < k ==> Chars(items, After(items, Window(items, limits), j)) > limits.maxChars
    ensures k < |items| ==> Chars(items, Selection(items, limits)) <= limits.maxChars
  {
    var sel := Window(items, limits);
    forall c: nat, r: nat | Pair(items, c, r) ensures sel[c] == sel[r] {
      WindowClosed(items, limits, c, r);
    }
    forall x | 0 <= x < |items| ensures After(items, sel, 0)[x] == sel[x] {
      assert After(items, sel, 0)[x] == Survives(items, sel, 0, x);
    }
    assert After(items, sel, 0) == sel;
    TrimmedIsAfter(items, sel, 0, limits.maxChars);
    k := Cut(items, sel, 0, limits.maxChars);
  }

  // ------------------------------------------------------------- pair closure

  /** Both halves of every pair are protected, or neither is. */
  ghost predicate UniformPairs(items: seq<Item>) {
    forall c: nat, r: nat :: Pair(items, c, r) ==> Protected(items[c]) == Protected(items[r])
  }

  /** The halves of a pair that are protected alike share their fate. */
  lemma UniformPairStays(items: seq<Item>, limits: Limits, c: nat, r: nat)
    requires UniqueIds(items) && Pair(items, c, r) && Protected(items[c]) == Protected(items[r])
    ensures Selection(items, limits)[c] == Selection(items, limits)[r]
  {
    var k := TrimmingIsOldestFirst(items, limits);
    WindowClosed(items, limits, c, r);
    PairFound(items, c, r);
    assert Selection(items, limits)[c] == Survives(items, Window(items, limits), k, c);
    assert Selection(items, limits)[r] == Survives(items, Window(items, limits), k, r);
  }

  predicate TextInPairs(items: seq<Item>) {
    forall i :: 0 <= i < |items| && items[i].callId != "" ==> items[i].text != ""
  }

  /** Room for the required items only: of a pair protected on one side, the other side
      goes. */
  lemma TightLimitsSplit(items: seq<Item>, kept: nat, gone: nat) returns (limits: Limits)
    requires TextInPairs(items) && (Pair(items, kept, gone) || Pair(items, gone, kept))
    requires Protected(items[kept]) && !Protected(items[gone])
    ensures Build(items, limits).Built?
    ensures Selection(items, limits)[kept] && !Selection(items, limits)[gone]
  {
    limits := Limits(RequiredChars(items), |items|, 0);
    var sel := Selection(items, limits);
    SelectionRequired(items, limits);
    assert Required(items, kept);
    CharsExtra(items, seq(|items|, i => false), RequiredAll(items), |items|, kept);
    BuildFailsExactly(items, limits);
    if sel[gone] {
      CharsExtra(items, RequiredAll(items), sel, |items|, gone);
      assert false;
    }
  }

  /** With unique ids and text in every half of a pair, BuildContext keeps pairs whole
      under all limits exactly when the two halves of each pair are protected alike. */
  lemma PairsStayWholeExactly(items: seq<Item>)
    requires UniqueIds(items) && TextInPairs(items)
    ensures (forall limits :: Build(items, limits).Built? ==> Closed(items, Selection(items, limits))) <==>
      UniformPairs(items)
  {
    if UniformPairs(items) {
      forall limits | Build(items, limits).Built? ensures Closed(items, Selection(items, limits)) {
        forall c: nat, r: nat | Pair(items, c, r) ensures Selection(items, limits)[c] == Selection(items, limits)[r] {
          UniformPairStays(items, limits, c, r);
        }
      }
    } else {
      var c: nat, r: nat :| Pair(items, c, r) && Protected(items[c]) != Protected(items[r]);
      var limits;
      if Protected(items[c]) {
        limits := TightLimitsSplit(items, c, r);
      } else {
        limits := TightLimitsSplit(items, r, c);
      }
      assert !Closed(items, Selection(items, limits));
    }
  }

  // ---------------------------------------------------- building a built context

  predicate NoOrphans(items: seq<Item>) {
    forall i :: 0 <= i < |items| ==> !Orphan(items, i)
  }

  /** out consists of the items at the positions pos. */
  predicate Drawn(items: seq<Item>, pos: seq<nat>, out: seq<Item>) {
    && |out| == |pos|
    && (forall k :: 0 <= k < |pos| ==> pos[k] < |items| && out[k] == items[pos[k]])
    && (forall j, k :: 0 <= j < k < |pos| ==> pos[j] < pos[k])
  }

  lemma DrawnUnique(items: seq<Item>, pos: seq<nat>, out: seq<Item>)
    requires Drawn(items, pos, out) && UniqueIds(items)
    ensures UniqueIds(out)
  {
  }

  lemma {:induction false} Spread(pos: seq<nat>, k: nat, n: nat)
    requires k < |pos| && (forall j :: 0 <= j < |pos| ==> pos[j] < n)
    requires (forall i, j :: 0 <= i < j < |pos| ==> pos[i] < pos[j])
    ensures k <= pos[k] && |pos| - k <= n - pos[k]
  {
    SpreadLeft(pos, k);
    SpreadRight(pos, k, n);
  }

  lemma {:induction false} SpreadLeft(pos: seq<nat>, k: nat)
    requires k < |pos| && forall i, j :: 0 <= i < j < |pos| ==> pos[i] < pos[j]
    ensures k <= pos[k]
  {
    if k > 0 {
      SpreadLeft(pos, k - 1);
    }
  }

  lemma {:induction false} SpreadRight(pos: seq<nat>, k: nat, n: nat)
    requires k < |pos| && (forall j :: 0 <= j < |pos| ==> pos[j] < n)
    requires (forall i, j :: 0 <= i < j < |pos| ==> pos[i] < pos[j])
    ensures |pos| - k <= n - pos[k]
    decreases |pos| - k
  {
    if k + 1 < |pos| {
      SpreadRight(pos, k + 1, n);
    }
  }

  /** A marked item is marked again wherever it lands. */
  lemma MarkedAgain(items: seq<Item>, limits: Limits, pos: seq<nat>, out: seq<Item>, k: nat)
    requires Drawn(items, pos, out) && k < |out| && Marked(items, limits, pos[k])
    ensures Marked(out, limits, k)
  {
    Spread(pos, k, |items|);
  }

  /** A kept result whose call is marked, or a kept call whose result is, keeps that other
      half too when the output has no orphan. */
  lemma MarkedHalfKept(items: seq<Item>, limits: Limits, x: nat, y: nat)
    requires UniqueIds(items) && x < |items| && Selection(items, limits)[x]
    requires Pair(items, x, y) && !Marked(items, limits, x)
    ensures Selection(items, limits)[y]
  {
    var k := TrimmingIsOldestFirst(items, limits);
    WindowClosed(items, limits, x, y);
    PairFound(items, x, y);
    assert Survives(items, Window(items, limits), k, x);
    assert Selection(items, limits)[y] == Survives(items, Window(items, limits), k, y);
  }

  /** Every item of an output without orphans is in the output's own window. */
  lemma InWindowAgain(items: seq<Item>, limits: Limits, out: seq<Item>, k: nat)
    requires UniqueIds(items) && Build(items, limits) == Built.Built(out) && k < |out| && NoOrphans(out)
    ensures Window(out, limits)[k]
  {
    var sel := Selection(items, limits);
    var pos := Positions(sel, |items|);
    OutputIsBoundedSubsequence(items, limits, out);
    assert Drawn(items, pos, out);
    assert !Orphan(out, k);
    hide Build, Selection, Window, Orphan, RequiredChars, Chars, Marked;
    DrawnUnique(items, pos, out);
    SelectionRequired(items, limits);
    var x := pos[k];
    if Marked(items, limits, x) {
      MarkedAgain(items, limits, pos, out, k);
      AloneOrPaired(out, limits, k);
    } else if y: nat :| y < |items| && Pair(items, x, y) {
      WindowClosed(items, limits, x, y);
      MarkedHalfKept(items, limits, x, y);
      var m :| 0 <= m < |pos| && pos[m] == y;
      MarkedAgain(items, limits, pos, out, m);
      assert Pair(out, k, m);
      WindowClosed(out, limits, k, m);
    } else if y: nat :| y < |items| && Pair(items, y, x) {
      WindowClosed(items, limits, y, x);
      var m := CallOf(out, out[k].callId);
      assert Pair(out, m, k) && Pair(items, pos[m], x);
      PairFound(items, y, x);
      PairFound(items, pos[m], x);
      MarkedAgain(items, limits, pos, out, m);
      WindowClosed(out, limits, m, k);
    } else {
      WindowAlone(items, limits, x);
    }
  }

  /** A marked item that is no orphan is in the window. */
  lemma AloneOrPaired(items: seq<Item>, limits: Limits, x: nat)
    requires UniqueIds(items) && x < |items| && Marked(items, limits, x) && !Orphan(items, x)
    ensures Window(items, limits)[x]
  {
  }

  lemma {:induction false} PickedFewer(items: seq<Item>, sel: seq<bool>, n: nat, x: nat)
    requires |sel| == |items| && n <= |items| && x < |items| && !sel[x]
    ensures |PickedTo(items, sel, n)| <= n - if x < n then 1 else 0
  {
    if n > 0 {
      PickedFewer(items, sel, n - 1, x);
    }
  }

  lemma {:induction false} PickedEverything(items: seq<Item>, sel: seq<bool>, n: nat)
    requires |sel| == |items| && n <= |items| && forall i :: 0 <= i < n ==> sel[i]
    ensures PickedTo(items, sel, n) == items[..n]
  {
    if n > 0 {
      PickedEverything(items, sel, n - 1);
    }
  }

  /** With unique ids, building a built context again returns it unchanged exactly when
      it holds no result without its call. */
  lemma RebuildUnchangedExactly(items: seq<Item>, limits: Limits, out: seq<Item>)
    requires UniqueIds(items) && Build(items, limits) == Built.Built(out)
    ensures Build(out, limits) == Built.Built(out) <==> NoOrphans(out)
  {
    if NoOrphans(out) {
      forall k | 0 <= k < |out| ensures Window(out, limits)[k] {
        InWindowAgain(items, limits, out, k);
      }
      assert Window(out, limits) == All(|out|);
      OutputIsBoundedSubsequence(items, limits, out);
      PickedEverything(out, All(|out|), |out|);
    } else {
      var k :| 0 <= k < |out| && Orphan(out, k);
      SelectionRequired(out, limits);
      PickedFewer(out, Selection(out, limits), |out|, k);
    }
  }

  /** No protected result belongs to an unprotected call. */
  ghost predicate ResultsLean(items: seq<Item>) {
    forall c: nat, r: nat :: Pair(items, c, r) && Protected(items[r]) ==> Protected(items[c])
  }

  /** Then a kept result keeps its call. */
  lemma ResultKeepsCall(items: seq<Item>, limits: Limits, c: nat, r: nat)
    requires UniqueIds(items) && Pair(items, c, r) && Selection(items, limits)[r]
    requires (Protected(items[r]) ==> Protected(items[c]))
    ensures Selection(items, limits)[c]
  {
    SelectionRequired(items, limits);
    if Protected(items[c]) {
      assert Required(items, c);
    } else {
      UniformPairStays(items, limits, c, r);
    }
  }

  /** An orphan of the output is a kept result whose call was dropped. */
  lemma OrphanSource(items: seq<Item>, limits: Limits, out: seq<Item>, k: nat) returns (c: nat, r: nat)
    requires UniqueIds(items) && Build(items, limits) == Built.Built(out) && k < |out| && Orphan(out, k)
    ensures Pair(items, c, r) && Selection(items, limits)[r] && !Selection(items, limits)[c]
  {
    var pos := Positions(Selection(items, limits), |items|);
    OutputIsBoundedSubsequence(items, limits, out);
    r := pos[k];
    assert !Orphan(items, r);
    c := CallOf(items, items[r].callId);
    forall m | 0 <= m < |out| ensures pos[m] != c {
      assert out[m].isResult || out[m].callId != out[k].callId;
    }
  }

  lemma OnlyCall(items: seq<Item>, c: nat, r: nat, x: nat)
    requires UniqueIds(items) && Pair(items, c, r) && x < |items| && x != c
    ensures !Pair(items, x, r)
  {
  }

  /** A kept result whose call was dropped is an orphan of the output. */
  lemma OrphanInOutput(items: seq<Item>, limits: Limits, out: seq<Item>, c: nat, r: nat)
    requires UniqueIds(items) && Build(items, limits) == Built.Built(out)
    requires Pair(items, c, r) && Selection(items, limits)[r] && !Selection(items, limits)[c]
    ensures !NoOrphans(out)
  {
    var pos := Positions(Selection(items, limits), |items|);
    OutputIsBoundedSubsequence(items, limits, out);
    var k :| 0 <= k < |pos| && pos[k] == r;
    forall m | 0 <= m < |out| ensures out[m].isResult || out[m].callId != out[k].callId {
      OnlyCall(items, c, r, pos[m]);
    }
    assert Orphan(out, k);
  }

  /** With unique ids and text in every half of a pair, building twice is building once
      under all limits exactly when no protected result has an unprotected call. */
  lemma IdempotentExactly(items: seq<Item>)
    requires UniqueIds(items) && TextInPairs(items)
    ensures
      (forall limits, out :: Build(items, limits) == Built.Built(out) ==> Build(out, limits) == Built.Built(out))
      <==> ResultsLean(items)
  {
    if ResultsLean(items) {
      forall limits, out | Build(items, limits) == Built.Built(out) ensures Build(out, limits) == Built.Built(out) {
        if k :| 0 <= k < |out| && Orphan(out, k) {
          var c, r := OrphanSource(items, limits, out, k);
          ResultKeepsCall(items, limits, c, r);
          assert false;
        }
        RebuildUnchangedExactly(items, limits, out);
      }
    } else {
      var c: nat, r: nat :| Pair(items, c, r) && Protected(items[r]) && !Protected(items[c]);
      var limits := TightLimitsSplit(items, r, c);
      var out := Build(items, limits).items;
      OrphanInOutput(items, limits, out, c, r);
      RebuildUnchangedExactly(items, limits, out);
    }
  }

  /** In particular when pairs are protected alike. */
  lemma UniformPairsIdempotent(items: seq<Item>, limits: Limits, out: seq<Item>)
    requires UniqueIds(items) && UniformPairs(items) && Build(items, limits) == Built.Built(out)
    ensures Build(out, limits) == Built.Built(out)
  {
    if k :| 0 <= k < |out| && Orphan(out, k) {
      var c, r := OrphanSource(items, limits, out, k);
      UniformPairStays(items, limits, c, r);
      assert false;
    }
    RebuildUnchangedExactly(items, limits, out);
  }

  // ------------------------------------------------------ a repeated result id

  const CALL := Item("assistant", "a", "x", "tool", false, false)
  const RESULT := Item("tool", "b", "x", "tool", true, false)

  lemma RepeatedWindow()
    ensures Window([CALL, RESULT, RESULT], Limits(1, 3, 0)) == [true, true, true]
  {
    var items, limits := [CALL, RESULT, RESULT], Limits(1, 3, 0);
    assert CallOf(items, "x") == 0;
    forall i | 0 <= i < 3 ensures Window(items, limits)[i] {
      assert Marked(items, limits, i) && !Orphan(items, i);
      assert Claimed(items, MarkedAll(items, limits), 3, i);
    }
  }

  lemma RepeatedTrim()
    ensures Trimmed([CALL, RESULT, RESULT], [true, true, true], 0, 1) == [false, false, true]
  {
    var items, sel := [CALL, RESULT, RESULT], [true, true, true];
    assert ResultOf(items, "x") == 1 by {
      assert FindFrom(items, "x", true, 1) == 1;
    }
    assert Companion(items, 0) == 1;
    assert Drop(items, sel, 0) == [false, false, true];
    ThreeChars(items, sel);
    ThreeChars(items, [false, false, true]);
    hide Chars, CharsTo, FindFrom;
    assert Trimmed(items, [false, false, true], 1, 1) == [false, false, true];
  }

  lemma ThreeChars(items: seq<Item>, sel: seq<bool>)
    requires |items| == |sel| == 3
    ensures Chars(items, sel) == (if sel[0] then |items[0].text| else 0) + (if sel[1] then |items[1].text| else 0)
      + if sel[2] then |items[2].text| else 0
  {
    assert CharsTo(items, sel, 1) == if sel[0] then |items[0].text| else 0;
    assert CharsTo(items, sel, 2) == CharsTo(items, sel, 1) + if sel[1] then |items[1].text| else 0;
  }

  /** Unique ids matter: with a second result for one call, though nothing is protected,
      dropping the call drops only the first, and the second is kept without it. */
  lemma RepeatedResultIsOrphaned()
    ensures UniformPairs([CALL, RESULT, RESULT]) && TextInPairs([CALL, RESULT, RESULT])
    ensures Build([CALL, RESULT, RESULT], Limits(1, 3, 0)) == Built.Built([RESULT])
    ensures !NoOrphans([RESULT])
  {
    var items, sel := [CALL, RESULT, RESULT], [false, false, true];
    RepeatedWindow();
    RepeatedTrim();
    ThreeChars(items, sel);
    assert PickedTo(items, sel, 1) == [] && PickedTo(items, sel, 2) == [];
    assert Picked(items, sel) == [RESULT];
    assert Orphan([RESULT], 0);
    hide Window, Trimmed, PickedTo, Chars, FindFrom;
  }
}
