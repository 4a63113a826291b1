// BuildContext: the bounded window of model context, and what each of its passes does.

module Context {
  /** text is a byte string, one char per byte. */
  datatype Item = Item(role: string, text: string, callId: string, toolName: string, isResult: bool, pinned: bool)

  datatype Limits = Limits(maxChars: int, keepFirst: int, keepLast: int)

  datatype Failure = BadMaxChars | BadWindow | TooLarge

  datatype Built = Built(items: seq<Item>) | Failed(failure: Failure)

  predicate Protected(item: Item) {
    item.pinned || item.role == "system"
  }

  predicate IsResult(item: Item) {
    item.isResult && item.callId != ""
  }

  predicate IsCall(item: Item) {
    !item.isResult && item.callId != ""
  }

  /** The first item from i on that is the wanted half of a pair, or -1. */
  function FindFrom(items: seq<Item>, id: string, result: bool, i: nat): (at: int)
    requires i <= |items|
    ensures at == -1 || (i <= at < |items| && items[at].isResult == result && items[at].callId == id)
    ensures forall j :: i <= j < (if at == -1 then |items| else at) ==>
      items[j].isResult != result || items[j].callId != id
    decreases |items| - i
  {
    if i == |items| then -1
    else if items[i].isResult == result && items[i].callId == id then i
    else FindFrom(items, id, result, i + 1)
  }

  function CallOf(items: seq<Item>, id: string): int {
    FindFrom(items, id, false, 0)
  }

  function ResultOf(items: seq<Item>, id: string): int {
    FindFrom(items, id, true, 0)
  }

  predicate IsHalf(item: Item, id: string, result: bool) {
    item.callId == id != "" && item.isResult == result
  }

  /** Item x is the first call, or the first result, with the id. */
  predicate IsFirstHalf(items: seq<Item>, x: nat, id: string, result: bool)
    requires x < |items|
  {
    IsHalf(items[x], id, result) && forall j :: 0 <= j < x ==> !IsHalf(items[j], id, result)
  }

  /** A result whose call is not among the items. */
  predicate Orphan(items: seq<Item>, i: nat)
    requires i < |items|
  {
    IsResult(items[i]) && CallOf(items, items[i].callId) == -1
  }

  /** findCall and findResult. */
  method Find(items: seq<Item>, id: string, result: bool) returns (at: int)
    ensures at == FindFrom(items, id, result, 0)
    ensures at == -1 || (0 <= at < |items| && items[at].isResult == result && items[at].callId == id)
    ensures forall j :: 0 <= j < (if at == -1 then |items| else at) ==>
      items[j].isResult != result || items[j].callId != id
  {
    for i := 0 to |items|
      invariant FindFrom(items, id, result, 0) == FindFrom(items, id, result, i)
    {
      if items[i].isResult == result && items[i].callId == id {
        return i;
      }
    }
    return -1;
  }

  // ------------------------------------------------------------------ the sums

  function Chars(items: seq<Item>, sel: seq<bool>): nat
    requires |sel| == |items|
  {
    CharsTo(items, sel, |items|)
  }

  /** The text of the selected items among the first n. */
  function CharsTo(items: seq<Item>, sel: seq<bool>, n: nat): nat
    requires |sel| == |items| && n <= |items|
  {
    if n == 0 then 0 else CharsTo(items, sel, n - 1) + if sel[n - 1] then |items[n - 1].text| else 0
  }

  method SelectedChars(items: seq<Item>, selected: array<bool>) returns (total: int)
    requires selected.Length == |items|
    ensures total == Chars(items, selected[..])
  {
    total := 0;
    for i := 0 to |items|
      invariant total == CharsTo(items, selected[..], i)
    {
      if selected[i] {
        total := total + |items[i].text|;
      }
    }
  }

  /** Every selected item counts with the length of its text, every other one with nothing. */
  lemma {:induction false} CharsConcat(a: seq<Item>, x: seq<bool>, item: Item, on: bool)
    requires |x| == |a|
    ensures Chars(a + [item], x + [on]) == Chars(a, x) + (if on then |item.text| else 0)
    ensures Chars([], []) == 0
  {
    CharsPrefix(a, x, [item], [on], |a|);
  }

  lemma {:induction false} CharsPrefix(a: seq<Item>, x: seq<bool>, b: seq<Item>, y: seq<bool>, n: nat)
    requires |x| == |a| && |y| == |b| && n <= |a|
    ensures CharsTo(a + b, x + y, n) == CharsTo(a, x, n)
  {
    if n > 0 {
      CharsPrefix(a, x, b, y, n - 1);
    }
  }

  lemma {:induction false} CharsUnset(items: seq<Item>, sel: seq<bool>, x: nat, n: nat)
    requires |sel| == |items| && n <= |items| && x < |items|
    ensures CharsTo(items, sel[x := false], n) == CharsTo(items, sel, n) - 
      if sel[x] && x < n then |items[x].text| else 0
  {
    if n > 0 {
      CharsUnset(items, sel, x, n - 1);
    }
  }

  // ---------------------------------------------------------------- the passes

  /** Inside the leading or the trailing window, or protected. */
  predicate Marked(items: seq<Item>, limits: Limits, i: nat)
    requires i < |items|
  {
    Protected(items[i]) || i < limits.keepFirst || i >= |items| - limits.keepLast
  }

  function MarkedAll(items: seq<Item>, limits: Limits): (sel: seq<bool>)
    ensures |sel| == |items|
    ensures forall i :: 0 <= i < |items| ==> sel[i] == Marked(items, limits, i)
  {
    seq(|items|, i requires 0 <= i < |items| => Marked(items, limits, i))
  }

  /** Item x once the results among the first n have claimed their calls: an orphan
      result goes, and the first call of a selected result comes in. */
  predicate Claimed(items: seq<Item>, sel: seq<bool>, n: nat, x: nat)
    requires |sel| == |items| && n <= |items| && x < |items|
  {
    if IsResult(items[x]) then sel[x] && (x < n ==> !Orphan(items, x))
    else sel[x] || exists j :: 0 <= j < n && sel[j] && IsResult(items[j]) && CallOf(items, items[j].callId) == x
  }

  function ClaimedAll(items: seq<Item>, sel: seq<bool>): (out: seq<bool>)
    requires |sel| == |items|
    ensures |out| == |items|
    ensures forall x :: 0 <= x < |items| ==> out[x] == Claimed(items, sel, |items|, x)
  {
    seq(|items|, x requires 0 <= x < |items| => Claimed(items, sel, |items|, x))
  }

  /** Item x once the calls among the first n have brought in their first results. */
  predicate Answered(items: seq<Item>, sel: seq<bool>, n: nat, x: nat)
    requires |sel| == |items| && n <= |items| && x < |items|
  {
    sel[x] || exists j :: 0 <= j < n && sel[j] && IsCall(items[j]) && ResultOf(items, items[j].callId) == x
  }

  function AnsweredAll(items: seq<Item>, sel: seq<bool>): (out: seq<bool>)
    requires |sel| == |items|
    ensures |out| == |items|
    ensures forall x :: 0 <= x < |items| ==> out[x] == Answered(items, sel, |items|, x)
  {
    seq(|items|, x requires 0 <= x < |items| => Answered(items, sel, |items|, x))
  }

  /** A result stays selected exactly if some item is its call; any other item also becomes
      selected by being the first call of a selected result. */
  lemma ClaimedExactly(items: seq<Item>, sel: seq<bool>, x: nat)
    requires |sel| == |items| && x < |items|
    ensures ClaimedAll(items, sel)[x] <==>
      if items[x].isResult && items[x].callId != "" then
        sel[x] && exists c :: 0 <= c < |items| && IsHalf(items[c], items[x].callId, false)
      else
        sel[x] || exists r :: 0 <= r < |items| && sel[r] && IsHalf(items[r], items[x].callId, true)
                              && IsFirstHalf(items, x, items[r].callId, false)
  {
  }

  /** An item becomes selected by being the first result of a selected call. */
  lemma AnsweredExactly(items: seq<Item>, sel: seq<bool>, x: nat)
    requires |sel| == |items| && x < |items|
    ensures AnsweredAll(items, sel)[x] <==>
      sel[x] || exists c :: 0 <= c < |items| && sel[c] && IsHalf(items[c], items[x].callId, false)
                            && IsFirstHalf(items, x, items[c].callId, true)
  {
  }

  /** The selection before trimming. */
  function Window(items: seq<Item>, limits: Limits): (sel: seq<bool>)
    ensures |sel| == |items|
  {
    AnsweredAll(items, ClaimedAll(items, MarkedAll(items, limits)))
  }

  /** The item dropped along with item i: the first other half of its pair, unless that is
      protected. */
  function Companion(items: seq<Item>, i: nat): (p: int)
    requires i < |items|
    ensures -1 <= p < |items|
    ensures p >= 0 ==> p != i && !Protected(items[p])
  {
    if items[i].callId == "" then -1
    else
      var p := if items[i].isResult then CallOf(items, items[i].callId) else ResultOf(items, items[i].callId);
      if p >= 0 && !Protected(items[p]) then p else -1
  }

  lemma CompanionExactly(items: seq<Item>, i: nat, p: nat)
    requires i < |items|
    ensures Companion(items, i) == p <==>
      && p < |items| && IsFirstHalf(items, p, items[i].callId, !items[i].isResult)
      && !items[p].pinned && items[p].role != "system"
  {
  }

  function Drop(items: seq<Item>, sel: seq<bool>, i: nat): (out: seq<bool>)
    requires |sel| == |items| && i < |items|
    ensures |out| == |items|
    ensures forall x :: 0 <= x < |items| ==> out[x] == (sel[x] && x != i && x != Companion(items, i))
  {
    var p := Companion(items, i);
    if p >= 0 then sel[i := false][p := false] else sel[i := false]
  }

  predicate Droppable(items: seq<Item>, sel: seq<bool>, i: nat)
    requires |sel| == |items| && i < |items|
  {
    sel[i] && !Protected(items[i])
  }

  /** Drop from item i on while the selection is too large. */
  function Trimmed(items: seq<Item>, sel: seq<bool>, i: nat, max: int): (out: seq<bool>)
    requires |sel| == |items| && i <= |items|
    ensures |out| == |items|
    decreases |items| - i
  {
    if i == |items| || Chars(items, sel) <= max then sel
    else Trimmed(items, if Droppable(items, sel, i) then Drop(items, sel, i) else sel, i + 1, max)
  }

  function Selection(items: seq<Item>, limits: Limits): (sel: seq<bool>)
    ensures |sel| == |items|
  {
    Trimmed(items, Window(items, limits), 0, limits.maxChars)
  }

  /** The selected items in their order. */
  function Picked(items: seq<Item>, sel: seq<bool>): seq<Item>
    requires |sel| == |items|
  {
    PickedTo(items, sel, |items|)
  }

  function PickedTo(items: seq<Item>, sel: seq<bool>, n: nat): seq<Item>
    requires |sel| == |items| && n <= |items|
  {
    if n == 0 then [] else PickedTo(items, sel, n - 1) + if sel[n - 1] then [items[n - 1]] else []
  }

  function Build(items: seq<Item>, limits: Limits): Built {
    if limits.maxChars <= 0 then Failed(BadMaxChars)
    else if limits.keepFirst < 0 || limits.keepLast < 0 then Failed(BadWindow)
    else
      var sel := Selection(items, limits);
      if Chars(items, sel) > limits.maxChars then Failed(TooLarge) else Built.Built(Picked(items, sel))
  }

  // ------------------------------------------------- the passes over the array

  method Mark(items: seq<Item>, limits: Limits, selected: array<bool>)
    requires selected.Length == |items| && limits.keepFirst >= 0 && limits.keepLast >= 0
    requires forall i :: 0 <= i < |items| ==> !selected[i]
    modifies selected
    ensures selected[..] == MarkedAll(items, limits)
    ensures forall i :: 0 <= i < |items| ==>
      (selected[i] <==> items[i].pinned || items[i].role == "system" || i < limits.keepFirst
                        || |items| - i <= limits.keepLast)
  {
    for i := 0 to |items|
      invariant forall x :: 0 <= x < |items| ==> selected[x] == (x < i && Protected(items[x]))
    {
      if items[i].pinned || items[i].role == "system" {
        selected[i] := true;
      }
    }
    var i := 0;
    while i < |items| && i < limits.keepFirst
      invariant 0 <= i <= |items| && (i == 0 || i <= limits.keepFirst)
      invariant forall x :: 0 <= x < |items| ==> selected[x] == (Protected(items[x]) || x < i)
    {
      selected[i] := true;
      i := i + 1;
    }
    var start := |items| - limits.keepLast;
    if start < 0 {
      start := 0;
    }
    for k := start to |items|
      invariant forall x :: 0 <= x < |items| ==>
        selected[x] == (Protected(items[x]) || x < limits.keepFirst || start <= x < k)
    {
      selected[k] := true;
    }
  }

  method ClaimCalls(items: seq<Item>, selected: array<bool>)
    requires selected.Length == |items|
    modifies selected
    ensures selected[..] == ClaimedAll(items, old(selected[..]))
  {
    ghost var sel := selected[..];
    for i := 0 to |items|
      invariant forall x :: 0 <= x < |items| ==> selected[x] == Claimed(items, sel, i, x)
    {
      if items[i].callId == "" {
        continue;
      }
      if items[i].isResult {
        var call := Find(items, items[i].callId, false);
        if call < 0 {
          selected[i] := false;
          continue;
        }
        if selected[i] {
          selected[call] := true;
        }
      }
    }
  }

  method AnswerCalls(items: seq<Item>, selected: array<bool>)
    requires selected.Length == |items|
    modifies selected
    ensures selected[..] == AnsweredAll(items, old(selected[..]))
  {
    ghost var sel := selected[..];
    for i := 0 to |items|
      invariant forall x :: 0 <= x < |items| ==> selected[x] == Answered(items, sel, i, x)
    {
      if !items[i].isResult && items[i].callId != "" && selected[i] {
        var result := Find(items, items[i].callId, true);
        if result >= 0 {
          selected[result] := true;
        }
      }
    }
  }

  /** Unselect item idx if it is selected, keeping the running total. */
  method Unselect(items: seq<Item>, selected: array<bool>, idx: nat, total: int) returns (left: int)
    requires selected.Length == |items| && idx < |items| && total == Chars(items, selected[..])
    modifies selected
    ensures selected[..] == old(selected[..])[idx := false]
    ensures left == Chars(items, selected[..])
  {
    left := total;
    CharsUnset(items, selected[..], idx, |items|);
    if selected[idx] {
      selected[idx] := false;
      left := left - |items[idx].text|;
    }
    assert selected[..] == old(selected[..])[idx := false];
  }

  /** One pass over the items, dropping oldest first while the total is too large. */
  method TrimPass(items: seq<Item>, selected: array<bool>, max: int, total: int) returns (left: int, dropped: bool)
    requires selected.Length == |items| && total == Chars(items, selected[..])
    modifies selected
    ensures selected[..] == Trimmed(items, old(selected[..]), 0, max)
    ensures left == Chars(items, selected[..])
    ensures !dropped ==> selected[..] == old(selected[..])
    ensures dropped ==> exists i :: 0 <= i < |items| && Droppable(items, old(selected[..]), i)
  {
    left, dropped := total, false;
    var i := 0;
    while i < |items| && left > max
      invariant 0 <= i <= |items|
      invariant left == Chars(items, selected[..])
      invariant Trimmed(items, old(selected[..]), 0, max) == Trimmed(items, selected[..], i, max)
      invariant !dropped ==> selected[..] == old(selected[..])
      invariant dropped ==> exists x :: 0 <= x < |items| && Droppable(items, old(selected[..]), x)
      invariant forall x :: 0 <= x < |items| && selected[x] ==> old(selected[..])[x]
    {
      ghost var sel := selected[..];
      if !selected[i] || items[i].pinned || items[i].role == "system" {
        i := i + 1;
        continue;
      }
      assert Droppable(items, sel, i) && Droppable(items, old(selected[..]), i);
      var p := -1;
      if items[i].callId != "" {
        p := Find(items, items[i].callId, !items[i].isResult);
        if p >= 0 && (items[p].pinned || items[p].role == "system") {
          p := -1;
        }
      }
      left := Unselect(items, selected, i, left);
      if p >= 0 {
        left := Unselect(items, selected, p, left);
      }
      assert selected[..] == Drop(items, sel, i);
      dropped := true;
      i := i + 1;
    }
  }

  /** Nothing that may be dropped is left. */
  predicate Bare(items: seq<Item>, sel: seq<bool>)
    requires |sel| == |items|
  {
    forall i :: 0 <= i < |items| ==> !Droppable(items, sel, i)
  }

  /** A pass that ends too large has dropped everything it may. */
  lemma {:induction false} TrimmedBare(items: seq<Item>, sel: seq<bool>, i: nat, max: int)
    requires |sel| == |items| && i <= |items|
    requires forall x :: 0 <= x < i ==> !Droppable(items, sel, x)
    ensures Chars(items, Trimmed(items, sel, i, max)) > max ==> Bare(items, Trimmed(items, sel, i, max))
    decreases |items| - i
  {
    if i < |items| && Chars(items, sel) > max {
      var next := if Droppable(items, sel, i) then Drop(items, sel, i) else sel;
      forall x | 0 <= x < i + 1 ensures !Droppable(items, next, x) {
        assert x < i ==> !Droppable(items, sel, x);
      }
      TrimmedBare(items, next, i + 1, max);
    }
  }

  lemma {:induction false} BareTrimmed(items: seq<Item>, sel: seq<bool>, i: nat, max: int)
    requires |sel| == |items| && i <= |items| && Bare(items, sel)
    ensures Trimmed(items, sel, i, max) == sel
    decreases |items| - i
  {
    if i < |items| && Chars(items, sel) > max {
      BareTrimmed(items, sel, i + 1, max);
    }
  }

  method Trim(items: seq<Item>, selected: array<bool>, max: int) returns (total: int)
    requires selected.Length == |items|
    modifies selected
    ensures selected[..] == Trimmed(items, old(selected[..]), 0, max)
    ensures total == Chars(items, selected[..])
  {
    ghost var sel := selected[..];
    total := SelectedChars(items, selected);
    ghost var passes := 0;
    while total > max
      invariant total == Chars(items, selected[..])
      invariant passes == 0 ==> selected[..] == sel
      invariant passes == 1 ==> selected[..] == Trimmed(items, sel, 0, max)
      invariant passes <= 1 && (passes == 1 && total > max ==> Bare(items, selected[..]))
      decreases 1 - passes
    {
      ghost var before := selected[..];
      var dropped;
      total, dropped := TrimPass(items, selected, max, total);
      TrimmedBare(items, before, 0, max);
      if passes == 1 {
        BareTrimmed(items, before, 0, max);
      }
      if !dropped {
        break;
      }
      passes := passes + 1;
    }
  }

  /** BuildContext computes Build. */
  method BuildContext(items: seq<Item>, limits: Limits) returns (built: Built)
    ensures built == Build(items, limits)
  {
    if limits.maxChars <= 0 {
      return Failed(BadMaxChars);
    }
    if limits.keepFirst < 0 || limits.keepLast < 0 {
      return Failed(BadWindow);
    }
    var selected := new bool[|items|](_ => false);
    Mark(items, limits, selected);
    ClaimCalls(items, selected);
    AnswerCalls(items, selected);
    var total := Trim(items, selected, limits.maxChars);
    if total > limits.maxChars {
      return Failed(TooLarge);
    }
    var out: seq<Item> := [];
    for i := 0 to |items|
      invariant selected[..] == Selection(items, limits)
      invariant out == PickedTo(items, selected[..], i)
    {
      if selected[i] {
        out := out + [items[i]];
      }
    }
    return Built.Built(out);
  }
}
