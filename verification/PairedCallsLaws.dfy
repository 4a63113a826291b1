// What EnsurePairedFunctionCalls promises: every call answered, nothing lost, nothing
// added twice.

module PairedCallsLaws {
  import opened Identity
  import opened PairedCalls

  predicate CallsAnswered(content: Content, later: seq<Content>) {
    content.Some? && content.value.role == "assistant" ==>
      forall i :: 0 <= i < |content.value.parts| && AsCall(content.value.parts[i]).Some? ==>
        HasResult(later, AsCall(content.value.parts[i]).value.id)
  }

  /** Every call of the assistant has a result in a later tool message. */
  predicate AllAnswered(contents: seq<Content>) {
    contents == [] || (CallsAnswered(contents[0], contents[1..]) && AllAnswered(contents[1..]))
  }

  lemma HasResultConcat(a: seq<Content>, b: seq<Content>, id: string)
    ensures HasResult(a + b, id) <==> HasResult(a, id) || HasResult(b, id)
  {
    hide Answers;
    if HasResult(a, id) {
      var i :| 0 <= i < |a| && Answers(a[i], id);
      assert (a + b)[i] == a[i];
    }
    if HasResult(b, id) {
      var i :| 0 <= i < |b| && Answers(b[i], id);
      assert (a + b)[|a| + i] == b[i];
    }
    if HasResult(a + b, id) {
      var i :| 0 <= i < |a + b| && Answers((a + b)[i], id);
      assert (a + b)[i] == if i < |a| then a[i] else b[i - |a|];
    }
  }

  predicate HasCall(parts: seq<Part>, n: nat, id: string)
    requires n <= |parts|
  {
    exists i :: 0 <= i < n && IsCallFor(parts[i], id)
  }

  predicate IsCallFor(part: Part, id: string) {
    AsCall(part).Some? && AsCall(part).value.id == id
  }

  predicate HoldsResult(parts: seq<Part>, id: string) {
    exists i :: 0 <= i < |parts| && IsResultFor(parts[i], id)
  }

  lemma HoldsPush(parts: seq<Part>, part: Part, id: string)
    ensures HoldsResult(parts + [part], id) <==> HoldsResult(parts, id) || IsResultFor(part, id)
  {
    var all := parts + [part];
    hide IsResultFor;
    if i :| 0 <= i < |parts| && IsResultFor(parts[i], id) {
      assert IsResultFor(all[i], id);
    }
    if i :| 0 <= i < |all| && IsResultFor(all[i], id) {
      assert i < |parts| ==> IsResultFor(parts[i], id);
    }
    assert all[|parts|] == part;
  }

  /** The results among the missing parts are those of the unanswered calls. */
  lemma {:induction false} MissingExactly(parts: seq<Part>, n: nat, later: seq<Content>, id: string)
    requires n <= |parts|
    ensures HoldsResult(MissingParts(parts, n, later), id) <==> !HasResult(later, id) && HasCall(parts, n, id)
  {
    if n > 0 {
      MissingExactly(parts, n - 1, later, id);
      var before, missing := MissingParts(parts, n - 1, later), MissingParts(parts, n, later);
      var call := AsCall(parts[n - 1]);
      assert HasCall(parts, n, id) <==> HasCall(parts, n - 1, id) || IsCallFor(parts[n - 1], id) by {
        hide IsCallFor;
      }
      if call.Some? && !HasResult(later, call.value.id) {
        assert missing == before + [ErrorResult(call.value)];
        HoldsPush(before, ErrorResult(call.value), id);
      } else {
        assert missing == before;
      }
      hide HasCall, HoldsResult, HasResult, MissingParts;
    }
  }

  /** A message gets an added result for an id exactly when it is the assistant's, has a
      call with that id, and no result for it follows. */
  lemma AddedExactly(content: Content, later: seq<Content>, id: string)
    ensures HasResult(Added(content, later), id) <==>
      content.Some? && content.value.role == "assistant" && !HasResult(later, id) &&
        HasCall(content.value.parts, |content.value.parts|, id)
  {
    if content.Some? && content.value.role == "assistant" {
      MissingExactly(content.value.parts, |content.value.parts|, later, id);
      var added := Added(content, later);
      if added != [] {
        assert HasResult(added, id) <==> Answers(added[0], id);
      }
      hide HasResult, MissingParts;
    }
  }

  /** Pairing keeps every result. */
  lemma {:induction false} PairedKeepsResults(contents: seq<Content>, id: string)
    requires HasResult(contents, id)
    ensures HasResult(Paired(contents), id)
  {
    hide Answers, Added;
    var head, added, tail := [contents[0]], Added(contents[0], contents[1..]), Paired(contents[1..]);
    assert contents == head + contents[1..];
    HasResultConcat(head, contents[1..], id);
    HasResultConcat(head + added, tail, id);
    HasResultConcat(head, added, id);
    if !HasResult(head, id) {
      PairedKeepsResults(contents[1..], id);
    }
  }

  lemma AddedAnswers(content: Content, later: seq<Content>)
    ensures CallsAnswered(content, Added(content, later) + Paired(later))
    ensures forall c :: c in Added(content, later) ==> c.Some? && c.value.role == "tool"
  {
    if content.Some? && content.value.role == "assistant" {
      var parts := content.value.parts;
      forall i | 0 <= i < |parts| && AsCall(parts[i]).Some?
        ensures HasResult(Added(content, later) + Paired(later), AsCall(parts[i]).value.id)
      {
        var id := AsCall(parts[i]).value.id;
        assert IsCallFor(parts[i], id);
        AddedExactly(content, later, id);
        HasResultConcat(Added(content, later), Paired(later), id);
        if HasResult(later, id) {
          PairedKeepsResults(later, id);
        }
        hide HasResult, Added, Paired;
      }
    }
  }

  lemma AnsweredStep(added: seq<Content>, tail: seq<Content>)
    requires AllAnswered(tail) && |added| <= 1 && forall c :: c in added ==> c.Some? && c.value.role == "tool"
    ensures AllAnswered(added + tail)
  {
    if added == [] {
      assert added + tail == tail;
    } else {
      assert (added + tail)[1..] == tail && added[0] in added;
    }
  }

  /** Every call of the assistant in the output has a result after it. */
  lemma {:induction false} PairedAnswersAll(contents: seq<Content>)
    ensures AllAnswered(Paired(contents))
  {
    if contents != [] {
      var added, tail := Added(contents[0], contents[1..]), Paired(contents[1..]);
      PairedAnswersAll(contents[1..]);
      AddedAnswers(contents[0], contents[1..]);
      assert |added| <= 1;
      PairedSplits(contents);
      hide *;
      AnsweredStep(added, tail);
      AnsweredFront(contents[0], added + tail);
    }
  }

  lemma PairedSplits(contents: seq<Content>)
    requires contents != []
    ensures Paired(contents) == [contents[0]] + (Added(contents[0], contents[1..]) + Paired(contents[1..]))
  {
    var added, tail := Added(contents[0], contents[1..]), Paired(contents[1..]);
    assert Paired(contents) == ([contents[0]] + added) + tail by {
      hide Added;
    }
    hide *;
    JoinContents([contents[0]], added, tail);
  }

  lemma JoinContents(a: seq<Content>, b: seq<Content>, c: seq<Content>)
    ensures (a + b) + c == a + (b + c)
  {
  }

  lemma AnsweredFront(content: Content, later: seq<Content>)
    requires CallsAnswered(content, later) && AllAnswered(later)
    ensures AllAnswered([content] + later)
  {
    hide CallsAnswered;
    assert ([content] + later)[1..] == later;
  }

  lemma {:induction false} MissingNothingExactly(parts: seq<Part>, n: nat, later: seq<Content>)
    requires n <= |parts|
    ensures MissingParts(parts, n, later) == [] <==>
      forall i :: 0 <= i < n && AsCall(parts[i]).Some? ==> HasResult(later, AsCall(parts[i]).value.id)
  {
    hide HasResult, AsCall;
    if n > 0 {
      MissingNothingExactly(parts, n - 1, later);
    }
  }

  lemma AddedNothingExactly(content: Content, later: seq<Content>)
    ensures Added(content, later) == [] <==> CallsAnswered(content, later)
  {
    if content.Some? && content.value.role == "assistant" {
      MissingNothingExactly(content.value.parts, |content.value.parts|, later);
    }
    hide MissingParts, HasResult;
  }

  lemma {:induction false} PairedLonger(contents: seq<Content>)
    ensures |Paired(contents)| >= |contents|
  {
    if contents != [] {
      PairedLonger(contents[1..]);
    }
  }

  /** Pairing leaves contents as they are exactly when every call is answered. */
  lemma {:induction false} PairedUnchangedExactly(contents: seq<Content>)
    ensures Paired(contents) == contents <==> AllAnswered(contents)
  {
    if contents != [] {
      var added, tail := Added(contents[0], contents[1..]), Paired(contents[1..]);
      PairedUnchangedExactly(contents[1..]);
      PairedLonger(contents[1..]);
      AddedNothingExactly(contents[0], contents[1..]);
      hide Added, CallsAnswered;
      assert |Paired(contents)| == 1 + |added| + |tail|;
      if added == [] {
        assert Paired(contents) == [contents[0]] + tail;
        assert ([contents[0]] + tail)[1..] == tail && contents == [contents[0]] + contents[1..];
      }
    }
  }

  /** Part j is a call, or a pointer to one, without a result in the later contents. */
  predicate IsUnanswered(parts: seq<Part>, j: nat, later: seq<Content>)
    requires j < |parts|
  {
    (parts[j].Plain? || parts[j].Pointer?) && parts[j].value.Call? && !HasResult(later, parts[j].value.id)
  }

  /** One error result for each unanswered call, in the order of the calls; js says where
      the calls stand. */
  lemma {:induction false} MissingInOrder(parts: seq<Part>, n: nat, later: seq<Content>) returns (js: seq<nat>)
    requires n <= |parts|
    ensures |js| == |MissingParts(parts, n, later)|
    ensures forall k :: 0 <= k < |js| ==>
      && js[k] < n && IsUnanswered(parts, js[k], later)
      && MissingParts(parts, n, later)[k] == Plain(Result(parts[js[k]].value.id, parts[js[k]].value.name,
           "tool result missing after pruning", true))
    ensures forall k, l :: 0 <= k < l < |js| ==> js[k] < js[l]
    ensures forall j :: 0 <= j < n && IsUnanswered(parts, j, later) ==> j in js
  {
    hide HasResult;
    js := [];
    if n > 0 {
      js := MissingInOrder(parts, n - 1, later);
      if IsUnanswered(parts, n - 1, later) {
        js := js + [n - 1];
      }
    }
  }

  /** What follows a content in the output: right after it one tool message with an error
      result for each of its unanswered calls, if it is the assistant's and has any. */
  lemma PairedFront(content: Content, rest: seq<Content>) returns (missing: seq<Part>, js: seq<nat>)
    ensures Paired([content] + rest) ==
      [content] + (if missing == [] then [] else [Some(Message("tool", missing))]) + Paired(rest)
    ensures |js| == |missing| && forall k, l :: 0 <= k < l < |js| ==> js[k] < js[l]
    ensures js != [] ==> content.Some? && content.value.role == "assistant"
    ensures forall k :: 0 <= k < |js| ==>
      && js[k] < |content.value.parts| && IsUnanswered(content.value.parts, js[k], rest)
      && missing[k] == Plain(Result(content.value.parts[js[k]].value.id, content.value.parts[js[k]].value.name,
           "tool result missing after pruning", true))
    ensures content.Some? && content.value.role == "assistant" ==>
      forall j :: 0 <= j < |content.value.parts| && IsUnanswered(content.value.parts, j, rest) ==> j in js
  {
    missing, js := [], [];
    if content.Some? && content.value.role == "assistant" {
      missing := MissingParts(content.value.parts, |content.value.parts|, rest);
      js := MissingInOrder(content.value.parts, |content.value.parts|, rest);
    }
    assert ([content] + rest)[1..] == rest;
    hide MissingParts, IsUnanswered;
  }

  // ------------------------------------------------------------------- cloning

  /** Cloning keeps which contents are nil, the roles and the parts in their order; a part
      is copied as the value it has or points to, a nil pointer becomes the zero value of its
      type, a part of another type stays. */
  lemma CloneExactly(contents: seq<Content>, i: nat)
    requires i < |contents|
    ensures |Clone(contents)| == |contents|
    ensures var c, d := contents[i], Clone(contents)[i];
      && d.Some? == c.Some?
      && (c.Some? ==>
            && d.value.role == c.value.role && |d.value.parts| == |c.value.parts|
            && forall j :: 0 <= j < |c.value.parts| ==>
                 d.value.parts[j] ==
                   match c.value.parts[j]
                   case Plain(value) => Plain(value)
                   case Pointer(value) => Plain(value)
                   case NilPointer(TextKind) => Plain(Text(""))
                   case NilPointer(CallKind) => Plain(Call("", "", ""))
                   case NilPointer(ResultKind) => Plain(Result("", "", "", false))
                   case NilPointer(ThinkingKind) => Plain(Thinking(""))
                   case Foreign(tag) => Foreign(tag))
  {
  }

  /** No pointers. */
  predicate IsPlain(contents: seq<Content>) {
    forall i :: 0 <= i < |contents| ==> IsPlainContent(contents[i])
  }

  predicate IsPlainContent(content: Content) {
    content.Some? ==> forall j :: 0 <= j < |content.value.parts| ==>
      content.value.parts[j].Plain? || content.value.parts[j].Foreign?
  }

  lemma PlainCloneContent(content: Content)
    ensures IsPlainContent(CloneContent(content))
    ensures IsPlainContent(content) ==> CloneContent(content) == content
  {
    if IsPlainContent(content) && content.Some? {
      assert CloneParts(content.value.parts) == content.value.parts;
    }
  }

  lemma PlainClone(contents: seq<Content>)
    ensures IsPlain(Clone(contents))
    ensures IsPlain(contents) ==> Clone(contents) == contents
  {
    forall i | 0 <= i < |contents|
      ensures IsPlainContent(Clone(contents)[i]) && (IsPlainContent(contents[i]) ==> Clone(contents)[i] == contents[i])
    {
      PlainCloneContent(contents[i]);
    }
    hide IsPlainContent, CloneContent;
  }

  lemma {:induction false} MissingPlain(parts: seq<Part>, n: nat, later: seq<Content>)
    requires n <= |parts|
    ensures forall i :: 0 <= i < |MissingParts(parts, n, later)| ==> MissingParts(parts, n, later)[i].Plain?
  {
    hide HasResult;
    if n > 0 {
      MissingPlain(parts, n - 1, later);
    }
  }

  lemma {:induction false} PairedPlain(contents: seq<Content>)
    requires IsPlain(contents)
    ensures IsPlain(Paired(contents))
  {
    if contents != [] {
      PairedPlain(contents[1..]);
      var content := contents[0];
      if content.Some? {
        MissingPlain(content.value.parts, |content.value.parts|, contents[1..]);
      }
      var added := Added(content, contents[1..]);
      assert IsPlainContent(content) && (added != [] ==> IsPlainContent(added[0]));
      hide IsPlainContent, Added;
    }
  }

  /** What EnsurePairedFunctionCalls returns: every call answered, and a second
      application changes nothing. */
  lemma EnsuredOnceIsEnough(contents: seq<Content>)
    ensures AllAnswered(Paired(Clone(contents)))
    ensures Paired(Clone(Paired(Clone(contents)))) == Paired(Clone(contents))
  {
    hide Paired, AllAnswered, IsPlain, Clone;
    PlainClone(contents);
    PairedPlain(Clone(contents));
    PlainClone(Paired(Clone(contents)));
    PairedAnswersAll(Clone(contents));
    PairedUnchangedExactly(Paired(Clone(contents)));
  }

  // ------------------------------------------------------------- nothing is lost

  /** Which contents of the output come from the input. */
  function Originals(contents: seq<Content>): seq<bool> {
    if contents == [] then []
    else [true] + ((if Added(contents[0], contents[1..]) == [] then [] else [false]) + Originals(contents[1..]))
  }

  function Kept(out: seq<Content>, keep: seq<bool>): seq<Content>
    requires |out| == |keep|
  {
    if out == [] then [] else (if keep[0] then [out[0]] else []) + Kept(out[1..], keep[1..])
  }

  lemma {:induction false} KeptConcat(a: seq<Content>, x: seq<bool>, b: seq<Content>, y: seq<bool>)
    requires |a| == |x| && |b| == |y|
    ensures Kept(a + b, x + y) == Kept(a, x) + Kept(b, y)
  {
    if a == [] {
      assert a + b == b && x + y == y;
    } else {
      KeptConcat(a[1..], x[1..], b, y);
      assert (a + b)[1..] == a[1..] + b && (x + y)[1..] == x[1..] + y && (a + b)[0] == a[0] && (x + y)[0] == x[0];
      hide Kept;
      var head := if x[0] then [a[0]] else [];
      assert head + (Kept(a[1..], x[1..]) + Kept(b, y)) == (head + Kept(a[1..], x[1..])) + Kept(b, y);
    }
  }

  lemma OriginalsSplit(contents: seq<Content>)
    requires contents != []
    ensures Originals(contents) ==
      [true] + ((if Added(contents[0], contents[1..]) == [] then [] else [false]) + Originals(contents[1..]))
  {
  }

  /** A kept content, an added one that is dropped, and the rest. */
  lemma KeptOne(content: Content, added: seq<Content>, rest: seq<Content>, tags: seq<bool>, more: seq<bool>)
    requires |rest| == |more| && |added| <= 1 && tags == if added == [] then [] else [false]
    ensures Kept([content] + (added + rest), [true] + (tags + more)) == [content] + Kept(rest, more)
  {
    KeptConcat(added, tags, rest, more);
    KeptConcat([content], [true], added + rest, tags + more);
    assert Kept(added, tags) == [] && Kept([content], [true]) == [content] + Kept([], []) == [content];
    hide Kept;
    assert [] + Kept(rest, more) == Kept(rest, more);
  }

  predicate AddedAreErrors(out: seq<Content>, keep: seq<bool>)
    requires |out| == |keep|
  {
    forall i :: 0 <= i < |out| && !keep[i] ==> IsErrorMessage(out[i])
  }

  lemma ErrorsOne(content: Content, added: seq<Content>, rest: seq<Content>, tags: seq<bool>, more: seq<bool>)
    requires |rest| == |more| && |added| <= 1 && tags == if added == [] then [] else [false]
    requires AddedAreErrors(rest, more) && (added != [] ==> IsErrorMessage(added[0]))
    ensures AddedAreErrors([content] + (added + rest), [true] + (tags + more))
  {
    hide IsErrorMessage;
    var out, keep := [content] + (added + rest), [true] + (tags + more);
    forall i | 0 <= i < |out| && !keep[i] ensures IsErrorMessage(out[i]) {
      if i > |added| {
        assert keep[i] == more[i - 1 - |added|] && out[i] == rest[i - 1 - |added|];
      }
    }
  }

  /** Without the added messages the output is the input; the added ones are tool messages
      of error results. */
  lemma {:induction false} RemovingAddedGivesInput(contents: seq<Content>)
    ensures |Originals(contents)| == |Paired(contents)| && Kept(Paired(contents), Originals(contents)) == contents
    ensures AddedAreErrors(Paired(contents), Originals(contents))
  {
    if contents != [] {
      hide *;
      var added := Added(contents[0], contents[1..]);
      var tags: seq<bool> := if added == [] then [] else [false];
      var rest, more := Paired(contents[1..]), Originals(contents[1..]);
      RemovingAddedGivesInput(contents[1..]);
      AddedIsError(contents[0], contents[1..]);
      PairedSplits(contents);
      OriginalsSplit(contents);
      KeptOne(contents[0], added, rest, tags, more);
      ErrorsOne(contents[0], added, rest, tags, more);
      assert [contents[0]] + contents[1..] == contents;
    }
  }

  predicate IsErrorMessage(content: Content) {
    && content.Some? && content.value.role == "tool" && content.value.parts != []
    && forall i :: 0 <= i < |content.value.parts| ==> IsErrorResult(content.value.parts[i])
  }

  predicate IsErrorResult(part: Part) {
    part.Plain? && part.value.Result? && part.value.content == MISSING && part.value.isError
  }

  lemma {:induction false} MissingAreErrors(parts: seq<Part>, n: nat, later: seq<Content>)
    requires n <= |parts|
    ensures forall i :: 0 <= i < |MissingParts(parts, n, later)| ==> IsErrorResult(MissingParts(parts, n, later)[i])
  {
    hide HasResult;
    if n > 0 {
      MissingAreErrors(parts, n - 1, later);
    }
  }

  lemma AddedIsError(content: Content, later: seq<Content>)
    ensures |Added(content, later)| <= 1
    ensures Added(content, later) != [] ==> IsErrorMessage(Added(content, later)[0])
  {
    if content.Some? {
      MissingAreErrors(content.value.parts, |content.value.parts|, later);
    }
    hide MissingParts;
  }
}
