// EnsurePairedFunctionCalls: after pruning, every call of the assistant gets a result
// somewhere after it, by adding error results and nothing else.

module PairedCalls {
  import opened Identity

  datatype Value =
    | Text(text: string)
    | Call(id: string, name: string, arguments: string)
    | Result(callId: string, resultName: string, content: string, isError: bool)
    | Thinking(thinking: string)

  datatype Kind = TextKind | CallKind | ResultKind | ThinkingKind

  /** A part is a value, a pointer to one, a nil pointer of some kind, or of a type this
      code does not know. */
  datatype Part = Plain(value: Value) | Pointer(value: Value) | NilPointer(kind: Kind) | Foreign(tag: int)

  datatype Message = Message(role: string, parts: seq<Part>)

  /** A content is a message or a nil pointer. */
  type Content = Option<Message>

  const MISSING := "tool result missing after pruning"

  function Zero(kind: Kind): Value {
    match kind
    case TextKind => Text("")
    case CallKind => Call("", "", "")
    case ResultKind => Result("", "", "", false)
    case ThinkingKind => Thinking("")
  }

  function ClonePart(part: Part): Part {
    match part
    case Plain(value) => Plain(value)
    case Pointer(value) => Plain(value)
    case NilPointer(kind) => Plain(Zero(kind))
    case Foreign(_) => part
  }

  function CloneParts(parts: seq<Part>): seq<Part> {
    seq(|parts|, i requires 0 <= i < |parts| => ClonePart(parts[i]))
  }

  function CloneContent(content: Content): Content {
    if content.None? then None else Some(Message(content.value.role, CloneParts(content.value.parts)))
  }

  function Clone(contents: seq<Content>): seq<Content> {
    seq(|contents|, i requires 0 <= i < |contents| => CloneContent(contents[i]))
  }

  /** asToolCallPart. */
  function AsCall(part: Part): (call: Option<Value>)
    ensures call.Some? ==> call.value.Call?
  {
    if (part.Plain? || part.Pointer?) && part.value.Call? then Some(part.value) else None
  }

  predicate IsResultFor(part: Part, id: string) {
    (part.Plain? || part.Pointer?) && part.value.Result? && part.value.callId == id
  }

  predicate Answers(content: Content, id: string) {
    content.Some? && content.value.role == "tool"
    && exists i :: 0 <= i < |content.value.parts| && IsResultFor(content.value.parts[i], id)
  }

  predicate HasResult(contents: seq<Content>, id: string) {
    exists i :: 0 <= i < |contents| && Answers(contents[i], id)
  }

  function ErrorResult(call: Value): Part
    requires call.Call?
  {
    Plain(Result(call.id, call.name, MISSING, true))
  }

  /** An error result for each of the first n parts that is a call without a result among
      the later contents. */
  function MissingParts(parts: seq<Part>, n: nat, later: seq<Content>): seq<Part>
    requires n <= |parts|
  {
    if n == 0 then []
    else
      var call := AsCall(parts[n - 1]);
      MissingParts(parts, n - 1, later)
        + if call.Some? && !HasResult(later, call.value.id) then [ErrorResult(call.value)] else []
  }

  /** What is added after a content: nothing, or one tool message. */
  function Added(content: Content, later: seq<Content>): seq<Content> {
    if content.None? || content.value.role != "assistant" then []
    else
      var missing := MissingParts(content.value.parts, |content.value.parts|, later);
      if missing == [] then [] else [Some(Message("tool", missing))]
  }

  function Paired(contents: seq<Content>): seq<Content> {
    if contents == [] then [] else [contents[0]] + Added(contents[0], contents[1..]) + Paired(contents[1..])
  }

  /** hasToolResultAfter. */
  method HasToolResultAfter(contents: seq<Content>, callIndex: nat, callId: string) returns (found: bool)
    requires callIndex < |contents|
    ensures found == HasResult(contents[callIndex + 1..], callId)
    ensures found <==> exists k, j ::
      && callIndex < k < |contents| && contents[k].Some? && contents[k].value.role == "tool"
      && 0 <= j < |contents[k].value.parts|
      && var part := contents[k].value.parts[j];
         (part.Plain? || part.Pointer?) && part.value.Result? && part.value.callId == callId
  {
    var later := contents[callIndex + 1..];
    var i := callIndex + 1;
    while i < |contents|
      invariant callIndex + 1 <= i <= |contents|
      invariant forall k :: 0 <= k < i - callIndex - 1 ==> !Answers(later[k], callId)
    {
      var content := contents[i];
      assert content == later[i - callIndex - 1];
      if content.Some? && content.value.role == "tool" {
        var parts := content.value.parts;
        for j := 0 to |parts|
          invariant forall k :: 0 <= k < j ==> !IsResultFor(parts[k], callId)
        {
          if (parts[j].Plain? || parts[j].Pointer?) && parts[j].value.Result? && parts[j].value.callId == callId {
            assert IsResultFor(parts[j], callId);
            return true;
          }
        }
      }
      i := i + 1;
    }
    return false;
  }

  /** EnsurePairedFunctionCalls computes Paired of the cloned contents. */
  method EnsurePairedFunctionCalls(contents: seq<Content>) returns (out: seq<Content>)
    ensures out == Paired(Clone(contents))
  {
    if |contents| == 0 {
      return [];
    }
    var cloned := Clone(contents);
    out := [];
    for i := 0 to |cloned|
      invariant Paired(cloned) == out + Paired(cloned[i..])
    {
      var content := cloned[i];
      ghost var later := cloned[i + 1..];
      PairedStep(cloned, i, out);
      out := out + [content];
      if content.None? || content.value.role != "assistant" {
        continue;
      }
      var parts := content.value.parts;
      var missing: seq<Part> := [];
      for j := 0 to |parts|
        invariant missing == MissingParts(parts, j, later)
      {
        var call := AsCall(parts[j]);
        if call.None? {
          continue;
        }
        var answered := HasToolResultAfter(cloned, i, call.value.id);
        if answered {
          continue;
        }
        missing := missing + [Plain(Result(call.value.id, call.value.name, MISSING, true))];
      }
      if |missing| > 0 {
        out := out + [Some(Message("tool", missing))];
      }
    }
  }

  lemma PairedStep(contents: seq<Content>, i: nat, done: seq<Content>)
    requires i < |contents|
    ensures var added := Added(contents[i], contents[i + 1..]);
      done + Paired(contents[i..]) == (done + [contents[i]] + added) + Paired(contents[i + 1..])
    ensures Added(contents[i], contents[i + 1..]) == [] ==>
      done + Paired(contents[i..]) == (done + [contents[i]]) + Paired(contents[i + 1..])
  {
    var rest := contents[i..];
    assert rest[0] == contents[i] && rest[1..] == contents[i + 1..];
    var added := Added(contents[i], contents[i + 1..]);
    hide Added;
    assert Paired(rest) == [contents[i]] + added + Paired(contents[i + 1..]);
    hide Paired;
    if added == [] {
      assert done + [contents[i]] + added == done + [contents[i]];
    }
  }
}
