/** The conversation an agent session carries, and where tool results may stand in it. */
module AgentMessages {
  import opened Wrappers

  datatype ToolCall = ToolCall(name: string, rawArguments: string, callId: Option<string>)

  datatype Role = User | Assistant | Tool | System

  datatype Content =
    | Text(text: string)
    | ToolCalls(calls: seq<ToolCall>, reply: Option<string>)
    | ToolResult(toolCallId: string, toolName: string, result: string, success: bool)

  datatype Message = Message(id: string, role: Role, content: Content)

  type History = seq<Message>

  predicate IsBatch(m: Message) {
    m.role == Assistant && m.content.ToolCalls?
  }

  predicate IsResultOf(m: Message, call: ToolCall) {
    && m.role == Tool
    && m.content.ToolResult?
    && m.content.toolName == call.name
    && call.callId == Some(m.content.toolCallId)
  }

  /** Message `i` is a result for call `k` of the batch at `j`, with nothing but tool messages
      in between; when `inOrder`, also every call before `k` was answered first. */
  ghost predicate Answers(h: History, i: nat, j: nat, k: nat, inOrder: bool)
    requires j < i < |h|
  {
    && IsBatch(h[j])
    && (forall x | j < x <= i :: h[x].role == Tool)
    && k < |h[j].content.calls|
    && IsResultOf(h[i], h[j].content.calls[k])
    && (inOrder ==> k == i - j - 1)
  }

  /** No tool message stands anywhere but behind the batch it answers. */
  ghost predicate WellPlaced(h: History, inOrder: bool) {
    forall i | 0 <= i < |h| && h[i].role == Tool ::
      exists j: nat, k: nat :: j < i && Answers(h, i, j, k, inOrder)
  }

  /** The newest batch is `calls`, and the `done` messages behind it are all tool messages. */
  ghost predicate EndsWithBatch(h: History, calls: seq<ToolCall>, done: nat) {
    && done < |h|
    && IsBatch(h[|h| - done - 1])
    && h[|h| - done - 1].content.calls == calls
    && forall x | |h| - done <= x < |h| :: h[x].role == Tool
  }

  /** The batch a tick executes: that of the newest assistant message holding tool calls. */
  function NewestBatch(h: History): seq<ToolCall> {
    if h == [] then []
    else if IsBatch(h[|h| - 1]) then h[|h| - 1].content.calls
    else NewestBatch(h[..|h| - 1])
  }

  lemma {:induction false} NewestBatchAtEnd(h: History, calls: seq<ToolCall>, done: nat)
    requires EndsWithBatch(h, calls, done)
    ensures NewestBatch(h) == calls
  {
    if done > 0 {
      NewestBatchAtEnd(h[..|h| - 1], calls, done - 1);
    }
  }

  lemma AppendOther(h: History, m: Message, inOrder: bool)
    requires WellPlaced(h, inOrder) && m.role != Tool
    ensures WellPlaced(h + [m], inOrder)
  {
    var h' := h + [m];
    forall i | 0 <= i < |h'| && h'[i].role == Tool
      ensures exists j: nat, k: nat :: j < i && Answers(h', i, j, k, inOrder)
    {
      var j: nat, k: nat :| j < i && Answers(h, i, j, k, inOrder);
      assert Answers(h', i, j, k, inOrder);
    }
  }

  lemma AppendResult(h: History, calls: seq<ToolCall>, done: nat, k: nat, m: Message, inOrder: bool)
    requires WellPlaced(h, inOrder) && EndsWithBatch(h, calls, done)
    requires k < |calls| && IsResultOf(m, calls[k])
    requires inOrder ==> k == done
    ensures WellPlaced(h + [m], inOrder) && EndsWithBatch(h + [m], calls, done + 1)
  {
    var h' := h + [m];
    forall i | 0 <= i < |h'| && h'[i].role == Tool
      ensures exists j: nat, k: nat :: j < i && Answers(h', i, j, k, inOrder)
    {
      if i < |h| {
        var j: nat, k: nat :| j < i && Answers(h, i, j, k, inOrder);
        assert Answers(h', i, j, k, inOrder);
      } else {
        assert Answers(h', i, |h| - done - 1, k, inOrder);
      }
    }
  }

  /** A suffix that does not begin in the middle of a batch's results keeps every owner, and so
      does putting other messages in front of it. */
  lemma SuffixWellPlaced(h: History, front: History, s: nat, inOrder: bool)
    requires WellPlaced(h, inOrder)
    requires s < |h| ==> h[s].role != Tool
    requires s <= |h|
    requires forall m | m in front :: m.role != Tool
    ensures WellPlaced(front + h[s..], inOrder)
  {
    var h' := front + h[s..];
    forall i | 0 <= i < |h'| && h'[i].role == Tool
      ensures exists j: nat, k: nat :: j < i && Answers(h', i, j, k, inOrder)
    {
      assert forall x | 0 <= x < |front| :: h'[x] == front[x] && front[x] in front;
      assert i >= |front|;
      var i0 := i - |front| + s;
      var j0: nat, k: nat :| j0 < i0 && Answers(h, i0, j0, k, inOrder);
      assert j0 >= s;
      var j := j0 - s + |front|;
      forall x | j < x <= i ensures h'[x].role == Tool {
        assert h'[x] == h[x - |front| + s];
      }
      assert Answers(h', i, j, k, inOrder);
    }
  }

  /** In an in-order history the tool messages directly behind a batch answer a prefix of its
      calls, one after the other. */
  lemma {:induction false} ResultsArePrefix(h: History, j: nat, n: nat)
    requires WellPlaced(h, true)
    requires j + n < |h| && IsBatch(h[j])
    requires forall x | j < x <= j + n :: h[x].role == Tool
    ensures n <= |h[j].content.calls|
    ensures forall x | 0 <= x < n :: IsResultOf(h[j + 1 + x], h[j].content.calls[x])
  {
    if n > 0 {
      ResultsArePrefix(h, j, n - 1);
      var i := j + n;
      assert h[i].role == Tool;
      var b: nat, k: nat :| b < i && Answers(h, i, b, k, true);
      assert h[b].role != Tool && h[j].role != Tool;
      assert b == j;
    }
  }
}
