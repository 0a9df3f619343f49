/** The session object itself: its fields are updated step by step, and every method is proved
    to do what the functions of AgentTick and AgentRuns say. */
module AgentSession {
  import opened Wrappers
  import Decimals
  import Utf8
  import opened AgentMessages
  import opened AgentCompaction
  import opened AgentTick
  import opened AgentRuns

  /** Running one call more moves its result from what is to come to what is done. */
  lemma ExecuteFrom(done: History, calls: seq<ToolCall>, i: nat, outcomes: nat -> ToolOutcome, m: Message)
    requires i < |calls|
    requires m == ResultMessage(calls[i], outcomes(i).text, outcomes(i).success)
    ensures var e := Execute(calls, i, outcomes);
            if Fatal(outcomes(i)) then
              done + e.results == done + [m] && e.failure == Some(FatalMessage(outcomes(i)))
            else
              var rest := Execute(calls, i + 1, outcomes);
              done + e.results == done + [m] + rest.results && e.failure == rest.failure
  {
  }

  class LiveSession {
    var history: History
    var state: State
    var iterationCount: nat
    const maxIterations: nat
    var tokenBudget: nat

    function View(): Session
      reads this
    {
      Session(history, state, iterationCount, maxIterations, tokenBudget)
    }

    constructor (max: nat, budget: nat, text: string, stamp: string)
      ensures View() == Start(max, budget, text, stamp).session
    {
      history := [UserMessage(text, stamp)];
      state := Idle;
      iterationCount := 0;
      maxIterations := max;
      tokenBudget := budget;
    }

    method CompactHistory(max: nat, stamp: string)
      requires CanCompact(history, max)
      modifies this`history
      ensures history == Compacted(old(history), max, Notice(stamp))
    {
      hide FirstUser, Notice;
      if |history| <= max {
        return;
      }
      var first := FirstUser(history);
      var safeStart := FindCut(history, max);
      var tail := history[safeStart..];
      var compacted: History := [];
      if first.Some? && (safeStart == 0 || forall m | m in tail :: m.id != first.value.id) {
        compacted := compacted + [first.value];
      }
      if 0 < safeStart < |history| {
        compacted := compacted + [Notice(stamp)];
      }
      history := compacted + tail;
    }

    static method FindCut(h: History, max: nat) returns (safeStart: nat)
      requires 3 <= max < |h|
      ensures safeStart == Cut(h, max)
    {
      safeStart := |h| - (max - 2);
      while safeStart > 0
        invariant safeStart <= |h| - (max - 2)
        invariant SafeStart(h, safeStart) == Cut(h, max)
      {
        if h[safeStart].role != Tool {
          break;
        }
        safeStart := safeStart - 1;
      }
    }

    /** One transition; `fx` records the effects on the outside as they happen. */
    method Step(input: TickInput) returns (result: TickResult, fx: Effects)
      modifies this
      ensures Outcome(View(), result, fx) == Tick(old(View()), input)
      decreases state.Idle?
    {
      fx := NO_EFFECTS;
      if tokenBudget == 0 {
        state := State.Error(BUDGET_MESSAGE);
        return ErrorResult(BUDGET_MESSAGE, iterationCount), fx;
      }
      if iterationCount >= maxIterations {
        state := Finished(LimitMessage(maxIterations));
        return FinishedResult(state.text, iterationCount), fx;
      }
      match state {
        case Idle =>
          state := Thinking;
          result, fx := Step(input);
        case Thinking =>
          result, fx := StepThinking(input);
        case ExecutingTool =>
          result, fx := StepExecuting(input);
        case AwaitingApproval(pending) =>
          result := WaitForApproval(pending, iterationCount);
        case Finished(text) =>
          result := FinishedResult(text, iterationCount);
        case Error(message) =>
          result := ErrorResult(message, iterationCount);
        case Verifying =>
          state := Finished("Task verified.");
          result := FinishedResult("Task verified.", iterationCount);
      }
    }

    method StepThinking(input: TickInput) returns (result: TickResult, fx: Effects)
      modifies this
      ensures Outcome(View(), result, fx) == Think(old(View()), input)
    {
      hide Compacted, Charge, WithCallIds, NeedsApproval;
      CompactHistory(CompactionLimit(history), input.stamp);
      var iteration := iterationCount + 1;
      fx := NO_EFFECTS.(called := true);
      if input.reply.Err? {
        state := State.Error(input.reply.error);
        return ErrorResult("LLM call failed: " + input.reply.error, iteration), fx;
      }
      var reply := input.reply.value;
      iterationCount := iteration;
      var charge := EstimateCharge(input.prompt, reply);
      fx := fx.(charge := Some(charge));
      tokenBudget := SaturatingSub(tokenBudget, charge);
      if tokenBudget == 0 {
        state := State.Error(BUDGET_MESSAGE);
        return ErrorResult(BUDGET_MESSAGE, iteration), fx;
      }
      var tools := AssignCallIds(if reply.toolCalls != [] then reply.toolCalls else reply.parsedCalls);
      if tools != [] {
        var m := ModelMessage(input.stamp, ToolCalls(tools, reply.text));
        history := history + [m];
        fx := fx.(appended := [m]);
        if exists t | t in tools :: NeedsApproval(t, false, true, false) {
          state := AwaitingApproval(tools);
          result := WaitForApproval(tools, iteration);
        } else {
          state := ExecutingTool;
          result := Continue(tools[0].name, None, iteration);
        }
      } else {
        var text := reply.text.GetOr("Task completed.");
        var m := ModelMessage(input.stamp, Text(text));
        history := history + [m];
        fx := fx.(appended := [m]);
        state := Finished(text);
        result := FinishedResult(text, iteration);
      }
    }

    method EstimateCharge(prompt: string, reply: LlmReply) returns (charge: nat)
      ensures charge == Charge(prompt, history, reply)
    {
      var length := Utf8.ByteLength(prompt);
      for i := 0 to |history|
        invariant length == Utf8.ByteLength(prompt) + HistoryLength(history[..i])
      {
        assert history[..i + 1][..i] == history[..i];
        length := length + ContentLength(history[i].content);
      }
      assert history[..|history|] == history;
      charge := length / 4 + Utf8.ByteLength(reply.rawText) / 4;
    }

    static method AssignCallIds(requested: seq<ToolCall>) returns (tools: seq<ToolCall>)
      ensures tools == WithCallIds(requested)
    {
      tools := requested;
      for i := 0 to |tools|
        invariant |tools| == |requested|
        invariant forall k | 0 <= k < i :: tools[k] == WithCallId(requested[k], k)
        invariant forall k | i <= k < |tools| :: tools[k] == requested[k]
      {
        if tools[i].callId == None || tools[i].callId == Some("") {
          tools := tools[i := tools[i].(callId := Some("call_" + Decimals.Print(i)))];
        }
      }
    }

    method StepExecuting(input: TickInput) returns (result: TickResult, fx: Effects)
      modifies this
      ensures Outcome(View(), result, fx) == ExecuteNewest(old(View()), input)
    {
      fx := NO_EFFECTS;
      var calls := NewestBatch(history);
      if calls == [] {
        state := State.Error("ExecutingTool state but no tool calls found in history");
        return ErrorResult("No tool calls to execute", iterationCount), fx;
      }
      var results, failure := RunTools(calls, input.outcomes);
      fx := Effects(false, None, calls, |results|, results);
      if failure.Some? {
        state := State.Error(failure.value);
        return ErrorResult(failure.value, iterationCount), fx;
      }
      state := Thinking;
      result := Continue(calls[0].name, Some("Executed tools"), iterationCount);
    }

    /** Runs the calls one after the other, appending each result, until one fails for good. */
    method RunTools(calls: seq<ToolCall>, outcomes: nat -> ToolOutcome)
      returns (results: History, failure: Option<string>)
      modifies this`history
      ensures Execution(results, failure) == Execute(calls, 0, outcomes)
      ensures history == old(history) + results
    {
      hide ResultMessage, FatalMessage;
      results, failure := [], None;
      ghost var all := Execute(calls, 0, outcomes);
      for i := 0 to |calls|
        invariant history == old(history) + results
        invariant all.results == results + Execute(calls, i, outcomes).results
        invariant all.failure == Execute(calls, i, outcomes).failure
      {
        var outcome := outcomes(i);
        var m := ResultMessage(calls[i], outcome.text, outcome.success);
        assert old(history) + results + [m] == old(history) + (results + [m]);
        ExecuteFrom(results, calls, i, outcomes, m);
        results := results + [m];
        history := history + [m];
        if !outcome.success && !outcome.retryable {
          failure := Some(FatalMessage(outcome));
          return;
        }
      }
    }

    // ----- Decisions and messages of the user -----

    method Approve() returns (accepted: bool)
      modifies this
      ensures View() == React(old(View()), ApproveAll).session
      ensures accepted == old(state).AwaitingApproval?
    {
      accepted := state.AwaitingApproval?;
      if accepted {
        state := ExecutingTool;
      }
    }

    method Reject(stamp: string) returns (accepted: bool)
      modifies this
      ensures View() == React(old(View()), RejectAll(stamp)).session
      ensures accepted == old(state).AwaitingApproval?
    {
      accepted := state.AwaitingApproval?;
      if accepted {
        var pending := state.pending;
        ghost var before := history;
        for i := 0 to |pending|
          invariant state == old(state) && iterationCount == old(iterationCount) && tokenBudget == old(tokenBudget)
          invariant history == before + Rejections(pending, stamp)[..i]
        {
          assert Rejections(pending, stamp)[..i + 1] ==
            Rejections(pending, stamp)[..i] + [Rejection(pending[i], stamp)];
          history := history + [Rejection(pending[i], stamp)];
        }
        assert Rejections(pending, stamp)[..|pending|] == Rejections(pending, stamp);
        state := Thinking;
      }
    }

    method ApproveTool(index: nat, outcome: ToolOutcome)
      modifies this
      ensures View() == React(old(View()), ApproveOne(index, outcome)).session
    {
      if state.AwaitingApproval? && index < |state.pending| {
        var pending := state.pending;
        history := history + [ResultMessage(pending[index], outcome.text, outcome.success)];
        var remaining := Without(pending, index);
        state := if remaining != [] then AwaitingApproval(remaining) else Thinking;
      }
    }

    method RejectTool(index: nat, stamp: string)
      modifies this
      ensures View() == React(old(View()), RejectOne(index, stamp)).session
    {
      if state.AwaitingApproval? {
        var pending := state.pending;
        if index < |pending| {
          history := history + [Rejection(pending[index], stamp)];
          var remaining := Without(pending, index);
          if remaining != [] {
            state := AwaitingApproval(remaining);
            return;
          }
        }
        state := Thinking;
      }
    }

    method AddUserMessage(text: string, stamp: string)
      modifies this
      ensures View() == React(old(View()), Send(text, stamp)).session
    {
      if !state.AwaitingApproval? {
        state := Idle;
      }
      history := history + [UserMessage(text, stamp)];
    }

    method SwitchWorkspaceTo(path: string, stamp: string)
      modifies this`history
      ensures View() == React(old(View()), SwitchWorkspace(path, stamp)).session
    {
      history := history + [WorkspaceMessage(path, stamp)];
    }
  }
}
