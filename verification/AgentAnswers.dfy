/** What a tick and a decision write into the history, spelled out: the answers of the tools, the
    answer of the model, and what is asked of the user. */
module AgentAnswers {
  import opened Wrappers
  import Decimals
  import Utf8
  import opened AgentMessages
  import opened AgentCompaction
  import opened AgentTick
  import opened AgentRuns
  import opened AgentPlacement
  import opened AgentGrants

  // ----- Tools -----

  /** The message holds the answer of one tool to one call. */
  predicate Answer(m: Message, call: ToolCall, text: string, success: bool) {
    && m.role == Tool
    && m.content.ToolResult?
    && call.callId == Some(m.content.toolCallId)
    && m.id == m.content.toolCallId
    && m.content.toolName == call.name
    && m.content.result == text
    && m.content.success == success
  }

  /** The answers to the calls from number `i` on, up to the first failure that is not retried. */
  ghost predicate AreAnswers(results: History, calls: seq<ToolCall>, i: nat, outcomes: nat -> ToolOutcome) {
    var end := i + |results|;
    && end <= |calls|
    && (forall k | i <= k < end :: Answer(results[k - i], calls[k], outcomes(k).text, outcomes(k).success))
    && (forall k | i <= k < end - 1 :: outcomes(k).success || outcomes(k).retryable)
    && (end < |calls| ==> end > i && !outcomes(end - 1).success && !outcomes(end - 1).retryable)
  }

  /** Why running `calls` stopped, if the last tool run failed and is not retried. */
  function FailureOf(end: nat, outcomes: nat -> ToolOutcome): Option<string> {
    if end > 0 && !outcomes(end - 1).success && !outcomes(end - 1).retryable
    then Some("Environmental or non-retryable error encountered: " + outcomes(end - 1).text)
    else None
  }

  lemma {:induction false} ExecuteAnswers(calls: seq<ToolCall>, i: nat, outcomes: nat -> ToolOutcome)
    requires i <= |calls| && HaveIds(calls)
    ensures var e := Execute(calls, i, outcomes);
            && AreAnswers(e.results, calls, i, outcomes)
            && e.failure == (if e.results == [] then None else FailureOf(i + |e.results|, outcomes))
            && (i < |calls| ==> e.results != [])
    decreases |calls| - i
  {
    hide AreAnswers, Answer;
    if i == |calls| {
      NoAnswers(calls, outcomes);
    } else {
      var m := ResultMessage(calls[i], outcomes(i).text, outcomes(i).success);
      ResultIsAnswer(calls, i, outcomes);
      if Fatal(outcomes(i)) {
        OneAnswer(m, calls, i, outcomes);
      } else {
        ExecuteAnswers(calls, i + 1, outcomes);
        AnswersCons(m, Execute(calls, i + 1, outcomes).results, calls, i, outcomes);
      }
    }
  }

  lemma ResultIsAnswer(calls: seq<ToolCall>, i: nat, outcomes: nat -> ToolOutcome)
    requires i < |calls| && HaveIds(calls)
    ensures Answer(ResultMessage(
                   calls[i], outcomes(i).text, outcomes(i).success), calls[i], outcomes(i).text, outcomes(i).success)
  {
    assert calls[i] in calls;
  }

  lemma NoAnswers(calls: seq<ToolCall>, outcomes: nat -> ToolOutcome)
    ensures AreAnswers([], calls, |calls|, outcomes)
  {
  }

  lemma OneAnswer(m: Message, calls: seq<ToolCall>, i: nat, outcomes: nat -> ToolOutcome)
    requires i < |calls| && Answer(m, calls[i], outcomes(i).text, outcomes(i).success)
    requires !outcomes(i).success && !outcomes(i).retryable
    ensures AreAnswers([m], calls, i, outcomes)
  {
  }

  lemma AnswersCons(m: Message, rest: History, calls: seq<ToolCall>, i: nat, outcomes: nat -> ToolOutcome)
    requires i < |calls| && Answer(m, calls[i], outcomes(i).text, outcomes(i).success)
    requires outcomes(i).success || outcomes(i).retryable
    requires AreAnswers(rest, calls, i + 1, outcomes)
    ensures AreAnswers([m] + rest, calls, i, outcomes)
  {
    var all := [m] + rest;
    forall k | i < k < i + |all| ensures Answer(all[k - i], calls[k], outcomes(k).text, outcomes(k).success) {
      assert all[k - i] == rest[k - (i + 1)];
    }
  }

  /** A tick that executes, in any session whose newest batch carries ids, appends one answer for each
      call it runs, with the text and the success of that tool, and runs the calls up to the first
      failure that is not retried. */
  lemma TickStoresAnswers(s: Session, input: TickInput)
    requires Executes(s) && NewestBatch(s.history) != [] && HaveIds(NewestBatch(s.history))
    ensures var calls, outcomes, s' := NewestBatch(s.history), input.outcomes, Tick(s, input).session;
            && s.history < s'.history
            && AreAnswers(s'.history[|s.history|..], calls, 0, outcomes)
            && s'.state == match FailureOf(|s'.history| - |s.history|, outcomes)
                           case None => Thinking
                           case Some(message) => State.Error(message)
  {
    hide Execute, NewestBatch;
    TickCases(s, input);
    var calls := NewestBatch(s.history);
    ExecuteAnswers(calls, 0, input.outcomes);
    var e := Execute(calls, 0, input.outcomes);
    assert (s.history + e.results)[|s.history|..] == e.results;
  }

  // ----- Ids over whole runs -----

  predicate BatchesHaveIds(h: History) {
    forall m | m in h && IsBatch(m) :: HaveIds(m.content.calls)
  }

  predicate NoBatches(ms: History) {
    forall m | m in ms :: !IsBatch(m)
  }

  lemma CompactedHasIds(h: History, max: nat, notice: Message)
    requires CanCompact(h, max) && BatchesHaveIds(h) && !IsBatch(notice)
    ensures BatchesHaveIds(Compacted(h, max, notice))
  {
    hide FirstUser;
    FirstUserRole(h);
  }

  lemma {:induction false} ExecuteHoldsNoBatch(calls: seq<ToolCall>, i: nat, outcomes: nat -> ToolOutcome)
    requires i <= |calls|
    ensures NoBatches(Execute(calls, i, outcomes).results)
    decreases |calls| - i
  {
    if i < |calls| && !Fatal(outcomes(i)) {
      ExecuteHoldsNoBatch(calls, i + 1, outcomes);
    }
  }

  lemma ThinkHasIds(s: Session, input: TickInput)
    requires BatchesHaveIds(s.history)
    ensures BatchesHaveIds(Think(s, input).session.history)
  {
    hide Compacted, RequestedTools, AnyNeedsApproval, Charge;
    CompactedHasIds(s.history, CompactionLimit(s.history), Notice(input.stamp));
    ThinkCases(s, input);
    if input.reply.Ok? {
      assert HaveIds(RequestedTools(input.reply.value)) by { RequestedHaveIds(input.reply.value); }
    }
  }

  lemma RequestedHaveIds(reply: LlmReply)
    ensures HaveIds(RequestedTools(reply))
  {
  }

  predicate PendingHaveIds(s: Session) {
    s.state.AwaitingApproval? ==> HaveIds(s.state.pending)
  }

  lemma StepPendingIds(s: Session, e: Event)
    requires PendingHaveIds(s)
    ensures PendingHaveIds(React(s, e).session)
  {
    hide Compacted, Execute, NewestBatch, RequestedTools, AnyNeedsApproval, Charge;
    if e.DoTick? {
      TickCases(s, e.input);
      if Thinks(s) {
        ThinkCases(s.(state := Thinking), e.input);
        if e.input.reply.Ok? {
          RequestedHaveIds(e.input.reply.value);
        }
      }
    } else if IsSingleDecision(s, e) {
      assert forall t | t in Without(s.state.pending, e.index) :: t in s.state.pending;
    }
  }

  lemma StepHasIds(s: Session, e: Event)
    requires BatchesHaveIds(s.history)
    ensures BatchesHaveIds(React(s, e).session.history)
  {
    hide Think, Execute, NewestBatch, Compacted;
    if e.DoTick? {
      TickCases(s, e.input);
      if Thinks(s) {
        ThinkHasIds(s.(state := Thinking), e.input);
      } else if Executes(s) {
        ExecuteHoldsNoBatch(NewestBatch(s.history), 0, e.input.outcomes);
      }
    }
  }

  /** In every reachable session all calls carry an id, those in the history and those waiting. */
  lemma {:induction false} RunHasIds(max: nat, budget: nat, text: string, stamp: string, events: seq<Event>)
    ensures BatchesHaveIds(RunOf(Start(max, budget, text, stamp), events).session.history)
    ensures PendingHaveIds(RunOf(Start(max, budget, text, stamp), events).session)
  {
    hide React, BatchesHaveIds, PendingHaveIds;
    NewSessionHasIds(max, budget, text, stamp);
    if events != [] {
      var front, e := events[..|events| - 1], events[|events| - 1];
      RunHasIds(max, budget, text, stamp, front);
      StepHasIds(RunOf(Start(max, budget, text, stamp), front).session, e);
      StepPendingIds(RunOf(Start(max, budget, text, stamp), front).session, e);
    }
  }

  lemma NewSessionHasIds(max: nat, budget: nat, text: string, stamp: string)
    ensures BatchesHaveIds(Start(max, budget, text, stamp).session.history)
    ensures PendingHaveIds(Start(max, budget, text, stamp).session)
  {
  }

  /** In every reachable session that executes, a tick stores the answer of each tool it runs under the
      id and the name of its call, and runs the calls of the newest batch up to the first failure that
      is not retried. */
  lemma AnswersReachTheHistory(max: nat, budget: nat, text: string, stamp: string, events: seq<Event>, input: TickInput)
    requires Executes(RunOf(Start(max, budget, text, stamp), events).session)
    ensures var s := RunOf(Start(max, budget, text, stamp), events).session;
            var h := Tick(s, input).session.history;
            s.history < h && AreAnswers(h[|s.history|..], NewestBatch(s.history), 0, input.outcomes)
  {
    hide Tick, NewestBatch, RunOf, AreAnswers;
    var s := RunOf(Start(max, budget, text, stamp), events).session;
    RunHasIds(max, budget, text, stamp, events);
    ExecutingHasBatch(max, budget, text, stamp, events);
    NewestHasIds(s.history);
    TickStoresAnswers(s, input);
  }

  lemma {:induction false} NewestHasIds(h: History)
    requires BatchesHaveIds(h)
    ensures HaveIds(NewestBatch(h))
  {
    if h != [] && !IsBatch(h[|h| - 1]) {
      NewestHasIds(h[..|h| - 1]);
    }
  }

  lemma ExecutingHasBatch(max: nat, budget: nat, text: string, stamp: string, events: seq<Event>)
    requires Executes(RunOf(Start(max, budget, text, stamp), events).session)
    ensures NewestBatch(RunOf(Start(max, budget, text, stamp), events).session.history) != []
  {
    RunsAreGranted(max, budget, text, stamp, events);
  }

  // ----- Decisions -----

  /** The one tool approved leaves its own answer, and the other tools go on waiting. */
  lemma ApprovedToolIsAnswered(s: Session, i: nat, outcome: ToolOutcome)
    requires s.state.AwaitingApproval? && i < |s.state.pending| && HaveIds(s.state.pending)
    ensures var pending, s' := s.state.pending, React(s, ApproveOne(i, outcome)).session;
            && |s'.history| == |s.history| + 1 && s.history < s'.history
            && Answer(s'.history[|s.history|], pending[i], outcome.text, outcome.success)
            && s'.state == if |pending| == 1 then Thinking else AwaitingApproval(pending[..i] + pending[i + 1..])
  {
    assert s.state.pending[i] in s.state.pending;
  }

  const REFUSAL := "User rejected executing this tool. Please try a different approach or ask for clarification."

  /** The one tool rejected leaves a failed answer in the user's name. */
  lemma RejectedToolIsAnswered(s: Session, i: nat, stamp: string)
    requires s.state.AwaitingApproval? && i < |s.state.pending| && HaveIds(s.state.pending)
    ensures var pending, s' := s.state.pending, React(s, RejectOne(i, stamp)).session;
            && |s'.history| == |s.history| + 1 && s.history < s'.history
            && Answer(s'.history[|s.history|], pending[i], REFUSAL, false)
            && s'.state == if |pending| == 1 then Thinking else AwaitingApproval(pending[..i] + pending[i + 1..])
  {
    assert s.state.pending[i] in s.state.pending;
  }

  /** Rejecting all leaves one failed answer for each tool waiting, in order. */
  lemma RejectedToolsAreAnswered(s: Session, stamp: string)
    requires s.state.AwaitingApproval? && HaveIds(s.state.pending)
    ensures var pending, s' := s.state.pending, React(s, RejectAll(stamp)).session;
            && |s'.history| == |s.history| + |pending| && s.history <= s'.history
            && (forall k | 0 <= k < |pending| :: Answer(s'.history[|s.history| + k], pending[k], REFUSAL, false))
            && s'.state == Thinking
  {
    var pending := s.state.pending;
    forall k | 0 <= k < |pending| ensures pending[k].callId.Some? {
      assert pending[k] in pending;
    }
  }

  // ----- The model -----

  /** All the text of a history that is paid for, one message after the other. */
  function AllText(h: History): string {
    if h == [] then "" else AllText(h[..|h| - 1]) + PaidText(h[|h| - 1].content)
  }

  function PaidText(c: Content): string {
    match c
    case Text(t) => t
    case ToolCalls(calls, reply) => CallsText(calls) + (if reply.Some? then reply.value else "")
    case ToolResult(_, _, result, _) => result
  }

  function CallsText(calls: seq<ToolCall>): string {
    if calls == [] then ""
    else CallsText(calls[..|calls| - 1]) + calls[|calls| - 1].name + calls[|calls| - 1].rawArguments
  }

  lemma {:induction false} CallsTextLength(calls: seq<ToolCall>)
    ensures Utf8.ByteLength(CallsText(calls)) == CallsLength(calls)
  {
    if calls != [] {
      var front, last := calls[..|calls| - 1], calls[|calls| - 1];
      CallsTextLength(front);
      Utf8.ByteLengthAppend(CallsText(front), last.name);
      Utf8.ByteLengthAppend(CallsText(front) + last.name, last.rawArguments);
    }
  }

  lemma PaidTextLength(c: Content)
    ensures Utf8.ByteLength(PaidText(c)) == ContentLength(c)
  {
    if c.ToolCalls? {
      CallsTextLength(c.calls);
      Utf8.ByteLengthAppend(CallsText(c.calls), if c.reply.Some? then c.reply.value else "");
    }
  }

  lemma {:induction false} AllTextLength(h: History)
    ensures Utf8.ByteLength(AllText(h)) == HistoryLength(h)
  {
    if h != [] {
      AllTextLength(h[..|h| - 1]);
      PaidTextLength(h[|h| - 1].content);
      Utf8.ByteLengthAppend(AllText(h[..|h| - 1]), PaidText(h[|h| - 1].content));
    }
  }

  /** A call costs a quarter of the bytes of what is sent, and a quarter of those of the answer. */
  lemma ChargeIsQuarterOfText(prompt: string, h: History, reply: LlmReply)
    ensures Charge(prompt, h, reply) == Utf8.ByteLength(prompt + AllText(h)) / 4 + Utf8.ByteLength(reply.rawText) / 4
  {
    AllTextLength(h);
    Utf8.ByteLengthAppend(prompt, AllText(h));
  }

  /** What the model is sent: the history, cut as for forty messages when it holds more than eighty. */
  function Sent(h: History, stamp: string): History {
    if |h| > 80 then Compacted(h, 40, Notice(stamp)) else h
  }

  lemma SentIsCompacted(h: History, stamp: string)
    ensures Sent(h, stamp) == Compacted(h, CompactionLimit(h), Notice(stamp))
  {
  }

  /** The calls asked for, with the missing and the empty ids numbered by position. */
  predicate AreNumbered(tools: seq<ToolCall>, asked: seq<ToolCall>) {
    && |tools| == |asked|
    && forall k | 0 <= k < |asked| ::
         if asked[k].callId == None || asked[k].callId == Some("")
         then tools[k] == ToolCall(asked[k].name, asked[k].rawArguments, Some("call_" + Decimals.Print(k)))
         else tools[k] == asked[k]
  }

  /** The tools that run unasked. */
  predicate IsRead(name: string) {
    || name == "check_port" || name == "read_file" || name == "get_project_files"
    || name == "scan_directory_tree" || name == "scan_subdirectory" || name == "search_files"
    || name == "extract_symbol" || name == "read_file_range" || name == "search_symbol"
    || name == "search_memory"
  }

  /** A batch is run unasked exactly when it holds nothing but the ten reading tools. */
  lemma UnaskedIff(tools: seq<ToolCall>)
    ensures !AnyNeedsApproval(tools) <==> forall t | t in tools :: IsRead(t.name)
  {
    forall t ensures NeedsApproval(t, false, true, false) <==> !IsRead(t.name) {
      ReadsAreTen(t.name);
    }
  }

  lemma ReadsAreTen(name: string)
    ensures name in READ_TOOLS <==> IsRead(name)
  {
  }

  /** A call that fails ends the run and costs nothing. */
  lemma FailedCallEndsRun(s: Session, input: TickInput)
    requires Thinks(s) && input.reply.Err?
    ensures var o := Tick(s, input);
            && o.session == s.(history := Sent(s.history, input.stamp), state := State.Error(input.reply.error))
            && o.result == ErrorResult("LLM call failed: " + input.reply.error, s.iterationCount + 1)
  {
    hide Compacted;
    SentIsCompacted(s.history, input.stamp);
    TickCases(s, input);
  }

  /** A call that uses up the budget ends the run before its answer is looked at. */
  lemma LastChargeEndsRun(s: Session, input: TickInput)
    requires Thinks(s) && input.reply.Ok?
    requires var sent, reply := Sent(s.history, input.stamp), input.reply.value;
             s.tokenBudget <= Utf8.ByteLength(input.prompt + AllText(sent)) / 4 + Utf8.ByteLength(reply.rawText) / 4
    ensures var s' := Tick(s, input).session;
            && s' == Session(Sent(s.history, input.stamp), s'.state, s.iterationCount + 1, s.maxIterations, 0)
            && s'.state == State.Error("Token budget exhausted! Self-healing loop broken to prevent excessive costs.")
  {
    hide Compacted, Charge, AllText, RequestedTools, AnyNeedsApproval;
    SentIsCompacted(s.history, input.stamp);
    ChargeIsQuarterOfText(input.prompt, Sent(s.history, input.stamp), input.reply.value);
    TickCases(s, input);
  }

  /** An answer that can be paid for is appended: as the final text when it asks for no tools, and
      otherwise as a batch, which runs unasked or waits. Calls the model returned as such come before
      those found in its text. */
  lemma AnswerIsFollowed(s: Session, input: TickInput)
    requires Thinks(s) && input.reply.Ok?
    requires var sent, reply := Sent(s.history, input.stamp), input.reply.value;
             s.tokenBudget > Utf8.ByteLength(input.prompt + AllText(sent)) / 4 + Utf8.ByteLength(reply.rawText) / 4
    ensures var sent, reply, s' := Sent(s.history, input.stamp), input.reply.value, Tick(s, input).session;
            var asked := if reply.toolCalls != [] then reply.toolCalls else reply.parsedCalls;
            var charge := Utf8.ByteLength(input.prompt + AllText(sent)) / 4 + Utf8.ByteLength(reply.rawText) / 4;
            && s' == Session(s'.history, s'.state, s.iterationCount + 1, s.maxIterations, s.tokenBudget - charge)
            && |s'.history| == |sent| + 1 && sent < s'.history
            && s'.history[|sent|].role == Assistant
            && (asked == [] ==>
                  && s'.history[|sent|].content ==
                        Text(if reply.text.Some? then reply.text.value else "Task completed.")
                  && s'.state == Finished(s'.history[|sent|].content.text))
            && (asked != [] ==>
                  && s'.history[|sent|].content.ToolCalls?
                  && s'.history[|sent|].content.reply == reply.text
                  && AreNumbered(s'.history[|sent|].content.calls, asked)
                  && s'.state == if forall t | t in asked :: IsRead(t.name) then ExecutingTool
                                 else AwaitingApproval(s'.history[|sent|].content.calls))
  {
    hide Compacted, Charge, AllText, AnyNeedsApproval, IsRead;
    var reply := input.reply.value;
    var asked := if reply.toolCalls != [] then reply.toolCalls else reply.parsedCalls;
    var tools := RequestedTools(reply);
    SentIsCompacted(s.history, input.stamp);
    ChargeIsQuarterOfText(input.prompt, Sent(s.history, input.stamp), reply);
    TickCases(s, input);
    AreNumberedCalls(asked);
    UnaskedIff(tools);
    SameNames(tools, asked);
  }

  lemma AreNumberedCalls(asked: seq<ToolCall>)
    ensures AreNumbered(WithCallIds(asked), asked)
  {
  }

  lemma SameNames(tools: seq<ToolCall>, asked: seq<ToolCall>)
    requires AreNumbered(tools, asked)
    ensures (forall t | t in tools :: IsRead(t.name)) <==> (forall t | t in asked :: IsRead(t.name))
  {
    hide IsRead;
    assert forall k | 0 <= k < |asked| :: tools[k].name == asked[k].name && tools[k] in tools && asked[k] in asked;
  }

  // ----- The other states, and the user's words -----

  /** Before anything else a tick ends a run whose budget or iterations are used up. */
  lemma UsedUpRunsEnd(s: Session, input: TickInput)
    ensures s.tokenBudget == 0 ==>
              && Tick(s, input).session == s.(state := State.Error(
                   "Token budget exhausted! Self-healing loop broken to prevent excessive costs."))
              && Tick(s, input).result == ErrorResult(
                   "Token budget exhausted! Self-healing loop broken to prevent excessive costs.", s.iterationCount)
    ensures s.tokenBudget > 0 && s.iterationCount >= s.maxIterations ==>
              var text := "Đạt giới hạn vòng lặp (" + Decimals.Print(s.maxIterations) + " iterations)";
              && Tick(s, input).session == s.(state := Finished(text))
              && Tick(s, input).result == FinishedResult(text, s.iterationCount)
  {
    hide Think, ExecuteNewest;
  }

  /** A tick waits with the tools that wait, repeats how the run has ended, and takes a run to be
      verified as finished. */
  lemma QuietStatesStay(s: Session, input: TickInput)
    requires Live(s)
    ensures s.state.AwaitingApproval? ==>
              Tick(s, input) == Outcome(s, WaitForApproval(s.state.pending, s.iterationCount), NO_EFFECTS)
    ensures s.state.Finished? ==>
              Tick(s, input) == Outcome(s, FinishedResult(s.state.text, s.iterationCount), NO_EFFECTS)
    ensures s.state.Error? ==> Tick(s, input) == Outcome(s, ErrorResult(s.state.message, s.iterationCount), NO_EFFECTS)
    ensures s.state.Verifying? ==>
              Tick(s, input) == Outcome(s.(state := Finished("Task verified.")),
                                        FinishedResult("Task verified.", s.iterationCount), NO_EFFECTS)
  {
    hide Think, ExecuteNewest;
  }

  /** What the user writes is appended as it stands, and so is the reminder of a new workspace. */
  lemma WordsAreStored(s: Session, text: string, stamp: string)
    ensures React(s, Send(text, stamp)).session ==
            s.(history := s.history + [Message("usr_" + stamp, User, Text(text))],
               state := if s.state.AwaitingApproval? then s.state else Idle)
    ensures React(s, SwitchWorkspace(text, stamp)).session ==
            s.(history := s.history + [Message("sys_" + stamp, User, Text(
              "<system-reminder>Workspace changed to " + text + ". Previous file paths from other "
              + "projects are no longer accessible.</system-reminder>"))])
  {
    hide Tick;
  }

  /** What the model is told about a history that was cut. */
  lemma NoticeTells(stamp: string)
    ensures Notice(stamp) == Message("sys_compact_" + stamp, System, Text(
              "[System Notice: Older tool execution history has been truncated to preserve context length. "
              + "The original user request is preserved above. If you forgot any information, you can use "
              + "research tools to find it again.]"))
  {
  }
}
