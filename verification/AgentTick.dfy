/** One step of the agent state machine, as a function of the session and of what the model
    and the tools answer. */
module AgentTick {
  import opened Wrappers
  import Decimals
  import Utf8
  import opened AgentMessages
  import opened AgentCompaction

  datatype State =
    | Idle
    | Thinking
    | ExecutingTool
    | AwaitingApproval(pending: seq<ToolCall>)
    | Verifying
    | Finished(text: string)
    | Error(message: string)

  datatype Session = Session(
    history: History,
    state: State,
    iterationCount: nat,
    maxIterations: nat,
    tokenBudget: nat)

  datatype TickResult =
    | Continue(firstTool: string, toolResult: Option<string>, iteration: nat)
    | WaitForApproval(tools: seq<ToolCall>, iteration: nat)
    | FinishedResult(text: string, totalIterations: nat)
    | ErrorResult(message: string, iteration: nat)

  /** A model reply; `parsedCalls` is what the text parser finds in `rawText`. */
  datatype LlmReply = LlmReply(
    text: Option<string>,
    toolCalls: seq<ToolCall>,
    rawText: string,
    parsedCalls: seq<ToolCall>)

  datatype ToolOutcome = ToolOutcome(success: bool, text: string, retryable: bool)

  /** Everything a tick learns from outside: the prompt, the model's answer, the outcome of the
      tools it runs, and the clock as the text it stamps into message ids. */
  datatype TickInput = TickInput(
    prompt: string,
    reply: Result<LlmReply, string>,
    outcomes: nat -> ToolOutcome,
    stamp: string)

  /** What a tick does to the outside: whether it called the model and was answered, what that
      cost, which batch it ran and how many calls of it, and which messages it appended. */
  datatype Effects = Effects(
    called: bool,
    charge: Option<nat>,
    batch: seq<ToolCall>,
    ran: nat,
    appended: History)

  datatype Outcome = Outcome(session: Session, result: TickResult, effects: Effects)

  const BUDGET_MESSAGE := "Token budget exhausted! Self-healing loop broken to prevent excessive costs."
  const NO_EFFECTS := Effects(false, None, [], 0, [])

  // ----- Policy -----

  const READ_TOOLS := {
    "check_port", "read_file", "get_project_files", "scan_directory_tree", "scan_subdirectory",
    "search_files", "extract_symbol", "read_file_range", "search_symbol", "search_memory"
  }
  const WRITE_TOOLS := {"write_file", "save_memory"}

  predicate NeedsApproval(tool: ToolCall, autoAll: bool, autoReads: bool, autoWrites: bool) {
    if autoAll then false
    else if autoReads && tool.name in READ_TOOLS then false
    else if autoWrites && (tool.name in READ_TOOLS || tool.name in WRITE_TOOLS) then false
    else true
  }

  /** The policy `tick` uses: only reads run unasked. */
  predicate AnyNeedsApproval(tools: seq<ToolCall>) {
    exists t | t in tools :: NeedsApproval(t, false, true, false)
  }

  predicate AllReadTools(tools: seq<ToolCall>) {
    forall t | t in tools :: t.name in READ_TOOLS
  }

  // ----- Tool calls of a reply -----

  function WithCallId(t: ToolCall, i: nat): ToolCall {
    if t.callId == None || t.callId == Some("") then t.(callId := Some("call_" + Decimals.Print(i)))
    else t
  }

  function WithCallIds(tools: seq<ToolCall>): (r: seq<ToolCall>)
    ensures |r| == |tools|
    ensures forall i | 0 <= i < |r| :: r[i].callId.Some? && r[i].callId != Some("") && r[i].name == tools[i].name
  {
    seq(|tools|, i requires 0 <= i < |tools| => WithCallId(tools[i], i))
  }

  function RequestedTools(reply: LlmReply): seq<ToolCall> {
    WithCallIds(if reply.toolCalls != [] then reply.toolCalls else reply.parsedCalls)
  }

  // ----- Cost -----

  function CallsLength(calls: seq<ToolCall>): nat {
    if calls == [] then 0
    else CallsLength(calls[..|calls| - 1]) + Utf8.ByteLength(calls[|calls| - 1].name)
         + Utf8.ByteLength(calls[|calls| - 1].rawArguments)
  }

  function ContentLength(c: Content): nat {
    match c
    case Text(t) => Utf8.ByteLength(t)
    case ToolCalls(calls, reply) => CallsLength(calls) + Utf8.ByteLength(reply.GetOr(""))
    case ToolResult(_, _, result, _) => Utf8.ByteLength(result)
  }

  function HistoryLength(h: History): nat {
    if h == [] then 0 else HistoryLength(h[..|h| - 1]) + ContentLength(h[|h| - 1].content)
  }

  function Charge(prompt: string, h: History, reply: LlmReply): nat {
    (Utf8.ByteLength(prompt) + HistoryLength(h)) / 4 + Utf8.ByteLength(reply.rawText) / 4
  }

  function SaturatingSub(a: nat, b: nat): nat {
    if a >= b then a - b else 0
  }

  // ----- Messages -----

  function ModelMessage(stamp: string, content: Content): Message {
    Message("model_" + stamp, Assistant, content)
  }

  function ResultMessage(call: ToolCall, result: string, success: bool): Message {
    var id := call.callId.GetOr("unknown");
    Message(id, Tool, ToolResult(id, call.name, result, success))
  }

  // ----- Thinking -----

  function CompactionLimit(h: History): nat {
    if |h| > 80 then 40 else 80
  }

  function Think(s: Session, input: TickInput): Outcome {
    var h := Compacted(s.history, CompactionLimit(s.history), Notice(input.stamp));
    var iteration := s.iterationCount + 1;
    match input.reply
    case Err(e) =>
      Outcome(s.(history := h, state := Error(e)),
              ErrorResult("LLM call failed: " + e, iteration),
              Effects(true, None, [], 0, []))
    case Ok(reply) =>
      var charge := Charge(input.prompt, h, reply);
      var s1 := s.(history := h, iterationCount := iteration, tokenBudget := SaturatingSub(s.tokenBudget, charge));
      if s1.tokenBudget == 0 then
        Outcome(s1.(state := Error(BUDGET_MESSAGE)), ErrorResult(BUDGET_MESSAGE, iteration),
                Effects(true, Some(charge), [], 0, []))
      else
        var tools := RequestedTools(reply);
        if tools != [] then
          var m := ModelMessage(input.stamp, ToolCalls(tools, reply.text));
          var s2 := s1.(history := h + [m]);
          var effects := Effects(true, Some(charge), [], 0, [m]);
          if AnyNeedsApproval(tools) then
            Outcome(s2.(state := AwaitingApproval(tools)), WaitForApproval(tools, iteration), effects)
          else
            Outcome(s2.(state := ExecutingTool), Continue(tools[0].name, None, iteration), effects)
        else
          var text := reply.text.GetOr("Task completed.");
          var m := ModelMessage(input.stamp, Text(text));
          Outcome(s1.(history := h + [m], state := Finished(text)), FinishedResult(text, iteration),
                  Effects(true, Some(charge), [], 0, [m]))
  }

  // ----- Executing -----

  /** The results appended by running `calls` from number `i` on, and the error that stopped it. */
  datatype Execution = Execution(results: History, failure: Option<string>)

  predicate Fatal(o: ToolOutcome) {
    !o.success && !o.retryable
  }

  function FatalMessage(o: ToolOutcome): string {
    "Environmental or non-retryable error encountered: " + o.text
  }

  function Execute(calls: seq<ToolCall>, i: nat, outcomes: nat -> ToolOutcome): (e: Execution)
    requires i <= |calls|
    ensures |e.results| <= |calls| - i
    decreases |calls| - i
  {
    if i == |calls| then Execution([], None)
    else
      var m := ResultMessage(calls[i], outcomes(i).text, outcomes(i).success);
      if Fatal(outcomes(i)) then Execution([m], Some(FatalMessage(outcomes(i))))
      else
        var rest := Execute(calls, i + 1, outcomes);
        Execution([m] + rest.results, rest.failure)
  }

  function ExecuteNewest(s: Session, input: TickInput): Outcome {
    var calls := NewestBatch(s.history);
    if calls == [] then
      Outcome(s.(state := Error("ExecutingTool state but no tool calls found in history")),
              ErrorResult("No tool calls to execute", s.iterationCount), NO_EFFECTS)
    else
      var e := Execute(calls, 0, input.outcomes);
      var s1 := s.(history := s.history + e.results);
      var effects := Effects(false, None, calls, |e.results|, e.results);
      if e.failure.Some? then
        Outcome(s1.(state := Error(e.failure.value)), ErrorResult(e.failure.value, s.iterationCount), effects)
      else
        Outcome(s1.(state := Thinking), Continue(calls[0].name, Some("Executed tools"), s.iterationCount), effects)
  }

  // ----- The step -----

  function LimitMessage(max: nat): string {
    "Đạt giới hạn vòng lặp (" + Decimals.Print(max) + " iterations)"
  }

  function Tick(s: Session, input: TickInput): Outcome
    decreases s.state.Idle?
  {
    if s.tokenBudget == 0 then
      Outcome(s.(state := Error(BUDGET_MESSAGE)), ErrorResult(BUDGET_MESSAGE, s.iterationCount), NO_EFFECTS)
    else if s.iterationCount >= s.maxIterations then
      var text := LimitMessage(s.maxIterations);
      Outcome(s.(state := Finished(text)), FinishedResult(text, s.iterationCount), NO_EFFECTS)
    else
      match s.state
      case Idle => Tick(s.(state := Thinking), input)
      case Thinking => Think(s, input)
      case ExecutingTool => ExecuteNewest(s, input)
      case AwaitingApproval(pending) =>
        Outcome(s, WaitForApproval(pending, s.iterationCount), NO_EFFECTS)
      case Finished(text) => Outcome(s, FinishedResult(text, s.iterationCount), NO_EFFECTS)
      case Error(message) => Outcome(s, ErrorResult(message, s.iterationCount), NO_EFFECTS)
      case Verifying =>
        var text := "Task verified.";
        Outcome(s.(state := Finished(text)), FinishedResult(text, s.iterationCount), NO_EFFECTS)
  }
}
