/** Whole runs of a session: ticks interleaved with the decisions and messages of its user. */
module AgentRuns {
  import opened Wrappers
  import opened AgentMessages
  import opened AgentCompaction
  import opened AgentTick

  datatype Event =
    | DoTick(input: TickInput)
    | ApproveAll
    | RejectAll(stamp: string)
    | ApproveOne(index: nat, outcome: ToolOutcome)
    | RejectOne(index: nat, stamp: string)
    | Send(text: string, stamp: string)
    | SwitchWorkspace(path: string, stamp: string)

  /** The session after an event, what the event did outside, and the tools it shows the user
      for approval. */
  datatype Reaction = Reaction(session: Session, effects: Effects,
      result: Option<TickResult>, shown: Option<seq<ToolCall>>)

  const REJECTION := "User rejected executing this tool. Please try a different approach or ask for clarification."

  function UserMessage(text: string, stamp: string): Message {
    Message("usr_" + stamp, User, Text(text))
  }

  /** The reminder left in the session, in the user's name, when another workspace is opened. */
  function WorkspaceMessage(path: string, stamp: string): Message {
    Message("sys_" + stamp, User,
            Text("<system-reminder>Workspace changed to " + path + ". Previous file paths from other "
                 + "projects are no longer accessible.</system-reminder>"))
  }

  function Rejection(call: ToolCall, stamp: string): Message {
    var id := call.callId.GetOr("tool_" + stamp);
    Message(id, Tool, ToolResult(id, call.name, REJECTION, false))
  }

  function Rejections(calls: seq<ToolCall>, stamp: string): (r: History)
    ensures |r| == |calls|
  {
    seq(|calls|, i requires 0 <= i < |calls| => Rejection(calls[i], stamp))
  }

  function Without<T>(s: seq<T>, i: nat): seq<T>
    requires i < |s|
  {
    s[..i] + s[i + 1..]
  }

  /** A decision on one pending tool: its result is appended, and the rest stays pending. */
  function Decide(s: Session, m: Message, effects: Effects, rest: seq<ToolCall>): Reaction {
    var s1 := s.(history := s.history + [m]);
    if rest != [] then Reaction(s1.(state := AwaitingApproval(rest)), effects, None, Some(rest))
    else Reaction(s1.(state := Thinking), effects, None, None)
  }

  function React(s: Session, e: Event): Reaction {
    match e
    case DoTick(input) =>
      var o := Tick(s, input);
      Reaction(o.session, o.effects, Some(o.result),
               if o.result.WaitForApproval? then Some(o.result.tools) else None)
    case ApproveAll =>
      Reaction(if s.state.AwaitingApproval? then s.(state := ExecutingTool) else s, NO_EFFECTS, None, None)
    case RejectAll(stamp) =>
      if !s.state.AwaitingApproval? then Reaction(s, NO_EFFECTS, None, None)
      else
        var ms := Rejections(s.state.pending, stamp);
        Reaction(s.(history := s.history + ms, state := Thinking), NO_EFFECTS.(appended := ms), None, None)
    case ApproveOne(i, o) =>
      if !s.state.AwaitingApproval? || i >= |s.state.pending| then Reaction(s, NO_EFFECTS, None, None)
      else
        var call := s.state.pending[i];
        var m := ResultMessage(call, o.text, o.success);
        Decide(s, m, Effects(false, None, [call], 1, [m]), Without(s.state.pending, i))
    case RejectOne(i, stamp) =>
      if !s.state.AwaitingApproval? then Reaction(s, NO_EFFECTS, None, None)
      else if i >= |s.state.pending| then Reaction(s.(state := Thinking), NO_EFFECTS, None, None)
      else
        var m := Rejection(s.state.pending[i], stamp);
        Decide(s, m, NO_EFFECTS.(appended := [m]), Without(s.state.pending, i))
    case Send(text, stamp) =>
      var m := UserMessage(text, stamp);
      Reaction(s.(history := s.history + [m], state := if s.state.AwaitingApproval? then s.state else Idle),
               NO_EFFECTS.(appended := [m]), None, None)
    case SwitchWorkspace(path, stamp) =>
      var m := WorkspaceMessage(path, stamp);
      Reaction(s.(history := s.history + [m]), NO_EFFECTS.(appended := [m]), None, None)
  }

  /** A session beside what its user and its bill have seen of it: every message ever appended,
      the tools shown last, the tools granted by the approval in force, whether a tool of the
      batch shown was decided on its own, and the counts of everything that costs something. */
  datatype Run = Run(
    session: Session,
    log: History,
    shown: Option<seq<ToolCall>>,
    granted: Option<seq<ToolCall>>,
    decided: bool,
    charges: seq<nat>,
    failedCalls: nat,
    continues: nat,
    sends: nat)

  function Start(max: nat, budget: nat, text: string, stamp: string): Run {
    var m := UserMessage(text, stamp);
    Run(Session([m], Idle, 0, max, budget), [m], None, None, false, [], 0, 0, 0)
  }

  predicate IsSingleDecision(s: Session, e: Event) {
    && s.state.AwaitingApproval?
    && (e.ApproveOne? || e.RejectOne?)
    && e.index < |s.state.pending|
  }

  /** The result a single decision appends. */
  function DecisionResult(s: Session, e: Event): Message
    requires IsSingleDecision(s, e)
  {
    var call := s.state.pending[e.index];
    if e.ApproveOne? then ResultMessage(call, e.outcome.text, e.outcome.success) else Rejection(call, e.stamp)
  }

  /** What user and bill note of a reaction. */
  function Noted(r: Run, e: Event, x: Reaction): Run {
    Run(x.session,
        r.log + x.effects.appended,
        if x.shown.Some? then x.shown else r.shown,
        if e.ApproveAll? && r.session.state.AwaitingApproval? then r.shown
        else if e.DoTick? || e.Send? then None
        else r.granted,
        if x.effects.called then false else r.decided || IsSingleDecision(r.session, e),
        if x.effects.charge.Some? then r.charges + [x.effects.charge.value] else r.charges,
        r.failedCalls + (if x.effects.called && x.effects.charge.None? then 1 else 0),
        r.continues + (if x.result.Some? && x.result.value.Continue? then 1 else 0),
        r.sends + (if e.Send? then 1 else 0))
  }

  function After(r: Run, e: Event): Run {
    Noted(r, e, React(r.session, e))
  }

  function RunOf(r: Run, events: seq<Event>): Run {
    if events == [] then r else After(RunOf(r, events[..|events| - 1]), events[|events| - 1])
  }

  /** A tick either thinks, or executes the newest batch, or leaves the history alone. */
  predicate Live(s: Session) {
    s.tokenBudget > 0 && s.iterationCount < s.maxIterations
  }

  predicate Thinks(s: Session) {
    Live(s) && (s.state.Idle? || s.state.Thinking?)
  }

  predicate Executes(s: Session) {
    Live(s) && s.state.ExecutingTool?
  }

  lemma TickCases(s: Session, input: TickInput)
    ensures Thinks(s) ==> Tick(s, input) == Think(s.(state := Thinking), input)
    ensures Executes(s) ==> Tick(s, input) == ExecuteNewest(s, input)
    ensures !Thinks(s) && !Executes(s) ==>
              var o := Tick(s, input);
              && o.effects == NO_EFFECTS
              && !o.result.Continue?
              && o.session == s.(state := o.session.state)
              && (o.session.state == s.state || o.session.state.Finished? || o.session.state.Error?)
  {
  }

  /** The history after an event is the history before it, compacted first if the event is a
      tick that calls the model, followed by what the event appended. */
  lemma StepAppends(s: Session, e: Event)
    ensures var x := React(s, e);
            var thought := e.DoTick? && Thinks(s);
            var kept := if thought then Compacted(s.history, CompactionLimit(s.history), Notice(e.input.stamp))
                        else s.history;
            x.session.history == kept + x.effects.appended && x.effects.called == thought
  {
    assert s.history + [] == s.history;
    if e.DoTick? {
      TickAppends(s, e.input);
    }
  }

  lemma TickAppends(s: Session, input: TickInput)
    ensures var o := Tick(s, input);
            var kept := if Thinks(s) then Compacted(s.history, CompactionLimit(s.history), Notice(input.stamp))
                        else s.history;
            o.session.history == kept + o.effects.appended && o.effects.called == Thinks(s)
  {
    hide Compacted, Execute, RequestedTools, AnyNeedsApproval, Charge, NewestBatch;
    TickCases(s, input);
    assert s.history + [] == s.history;
    var h := Compacted(s.history, CompactionLimit(s.history), Notice(input.stamp));
    assert h + [] == h;
  }
}
