/** The opening request survives every compaction, and what else is kept is an end of the
    transcript. */
module AgentTranscript {
  import opened Wrappers
  import opened AgentMessages
  import opened AgentCompaction
  import opened AgentTick
  import opened AgentRuns

  predicate CallsAvoid(calls: seq<ToolCall>, id: string) {
    forall t | t in calls :: t.callId != Some(id)
  }

  predicate BatchesAvoid(h: History, id: string) {
    forall m | m in h && IsBatch(m) :: CallsAvoid(m.content.calls, id)
  }

  /** The event gives out no id equal to that of the message opened with `stamp`: the model does
      not name it as a call id, and no other user message is sent at the same instant. */
  predicate AvoidsId(e: Event, stamp: string) {
    match e
    case DoTick(input) => input.reply.Ok? ==> CallsAvoid(RequestedTools(input.reply.value), "usr_" + stamp)
    case Send(_, other) => other != stamp
    case _ => true
  }

  predicate Avoid(ms: History, id: string) {
    && (forall m | m in ms :: m.id != id)
    && BatchesAvoid(ms, id)
  }

  ghost predicate Kept(h: History, log: History, stamp: string) {
    && Retains(h, log)
    && Anchored(log)
    && log[0].id == "usr_" + stamp
    && BatchesAvoid(log, "usr_" + stamp)
  }

  lemma PrefixesDiffer(stamp: string, other: string)
    ensures "usr_" + stamp != "model_" + other
    ensures "usr_" + stamp != "sys_compact_" + other
    ensures "usr_" + stamp != "sys_" + other
    ensures "usr_" + stamp != "tool_" + other
    ensures "usr_" + stamp != "unknown"
    ensures other != stamp ==> "usr_" + stamp != "usr_" + other
  {
    var id := "usr_" + stamp;
    assert id[0] == 'u' && id[1] == 's' && id[4..] == stamp;
    assert ("model_" + other)[0] == 'm' && ("sys_compact_" + other)[0] == 's'
        && ("sys_" + other)[0] == 's' && ("tool_" + other)[0] == 't';
    assert ("usr_" + other)[4..] == other;
  }

  lemma {:induction false} NewestIsInHistory(h: History)
    ensures NewestBatch(h) == [] || exists m :: m in h && IsBatch(m) && m.content.calls == NewestBatch(h)
  {
    if h != [] && !IsBatch(h[|h| - 1]) {
      NewestIsInHistory(h[..|h| - 1]);
    }
  }

  /** Calls about to run were requested in the transcript. */
  lemma NewestAvoids(h: History, log: History, stamp: string)
    requires Kept(h, log, stamp)
    ensures CallsAvoid(NewestBatch(h), "usr_" + stamp)
  {
    NewestIsInHistory(h);
    if NewestBatch(h) != [] {
      var m :| m in h && IsBatch(m) && m.content.calls == NewestBatch(h);
      if h != log {
        var k: nat, n: Message :| RetainsFrom(h, log, k, n);
      }
      assert m in log;
    }
  }

  lemma {:induction false} ExecuteAvoids(calls: seq<ToolCall>, i: nat, outcomes: nat -> ToolOutcome, stamp: string)
    requires i <= |calls| && CallsAvoid(calls, "usr_" + stamp)
    ensures Avoid(Execute(calls, i, outcomes).results, "usr_" + stamp)
    decreases |calls| - i
  {
    if i < |calls| {
      PrefixesDiffer(stamp, "");
      assert calls[i] in calls;
      if !Fatal(outcomes(i)) {
        ExecuteAvoids(calls, i + 1, outcomes, stamp);
      }
    }
  }

  /** What waits or runs was asked for behind the opening message, under other ids. */
  predicate Asked(s: Session, log: History, stamp: string) {
    && (s.state.AwaitingApproval? || s.state.ExecutingTool? ==> |log| > 1)
    && (s.state.AwaitingApproval? ==> CallsAvoid(s.state.pending, "usr_" + stamp))
  }

  lemma AppendedAvoids(s: Session, log: History, e: Event, stamp: string)
    requires Kept(s.history, log, stamp) && Asked(s, log, stamp) && AvoidsId(e, stamp)
    ensures Avoid(React(s, e).effects.appended, "usr_" + stamp)
  {
    hide Tick, NewestBatch, Kept;
    NewestAvoids(s.history, log, stamp);
    if e.DoTick? {
      TickAvoids(s, e.input, stamp);
    } else {
      UserEventAvoids(s, e, stamp);
    }
  }

  lemma RejectionsAvoid(pending: seq<ToolCall>, other: string, stamp: string)
    requires CallsAvoid(pending, "usr_" + stamp)
    ensures Avoid(Rejections(pending, other), "usr_" + stamp)
  {
    PrefixesDiffer(stamp, other);
    forall m | m in Rejections(pending, other) ensures m.id != "usr_" + stamp {
      var i :| 0 <= i < |pending| && m == Rejections(pending, other)[i];
      assert pending[i] in pending;
    }
  }

  lemma OneAvoids(m: Message, id: string)
    requires m.id != id && !IsBatch(m)
    ensures Avoid([m], id)
  {
  }

  lemma UserEventAvoids(s: Session, e: Event, stamp: string)
    requires s.state.AwaitingApproval? ==> CallsAvoid(s.state.pending, "usr_" + stamp)
    requires !e.DoTick? && AvoidsId(e, stamp)
    ensures Avoid(React(s, e).effects.appended, "usr_" + stamp)
  {
    hide Tick, Avoid, Rejections;
    assert Avoid([], "usr_" + stamp) by { NoneAvoids("usr_" + stamp); }
    match e
    case ApproveAll =>
    case RejectAll(other) =>
      if s.state.AwaitingApproval? {
        RejectionsAvoid(s.state.pending, other, stamp);
      }
    case ApproveOne(_, _) =>
      if IsSingleDecision(s, e) {
        PrefixesDiffer(stamp, "");
        OneAvoids(DecisionResult(s, e), "usr_" + stamp);
      }
    case RejectOne(_, other) =>
      if IsSingleDecision(s, e) {
        PrefixesDiffer(stamp, other);
        OneAvoids(DecisionResult(s, e), "usr_" + stamp);
      }
    case Send(text, other) =>
      PrefixesDiffer(stamp, other);
      OneAvoids(UserMessage(text, other), "usr_" + stamp);
    case SwitchWorkspace(path, other) =>
      PrefixesDiffer(stamp, other);
      OneAvoids(WorkspaceMessage(path, other), "usr_" + stamp);
  }

  lemma NoneAvoids(id: string)
    ensures Avoid([], id)
  {
  }

  /** Results are appended only while tools wait or run. */
  lemma AppendedIsNoResult(s: Session, e: Event)
    requires !s.state.AwaitingApproval? && !s.state.ExecutingTool?
    ensures forall m | m in React(s, e).effects.appended :: m.role != Tool
  {
    hide Compacted, Charge, AnyNeedsApproval, RequestedTools, Execute, NewestBatch;
    if e.DoTick? {
      TickCases(s, e.input);
    }
  }

  lemma StepAsked(s: Session, log: History, e: Event, stamp: string)
    requires log != [] && Asked(s, log, stamp) && AvoidsId(e, stamp)
    ensures Asked(React(s, e).session, log + React(s, e).effects.appended, stamp)
  {
    if e.DoTick? {
      TickAsked(s, log, e.input, stamp);
    } else if IsSingleDecision(s, e) {
      assert forall t | t in Without(s.state.pending, e.index) :: t in s.state.pending;
    }
  }

  lemma TickAsked(s: Session, log: History, input: TickInput, stamp: string)
    requires log != [] && Asked(s, log, stamp) && AvoidsId(DoTick(input), stamp)
    ensures var o := Tick(s, input); Asked(o.session, log + o.effects.appended, stamp)
  {
    hide Compacted, Charge, AnyNeedsApproval, RequestedTools, Execute, NewestBatch, CallsAvoid;
    TickCases(s, input);
  }

  lemma TickAvoids(s: Session, input: TickInput, stamp: string)
    requires CallsAvoid(NewestBatch(s.history), "usr_" + stamp) && AvoidsId(DoTick(input), stamp)
    ensures Avoid(Tick(s, input).effects.appended, "usr_" + stamp)
  {
    TickCases(s, input);
    if Executes(s) {
      ExecuteAvoids(NewestBatch(s.history), 0, input.outcomes, stamp);
    } else if Thinks(s) {
      ThinkAvoids(s.(state := Thinking), input, stamp);
    }
  }

  lemma ThinkAvoids(s: Session, input: TickInput, stamp: string)
    requires AvoidsId(DoTick(input), stamp)
    ensures Avoid(Think(s, input).effects.appended, "usr_" + stamp)
  {
    hide Compacted, Charge, AnyNeedsApproval, CallsAvoid, RequestedTools;
    PrefixesDiffer(stamp, input.stamp);
  }

  lemma StepKept(s: Session, log: History, e: Event, stamp: string)
    requires Kept(s.history, log, stamp) && Asked(s, log, stamp) && AvoidsId(e, stamp)
    ensures var x := React(s, e); Kept(x.session.history, log + x.effects.appended, stamp)
  {
    var x := React(s, e);
    StepAppends(s, e);
    AppendedAvoids(s, log, e, stamp);
    var log' := log + x.effects.appended;
    if |log| == 1 {
      AppendedIsNoResult(s, e);
    }
    forall i | 0 < i < |log'| ensures log'[i].id != log'[0].id {
      if i >= |log| { assert log'[i] in x.effects.appended; }
    }
    if e.DoTick? && Thinks(s) {
      PrefixesDiffer(stamp, e.input.stamp);
      RetainsCompacted(s.history, log, CompactionLimit(s.history), Notice(e.input.stamp));
      RetainsAppend(Compacted(s.history, CompactionLimit(s.history), Notice(e.input.stamp)), log, x.effects.appended);
    } else {
      RetainsAppend(s.history, log, x.effects.appended);
    }
  }

  ghost predicate AvoidsThroughout(events: seq<Event>, stamp: string) {
    forall e | e in events :: AvoidsId(e, stamp)
  }

  /** At every moment of a run the history is the transcript, or the opening message, one notice
      and an end of the transcript that does not begin with a tool result; and no other message
      of the transcript carries the id of the opening one. */
  lemma {:induction false} TranscriptIsKept(max: nat, budget: nat, text: string, stamp: string, events: seq<Event>)
    requires AvoidsThroughout(events, stamp)
    ensures var r := RunOf(Start(max, budget, text, stamp), events);
            && Kept(r.session.history, r.log, stamp)
            && Asked(r.session, r.log, stamp)
            && r.log[0] == UserMessage(text, stamp)
  {
    var r := Start(max, budget, text, stamp);
    if events != [] {
      var front, e := events[..|events| - 1], events[|events| - 1];
      TranscriptIsKept(max, budget, text, stamp, front);
      StepKept(RunOf(r, front).session, RunOf(r, front).log, e, stamp);
      StepAsked(RunOf(r, front).session, RunOf(r, front).log, e, stamp);
    }
  }

  /** So the model is always given the opening request, in front, and at most once. */
  lemma RequestStaysInFront(max: nat, budget: nat, text: string, stamp: string, events: seq<Event>)
    requires AvoidsThroughout(events, stamp)
    ensures var h := RunOf(Start(max, budget, text, stamp), events).session.history;
            && h != []
            && h[0] == UserMessage(text, stamp)
            && forall i | 0 < i < |h| :: h[i] != UserMessage(text, stamp)
  {
    TranscriptIsKept(max, budget, text, stamp, events);
    var r := RunOf(Start(max, budget, text, stamp), events);
    if r.session.history != r.log {
      var k: nat, n: Message :| RetainsFrom(r.session.history, r.log, k, n);
    }
  }
}
