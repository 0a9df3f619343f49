/** Where tool results stand in every reachable session, and what compaction keeps. */
module AgentPlacement {
  import opened Wrappers
  import opened AgentMessages
  import opened AgentCompaction
  import opened AgentTick
  import opened AgentRuns

  /** Every pending call can be answered as a call of the batch. */
  predicate DrawnFrom(pending: seq<ToolCall>, calls: seq<ToolCall>) {
    forall t | t in pending :: t in calls
  }

  predicate HaveIds(calls: seq<ToolCall>) {
    forall t | t in calls :: t.callId.Some?
  }

  /** Their results cannot be told apart by what they answer. */
  predicate SameCall(a: ToolCall, b: ToolCall) {
    a.name == b.name && a.callId == b.callId
  }

  /** What waits is what the first `done` results leave of the batch. */
  predicate IsRest(pending: seq<ToolCall>, calls: seq<ToolCall>, done: nat) {
    done + |pending| == |calls| && forall k | 0 <= k < |pending| :: SameCall(pending[k], calls[done + k])
  }

  /** What holds of a session between events: results are placed, and while tools wait or are
      about to run the newest batch closes the history. With `inOrder`, what waits is the rest of
      that batch, and what is about to run is all of it. */
  ghost predicate Placed(s: Session, inOrder: bool) {
    && WellPlaced(s.history, inOrder)
    && (s.state.ExecutingTool? || s.state.AwaitingApproval? ==>
          exists done: nat :: BatchIsOpen(s, done, inOrder))
  }

  ghost predicate BatchIsOpen(s: Session, done: nat, inOrder: bool) {
    var calls := NewestBatch(s.history);
    && EndsWithBatch(s.history, calls, done)
    && calls != []
    && HaveIds(calls)
    && (s.state.AwaitingApproval? ==> s.state.pending != [] && DrawnFrom(s.state.pending, calls))
    && (inOrder ==> if s.state.AwaitingApproval? then IsRest(s.state.pending, calls, done) else done == 0)
  }

  /** The tool at `i` is the next of those waiting, or cannot be told from it and from those
      between. */
  predicate IsNext(pending: seq<ToolCall>, i: nat)
    requires i < |pending|
  {
    forall k | 0 <= k <= i :: SameCall(pending[k], pending[0])
  }

  /** Events that keep results in place: anything but a message put behind a batch whose results
      are still to come. Results stay in call order when, besides, tools are decided in that order
      and a batch is approved as a whole only while none of it is decided. */
  predicate Keeps(s: Session, e: Event, inOrder: bool) {
    match e
    case Send(_, _) => !s.state.AwaitingApproval?
    case SwitchWorkspace(_, _) => !s.state.AwaitingApproval? && !s.state.ExecutingTool?
    case ApproveAll =>
      inOrder && s.state.AwaitingApproval? ==> |s.state.pending| == |NewestBatch(s.history)|
    case ApproveOne(i, _) => inOrder && IsSingleDecision(s, e) ==> IsNext(s.state.pending, i)
    case RejectOne(i, _) => inOrder && IsSingleDecision(s, e) ==> IsNext(s.state.pending, i)
    case _ => true
  }

  ghost predicate KeepsThroughout(r: Run, events: seq<Event>, inOrder: bool) {
    forall i | 0 <= i < |events| :: Keeps(RunOf(r, events[..i]).session, events[i], inOrder)
  }

  lemma NewestAppended(h: History, m: Message)
    ensures NewestBatch(h + [m]) == if IsBatch(m) then m.content.calls else NewestBatch(h)
  {
    assert (h + [m])[..|h|] == h;
  }

  // ----- Ticks -----

  /** Thinking ends in an error, a final text, or a batch that closes the history. */
  lemma ThinkCases(s: Session, input: TickInput)
    ensures var h := Compacted(s.history, CompactionLimit(s.history), Notice(input.stamp));
            var s' := Think(s, input).session;
            || (s'.history == h && s'.state.Error?)
            || (s'.state.Finished? && s'.history == h + [ModelMessage(input.stamp, Text(s'.state.text))])
            || (input.reply.Ok? && var tools := RequestedTools(input.reply.value);
                && tools != []
                && s'.history == h + [ModelMessage(input.stamp, ToolCalls(tools, input.reply.value.text))]
                && s'.state == if AnyNeedsApproval(tools) then AwaitingApproval(tools) else ExecutingTool)
  {
  }

  lemma ThinkPlaced(s: Session, input: TickInput, inOrder: bool)
    requires WellPlaced(s.history, inOrder)
    ensures Placed(Think(s, input).session, inOrder)
  {
    var h := Compacted(s.history, CompactionLimit(s.history), Notice(input.stamp));
    CompactedWellPlaced(s.history, CompactionLimit(s.history), Notice(input.stamp), inOrder);
    ThinkCases(s, input);
    var s' := Think(s, input).session;
    if s'.state.Finished? {
      AppendOther(h, ModelMessage(input.stamp, Text(s'.state.text)), inOrder);
    } else if s'.state.ExecutingTool? || s'.state.AwaitingApproval? {
      BatchPlaced(h, s', RequestedTools(input.reply.value), input.reply.value.text, input.stamp, inOrder);
    }
  }

  lemma BatchPlaced(h: History, s: Session, tools: seq<ToolCall>, reply: Option<string>, stamp: string, inOrder: bool)
    requires WellPlaced(h, inOrder) && tools != [] && HaveIds(tools)
    requires s.history == h + [ModelMessage(stamp, ToolCalls(tools, reply))]
    requires s.state == AwaitingApproval(tools) || s.state == ExecutingTool
    ensures Placed(s, inOrder)
  {
    var m := ModelMessage(stamp, ToolCalls(tools, reply));
    AppendOther(h, m, inOrder);
    NewestAppended(h, m);
    assert EndsWithBatch(s.history, tools, 0);
    assert BatchIsOpen(s, 0, inOrder);
  }

  lemma {:induction false} ExecutePlaced(h: History, calls: seq<ToolCall>, done: nat, i: nat,
                                        outcomes: nat -> ToolOutcome, inOrder: bool)
    requires WellPlaced(h, inOrder) && EndsWithBatch(h, calls, done) && HaveIds(calls)
    requires i <= |calls| && (inOrder ==> i == done)
    ensures WellPlaced(h + Execute(calls, i, outcomes).results, inOrder)
    decreases |calls| - i
  {
    var e := Execute(calls, i, outcomes);
    if i == |calls| {
      assert h + e.results == h;
    } else {
      var m := ResultMessage(calls[i], outcomes(i).text, outcomes(i).success);
      assert calls[i] in calls;
      AppendResult(h, calls, done, i, m, inOrder);
      if Fatal(outcomes(i)) {
        assert e.results == [m];
      } else {
        ExecutePlaced(h + [m], calls, done + 1, i + 1, outcomes, inOrder);
        assert h + e.results == h + [m] + Execute(calls, i + 1, outcomes).results;
      }
    }
  }

  lemma TickPlaced(s: Session, input: TickInput, inOrder: bool)
    requires Placed(s, inOrder)
    ensures Placed(Tick(s, input).session, inOrder)
  {
    TickCases(s, input);
    if Thinks(s) {
      ThinkPlaced(s.(state := Thinking), input, inOrder);
    } else if Executes(s) {
      var done: nat :| BatchIsOpen(s, done, inOrder);
      ExecutePlaced(s.history, NewestBatch(s.history), done, 0, input.outcomes, inOrder);
    } else {
      var s' := Tick(s, input).session;
      if s'.state.AwaitingApproval? || s'.state.ExecutingTool? {
        var done: nat :| BatchIsOpen(s, done, inOrder);
        assert BatchIsOpen(s', done, inOrder);
      }
    }
  }

  // ----- Decisions -----

  lemma {:induction false} RejectionsPlaced(h: History, calls: seq<ToolCall>, done: nat, pending: seq<ToolCall>, n: nat,
                                            stamp: string, inOrder: bool)
    requires WellPlaced(h, inOrder) && EndsWithBatch(h, calls, done) && HaveIds(calls)
    requires n <= |pending| && DrawnFrom(pending, calls)
    requires inOrder ==> IsRest(pending, calls, done)
    ensures var h' := h + Rejections(pending, stamp)[..n];
            WellPlaced(h', inOrder) && EndsWithBatch(h', calls, done + n)
  {
    if n == 0 {
      assert h + Rejections(pending, stamp)[..0] == h;
    } else {
      RejectionsPlaced(h, calls, done, pending, n - 1, stamp, inOrder);
      var call := pending[n - 1];
      assert call in calls;
      var found :| 0 <= found < |calls| && calls[found] == call;
      var k := if inOrder then done + n - 1 else found;
      AppendResult(h + Rejections(pending, stamp)[..n - 1], calls, done + n - 1, k, Rejection(call, stamp), inOrder);
      assert h + Rejections(pending, stamp)[..n] == h + Rejections(pending, stamp)[..n - 1] + [Rejection(call, stamp)];
    }
  }

  /** The call of the batch that a decision answers. */
  lemma AnsweredCall(pending: seq<ToolCall>, i: nat, m: Message, calls: seq<ToolCall>, done: nat, inOrder: bool)
    returns (k: nat)
    requires i < |pending| && DrawnFrom(pending, calls) && IsResultOf(m, pending[i])
    requires inOrder ==> IsNext(pending, i) && IsRest(pending, calls, done)
    ensures k < |calls| && IsResultOf(m, calls[k]) && (inOrder ==> k == done)
  {
    assert pending[i] in calls;
    var found :| 0 <= found < |calls| && calls[found] == pending[i];
    k := if inOrder then done else found;
  }

  lemma DecisionPlaced(s: Session, i: nat, m: Message, effects: Effects, inOrder: bool)
    requires Placed(s, inOrder) && s.state.AwaitingApproval? && i < |s.state.pending|
    requires IsResultOf(m, s.state.pending[i])
    requires inOrder ==> IsNext(s.state.pending, i)
    ensures Placed(Decide(s, m, effects, Without(s.state.pending, i)).session, inOrder)
  {
    hide WellPlaced, IsRest, IsNext, Without, DrawnFrom, EndsWithBatch;
    var calls, pending := NewestBatch(s.history), s.state.pending;
    var done: nat :| BatchIsOpen(s, done, inOrder);
    var k := AnsweredCall(pending, i, m, calls, done, inOrder);
    AppendResult(s.history, calls, done, k, m, inOrder);
    NewestAppended(s.history, m);
    RestWithout(pending, i, calls, done, inOrder);
    var s' := Decide(s, m, effects, Without(pending, i)).session;
    if s'.state.AwaitingApproval? {
      assert BatchIsOpen(s', done + 1, inOrder);
    }
  }

  lemma RestWithout(pending: seq<ToolCall>, i: nat, calls: seq<ToolCall>, done: nat, inOrder: bool)
    requires i < |pending| && DrawnFrom(pending, calls)
    requires inOrder ==> IsNext(pending, i) && IsRest(pending, calls, done)
    ensures DrawnFrom(Without(pending, i), calls)
    ensures inOrder ==> IsRest(Without(pending, i), calls, done + 1)
  {
    var rest := Without(pending, i);
    assert forall k | 0 <= k < |rest| :: rest[k] == if k < i then pending[k] else pending[k + 1];
    if inOrder {
      forall k | 0 <= k < |rest| ensures SameCall(rest[k], calls[done + 1 + k]) {
        assert SameCall(pending[k + 1], calls[done + (k + 1)]);
      }
    }
  }

  lemma PendingHasIds(s: Session, i: nat, inOrder: bool)
    requires Placed(s, inOrder) && s.state.AwaitingApproval? && i < |s.state.pending|
    ensures s.state.pending[i].callId.Some?
  {
    var done: nat :| BatchIsOpen(s, done, inOrder);
    assert s.state.pending[i] in NewestBatch(s.history);
  }

  lemma SingleDecisionPlaced(s: Session, e: Event, inOrder: bool)
    requires Placed(s, inOrder) && IsSingleDecision(s, e) && Keeps(s, e, inOrder)
    ensures Placed(React(s, e).session, inOrder)
  {
    PendingHasIds(s, e.index, inOrder);
    DecisionPlaced(s, e.index, DecisionResult(s, e), React(s, e).effects, inOrder);
  }

  lemma DecidedTogetherPlaced(s: Session, e: Event, inOrder: bool)
    requires Placed(s, inOrder) && (e.ApproveAll? || e.RejectAll?) && Keeps(s, e, inOrder)
    ensures Placed(React(s, e).session, inOrder)
  {
    if s.state.AwaitingApproval? {
      var done: nat :| BatchIsOpen(s, done, inOrder);
      if e.ApproveAll? {
        assert BatchIsOpen(React(s, e).session, done, inOrder);
      } else {
        var pending := s.state.pending;
        RejectionsPlaced(s.history, NewestBatch(s.history), done, pending, |pending|, e.stamp, inOrder);
        assert Rejections(pending, e.stamp)[..|pending|] == Rejections(pending, e.stamp);
      }
    }
  }

  /** A message of the user's behind a batch whose results are still to come cuts it off. */
  lemma MessagePlaced(s: Session, m: Message, s': Session, inOrder: bool)
    requires Placed(s, inOrder) && m.role == User
    requires s'.history == s.history + [m]
    ensures Placed(s', inOrder) <==> !s'.state.AwaitingApproval? && !s'.state.ExecutingTool?
  {
    AppendOther(s.history, m, inOrder);
    forall done: nat ensures !BatchIsOpen(s', done, inOrder) {
      assert s'.history[|s'.history| - 1].role == User;
    }
  }

  /** Whatever keeps its condition keeps results in place, and in order. */
  lemma KeepingIsPlaced(s: Session, e: Event, inOrder: bool)
    requires Placed(s, inOrder) && Keeps(s, e, inOrder)
    ensures Placed(React(s, e).session, inOrder)
  {
    match e
    case DoTick(input) => TickPlaced(s, input, inOrder);
    case ApproveAll => DecidedTogetherPlaced(s, e, inOrder);
    case RejectAll(_) => DecidedTogetherPlaced(s, e, inOrder);
    case Send(text, stamp) => MessagePlaced(s, UserMessage(text, stamp), React(s, e).session, inOrder);
    case SwitchWorkspace(path, stamp) => MessagePlaced(s, WorkspaceMessage(path, stamp), React(s, e).session, inOrder);
    case _ =>
      if IsSingleDecision(s, e) {
        SingleDecisionPlaced(s, e, inOrder);
      }
  }

  /** One event keeps results in place exactly when it puts no message behind a batch whose results
      are still to come. */
  lemma StepPlaced(s: Session, e: Event)
    requires Placed(s, false)
    ensures Placed(React(s, e).session, false) <==> Keeps(s, e, false)
  {
    if Keeps(s, e, false) {
      KeepingIsPlaced(s, e, false);
    } else {
      MessageNotPlaced(s, e, false);
    }
  }

  lemma MessageNotPlaced(s: Session, e: Event, inOrder: bool)
    requires Placed(s, inOrder) && (e.Send? || e.SwitchWorkspace?) && !Keeps(s, e, inOrder)
    ensures !Placed(React(s, e).session, inOrder)
  {
    var m := if e.Send? then UserMessage(e.text, e.stamp) else WorkspaceMessage(e.path, e.stamp);
    MessagePlaced(s, m, React(s, e).session, inOrder);
  }

  /** One event keeps results in call order exactly when, besides, it decides the next tool of those
      waiting, or approves a batch none of which is decided yet. */
  lemma StepInOrder(s: Session, e: Event)
    requires Placed(s, true)
    ensures Placed(React(s, e).session, true) <==> Keeps(s, e, true)
  {
    if Keeps(s, e, true) {
      KeepingIsPlaced(s, e, true);
    } else if e.Send? || e.SwitchWorkspace? {
      MessageNotPlaced(s, e, true);
    } else if e.ApproveAll? {
      PartlyDecidedNotPlaced(s);
    } else {
      OutOfTurnNotPlaced(s, e);
    }
  }

  lemma PartlyDecidedNotPlaced(s: Session)
    requires Placed(s, true) && s.state.AwaitingApproval? && |s.state.pending| != |NewestBatch(s.history)|
    ensures !Placed(React(s, ApproveAll).session, true)
  {
    var s' := React(s, ApproveAll).session;
    var done: nat :| BatchIsOpen(s, done, true);
    forall d: nat ensures !BatchIsOpen(s', d, true) {
      assert s.history[|s.history| - 1].role == Tool;
    }
  }

  lemma OutOfTurnNotPlaced(s: Session, e: Event)
    requires Placed(s, true) && IsSingleDecision(s, e) && !IsNext(s.state.pending, e.index)
    ensures !Placed(React(s, e).session, true)
  {
    hide Tick, NewestBatch, WellPlaced, EndsWithBatch, HaveIds, DrawnFrom, IsNext;
    var calls, pending := NewestBatch(s.history), s.state.pending;
    var done: nat :| BatchIsOpen(s, done, true);
    NewestAppended(s.history, DecisionResult(s, e));
    var s', rest := React(s, e).session, Without(pending, e.index);
    var k := FirstOther(pending, e.index);
    forall d: nat ensures !BatchIsOpen(s', d, true) {
      if d + |rest| == |calls| {
        assert rest[k - 1] == pending[k - 1] && SameCall(pending[k], calls[d + k - 1]);
      }
    }
  }

  /** Where the tools waiting first differ. */
  lemma {:induction false} FirstOther(pending: seq<ToolCall>, i: nat) returns (k: nat)
    requires i < |pending| && !IsNext(pending, i)
    ensures 0 < k <= i && !SameCall(pending[k - 1], pending[k])
  {
    if SameCall(pending[i - 1], pending[i]) {
      k := FirstOther(pending, i - 1);
    } else {
      k := i;
    }
  }

  // ----- Runs -----

  lemma PrefixKeeps(r: Run, events: seq<Event>, inOrder: bool)
    requires events != [] && KeepsThroughout(r, events, inOrder)
    ensures KeepsThroughout(r, events[..|events| - 1], inOrder)
    ensures Keeps(RunOf(r, events[..|events| - 1]).session, events[|events| - 1], inOrder)
  {
    var front := events[..|events| - 1];
    forall i | 0 <= i < |front| ensures Keeps(RunOf(r, front[..i]).session, front[i], inOrder) {
      assert front[..i] == events[..i];
    }
  }

  /** In every reachable session, whatever the model, the tools and the user answer, results
      stand behind the batch they answer; and when tools are decided in call order they answer a
      prefix of its calls in order. */
  lemma {:induction false} ResultsStayPlaced(max: nat, budget: nat, text: string, stamp: string,
                                          events: seq<Event>, inOrder: bool)
    requires KeepsThroughout(Start(max, budget, text, stamp), events, inOrder)
    ensures Placed(RunOf(Start(max, budget, text, stamp), events).session, inOrder)
  {
    var r := Start(max, budget, text, stamp);
    if events != [] {
      PrefixKeeps(r, events, inOrder);
      var front, e := events[..|events| - 1], events[|events| - 1];
      ResultsStayPlaced(max, budget, text, stamp, front, inOrder);
      KeepingIsPlaced(RunOf(r, front).session, e, inOrder);
    }
  }

  // ----- What the excluded events break -----

  /** A result for one of the tools waiting stands in order exactly when it answers the next one. */
  lemma DecisionInOrderIff(s: Session, e: Event)
    requires Placed(s, true) && IsSingleDecision(s, e)
    ensures WellPlaced(React(s, e).session.history, true) <==> SameCall(s.state.pending[e.index], s.state.pending[0])
  {
    var h, m, calls := s.history, DecisionResult(s, e), NewestBatch(s.history);
    var done: nat :| BatchIsOpen(s, done, true);
    PendingHasIds(s, e.index, true);
    if SameCall(s.state.pending[e.index], s.state.pending[0]) {
      AppendResult(h, calls, done, done, m, true);
    }
    if WellPlaced(h + [m], true) {
      ResultAnswersNext(h, m, calls, done);
    }
  }

  lemma ResultAnswersNext(h: History, m: Message, calls: seq<ToolCall>, done: nat)
    requires EndsWithBatch(h, calls, done) && m.role == Tool && WellPlaced(h + [m], true)
    ensures done < |calls| && IsResultOf(m, calls[done])
  {
    var h', i := h + [m], |h|;
    assert h'[i] == m;
    var j: nat, k: nat :| j < i && Answers(h', i, j, k, true);
    assert h'[j].role != Tool && h'[|h| - done - 1].role != Tool;
    assert j == |h| - done - 1;
  }

  /** Two tools wait, and the second is approved first. */
  lemma SecondToolFirst(outcome: ToolOutcome)
    ensures var c1, c2 := ToolCall("write_file", "{}", Some("a")), ToolCall("save_memory", "{}", Some("b"));
            var h := [UserMessage("go", "0"), ModelMessage("1", ToolCalls([c1, c2], None))];
            var s := Session(h, AwaitingApproval([c1, c2]), 1, 20, 1000);
            && Placed(s, true)
            && !WellPlaced(React(s, ApproveOne(1, outcome)).session.history, true)
            && Placed(React(React(s, ApproveOne(0, outcome)).session, ApproveOne(0, outcome)).session, true)
  {
    var c1, c2 := ToolCall("write_file", "{}", Some("a")), ToolCall("save_memory", "{}", Some("b"));
    var h := [UserMessage("go", "0"), ModelMessage("1", ToolCalls([c1, c2], None))];
    var s := Session(h, AwaitingApproval([c1, c2]), 1, 20, 1000);
    assert EndsWithBatch(h, [c1, c2], 0) && NewestBatch(h) == [c1, c2];
    assert BatchIsOpen(s, 0, true);
    assert s.state.pending[1].name != s.state.pending[0].name;
    DecisionInOrderIff(s, ApproveOne(1, outcome));
    StepInOrder(s, ApproveOne(0, outcome));
    StepInOrder(React(s, ApproveOne(0, outcome)).session, ApproveOne(0, outcome));
  }

  /** Approval and a tick append the results of the newest batch, from its first call on. */
  lemma ApproveThenTick(s: Session, input: TickInput) returns (results: History)
    requires s.state.AwaitingApproval? && Live(s) && NewestBatch(s.history) != []
    ensures React(React(s, ApproveAll).session, DoTick(input)).session.history == s.history + results
    ensures results != [] && results[0].role == Tool
    ensures results[0] == ResultMessage(NewestBatch(s.history)[0], input.outcomes(0).text, input.outcomes(0).success)
  {
    hide NewestBatch, Think;
    TickCases(React(s, ApproveAll).session, input);
    results := Execute(NewestBatch(s.history), 0, input.outcomes).results;
  }

  /** Approving the rest of a partly decided batch runs it from the start, so its first result
      comes out of order unless that call cannot be told from the next one. */
  lemma ApprovingTheRestMisorders(s: Session, input: TickInput)
    requires Placed(s, true) && s.state.AwaitingApproval? && Live(s)
    requires !SameCall(NewestBatch(s.history)[0], s.state.pending[0])
    ensures !WellPlaced(React(React(s, ApproveAll).session, DoTick(input)).session.history, true)
  {
    hide React, NewestBatch, DrawnFrom, Answers, WellPlaced;
    var calls := NewestBatch(s.history);
    var done: nat :| BatchIsOpen(s, done, true);
    assert calls[0] in calls && SameCall(s.state.pending[0], calls[done + 0]);
    var results := ApproveThenTick(s, input);
    var h := s.history + results;
    if WellPlaced(h, true) {
      PrefixWellPlaced(h, |s.history| + 1, true);
      assert h[..|s.history| + 1] == s.history + [results[0]];
      ResultAnswersNext(s.history, results[0], calls, done);
    }
  }

  lemma PrefixWellPlaced(h: History, n: nat, inOrder: bool)
    requires n <= |h| && WellPlaced(h, inOrder)
    ensures WellPlaced(h[..n], inOrder)
  {
    forall i | 0 <= i < n && h[..n][i].role == Tool
      ensures exists j: nat, k: nat :: j < i && Answers(h[..n], i, j, k, inOrder)
    {
      assert h[i].role == Tool;
      var j: nat, k: nat :| j < i && Answers(h, i, j, k, inOrder);
      assert Answers(h[..n], i, j, k, inOrder);
    }
  }

  /** A message sent, or a workspace opened, while tools wait, followed by approval and a tick, leaves
      a result behind no batch. */
  lemma MessageWhileWaitingMisplaces(s: Session, e: Event, input: TickInput)
    requires Placed(s, false) && s.state.AwaitingApproval? && Live(s)
    requires e.Send? || e.SwitchWorkspace?
    ensures var s2 := React(React(s, e).session, ApproveAll).session;
            !WellPlaced(React(s2, DoTick(input)).session.history, false)
  {
    hide WellPlaced, NewestBatch, HaveIds, DrawnFrom, EndsWithBatch;
    var m, s1 := MessageIsAdded(s, e);
    NewestAppended(s.history, m);
    var done: nat :| BatchIsOpen(s, done, false);
    var results := ApproveThenTick(s1, input);
    ResultBehindMessage(s.history, m, results);
  }

  lemma MessageIsAdded(s: Session, e: Event) returns (m: Message, s': Session)
    requires s.state.AwaitingApproval? && (e.Send? || e.SwitchWorkspace?)
    ensures s' == React(s, e).session == s.(history := s.history + [m]) && m.role == User && !IsBatch(m)
  {
    m := if e.Send? then UserMessage(e.text, e.stamp) else WorkspaceMessage(e.path, e.stamp);
    s' := React(s, e).session;
  }

  lemma ResultBehindMessage(h: History, m: Message, results: History)
    requires m.role == User && results != [] && results[0].role == Tool
    ensures !WellPlaced(h + [m] + results, false)
  {
    var h', i := h + [m] + results, |h| + 1;
    assert h'[i] == results[0] && h'[i - 1] == m;
    forall j: nat, k: nat | j < i ensures !Answers(h', i, j, k, false) {
      if j < i - 1 {
        assert h'[i - 1].role == User;
      }
    }
  }
}
