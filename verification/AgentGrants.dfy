/** Which batches run: reads, and what the user approved. */
module AgentGrants {
  import opened Wrappers
  import opened AgentMessages
  import opened AgentCompaction
  import opened AgentTick
  import opened AgentRuns
  import opened AgentPlacement

  /** `tools` is the newest batch exactly when none of its calls was decided on its own. */
  predicate WholeBatch(r: Run, tools: seq<ToolCall>) {
    var calls := NewestBatch(r.session.history);
    && calls != []
    && |tools| <= |calls|
    && (tools == calls <==> !r.decided)
    && (r.decided ==> |tools| < |calls|)
  }

  /** What is shown is what waits, and what is about to run is read-only or was granted. */
  predicate Granted(r: Run) {
    && (r.session.state.AwaitingApproval? ==>
          && r.shown == Some(r.session.state.pending)
          && WholeBatch(r, r.session.state.pending))
    && (r.session.state.ExecutingTool? ==>
          && NewestBatch(r.session.history) != []
          && match r.granted
             case None => AllReadTools(NewestBatch(r.session.history))
             case Some(tools) => r.shown == r.granted && WholeBatch(r, tools))
  }

  lemma UnaskedMeansReads(tools: seq<ToolCall>)
    requires !AnyNeedsApproval(tools)
    ensures AllReadTools(tools)
  {
    forall t | t in tools ensures t.name in READ_TOOLS {
      assert !NeedsApproval(t, false, true, false);
    }
  }

  lemma StepGranted(r: Run, e: Event)
    requires Granted(r)
    ensures Granted(After(r, e))
  {
    if e.DoTick? {
      if Thinks(r.session) {
        ThinkGranted(r, e.input);
      } else {
        OtherTickGranted(r, e.input);
      }
    } else {
      DecisionGranted(r, e);
    }
  }

  lemma OtherTickGranted(r: Run, input: TickInput)
    requires Granted(r) && !Thinks(r.session)
    ensures Granted(After(r, DoTick(input)))
  {
    TickCases(r.session, input);
  }

  lemma DecisionGranted(r: Run, e: Event)
    requires Granted(r) && !e.DoTick?
    ensures Granted(After(r, e))
  {
    hide Tick, NewestBatch, AllReadTools, Rejections;
    if IsSingleDecision(r.session, e) {
      SingleGranted(r, e);
    } else if e.Send? {
      NewestAppended(r.session.history, UserMessage(e.text, e.stamp));
    } else if e.SwitchWorkspace? {
      NewestAppended(r.session.history, WorkspaceMessage(e.path, e.stamp));
    }
  }

  lemma SingleGranted(r: Run, e: Event)
    requires Granted(r) && IsSingleDecision(r.session, e)
    ensures Granted(After(r, e))
  {
    hide Tick, NewestBatch, AllReadTools, Rejections;
    NewestAppended(r.session.history, DecisionResult(r.session, e));
    assert |Without(r.session.state.pending, e.index)| == |r.session.state.pending| - 1;
  }

  lemma ThinkGranted(r: Run, input: TickInput)
    requires Thinks(r.session)
    ensures Granted(After(r, DoTick(input)))
  {
    var s := r.session.(state := Thinking);
    TickCases(r.session, input);
    ThinkCases(s, input);
    var s' := Think(s, input).session;
    if s'.state.AwaitingApproval? || s'.state.ExecutingTool? {
      var tools := RequestedTools(input.reply.value);
      var h := Compacted(s.history, CompactionLimit(s.history), Notice(input.stamp));
      NewestAppended(h, ModelMessage(input.stamp, ToolCalls(tools, input.reply.value.text)));
      if !AnyNeedsApproval(tools) {
        UnaskedMeansReads(tools);
      }
    }
  }

  lemma {:induction false} RunsAreGranted(max: nat, budget: nat, text: string, stamp: string, events: seq<Event>)
    ensures Granted(RunOf(Start(max, budget, text, stamp), events))
  {
    if events != [] {
      RunsAreGranted(max, budget, text, stamp, events[..|events| - 1]);
      StepGranted(RunOf(Start(max, budget, text, stamp), events[..|events| - 1]), events[|events| - 1]);
    }
  }

  /** Over every run whatsoever, a tick that executes runs the calls of one batch from its first
      on. Either that batch holds reads only, or the user approved the tools last shown, and
      those are this very batch if and only if none of its calls was decided on its own. */
  lemma ExecutedBatchWasGranted(max: nat, budget: nat, text: string, stamp: string,
                                 events: seq<Event>, input: TickInput)
    requires Executes(RunOf(Start(max, budget, text, stamp), events).session)
    ensures var r := RunOf(Start(max, budget, text, stamp), events);
            var effects := React(r.session, DoTick(input)).effects;
            && 0 < effects.ran <= |effects.batch|
            && (|| (r.granted == None && AllReadTools(effects.batch))
                || (&& r.granted.Some?
                    && r.granted == r.shown
                    && (r.granted.value == effects.batch <==> !r.decided)))
  {
    var r := RunOf(Start(max, budget, text, stamp), events);
    RunsAreGranted(max, budget, text, stamp, events);
    TickCases(r.session, input);
    var e := Execute(NewestBatch(r.session.history), 0, input.outcomes);
    assert |e.results| > 0;
  }

  ghost predicate DecidesTogether(r: Run, events: seq<Event>) {
    forall i | 0 <= i < |events| :: !IsSingleDecision(RunOf(r, events[..i]).session, events[i])
  }

  /** A batch whose calls are only ever decided together runs exactly as it was shown. */
  lemma {:induction false} NeverDecidedAlone(max: nat, budget: nat, text: string, stamp: string, events: seq<Event>)
    requires DecidesTogether(Start(max, budget, text, stamp), events)
    ensures !RunOf(Start(max, budget, text, stamp), events).decided
  {
    var r := Start(max, budget, text, stamp);
    if events != [] {
      var front := events[..|events| - 1];
      forall i | 0 <= i < |front| ensures !IsSingleDecision(RunOf(r, front[..i]).session, front[i]) {
        assert front[..i] == events[..i];
      }
      NeverDecidedAlone(max, budget, text, stamp, front);
    }
  }

  /** Outside of ticks nothing runs but the one tool the user approved, and it was on show. */
  lemma SingleToolWasShown(max: nat, budget: nat, text: string, stamp: string, events: seq<Event>, e: Event)
    requires !e.DoTick?
    ensures var r := RunOf(Start(max, budget, text, stamp), events);
            var effects := React(r.session, e).effects;
            effects.ran > 0 ==>
              && e.ApproveOne? && r.shown.Some? && e.index < |r.shown.value|
              && effects.batch == [r.shown.value[e.index]] && effects.ran == 1
  {
    RunsAreGranted(max, budget, text, stamp, events);
  }

  /** Deciding one tool and then approving the rest runs the whole batch, so the tool already
      decided, even one already rejected, comes up again. */
  lemma ApprovingTheRestRunsAll(r: Run, e: Event, input: TickInput)
    requires Granted(r) && !r.decided && Live(r.session)
    requires IsSingleDecision(r.session, e) && |r.session.state.pending| >= 2
    ensures var r2 := After(After(r, e), ApproveAll);
            React(r2.session, DoTick(input)).effects.batch == r.session.state.pending
  {
    var r2 := After(After(r, e), ApproveAll);
    DecisionLeavesBatch(r, e);
    TickCases(r2.session, input);
  }

  lemma DecisionLeavesBatch(r: Run, e: Event)
    requires Granted(r) && !r.decided
    requires IsSingleDecision(r.session, e) && |r.session.state.pending| >= 2
    ensures var s := After(After(r, e), ApproveAll).session;
            && s.state.ExecutingTool?
            && NewestBatch(s.history) == r.session.state.pending
            && s == r.session.(history := s.history, state := s.state)
  {
    var s := r.session;
    assert Without(s.state.pending, e.index) != [];
    if e.ApproveOne? {
      NewestAppended(s.history, ResultMessage(s.state.pending[e.index], e.outcome.text, e.outcome.success));
    } else {
      NewestAppended(s.history, Rejection(s.state.pending[e.index], e.stamp));
    }
  }
}
