/** What a run can cost: model calls, automatic continuations and tokens. */
module AgentCosts {
  import opened AgentTick
  import opened AgentRuns

  function Sum(xs: seq<nat>): nat {
    if xs == [] then 0 else Sum(xs[..|xs| - 1]) + xs[|xs| - 1]
  }

  lemma SumAppended(xs: seq<nat>, x: nat)
    ensures Sum(xs + [x]) == Sum(xs) + x
  {
    assert (xs + [x])[..|xs|] == xs;
  }

  /** The budget left is the initial one less every charge, cut off at zero, and it was never
      exhausted before the last charge. */
  predicate Billed(r: Run, budget: nat) {
    && r.session.tokenBudget == SaturatingSub(budget, Sum(r.charges))
    && (r.charges != [] ==> Sum(r.charges[..|r.charges| - 1]) < budget)
  }

  /** Every answered call raised the iteration count, which stays within its limit; a call that
      failed ended the run, and it takes a new message to resume it. */
  predicate Counted(r: Run, max: nat) {
    && r.session.maxIterations == max
    && r.session.iterationCount == |r.charges| <= max
    && (|| r.failedCalls <= r.sends
        || (r.failedCalls == r.sends + 1 && r.session.state.Error? && r.session.iterationCount < max))
  }

  /** How many more ticks may answer `Continue`. */
  function ContinuesLeft(s: Session): nat {
    if s.iterationCount >= s.maxIterations then 0
    else 2 * (s.maxIterations - s.iterationCount)
         - (if s.state.ExecutingTool? || s.state.AwaitingApproval? then 0 else 1)
  }

  /** An ended session: its budget is left if it finished, and used up or its iterations left if
      it failed. So neither check at the head of a tick turns one ending into the other. */
  predicate Settled(s: Session) {
    && (s.state.Finished? ==> s.tokenBudget > 0)
    && (s.state.Error? ==> s.tokenBudget == 0 || s.iterationCount < s.maxIterations)
  }

  predicate Ended(s: Session) {
    s.state.Finished? || s.state.Error?
  }

  predicate HoldsTools(s: Session) {
    s.state.ExecutingTool? || s.state.AwaitingApproval?
  }

  /** What an event may do to the counters and to an ended session. */
  predicate Costs(s: Session, e: Event, x: Reaction) {
    var s', fx := x.session, x.effects;
    && s'.maxIterations == s.maxIterations
    && (fx.called ==> Thinks(s))
    && (match fx.charge
        case None => s'.tokenBudget == s.tokenBudget && s'.iterationCount == s.iterationCount
                     && (fx.called ==> s'.state.Error?)
        case Some(c) => fx.called && s'.tokenBudget == SaturatingSub(s.tokenBudget, c)
                        && s'.iterationCount == s.iterationCount + 1)
    && (x.result.Some? && x.result.value.Continue? ==>
          || (fx.charge.Some? && s'.state.ExecutingTool?)
          || (Executes(s) && s'.state.Thinking? && fx.charge.None?))
    && (HoldsTools(s') ==> HoldsTools(s) || fx.charge.Some?)
    && (s'.state.Finished? ==> s.state.Finished? || s'.tokenBudget > 0)
    && (s'.state.Error? ==> s.state.Error? || s'.tokenBudget == 0 || s'.iterationCount < s'.maxIterations)
    && (s.state.Error? && s.iterationCount < s.maxIterations && !e.Send? ==> s'.state.Error?)
    && (s.state.Error? && s.tokenBudget == 0 && !e.Send? ==> s'.state.Error?)
    && (s.state.Finished? && s.tokenBudget > 0 && !e.Send? ==> s'.state.Finished?)
    && (Ended(s) && !e.Send? ==>
          && s' == s.(state := s'.state, history := s'.history)
          && (!e.SwitchWorkspace? ==> s'.history == s.history)
          && !fx.called && !(x.result.Some? && x.result.value.Continue?))
  }

  lemma ThinkCosts(s: Session, input: TickInput)
    requires Thinks(s)
    ensures Costs(s, DoTick(input), React(s, DoTick(input)))
  {
    TickCases(s, input);
    var o := Think(s.(state := Thinking), input);
    assert o.effects.called;
  }

  lemma OtherTickCosts(s: Session, input: TickInput)
    requires !Thinks(s)
    ensures Costs(s, DoTick(input), React(s, DoTick(input)))
  {
    hide Think, Execute, LimitMessage;
    TickCases(s, input);
  }

  lemma EventCosts(s: Session, e: Event)
    ensures Costs(s, e, React(s, e))
  {
    if e.DoTick? {
      hide Costs, React;
      if Thinks(s) {
        ThinkCosts(s, e.input);
      } else {
        OtherTickCosts(s, e.input);
      }
    } else {
      hide Tick;
    }
  }

  lemma StepBilled(r: Run, e: Event, x: Reaction, budget: nat)
    requires Billed(r, budget) && Costs(r.session, e, x)
    ensures Billed(Noted(r, e, x), budget)
  {
    if x.effects.charge.Some? {
      SumAppended(r.charges, x.effects.charge.value);
      assert (r.charges + [x.effects.charge.value])[..|r.charges|] == r.charges;
    }
  }

  lemma StepCounted(r: Run, e: Event, x: Reaction, max: nat)
    requires Counted(r, max) && Costs(r.session, e, x)
    ensures Counted(Noted(r, e, x), max)
    ensures Noted(r, e, x).continues + ContinuesLeft(x.session) <= r.continues + ContinuesLeft(r.session)
  {
  }

  predicate Bounded(r: Run, start: Run) {
    && Billed(r, start.session.tokenBudget)
    && Counted(r, start.session.maxIterations)
    && Settled(r.session)
    && r.continues + ContinuesLeft(r.session) <= ContinuesLeft(start.session)
  }

  lemma StepBounded(r: Run, start: Run, e: Event, x: Reaction)
    requires Bounded(r, start) && Costs(r.session, e, x)
    ensures Bounded(Noted(r, e, x), start)
  {
    StepBilled(r, e, x, start.session.tokenBudget);
    StepCounted(r, e, x, start.session.maxIterations);
  }

  lemma {:induction false} RunInvariants(max: nat, budget: nat, text: string, stamp: string, events: seq<Event>)
    requires budget > 0
    ensures Bounded(RunOf(Start(max, budget, text, stamp), events), Start(max, budget, text, stamp))
  {
    var start := Start(max, budget, text, stamp);
    if events != [] {
      var front, e := events[..|events| - 1], events[|events| - 1];
      RunInvariants(max, budget, text, stamp, front);
      var r := RunOf(start, front);
      EventCosts(r.session, e);
      StepBounded(r, start, e, React(r.session, e));
    }
  }

  /** For any answers of model, tools and user: at most `max` calls are answered, at most one
      call more per message sent is made, fewer than two ticks per iteration ask to go on, and
      all charges but the last stay below the budget together. */
  lemma RunsAreBounded(max: nat, budget: nat, text: string, stamp: string, events: seq<Event>)
    requires budget > 0
    ensures var r := RunOf(Start(max, budget, text, stamp), events);
            && |r.charges| <= max
            && |r.charges| + r.failedCalls <= max + r.sends
            && r.continues <= (if max == 0 then 0 else 2 * max - 1)
            && (r.charges != [] ==> Sum(r.charges[..|r.charges| - 1]) < budget)
            && (r.session.tokenBudget > 0 ==> Sum(r.charges) < budget)
  {
    RunInvariants(max, budget, text, stamp, events);
  }

  ghost predicate NoMessages(events: seq<Event>) {
    forall e | e in events :: !e.Send?
  }

  /** Once a run has finished or failed it stays so, in the same way and at no further cost,
      until its user sends a message. */
  lemma {:induction false} EndIsFinal(r: Run, events: seq<Event>)
    requires Ended(r.session) && Settled(r.session) && NoMessages(events)
    ensures var r' := RunOf(r, events);
            && Settled(r'.session)
            && (r'.session.state.Finished? <==> r.session.state.Finished?)
            && (r'.session.state.Error? <==> r.session.state.Error?)
            && r'.charges == r.charges && r'.failedCalls == r.failedCalls && r'.continues == r.continues
            && r'.session == r.session.(state := r'.session.state, history := r'.session.history)
            && ((forall e | e in events :: !e.SwitchWorkspace?) ==> r'.session.history == r.session.history)
  {
    if events != [] {
      var front, e := events[..|events| - 1], events[|events| - 1];
      EndIsFinal(r, front);
      EventCosts(RunOf(r, front).session, e);
    }
  }

  /** The final text itself outlives the next tick exactly when iterations are left: otherwise
      the limit message replaces an answer given in the last iteration. */
  lemma FinalTextIsKept(s: Session, input: TickInput)
    requires s.state.Finished? && Settled(s) && s.state.text != LimitMessage(s.maxIterations)
    ensures Tick(s, input).session == s <==> s.iterationCount < s.maxIterations
  {
    TickCases(s, input);
  }
}
