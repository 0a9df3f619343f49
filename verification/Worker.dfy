/** The worker that keeps one project's process running: setup, crashes, backoff and stop. */
module Worker {
  import opened Wrappers

  const MAX_RETRIES: nat := 5
  const STABLE_SECONDS: int := 30

  datatype Status =
    | Setup
    | Running(pid: nat)
    | Crashing(retryCount: nat, backoffSeconds: nat)
    | Stopped
    | Fatal

  /** Where in a turn of the loop a stop can be noticed. */
  datatype Phase = AtTop | WhileRunning | InBackoff

  /** What the outside does in one turn: whether the command could be spawned, whether a tunnel
      could be started and a crash watcher runs beside it, how it ends, and which of exit and stop is
      taken when both are there. */
  datatype Attempt = Attempt(
    spawned: Option<nat>,
    tunnel: Option<nat>,
    watcher: bool,
    stopWins: bool,
    exitCode: Option<int>,
    seconds: int)

  /** One life of a worker. The stop, once sent, stays: it is seen from its point on. */
  datatype Life = Life(
    prepared: bool,
    autoRestart: bool,
    attempts: seq<Attempt>,
    stop: Option<(nat, Phase)>)

  function Rank(p: Phase): nat {
    match p case AtTop => 0 case WhileRunning => 1 case InBackoff => 2
  }

  predicate StopSeen(l: Life, i: nat, p: Phase) {
    l.stop.Some? && (l.stop.value.0 < i || (l.stop.value.0 == i && Rank(l.stop.value.1) <= Rank(p)))
  }

  function Pow2(n: nat): (p: nat)
    ensures p >= 1
  {
    if n == 0 then 1 else 2 * Pow2(n - 1)
  }

  // ----- What is reported -----

  /** The retry counter when an attempt has ended. */
  function Retries(a: Attempt, retryCount: nat): nat {
    if a.seconds > STABLE_SECONDS then 0 else retryCount
  }

  /** The statuses from turn `i` on; the list of attempts ends where observation ends. */
  function Trace(l: Life, i: nat, retryCount: nat): seq<Status>
    decreases |l.attempts| - i
  {
    if i >= |l.attempts| then []
    else if StopSeen(l, i, AtTop) then [Stopped]
    else
      var a := l.attempts[i];
      if a.spawned.None? then [Fatal]
      else [Running(a.spawned.value)] + AfterRun(l, i, Retries(a, retryCount))
  }

  function AfterRun(l: Life, i: nat, retries: nat): seq<Status>
    requires i < |l.attempts|
    decreases |l.attempts| - i, 0
  {
    var a := l.attempts[i];
    if StopSeen(l, i, WhileRunning) && a.stopWins then [Stopped]
    else if a.exitCode == Some(0) then [Stopped]
    else if l.autoRestart && retries < MAX_RETRIES then
      [Crashing(retries + 1, Pow2(retries + 1))]
      + (if StopSeen(l, i, InBackoff) then [Stopped] else Trace(l, i + 1, retries + 1))
    else [Fatal]
  }

  function WholeTrace(l: Life): seq<Status> {
    [Setup] + (if l.prepared then Trace(l, 0, 0) else [Fatal])
  }

  // ----- The loop -----

  /** The tunnels started beside the first `n` attempts. */
  function TunnelsOf(attempts: seq<Attempt>, n: nat): seq<nat>
    requires n <= |attempts|
  {
    if n == 0 then []
    else
      var front, last := TunnelsOf(attempts, n - 1), attempts[n - 1].tunnel;
      if last.Some? then front + [last.value] else front
  }

  function RunCount(t: seq<Status>): nat {
    if t == [] then 0 else RunCount(t[..|t| - 1]) + (if t[|t| - 1].Running? then 1 else 0)
  }

  lemma RunCountNext(t: seq<Status>, s: Status)
    ensures RunCount(t + [s]) == RunCount(t) + (if s.Running? then 1 else 0)
  {
    assert (t + [s])[..|t|] == t;
  }

  class ProjectWorker {
    var retryCount: nat
    var process: Option<nat>
    var tunnel: Option<nat>
    var watcherRunning: bool
    var trace: seq<Status>
    var started: seq<nat>
    var ended: seq<nat>

    constructor ()
      ensures trace == [] && retryCount == 0 && started == [] && ended == [] && IsAtRest()
    {
      retryCount, process, tunnel, watcherRunning, trace, started, ended := 0, None, None, false, [], [], [];
    }

    /** No process, tunnel or crash watcher of this worker runs. */
    predicate IsAtRest()
      reads this
    {
      process == None && tunnel == None && !watcherRunning
    }

    method Report(s: Status)
      modifies this`trace
      ensures trace == old(trace) + [s]
      ensures RunCount(trace) == RunCount(old(trace)) + (if s.Running? then 1 else 0)
    {
      RunCountNext(trace, s);
      trace := trace + [s];
    }

    method EndTunnel()
      modifies this`tunnel, this`ended
      ensures tunnel == None
      ensures ended == old(ended) + (if old(tunnel).Some? then [old(tunnel).value] else [])
    {
      if tunnel.Some? {
        ended := ended + [tunnel.value];
        tunnel := None;
      }
    }

    /** Runs one life. Process, tunnel and crash watcher are gone at every turn and at the end, and
        the tunnels started beside the runs reported were each ended once, in order. */
    method Run(l: Life)
      requires trace == [] && retryCount == 0 && started == [] && ended == [] && IsAtRest()
      modifies this
      ensures trace == WholeTrace(l)
      ensures IsAtRest()
      ensures RunCount(trace) <= |l.attempts| && started == TunnelsOf(l.attempts, RunCount(trace)) && ended == started
    {
      hide Trace, AfterRun, Pow2, StopSeen, Retries, RunCount;
      assert RunCount([]) == 0 by { NoRuns(); }
      Report(Setup);
      assert trace == [Setup];
      if !l.prepared {
        Report(Fatal);
        return;
      }
      var i := 0;
      while i < |l.attempts|
        invariant i <= |l.attempts|
        invariant trace + Trace(l, i, retryCount) == WholeTrace(l)
        invariant IsAtRest()
        invariant RunCount(trace) == i && started == TunnelsOf(l.attempts, i) && ended == started
      {
        TraceEnds(l, i, retryCount);
        if StopSeen(l, i, AtTop) {
          Report(Stopped);
          return;
        }
        var a := l.attempts[i];
        if a.spawned.None? {
          Report(Fatal);
          return;
        }
        RunUnfolds(trace, l, i, retryCount);
        process := a.spawned;
        Report(Running(a.spawned.value));
        watcherRunning := a.watcher;
        if a.tunnel.Some? {
          started := started + [a.tunnel.value];
          tunnel := a.tunnel;
        }
        var over := Supervise(l, i);
        if over {
          return;
        }
        i := i + 1;
      }
      TraceEnds(l, i, retryCount);
      assert trace + [] == trace;
    }

    /** From a running process to the end of its turn: the exit or the stop, whichever is taken,
        and the backoff behind a crash. */
    method Supervise(l: Life, i: nat) returns (over: bool)
      requires i < |l.attempts| && process.Some?
      modifies this
      ensures old(trace) + AfterRun(l, i, Retries(l.attempts[i], old(retryCount))) ==
              if over then trace else trace + Trace(l, i + 1, retryCount)
      ensures IsAtRest() && started == old(started) && RunCount(trace) == RunCount(old(trace))
      ensures ended == old(ended) + (if old(tunnel).Some? then [old(tunnel).value] else [])
    {
      hide Trace, Pow2, StopSeen, RunCount;
      var a := l.attempts[i];
      if StopSeen(l, i, WhileRunning) && a.stopWins {
        watcherRunning := false;
        EndTunnel();
        process := None;
        Report(Stopped);
        return true;
      }
      process := None;
      watcherRunning := false;
      EndTunnel();
      if a.seconds > STABLE_SECONDS {
        retryCount := 0;
      }
      if a.exitCode == Some(0) {
        Report(Stopped);
        return true;
      }
      if !(l.autoRestart && retryCount < MAX_RETRIES) {
        Report(Fatal);
        return true;
      }
      over := BackOff(l, i);
    }

    /** The crash is counted and reported; a stop ends the backoff behind it. */
    method BackOff(l: Life, i: nat) returns (over: bool)
      requires i < |l.attempts| && !(StopSeen(l, i, WhileRunning) && l.attempts[i].stopWins)
      requires l.attempts[i].exitCode != Some(0) && l.autoRestart && retryCount < MAX_RETRIES
      modifies this`retryCount, this`trace
      ensures old(trace) + AfterRun(l, i, old(retryCount)) ==
              if over then trace else trace + Trace(l, i + 1, retryCount)
      ensures RunCount(trace) == RunCount(old(trace))
    {
      hide Trace, AfterRun, Pow2, StopSeen, RunCount;
      CrashUnfolds(trace, l, i, retryCount);
      retryCount := retryCount + 1;
      Report(Crashing(retryCount, Pow2(retryCount)));
      over := StopSeen(l, i, InBackoff);
      if over {
        Report(Stopped);
      }
    }
  }

  /** A turn that starts no process ends the trace. */
  lemma TraceEnds(l: Life, i: nat, retryCount: nat)
    ensures i >= |l.attempts| ==> Trace(l, i, retryCount) == []
    ensures i < |l.attempts| && StopSeen(l, i, AtTop) ==> Trace(l, i, retryCount) == [Stopped]
    ensures i < |l.attempts| && !StopSeen(l, i, AtTop) && l.attempts[i].spawned.None? ==>
              Trace(l, i, retryCount) == [Fatal]
  {
  }

  lemma NoRuns()
    ensures RunCount([]) == 0
  {
  }

  lemma RunUnfolds(before: seq<Status>, l: Life, i: nat, retryCount: nat)
    requires i < |l.attempts| && !StopSeen(l, i, AtTop) && l.attempts[i].spawned.Some?
    ensures before + Trace(l, i, retryCount) ==
            before + [Running(l.attempts[i].spawned.value)] + AfterRun(l, i, Retries(l.attempts[i], retryCount))
  {
    hide AfterRun;
  }

  lemma CrashUnfolds(before: seq<Status>, l: Life, i: nat, retries: nat)
    requires i < |l.attempts| && !(StopSeen(l, i, WhileRunning) && l.attempts[i].stopWins)
    requires l.attempts[i].exitCode != Some(0) && l.autoRestart && retries < MAX_RETRIES
    ensures before + AfterRun(l, i, retries) ==
            before + [Crashing(retries + 1, Pow2(retries + 1))]
            + (if StopSeen(l, i, InBackoff) then [Stopped] else Trace(l, i + 1, retries + 1))
  {
    hide Trace, Pow2;
  }

  // ----- The shape of a trace -----

  predicate IsEnd(s: Status) {
    s.Stopped? || s.Fatal?
  }

  /** Behind the setup, runs and crashes alternate, and only the last status ends the life. */
  predicate Alternates(t: seq<Status>) {
    forall i | 0 <= i < |t| ::
      if IsEnd(t[i]) then i == |t| - 1
      else if i % 2 == 0 then t[i].Running?
      else t[i].Crashing? && 1 <= t[i].retryCount <= 5 && t[i].backoffSeconds == Pow2(t[i].retryCount)
  }

  lemma AlternatesCons(r: Status, c: Status, t: seq<Status>)
    requires r.Running? && c.Crashing? && 1 <= c.retryCount <= MAX_RETRIES && c.backoffSeconds == Pow2(c.retryCount)
    requires Alternates(t)
    ensures Alternates([r] + ([c] + t))
  {
    var u := [r] + ([c] + t);
    forall i | 2 <= i < |u| ensures u[i] == t[i - 2] && i % 2 == (i - 2) % 2 {
    }
  }

  lemma {:induction false} TraceAlternates(l: Life, i: nat, retryCount: nat)
    ensures Alternates(Trace(l, i, retryCount))
    decreases |l.attempts| - i
  {
    hide Pow2;
    if i < |l.attempts| && !StopSeen(l, i, AtTop) && l.attempts[i].spawned.Some? {
      var a := l.attempts[i];
      var k := Retries(a, retryCount) + 1;
      if !(StopSeen(l, i, WhileRunning) && a.stopWins) && a.exitCode != Some(0) && l.autoRestart && k <= MAX_RETRIES {
        var rest := if StopSeen(l, i, InBackoff) then [Stopped] else Trace(l, i + 1, k);
        TraceAlternates(l, i + 1, k);
        AlternatesCons(Running(a.spawned.value), Crashing(k, Pow2(k)), rest);
      }
    }
  }

  /** Every life reports a setup, then runs and crashes in turn, then at most one end; a crash
      carries a count from one to five and a backoff of two to that power. */
  lemma LifeAlternates(l: Life)
    ensures WholeTrace(l)[0] == Setup && Alternates(WholeTrace(l)[1..])
  {
    TraceAlternates(l, 0, 0);
    assert WholeTrace(l)[1..] == if l.prepared then Trace(l, 0, 0) else [Fatal];
  }

  // ----- Turns and positions -----

  /** The count of the last crash before the run at position `2 * n`. */
  function CountBefore(t: seq<Status>, n: nat, retryCount: nat): nat
    requires 2 * n <= |t|
  {
    if n == 0 then retryCount else if t[2 * n - 1].Crashing? then t[2 * n - 1].retryCount else 0
  }

  /** The run of turn `i + n` stands at position `2 * n`, its crash behind it. */
  lemma {:induction false} TurnsInTrace(l: Life, i: nat, retryCount: nat, n: nat)
    requires 2 * n < |Trace(l, i, retryCount)| && Trace(l, i, retryCount)[2 * n].Running?
    ensures var t := Trace(l, i, retryCount);
            && i + n < |l.attempts|
            && !StopSeen(l, i + n, AtTop)
            && l.attempts[i + n].spawned == Some(t[2 * n].pid)
            && (2 * n + 1 < |t| && t[2 * n + 1].Crashing? ==>
                  t[2 * n + 1].retryCount == Retries(l.attempts[i + n], CountBefore(t, n, retryCount)) + 1)
    decreases n
  {
    hide Trace, AfterRun, Pow2, Retries, StopSeen;
    if n == 0 {
      FirstTurn(l, i, retryCount);
    } else {
      NextTurn(l, i, retryCount);
      var k := Retries(l.attempts[i], retryCount) + 1;
      var t, rest := Trace(l, i, retryCount), Trace(l, i + 1, k);
      ShiftedTurn(t, t[0], t[1], rest, n);
      TurnsInTrace(l, i + 1, k, n - 1);
      ShiftedCount(t, t[0], t[1], rest, n, k, retryCount);
    }
  }

  /** Positions behind the first turn are positions of the rest. */
  lemma ShiftedTurn(t: seq<Status>, r: Status, c: Status, rest: seq<Status>, n: nat)
    requires t == [r, c] + rest && 0 < n && 2 * n < |t|
    ensures 2 * (n - 1) < |rest| && t[2 * n] == rest[2 * (n - 1)]
    ensures 2 * n + 1 < |t| ==> 2 * (n - 1) + 1 < |rest| && t[2 * n + 1] == rest[2 * (n - 1) + 1]
  {
    assert forall x | 0 <= x < |rest| :: t[x + 2] == rest[x];
  }

  lemma ShiftedCount(t: seq<Status>, r: Status, c: Status, rest: seq<Status>, n: nat, k: nat, retryCount: nat)
    requires t == [r, c] + rest && 0 < n && 2 * n < |t|
    requires c.Crashing? && c.retryCount == k
    ensures CountBefore(t, n, retryCount) == CountBefore(rest, n - 1, k)
  {
    if n > 1 {
      assert t[2 * n - 1] == rest[2 * (n - 1) - 1];
    }
  }

  lemma FirstTurn(l: Life, i: nat, retryCount: nat)
    requires Trace(l, i, retryCount) != [] && Trace(l, i, retryCount)[0].Running?
    ensures var t := Trace(l, i, retryCount);
            && i < |l.attempts| && !StopSeen(l, i, AtTop) && l.attempts[i].spawned == Some(t[0].pid)
            && (|t| > 1 && t[1].Crashing? ==> t[1].retryCount == Retries(l.attempts[i], retryCount) + 1)
  {
    hide Pow2;
  }

  /** A trace that goes on behind its first crash goes on with the next turn. */
  lemma NextTurn(l: Life, i: nat, retryCount: nat)
    requires |Trace(l, i, retryCount)| > 3 || (|Trace(l, i, retryCount)| == 3 && Trace(l, i, retryCount)[2].Running?)
    ensures i < |l.attempts| && l.attempts[i].spawned.Some?
    ensures var k := Retries(l.attempts[i], retryCount) + 1;
            Trace(l, i, retryCount) == [Running(l.attempts[i].spawned.value), Crashing(k, Pow2(k))] + Trace(l, i + 1, k)
  {
    hide Pow2, StopSeen, Retries;
  }

  // ----- Every turn, spelled out -----

  /** The stop has been sent before the given phase of turn `i` ends: earlier, or in this turn at its
      top, or while its process runs, or in the backoff behind it. */
  predicate StopSent(l: Life, i: nat, p: Phase) {
    && l.stop.Some?
    && var turn, phase := l.stop.value.0, l.stop.value.1;
       turn < i || (turn == i && (phase == AtTop || phase == p || (phase == WhileRunning && p == InBackoff)))
  }

  lemma StopSentIsSeen(l: Life, i: nat, p: Phase)
    ensures StopSent(l, i, p) <==> StopSeen(l, i, p)
  {
  }

  /** What stands at position `at` of a trace, where turn `n` begins: nothing when observation ends
      there, the stop, the failure to start the process, or the process. */
  predicate Begins(l: Life, t: seq<Status>, at: nat, n: nat) {
    if n >= |l.attempts| then |t| == at
    else if StopSent(l, n, AtTop) then |t| == at + 1 && t[at] == Stopped
    else if l.attempts[n].spawned == None then |t| == at + 1 && t[at] == Fatal
    else |t| > at + 1 && t[at] == Running(l.attempts[n].spawned.value)
  }

  /** The seconds waited behind the first to the fifth crash. */
  const BACKOFFS: seq<nat> := [2, 4, 8, 16, 32]

  /** What stands behind the run of turn `n` at position `at`, when `count` crashes had been counted
      before it: the stop, a clean end, or a crash, which is counted from the start again behind a run
      longer than thirty seconds, and given up when it would be the sixth. */
  predicate Follows(l: Life, t: seq<Status>, at: nat, n: nat, count: nat)
    requires n < |l.attempts|
  {
    var a := l.attempts[n];
    var counted := if a.seconds > 30 then 0 else count;
    && |t| > at + 1
    && if (StopSent(l, n, WhileRunning) && a.stopWins) || a.exitCode == Some(0) then
         |t| == at + 2 && t[at + 1] == Stopped
       else if !l.autoRestart || counted >= 5 then
         |t| == at + 2 && t[at + 1] == Fatal
       else
         && t[at + 1] == Crashing(counted + 1, BACKOFFS[counted])
         && if StopSent(l, n, InBackoff) then |t| == at + 3 && t[at + 2] == Stopped
            else Begins(l, t, at + 2, n + 1)
  }

  lemma TraceBegins(l: Life, i: nat, retryCount: nat)
    ensures Begins(l, Trace(l, i, retryCount), 0, i)
  {
    hide Pow2, StopSeen, StopSent;
    StopSentIsSeen(l, i, AtTop);
    if i < |l.attempts| && !StopSeen(l, i, AtTop) && l.attempts[i].spawned.Some? {
      assert |AfterRun(l, i, Retries(l.attempts[i], retryCount))| > 0;
    }
  }

  lemma BackoffsArePowers(k: nat)
    requires k < 5
    ensures BACKOFFS[k] == Pow2(k + 1)
  {
    Pow2Values();
  }

  lemma BeginsBehind(l: Life, front: seq<Status>, t: seq<Status>, at: nat, n: nat)
    requires Begins(l, t, at, n)
    ensures Begins(l, front + t, |front| + at, n)
  {
  }

  lemma FollowsBehind(l: Life, front: seq<Status>, t: seq<Status>, at: nat, n: nat, count: nat)
    requires n < |l.attempts| && Follows(l, t, at, n, count)
    ensures Follows(l, front + t, |front| + at, n, count)
  {
    hide Begins;
    var u := front + t;
    assert u[|front| + at + 1] == t[at + 1];
    if |t| > at + 2 {
      assert u[|front| + at + 2] == t[at + 2];
    }
    if Begins(l, t, at + 2, n + 1) {
      BeginsBehind(l, front, t, at + 2, n + 1);
    }
  }

  lemma FirstRunFollows(l: Life, i: nat, retryCount: nat)
    requires i < |l.attempts| && !StopSeen(l, i, AtTop) && l.attempts[i].spawned.Some?
    ensures Follows(l, Trace(l, i, retryCount), 0, i, retryCount)
  {
    hide Pow2, StopSeen, StopSent, Begins;
    var a := l.attempts[i];
    var counted := Retries(a, retryCount);
    StopSentIsSeen(l, i, WhileRunning);
    StopSentIsSeen(l, i, InBackoff);
    if counted < 5 {
      BackoffsArePowers(counted);
    }
    var t, rest := Trace(l, i, retryCount), Trace(l, i + 1, counted + 1);
    TraceBegins(l, i + 1, counted + 1);
    var front := [Running(a.spawned.value), Crashing(counted + 1, Pow2(counted + 1))];
    BeginsBehind(l, front, rest, 0, i + 1);
    if !(StopSeen(l, i, WhileRunning) && a.stopWins) && a.exitCode != Some(0) && l.autoRestart && counted < 5
       && !StopSeen(l, i, InBackoff) {
      assert t == front + rest;
    }
  }

  /** Every run of every life is followed as its attempt says. */
  lemma {:induction false} RunIsFollowed(l: Life, i: nat, retryCount: nat, n: nat)
    requires 2 * n < |Trace(l, i, retryCount)| && Trace(l, i, retryCount)[2 * n].Running?
    ensures var t := Trace(l, i, retryCount);
            i + n < |l.attempts| && Follows(l, t, 2 * n, i + n, CountBefore(t, n, retryCount))
    decreases n
  {
    hide Trace, AfterRun, Pow2, Retries, StopSeen, Follows;
    if n == 0 {
      FirstTurn(l, i, retryCount);
      FirstRunFollows(l, i, retryCount);
    } else {
      NextTurn(l, i, retryCount);
      var k := Retries(l.attempts[i], retryCount) + 1;
      var t, rest := Trace(l, i, retryCount), Trace(l, i + 1, k);
      ShiftedTurn(t, t[0], t[1], rest, n);
      RunIsFollowed(l, i + 1, k, n - 1);
      ShiftedCount(t, t[0], t[1], rest, n, k, retryCount);
      FollowsBehind(l, [t[0], t[1]], rest, 2 * (n - 1), i + n, CountBefore(rest, n - 1, k));
      assert [t[0], t[1]] + rest == t;
    }
  }

  /** From the setup on: a life that cannot be prepared ends at once, and any other begins with its
      first turn. */
  lemma LifeBegins(l: Life)
    ensures WholeTrace(l)[0] == Setup
    ensures !l.prepared ==> WholeTrace(l) == [Setup, Fatal]
    ensures l.prepared ==> WholeTrace(l)[1..] == Trace(l, 0, 0) && Begins(l, WholeTrace(l)[1..], 0, 0)
  {
    TraceBegins(l, 0, 0);
    assert ([Setup] + Trace(l, 0, 0))[1..] == Trace(l, 0, 0);
  }

  /** The process was started, ran for at most thirty seconds and did not end well. */
  predicate IsShortCrash(a: Attempt) {
    a.spawned.Some? && a.seconds <= 30 && a.exitCode != Some(0)
  }

  /** Without a stop, short crashes in a row are given up: from any count the sixth at the latest, and
      behind a fresh start or a long run exactly the sixth. */
  lemma {:induction false} SixShortCrashesAreFatal(l: Life, i: nat, retryCount: nat)
    requires l.stop == None && l.autoRestart && retryCount <= 5
    requires i + 6 - retryCount <= |l.attempts|
    requires forall m | i <= m < i + 6 - retryCount :: IsShortCrash(l.attempts[m])
    ensures var t := Trace(l, i, retryCount); |t| == 2 * (6 - retryCount) && t[|t| - 1] == Fatal
    decreases 5 - retryCount
  {
    hide Pow2;
    assert IsShortCrash(l.attempts[i]);
    if retryCount < 5 {
      SixShortCrashesAreFatal(l, i + 1, retryCount + 1);
    }
  }

  // ----- Main results -----

  /** Once a stop is sent, no later look at the top of the loop lets another process start: every
      run reported belongs to a turn whose top the stop had not reached. */
  lemma NoRunAfterStop(l: Life, n: nat)
    requires 2 * n < |Trace(l, 0, 0)| && Trace(l, 0, 0)[2 * n].Running?
    ensures n < |l.attempts| && !StopSeen(l, n, AtTop)
    ensures forall m | 0 <= m <= n :: !StopSeen(l, m, AtTop)
  {
    TurnsInTrace(l, 0, 0, n);
  }

  lemma LastOfNextTurn(l: Life, i: nat, retryCount: nat)
    requires i < |l.attempts| && !StopSeen(l, i, AtTop) && l.attempts[i].spawned.Some?
    requires !(StopSeen(l, i, WhileRunning) && l.attempts[i].stopWins) && l.attempts[i].exitCode != Some(0)
    requires l.autoRestart && Retries(l.attempts[i], retryCount) < MAX_RETRIES && !StopSeen(l, i, InBackoff)
    requires Trace(l, i + 1, Retries(l.attempts[i], retryCount) + 1) != []
    ensures var t, rest := Trace(l, i, retryCount), Trace(l, i + 1, Retries(l.attempts[i], retryCount) + 1);
            t != [] && t[|t| - 1] == rest[|rest| - 1]
  {
    hide Trace, AfterRun, Pow2, StopSeen, Retries;
    var k := Retries(l.attempts[i], retryCount) + 1;
    var t, run := Trace(l, i, retryCount), Running(l.attempts[i].spawned.value);
    RunUnfolds([], l, i, retryCount);
    CrashUnfolds([run], l, i, k - 1);
    assert [] + t == t && [] + [run] == [run];
  }

  /** A life observed beyond its stop ends. */
  lemma {:induction false} StopEndsTheLife(l: Life, i: nat, retryCount: nat)
    requires l.stop.Some? && i <= l.stop.value.0 && l.stop.value.0 + 1 < |l.attempts|
    ensures Trace(l, i, retryCount) != [] && IsEnd(Trace(l, i, retryCount)[|Trace(l, i, retryCount)| - 1])
    decreases |l.attempts| - i
  {
    hide Pow2;
    var t := Trace(l, i, retryCount);
    if !StopSeen(l, i, AtTop) && l.attempts[i].spawned.Some? {
      var a := l.attempts[i];
      var k := Retries(a, retryCount) + 1;
      if !(StopSeen(l, i, WhileRunning) && a.stopWins) && a.exitCode != Some(0) && l.autoRestart && k <= MAX_RETRIES
         && !StopSeen(l, i, InBackoff) {
        StopEndsTheLife(l, i + 1, k);
        LastOfNextTurn(l, i, retryCount);
      }
    }
  }

  function Backoff(t: seq<Status>, from: nat, upTo: nat): nat
    requires from <= upTo && 2 * upTo <= |t|
    decreases upTo
  {
    if from == upTo then 0
    else Backoff(t, from, upTo - 1) + (if t[2 * upTo - 1].Crashing? then t[2 * upTo - 1].backoffSeconds else 0)
  }

  /** The run of turn `m` crashed, and was not a long one unless it is the first of the series. */
  predicate CrashSeries(l: Life, t: seq<Status>, from: nat, upTo: nat) {
    && 2 * upTo <= |t| && upTo <= |l.attempts|
    && (forall m | from <= m < upTo :: t[2 * m + 1].Crashing?)
    && (forall m | from < m < upTo :: l.attempts[m].seconds <= 30)
  }

  /** A crash, and the run before it, as every trace shows them. */
  lemma CrashAt(t: seq<Status>, m: nat)
    requires Alternates(t) && 2 * m + 1 < |t| && t[2 * m + 1].Crashing?
    ensures 1 <= t[2 * m + 1].retryCount <= MAX_RETRIES
    ensures t[2 * m + 1].backoffSeconds == Pow2(t[2 * m + 1].retryCount)
    ensures t[2 * m].Running?
  {
    hide Pow2;
    assert (2 * m) % 2 == 0;
    assert !IsEnd(t[2 * m]);
  }

  /** The count of the crash of turn `m`. */
  function CountAt(t: seq<Status>, m: nat): nat {
    if 2 * m + 1 < |t| && t[2 * m + 1].Crashing? then t[2 * m + 1].retryCount else 0
  }

  lemma BackoffStep(t: seq<Status>, from: nat, last: nat)
    requires Alternates(t) && from <= last && 2 * last + 1 < |t| && t[2 * last + 1].Crashing?
    ensures Backoff(t, from, last + 1) == Backoff(t, from, last) + Pow2(CountAt(t, last))
  {
    hide Alternates, Pow2;
    CrashAt(t, last);
    assert 2 * (last + 1) - 1 == 2 * last + 1;
  }

  lemma {:induction false} SeriesCounts(l: Life, from: nat, upTo: nat)
    requires from < upTo && CrashSeries(l, Trace(l, 0, 0), from, upTo)
    ensures var t := Trace(l, 0, 0);
            && CountAt(t, upTo - 1) == CountAt(t, from) + (upTo - 1 - from)
            && Backoff(t, from, upTo) == Pow2(CountAt(t, upTo - 1) + 1) - Pow2(CountAt(t, from))
    decreases upTo
  {
    hide Trace, AfterRun, Alternates, Backoff, CountAt;
    var t, last := Trace(l, 0, 0), upTo - 1;
    TraceAlternates(l, 0, 0);
    assert t[2 * last + 1].Crashing?;
    BackoffStep(t, from, last);
    if from == last {
      assert Backoff(t, from, from) == 0 by { NoBackoff(t, from); }
    } else {
      SeriesCounts(l, from, last);
      SeriesStep(l, last);
    }
  }

  lemma NoBackoff(t: seq<Status>, from: nat)
    requires 2 * from <= |t|
    ensures Backoff(t, from, from) == 0
  {
  }

  /** A short run that crashes behind a crash counts one more. */
  lemma SeriesStep(l: Life, m: nat)
    requires m > 0 && 2 * m + 1 < |Trace(l, 0, 0)| && m < |l.attempts| && l.attempts[m].seconds <= 30
    requires Trace(l, 0, 0)[2 * m + 1].Crashing? && Trace(l, 0, 0)[2 * (m - 1) + 1].Crashing?
    ensures CountAt(Trace(l, 0, 0), m) == CountAt(Trace(l, 0, 0), m - 1) + 1
  {
    hide Trace, AfterRun, Alternates;
    var t := Trace(l, 0, 0);
    TraceAlternates(l, 0, 0);
    CrashAt(t, m);
    TurnsInTrace(l, 0, 0, m);
    assert t[2 * (m - 1) + 1] == t[2 * m - 1];
  }

  /** Between runs longer than thirty seconds a process is restarted at most five times, with at
      most sixty-two seconds of backoff in all. */
  lemma RestartsAreBounded(l: Life, from: nat, upTo: nat)
    requires from < upTo && CrashSeries(l, Trace(l, 0, 0), from, upTo)
    ensures upTo - from <= 5
    ensures Backoff(Trace(l, 0, 0), from, upTo) <= 62
  {
    hide Trace, AfterRun, Alternates, Backoff, Pow2;
    var t := Trace(l, 0, 0);
    SeriesCounts(l, from, upTo);
    TraceAlternates(l, 0, 0);
    assert t[2 * from + 1].Crashing? && t[2 * (upTo - 1) + 1].Crashing?;
    CrashAt(t, from);
    CrashAt(t, upTo - 1);
    BackoffSpan(CountAt(t, from), CountAt(t, upTo - 1));
  }

  lemma BackoffSpan(first: nat, last: nat)
    requires 1 <= first <= last <= MAX_RETRIES
    ensures Pow2(last + 1) - Pow2(first) <= 62
  {
    Pow2Values();
  }

  /** A crash behind a long run counts from one again. */
  lemma LongRunStartsOver(l: Life, m: nat)
    requires 2 * m + 1 < |Trace(l, 0, 0)| && Trace(l, 0, 0)[2 * m + 1].Crashing?
    requires m < |l.attempts| && l.attempts[m].seconds > 30
    ensures Trace(l, 0, 0)[2 * m + 1] == Crashing(1, 2)
  {
    hide Trace, AfterRun, Alternates;
    TraceAlternates(l, 0, 0);
    CrashAt(Trace(l, 0, 0), m);
    TurnsInTrace(l, 0, 0, m);
    Pow2Values();
  }

  /** A count of `k` stands at the end of a series of `k` crashes. */
  lemma {:induction false} CountMeansSeries(l: Life, m: nat)
    requires m < |l.attempts| && CountAt(Trace(l, 0, 0), m) > 0
    ensures var k := CountAt(Trace(l, 0, 0), m);
            k <= m + 1 && CrashSeries(l, Trace(l, 0, 0), m + 1 - k, m + 1)
  {
    hide Trace, AfterRun, Alternates;
    var t := Trace(l, 0, 0);
    var k := CountAt(t, m);
    TraceAlternates(l, 0, 0);
    CrashAt(t, m);
    TurnsInTrace(l, 0, 0, m);
    if k > 1 {
      assert CountBefore(t, m, 0) == k - 1 && l.attempts[m].seconds <= 30;
      assert t[2 * (m - 1) + 1] == t[2 * m - 1];
      CountMeansSeries(l, m - 1);
    }
  }

  /** A run reported without a crash or a stop behind it was given up: the process does not restart,
      or it follows a full series of five crashes and was itself no long run. */
  lemma GivenUpAfterFive(l: Life, m: nat)
    requires 2 * m + 1 < |Trace(l, 0, 0)| && Trace(l, 0, 0)[2 * m].Running? && Trace(l, 0, 0)[2 * m + 1].Fatal?
    ensures m < |l.attempts| && l.attempts[m].exitCode != Some(0)
    ensures l.autoRestart ==>
              m >= 5 && l.attempts[m].seconds <= 30 && CrashSeries(l, Trace(l, 0, 0), m - 5, m)
  {
    hide Trace, AfterRun, Alternates;
    FatalInTrace(l, 0, 0, m);
    var t := Trace(l, 0, 0);
    TraceAlternates(l, 0, 0);
    if l.autoRestart {
      assert CountBefore(t, m, 0) >= MAX_RETRIES;
      assert t[2 * (m - 1) + 1] == t[2 * m - 1];
      CrashAt(t, m - 1);
      CountMeansSeries(l, m - 1);
    }
  }

  lemma {:induction false} FatalInTrace(l: Life, i: nat, retryCount: nat, n: nat)
    requires 2 * n + 1 < |Trace(l, i, retryCount)|
    requires Trace(l, i, retryCount)[2 * n].Running? && Trace(l, i, retryCount)[2 * n + 1].Fatal?
    ensures i + n < |l.attempts| && l.attempts[i + n].exitCode != Some(0)
    ensures l.autoRestart ==>
              Retries(l.attempts[i + n], CountBefore(Trace(l, i, retryCount), n, retryCount)) >= MAX_RETRIES
    decreases n
  {
    hide Trace, AfterRun, Pow2, Retries, StopSeen;
    if n == 0 {
      FatalFirst(l, i, retryCount);
    } else {
      NextTurn(l, i, retryCount);
      var k := Retries(l.attempts[i], retryCount) + 1;
      var t, rest := Trace(l, i, retryCount), Trace(l, i + 1, k);
      ShiftedTurn(t, t[0], t[1], rest, n);
      FatalInTrace(l, i + 1, k, n - 1);
      ShiftedCount(t, t[0], t[1], rest, n, k, retryCount);
    }
  }

  lemma FatalFirst(l: Life, i: nat, retryCount: nat)
    requires |Trace(l, i, retryCount)| > 1 && Trace(l, i, retryCount)[0].Running? && Trace(l, i, retryCount)[1].Fatal?
    ensures i < |l.attempts| && l.attempts[i].exitCode != Some(0)
    ensures l.autoRestart ==> Retries(l.attempts[i], retryCount) >= MAX_RETRIES
  {
    hide Pow2, StopSeen, Retries;
  }

  lemma Pow2Values()
    ensures Pow2(1) == 2 && Pow2(2) == 4 && Pow2(3) == 8 && Pow2(4) == 16 && Pow2(5) == 32 && Pow2(6) == 64
  {
    assert Pow2(3) == 8;
    assert Pow2(5) == 32;
  }
}
