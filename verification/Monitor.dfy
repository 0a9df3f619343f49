/** Memory per project: the trees of all its registered processes, each process counted once. */
module Monitor {
  import opened Wrappers
  import opened ProcessTree
  import opened StableSorting

  /** One line of the report; the system idle process 0 gets none. */
  datatype ProcessInfo = ProcessInfo(pid: Pid, ram: nat)

  function PidOf(p: ProcessInfo): int {
    p.pid
  }

  // ----- Registrations -----

  datatype Command =
    | Register(project: string, pid: Pid)
    | DeregisterPid(project: string, pid: Pid)
    | Deregister(project: string)

  type Projects = map<string, set<Pid>>

  function Handled(projects: Projects, c: Command): Projects {
    match c
    case Register(project, pid) =>
      projects[project := (if project in projects then projects[project] else {}) + {pid}]
    case DeregisterPid(project, pid) =>
      if project !in projects then projects
      else if projects[project] - {pid} == {} then projects - {project}
      else projects[project := projects[project] - {pid}]
    case Deregister(project) => projects - {project}
  }

  function RunOf(commands: seq<Command>): Projects {
    if commands == [] then map[] else Handled(RunOf(commands[..|commands| - 1]), commands[|commands| - 1])
  }

  predicate Removes(c: Command, project: string, pid: Pid) {
    c == DeregisterPid(project, pid) || c == Deregister(project)
  }

  /** Registered at some point, and not deregistered since. */
  ghost predicate IsRegistered(commands: seq<Command>, project: string, pid: Pid) {
    exists i :: RegisteredAt(commands, project, pid, i)
  }

  ghost predicate RegisteredAt(commands: seq<Command>, project: string, pid: Pid, i: int) {
    && 0 <= i < |commands|
    && commands[i] == Register(project, pid)
    && forall j | i < j < |commands| :: !Removes(commands[j], project, pid)
  }

  predicate Holds(projects: Projects, project: string, pid: Pid) {
    project in projects && pid in projects[project]
  }

  lemma HandledHolds(projects: Projects, c: Command, project: string, pid: Pid)
    requires project in projects ==> projects[project] != {}
    ensures Holds(Handled(projects, c), project, pid) <==>
            c == Register(project, pid) || (Holds(projects, project, pid) && !Removes(c, project, pid))
    ensures project in Handled(projects, c) ==> Handled(projects, c)[project] != {}
  {
    if c.DeregisterPid? && project in projects && c.project == project && pid in projects[project] {
      assert pid != c.pid ==> pid in projects[project] - {c.pid};
    }
  }

  /** A project is active exactly while one of its pids is registered, and holds just those. */
  lemma {:induction false} ActiveIffRegistered(commands: seq<Command>, project: string, pid: Pid)
    ensures Holds(RunOf(commands), project, pid) <==> IsRegistered(commands, project, pid)
    ensures project in RunOf(commands) ==> RunOf(commands)[project] != {}
  {
    if commands != [] {
      var front, last := commands[..|commands| - 1], commands[|commands| - 1];
      ActiveIffRegistered(front, project, pid);
      HandledHolds(RunOf(front), last, project, pid);
      if IsRegistered(front, project, pid) && !Removes(last, project, pid) {
        var i :| RegisteredAt(front, project, pid, i);
        assert RegisteredAt(commands, project, pid, i);
      }
      if last == Register(project, pid) {
        assert RegisteredAt(commands, project, pid, |commands| - 1);
      }
      if IsRegistered(commands, project, pid) {
        var i :| RegisteredAt(commands, project, pid, i);
        if i < |front| {
          assert RegisteredAt(front, project, pid, i);
          assert !Removes(commands[|commands| - 1], project, pid);
        }
      }
    }
  }

  // ----- One tree -----

  /** One line for each of `pids`, no two alike, with the memory the system shows. */
  ghost predicate Reports(sys: System, infos: seq<ProcessInfo>, pids: iset<Pid>) {
    && (forall x | x in infos :: x.pid in pids && IsLine(sys, x))
    && (forall p | p in pids && p in sys.table && p != 0 :: ProcessInfo(p, sys.table[p].ram) in infos)
  }

  predicate IsLine(sys: System, x: ProcessInfo) {
    x.pid != 0 && x.pid in sys.table && x.ram == sys.table[x.pid].ram
  }

  ghost function Tree(sys: System, root: Pid): iset<Pid> {
    iset p | IsBelow(sys, ANY, p, root)
  }

  method CollectChildProcesses(sys: System, root: Pid) returns (infos: seq<ProcessInfo>)
    requires Valid(sys)
    ensures Reports(sys, infos, Tree(sys, root))
    ensures SortedBy(infos, PidOf)
  {
    ghost var queue;
    var treePids: set<Pid>;
    treePids, queue := CollectTree(sys, root);
    infos := [];
    var rest := treePids;
    while rest != {}
      invariant rest <= treePids
      invariant forall x | x in infos :: x.pid in treePids && IsLine(sys, x)
      invariant forall p | p in treePids - rest && p in sys.table && p != 0 :: ProcessInfo(p, sys.table[p].ram) in infos
      decreases rest
    {
      var pid :| pid in rest;
      rest := rest - {pid};
      if pid in sys.table && pid != 0 {
        infos := infos + [ProcessInfo(pid, sys.table[pid].ram)];
      }
    }
    SortSorts(infos, PidOf);
    SameElements(infos, Sort(infos, PidOf));
    infos := Sort(infos, PidOf);
  }

  lemma SameElements<T>(a: seq<T>, b: seq<T>)
    requires multiset(a) == multiset(b)
    ensures forall x :: x in a <==> x in b
  {
    forall x ensures x in a <==> x in b {
      assert x in a <==> x in multiset(a);
      assert x in b <==> x in multiset(b);
    }
  }

  // ----- Repeats -----

  /** Of neighbours with the same pid the first stays. */
  function Dedup(s: seq<ProcessInfo>): seq<ProcessInfo>
    decreases |s|
  {
    if |s| < 2 then s
    else if s[0].pid == s[1].pid then Dedup([s[0]] + s[2..])
    else [s[0]] + Dedup(s[1..])
  }

  predicate StrictlySorted(s: seq<ProcessInfo>) {
    forall i, j | 0 <= i < j < |s| :: s[i].pid < s[j].pid
  }

  /** On sorted lines that agree on every pid, dropping repeats drops nothing else. */
  lemma {:induction false} DedupKeeps(sys: System, s: seq<ProcessInfo>)
    requires SortedBy(s, PidOf) && forall x | x in s :: IsLine(sys, x)
    ensures StrictlySorted(Dedup(s))
    ensures forall x :: x in Dedup(s) <==> x in s
    ensures s != [] ==> Dedup(s) != [] && Dedup(s)[0] == s[0]
    decreases |s|
  {
    if |s| >= 2 {
      assert PidOf(s[0]) <= PidOf(s[1]);
      if s[0].pid == s[1].pid {
        var t := [s[0]] + s[2..];
        assert s[0] in s && s[1] in s && s[0] == s[1];
        assert s == [s[0], s[1]] + s[2..];
        assert forall x :: x in t <==> x in s;
        assert forall i | 1 <= i < |t| :: t[i] == s[i + 1];
        DedupKeeps(sys, t);
      } else {
        var t := s[1..];
        assert s == [s[0]] + t;
        assert forall i | 0 <= i < |t| :: t[i] == s[i + 1];
        DedupKeeps(sys, t);
        var d := Dedup(t);
        forall j | 0 <= j < |d| ensures s[0].pid < d[j].pid {
          assert d[0] == s[1];
          if j > 0 { assert d[0].pid < d[j].pid; }
        }
      }
    }
  }

  // ----- Sums -----

  function Total(s: seq<ProcessInfo>): nat {
    if s == [] then 0 else s[0].ram + Total(s[1..])
  }

  /** The memory of the counted processes, in the order of the table. */
  ghost function RamOf(sys: System, pids: iset<Pid>, order: seq<Pid>): nat
    requires forall p | p in order :: p in sys.table
  {
    if order == [] then 0
    else (if order[0] in pids && order[0] != 0 then sys.table[order[0]].ram else 0) + RamOf(sys, pids, order[1..])
  }

  lemma {:induction false} TotalWithout(s: seq<ProcessInfo>, i: nat)
    requires i < |s|
    ensures Total(s) == s[i].ram + Total(s[..i] + s[i + 1..])
  {
    if i == 0 {
      assert s[..0] + s[1..] == s[1..];
    } else {
      TotalWithout(s[1..], i - 1);
      var t := s[..i] + s[i + 1..];
      assert t[1..] == s[1..][..i - 1] + s[1..][i..];
      assert t[0] == s[0];
    }
  }

  predicate Distinct(s: seq<ProcessInfo>) {
    forall i, j | 0 <= i < j < |s| :: s[i].pid != s[j].pid
  }

  /** Lines for exactly the counted processes, one each, add up to their memory. */
  lemma {:induction false} TotalIsRam(sys: System, pids: iset<Pid>, order: seq<Pid>, s: seq<ProcessInfo>)
    requires NoRepeats(order) && forall p | p in order :: p in sys.table
    requires Distinct(s) && forall x | x in s :: x.pid in order && x.pid in pids && IsLine(sys, x)
    requires forall p | p in order && p in pids && p != 0 :: ProcessInfo(p, sys.table[p].ram) in s
    ensures Total(s) == RamOf(sys, pids, order)
  {
    if order == [] {
      forall x ensures x !in multiset(s) {
        assert x in s <==> x in multiset(s);
      }
      assert multiset(s) == multiset{};
      assert |multiset(s)| == |s|;
    } else {
      var p, rest := order[0], order[1..];
      assert order == [p] + rest;
      if p in pids && p != 0 {
        var x := ProcessInfo(p, sys.table[p].ram);
        assert p in order && x in s;
        var i :| 0 <= i < |s| && s[i] == x;
        var t := s[..i] + s[i + 1..];
        TotalWithout(s, i);
        Removed(s, i);
        forall y | y in t ensures y.pid in rest {
          assert y in s && y.pid != p;
        }
        forall q | q in rest && q in pids && q != 0 ensures ProcessInfo(q, sys.table[q].ram) in t {
          var k :| 0 <= k < |rest| && rest[k] == q;
          assert order[k + 1] == q && q != order[0];
          assert q in order;
        }
        TotalIsRam(sys, pids, rest, t);
      } else {
        forall y | y in s ensures y.pid in rest {
          assert y.pid != p;
        }
        forall q | q in rest && q in pids && q != 0 ensures ProcessInfo(q, sys.table[q].ram) in s {
          assert q in order;
        }
        TotalIsRam(sys, pids, rest, s);
      }
    }
  }

  lemma Removed(s: seq<ProcessInfo>, i: nat)
    requires i < |s| && Distinct(s)
    ensures var t := s[..i] + s[i + 1..];
            && Distinct(t)
            && (forall y :: y in t <==> y in s && y != s[i])
            && (forall y | y in t :: y.pid != s[i].pid)
  {
    var t := s[..i] + s[i + 1..];
    forall k | 0 <= k < |t| ensures t[k] == s[if k < i then k else k + 1] && t[k].pid != s[i].pid {
    }
    forall y | y in s && y != s[i] ensures y in t {
      var k :| 0 <= k < |s| && s[k] == y;
      assert t[if k < i then k else k - 1] == y;
    }
  }

  // ----- One project -----

  /** The processes below any of the registered ones. */
  ghost function Union(sys: System, roots: seq<Pid>): iset<Pid> {
    iset p | IsBelowOne(sys, roots, p)
  }

  ghost predicate IsBelowOne(sys: System, roots: seq<Pid>, p: Pid) {
    exists r :: r in roots && IsBelow(sys, ANY, p, r)
  }

  lemma UnionNext(sys: System, roots: seq<Pid>, i: nat)
    requires i < |roots|
    ensures Union(sys, roots[..i + 1]) == Union(sys, roots[..i]) + Tree(sys, roots[i])
  {
    hide IsBelow;
    assert roots[..i + 1] == roots[..i] + [roots[i]];
    forall p ensures p in Union(sys, roots[..i + 1]) <==> p in Union(sys, roots[..i]) + Tree(sys, roots[i]) {
      assert IsBelowOne(sys, roots[..i + 1], p) <==> IsBelowOne(sys, roots[..i], p) || IsBelow(sys, ANY, p, roots[i]);
    }
  }

  lemma ReportsMore(sys: System, a: seq<ProcessInfo>, b: seq<ProcessInfo>, p: iset<Pid>, q: iset<Pid>)
    requires Reports(sys, a, p) && Reports(sys, b, q)
    ensures Reports(sys, a + b, p + q)
  {
  }

  lemma ReportsSame(sys: System, a: seq<ProcessInfo>, b: seq<ProcessInfo>, p: iset<Pid>)
    requires Reports(sys, a, p) && forall x :: x in a <==> x in b
    ensures Reports(sys, b, p)
  {
  }

  /** The lines of several trees together. */
  method CollectTrees(sys: System, roots: seq<Pid>) returns (processes: seq<ProcessInfo>)
    requires Valid(sys)
    ensures Reports(sys, processes, Union(sys, roots))
  {
    hide Valid, Union, Tree;
    processes := [];
    assert Reports(sys, [], Union(sys, roots[..0])) by { NoRootsNoReport(sys, roots[..0]); }
    for i := 0 to |roots|
      invariant Reports(sys, processes, Union(sys, roots[..i]))
    {
      var list := CollectChildProcesses(sys, roots[i]);
      UnionNext(sys, roots, i);
      ReportsMore(sys, processes, list, Union(sys, roots[..i]), Tree(sys, roots[i]));
      processes := processes + list;
    }
    assert roots[..|roots|] == roots;
  }

  lemma NoRootsNoReport(sys: System, roots: seq<Pid>)
    requires roots == []
    ensures Reports(sys, [], Union(sys, roots))
  {
  }

  /** The report of a project: one line for every process below a registered one, however many of
      their trees it is in, and their memory added up. */
  method Aggregate(sys: System, roots: seq<Pid>) returns (processes: seq<ProcessInfo>, totalRam: nat)
    requires Valid(sys)
    ensures StrictlySorted(processes) && Reports(sys, processes, Union(sys, roots))
    ensures totalRam == RamOf(sys, Union(sys, roots), sys.order)
  {
    hide Union, Sort, Dedup, SortedBy;
    var all := CollectTrees(sys, roots);
    var sorted := Sort(all, PidOf);
    SortSorts(all, PidOf);
    SameElements(all, sorted);
    ReportsSame(sys, all, sorted, Union(sys, roots));
    processes := Dedup(sorted);
    DedupKeeps(sys, sorted);
    ReportsSame(sys, sorted, processes, Union(sys, roots));
    TotalIsRam(sys, Union(sys, roots), sys.order, processes);
    totalRam := AddUp(processes);
  }

  method AddUp(processes: seq<ProcessInfo>) returns (totalRam: nat)
    ensures totalRam == Total(processes)
  {
    totalRam := 0;
    for i := 0 to |processes|
      invariant totalRam + Total(processes[i..]) == Total(processes)
    {
      assert processes[i..][1..] == processes[i + 1..];
      totalRam := totalRam + processes[i].ram;
    }
  }

  // ----- From commands to reports -----

  /** The processes below any of a set of processes. */
  ghost function Trees(sys: System, roots: set<Pid>): iset<Pid> {
    iset p | IsBelowAny(sys, roots, p)
  }

  ghost predicate IsBelowAny(sys: System, roots: set<Pid>, p: Pid) {
    exists r :: r in roots && IsBelow(sys, ANY, p, r)
  }

  /** The processes below any that is registered for the project. */
  ghost function RegisteredTrees(sys: System, commands: seq<Command>, project: string): iset<Pid> {
    iset p | IsBelowRegistered(sys, commands, project, p)
  }

  ghost predicate IsBelowRegistered(sys: System, commands: seq<Command>, project: string, p: Pid) {
    exists r :: IsRegistered(commands, project, r) && IsBelow(sys, ANY, p, r)
  }

  /** A project is reported exactly while a pid of it is registered. */
  lemma ReportedIffRegistered(sys: System, commands: seq<Command>, project: string)
    ensures project in RunOf(commands) <==> exists pid :: IsRegistered(commands, project, pid)
    ensures project in RunOf(commands) ==>
              Trees(sys, RunOf(commands)[project]) == RegisteredTrees(sys, commands, project)
  {
    hide RunOf, IsRegistered, IsBelow;
    forall pid
      ensures Holds(RunOf(commands), project, pid) <==> IsRegistered(commands, project, pid)
      ensures project in RunOf(commands) ==> RunOf(commands)[project] != {}
    {
      ActiveIffRegistered(commands, project, pid);
    }
    if project in RunOf(commands) {
      assert RunOf(commands)[project] != {} by { ActiveIffRegistered(commands, project, 0); }
      var pid :| pid in RunOf(commands)[project];
      assert Holds(RunOf(commands), project, pid);
    }
  }

  method InSomeOrder(pids: set<Pid>) returns (order: seq<Pid>)
    ensures forall p :: p in order <==> p in pids
  {
    order := [];
    var left := pids;
    while left != {}
      invariant left <= pids
      invariant forall p :: p in order <==> p in pids - left
      decreases left
    {
      var p :| p in left;
      order := order + [p];
      left := left - {p};
    }
  }

  lemma UnionIsTrees(sys: System, order: seq<Pid>, roots: set<Pid>)
    requires forall p :: p in order <==> p in roots
    ensures Union(sys, order) == Trees(sys, roots)
  {
    hide IsBelow;
  }

  datatype Stats = Stats(processes: seq<ProcessInfo>, ram: nat)

  /** What is sent for a project: a line for each of `pids`, and their memory. */
  ghost predicate IsReport(sys: System, stats: Stats, pids: iset<Pid>)
    requires Valid(sys)
  {
    && StrictlySorted(stats.processes)
    && Reports(sys, stats.processes, pids)
    && stats.ram == RamOf(sys, pids, sys.order)
  }

  class ResourceMonitor {
    var activeProjects: Projects

    constructor ()
      ensures activeProjects == map[]
    {
      activeProjects := map[];
    }

    method Handle(c: Command)
      modifies this
      ensures activeProjects == Handled(old(activeProjects), c)
    {
      match c {
        case Register(project, pid) =>
          var pids := if project in activeProjects then activeProjects[project] else {};
          activeProjects := activeProjects[project := pids + {pid}];
        case DeregisterPid(project, pid) =>
          if project in activeProjects {
            var pids := activeProjects[project] - {pid};
            if pids == {} {
              activeProjects := activeProjects - {project};
            } else {
              activeProjects := activeProjects[project := pids];
            }
          }
        case Deregister(project) =>
          activeProjects := activeProjects - {project};
      }
    }

    method HandleAll(commands: seq<Command>, ghost past: seq<Command>)
      requires activeProjects == RunOf(past)
      modifies this
      ensures activeProjects == RunOf(past + commands)
    {
      assert past + commands[..0] == past;
      for i := 0 to |commands|
        invariant activeProjects == RunOf(past + commands[..i])
      {
        var all := past + commands[..i + 1];
        assert all[..|all| - 1] == past + commands[..i] && all[|all| - 1] == commands[i];
        Handle(commands[i]);
      }
      assert commands[..|commands|] == commands;
    }

    /** One round: the commands that have arrived are handled, and then every active project is
        reported. After all commands up to now these are the projects with a registered pid, and the
        memory reported is that of the union of the trees of their registered pids. */
    method Poll(commands: seq<Command>, sys: System, ghost past: seq<Command>) returns (stats: map<string, Stats>)
      requires Valid(sys) && activeProjects == RunOf(past)
      modifies this
      ensures activeProjects == RunOf(past + commands)
      ensures forall p :: p in stats <==> exists pid :: IsRegistered(past + commands, p, pid)
      ensures forall p | p in stats :: IsReport(sys, stats[p], RegisteredTrees(sys, past + commands, p))
    {
      hide Valid, IsRegistered, RunOf, Trees, Union, StrictlySorted, Reports, RegisteredTrees;
      HandleAll(commands, past);
      stats := map[];
      var left := activeProjects.Keys;
      while left != {}
        invariant left <= activeProjects.Keys && activeProjects == RunOf(past + commands)
        invariant stats.Keys == activeProjects.Keys - left
        invariant forall p | p in stats :: IsReport(sys, stats[p], Trees(sys, activeProjects[p]))
        decreases left
      {
        var project :| project in left;
        var order := InSomeOrder(activeProjects[project]);
        var processes, ram := Aggregate(sys, order);
        UnionIsTrees(sys, order, activeProjects[project]);
        stats := stats[project := Stats(processes, ram)];
        left := left - {project};
      }
      forall p
        ensures p in stats <==> exists pid :: IsRegistered(past + commands, p, pid)
        ensures p in stats ==> IsReport(sys, stats[p], RegisteredTrees(sys, past + commands, p))
      {
        ReportedIffRegistered(sys, past + commands, p);
      }
    }
  }
}
