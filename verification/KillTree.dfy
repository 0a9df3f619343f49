/** Which processes a tree kill reaches, in which order, and who may be killed at all. */
module KillTree {
  import opened Wrappers
  import opened Text
  import opened ProcessTree

  // ----- The kill list -----

  /** Listed once each, from a root down, and every other one behind the parent that found it. */
  ghost predicate IsKillList(sys: System, safe: Pid -> bool, root: Pid, list: seq<Pid>) {
    && NoRepeats(list)
    && list != [] && list[0] == root
    && (forall p :: p in list <==> IsBelow(sys, safe, p, root))
    && forall k | 0 < k < |list| :: exists j: nat :: j < k && IsChild(sys, list[k], list[j])
  }

  function Reversed(list: seq<Pid>): seq<Pid> {
    seq(|list|, i requires 0 <= i < |list| => list[|list| - 1 - i])
  }

  /** Killing in reverse order takes every process before the parent that found it, and only
      once; so no killed parent can hand its children on. */
  lemma KilledBeforeParent(sys: System, safe: Pid -> bool, root: Pid, list: seq<Pid>)
    requires IsKillList(sys, safe, root, list)
    ensures var kills := Reversed(list);
            && NoRepeats(kills)
            && kills[|kills| - 1] == root
            && forall i | 0 <= i < |kills| - 1 :: exists j: nat :: i < j < |kills| && IsChild(sys, kills[i], kills[j])
  {
    hide Reversed, NoRepeats, IsChild, IsBelow;
    var kills := Reversed(list);
    ReversedAt(list);
    forall i | 0 <= i < |kills| - 1 ensures exists j: nat :: i < j < |kills| && IsChild(sys, kills[i], kills[j]) {
      ParentInReverse(sys, safe, root, list, |list| - 1 - i);
    }
  }

  lemma ReversedAt(list: seq<Pid>)
    ensures |Reversed(list)| == |list|
    ensures forall i | 0 <= i < |list| :: Reversed(list)[i] == list[|list| - 1 - i]
    ensures NoRepeats(list) ==> NoRepeats(Reversed(list))
  {
  }

  lemma ParentInReverse(sys: System, safe: Pid -> bool, root: Pid, list: seq<Pid>, k: nat)
    requires IsKillList(sys, safe, root, list) && 0 < k < |list|
    ensures var kills, i := Reversed(list), |list| - 1 - k;
            exists j: nat :: i < j < |kills| && IsChild(sys, kills[i], kills[j])
  {
    hide IsChild, IsBelow;
    ReversedAt(list);
    var m: nat :| m < k && IsChild(sys, list[k], list[m]);
    var i, j := |list| - 1 - k, |list| - 1 - m;
    assert IsChild(sys, Reversed(list)[i], Reversed(list)[j]);
  }

  // ----- The ancestor test -----

  /** The pid reached from `p` by `n` steps to parents, as long as the processes exist. */
  function Up(sys: System, p: Pid, n: nat): Option<Pid> {
    if n == 0 then Some(p)
    else match Up(sys, p, n - 1)
      case None => None
      case Some(q) => if q in sys.table then sys.table[q].parent else None
  }

  /** `us` is a proper ancestor of `p`. */
  ghost predicate IsOurs(sys: System, us: Pid, p: Pid) {
    exists n: nat :: n > 0 && Up(sys, p, n) == Some(us)
  }

  /** The walk from `p` comes to its end in at most `n` steps: at a process that is gone, at one
      without a parent, or at a child of ours. */
  ghost predicate EndsWithin(sys: System, us: Pid, p: Pid, n: nat)
    decreases n
  {
    || p !in sys.table
    || sys.table[p].parent == None
    || sys.table[p].parent == Some(us)
    || (n > 0 && EndsWithin(sys, us, sys.table[p].parent.value, n - 1))
  }

  ghost predicate WalkEnds(sys: System, us: Pid, p: Pid) {
    exists n: nat :: EndsWithin(sys, us, p, n)
  }

  /** Processes whose parents are among them too, and are never us. */
  ghost predicate IsTrap(sys: System, us: Pid, trap: set<Pid>) {
    forall q | q in trap ::
      && q in sys.table
      && sys.table[q].parent.Some?
      && sys.table[q].parent.value in trap
      && sys.table[q].parent.value != us
  }

  lemma {:induction false} TrapIsNotLeft(sys: System, us: Pid, trap: set<Pid>, p: Pid, n: nat)
    requires IsTrap(sys, us, trap) && p in trap
    ensures !EndsWithin(sys, us, p, n)
    decreases n
  {
    if n > 0 {
      TrapIsNotLeft(sys, us, trap, sys.table[p].parent.value, n - 1);
    }
  }

  lemma WalkFromChildEnds(sys: System, us: Pid, p: Pid, parent: Pid)
    requires WalkEnds(sys, us, parent) && IsChild(sys, p, parent)
    ensures WalkEnds(sys, us, p)
  {
    var n: nat :| EndsWithin(sys, us, parent, n);
    assert EndsWithin(sys, us, p, n + 1);
  }

  /** The walk never ends exactly when it starts in a trap. */
  lemma WalkNeverEndsIff(sys: System, us: Pid, p: Pid)
    ensures !WalkEnds(sys, us, p) <==> exists trap: set<Pid> :: IsTrap(sys, us, trap) && p in trap
  {
    if !WalkEnds(sys, us, p) {
      var trap := set q | q in sys.table && !WalkEnds(sys, us, q);
      assert !EndsWithin(sys, us, p, 0);
      forall q | q in trap
        ensures sys.table[q].parent.Some? && sys.table[q].parent.value in trap && sys.table[q].parent.value != us
      {
        assert !EndsWithin(sys, us, q, 0);
        var parent := sys.table[q].parent.value;
        if WalkEnds(sys, us, parent) {
          WalkFromChildEnds(sys, us, q, parent);
        } else {
          assert !EndsWithin(sys, us, parent, 0);
        }
      }
      assert IsTrap(sys, us, trap) && p in trap;
    }
    forall trap: set<Pid>, n: nat | IsTrap(sys, us, trap) && p in trap ensures !EndsWithin(sys, us, p, n) {
      TrapIsNotLeft(sys, us, trap, p, n);
    }
  }

  /** Every process has a larger rank than its parent: no parent cycles. */
  ghost predicate RanksParents(sys: System, rank: Pid -> nat) {
    forall p | p in sys.table && sys.table[p].parent.Some? :: rank(sys.table[p].parent.value) < rank(p)
  }

  /** Without parent cycles every walk ends. */
  lemma {:induction false} RankedWalkEnds(sys: System, us: Pid, p: Pid, rank: Pid -> nat)
    requires RanksParents(sys, rank)
    ensures WalkEnds(sys, us, p)
    decreases rank(p)
  {
    if p in sys.table && sys.table[p].parent.Some? {
      RankedWalkEnds(sys, us, sys.table[p].parent.value, rank);
      WalkFromChildEnds(sys, us, p, sys.table[p].parent.value);
    } else {
      assert EndsWithin(sys, us, p, 0);
    }
  }

  /** A cycle elsewhere does not matter: 1 and 2 are each other's parents, and the walk from 3 ends. */
  lemma CycleElsewhere(us: Pid)
    requires us > 3
    ensures var none := Process(None, "", None, 0);
            var sys := System(map[1 := none.(parent := Some(2)), 2 := none.(parent := Some(1)), 3 := none], [1, 2, 3]);
            && !WalkEnds(sys, us, 1) && WalkEnds(sys, us, 3)
            && forall rank: Pid -> nat :: !RanksParents(sys, rank)
  {
    var none := Process(None, "", None, 0);
    var sys := System(map[1 := none.(parent := Some(2)), 2 := none.(parent := Some(1)), 3 := none], [1, 2, 3]);
    assert IsTrap(sys, us, {1, 2});
    WalkNeverEndsIff(sys, us, 1);
    assert EndsWithin(sys, us, 3, 0);
    forall rank: Pid -> nat ensures !RanksParents(sys, rank) {
      assert 1 in sys.table && 2 in sys.table && sys.table[1].parent == Some(2) && sys.table[2].parent == Some(1);
      assert !(rank(2) < rank(1)) || !(rank(1) < rank(2));
    }
  }

  lemma {:induction false} UpFirst(sys: System, p: Pid, n: nat)
    requires p in sys.table && sys.table[p].parent.Some?
    ensures Up(sys, p, n + 1) == Up(sys, sys.table[p].parent.value, n)
  {
    if n > 0 {
      UpFirst(sys, p, n - 1);
    } else {
      assert Up(sys, p, 0) == Some(p);
    }
  }

  lemma {:induction false} UpEnds(sys: System, p: Pid, n: nat)
    requires !(p in sys.table && sys.table[p].parent.Some?) && n > 0
    ensures Up(sys, p, n) == None
  {
    if n > 1 {
      UpEnds(sys, p, n - 1);
    } else {
      assert Up(sys, p, 0) == Some(p);
    }
  }

  lemma OursStep(sys: System, us: Pid, p: Pid)
    ensures IsOurs(sys, us, p) <==>
            p in sys.table && sys.table[p].parent.Some?
            && (sys.table[p].parent == Some(us) || IsOurs(sys, us, sys.table[p].parent.value))
  {
    if p in sys.table && sys.table[p].parent.Some? {
      var q := sys.table[p].parent.value;
      if IsOurs(sys, us, p) {
        var n: nat :| n > 0 && Up(sys, p, n) == Some(us);
        UpFirst(sys, p, n - 1);
        assert n - 1 > 0 ==> IsOurs(sys, us, q);
      }
      if q == us {
        assert Up(sys, p, 0) == Some(p);
        assert Up(sys, p, 1) == Some(us);
      }
      if IsOurs(sys, us, q) {
        var n: nat :| n > 0 && Up(sys, q, n) == Some(us);
        UpFirst(sys, p, n);
        assert Up(sys, p, n + 1) == Some(us);
      }
    } else {
      forall n: nat | n > 0 ensures Up(sys, p, n) == None {
        UpEnds(sys, p, n);
      }
    }
  }

  /** The walk to the parents, wherever it ends. */
  method IsDescendantOf(sys: System, us: Pid, target: Pid) returns (isDescendant: bool)
    requires WalkEnds(sys, us, target)
    ensures isDescendant <==> IsOurs(sys, us, target)
  {
    hide IsOurs;
    isDescendant := false;
    var temp := target;
    ghost var left: nat :| EndsWithin(sys, us, target, left);
    while temp in sys.table
      invariant !isDescendant
      invariant IsOurs(sys, us, target) <==> IsOurs(sys, us, temp)
      invariant EndsWithin(sys, us, temp, left)
      decreases left
    {
      OursStep(sys, us, temp);
      var parent := sys.table[temp].parent;
      if parent.None? {
        return;
      }
      if parent.value == us {
        return true;
      }
      temp := parent.value;
      left := left - 1;
    }
    OursStep(sys, us, temp);
  }

  /** A parent cycle we are not on is walked forever: there is always a next parent, and it is
      never us. */
  lemma {:induction false} CycleIsWalkedForever(sys: System, us: Pid, cycle: set<Pid>, p: Pid, n: nat)
    requires us !in cycle && p in cycle
    requires forall q | q in cycle :: q in sys.table && sys.table[q].parent.Some? && sys.table[q].parent.value in cycle
    ensures Up(sys, p, n).Some? && Up(sys, p, n).value in cycle && Up(sys, p, n) != Some(us)
  {
    if n > 0 {
      CycleIsWalkedForever(sys, us, cycle, p, n - 1);
    }
  }

  /** Whatever hangs below one of our descendants, at any depth, is a descendant of ours. */
  lemma {:induction false} BelowOursIsOurs(sys: System, admit: Pid -> bool, us: Pid, p: Pid, n: nat, root: Pid)
    requires IsOurs(sys, us, root) && Climbs(sys, admit, p, n, root)
    ensures IsOurs(sys, us, p)
    decreases n
  {
    if n > 0 {
      BelowOursIsOurs(sys, admit, us, sys.table[p].parent.value, n - 1, root);
      OursStep(sys, us, p);
    }
  }

  // ----- Who may be killed -----

  const BLOCKLIST := ["csrss.exe", "svchost.exe", "lsass.exe", "systemd", "kernel_task", "smss.exe",
                      "explorer.exe", "wininit.exe", "winlogon.exe", "services.exe", "init", "launchd"]
  const ALLOWLIST := ["node", "python", "cargo", "npm", "docker", "sh", "bash", "powershell", "cmd",
                      "git", "python3", "pip", "yarn", "pnpm", "rustc"]

  predicate HoldsOneOf(name: string, words: seq<string>) {
    exists w | w in words :: Contains(name, w)
  }

  predicate IsForeign(sys: System, us: Pid, p: Process) {
    us in sys.table && sys.table[us].uid.Some? && p.uid.Some? && sys.table[us].uid != p.uid
  }

  /** Names are in lower case. A process that is already gone is safe. */
  ghost predicate IsSafe(sys: System, us: Pid, pid: Pid) {
    pid in sys.table ==>
      var p := sys.table[pid];
      && !HoldsOneOf(p.name, BLOCKLIST)
      && !IsForeign(sys, us, p)
      && (IsOurs(sys, us, pid) || HoldsOneOf(p.name, ALLOWLIST))
  }

  // ----- The test, spelled out -----

  /** One of the words stands somewhere in the name. */
  ghost predicate Mentions(name: string, words: seq<string>) {
    exists w: string, x: string, y: string :: w in words && name == x + w + y
  }

  lemma HoldsIffMentions(name: string, words: seq<string>)
    ensures HoldsOneOf(name, words) <==> Mentions(name, words)
  {
    forall w ensures Contains(name, w) <==> exists x: string, y: string :: name == x + w + y {
      ContainsIff(name, w);
    }
    if HoldsOneOf(name, words) {
      var w :| w in words && Contains(name, w);
      var x: string, y: string :| name == x + w + y;
    }
    if Mentions(name, words) {
      var w: string, x: string, y: string :| w in words && name == x + w + y;
      assert Contains(name, w);
    }
  }

  /** Both owners are known and differ. */
  predicate OwnersDiffer(sys: System, p: Pid, q: Pid) {
    && p in sys.table && q in sys.table
    && match sys.table[p].uid
       case None => false
       case Some(one) =>
         match sys.table[q].uid
         case None => false
         case Some(other) => one != other
  }

  /** A running process is safe exactly when its name mentions no system process, it does not belong to
      another user, and it is a descendant of ours or its name mentions a development tool. */
  lemma SafeIff(sys: System, us: Pid, pid: Pid)
    requires pid in sys.table
    ensures IsSafe(sys, us, pid) <==>
            && !Mentions(sys.table[pid].name,
                         ["csrss.exe", "svchost.exe", "lsass.exe", "systemd", "kernel_task", "smss.exe", "explorer.exe",
                          "wininit.exe", "winlogon.exe", "services.exe", "init", "launchd"])
            && !OwnersDiffer(sys, us, pid)
            && (IsOurs(sys, us, pid)
                || Mentions(sys.table[pid].name,
                            ["node", "python", "cargo", "npm", "docker", "sh", "bash", "powershell", "cmd", "git",
                             "python3", "pip", "yarn", "pnpm", "rustc"]))
  {
    hide HoldsOneOf, Mentions, IsOurs;
    HoldsIffMentions(sys.table[pid].name, BLOCKLIST);
    HoldsIffMentions(sys.table[pid].name, ALLOWLIST);
  }

  /** The test comes to an answer: it gives one before the walk, or the walk ends. */
  ghost predicate TestEnds(sys: System, us: Pid, pid: Pid) {
    pid in sys.table && !HoldsOneOf(sys.table[pid].name, BLOCKLIST) && !IsForeign(sys, us, sys.table[pid]) ==>
      WalkEnds(sys, us, pid)
  }

  method IsSafeToKill(sys: System, us: Pid, pid: Pid) returns (ok: bool)
    requires TestEnds(sys, us, pid)
    ensures ok <==> IsSafe(sys, us, pid)
  {
    hide HoldsOneOf;
    if pid !in sys.table {
      return true;
    }
    var p := sys.table[pid];
    if HoldsOneOf(p.name, BLOCKLIST) || IsForeign(sys, us, p) {
      return false;
    }
    ok := IsDescendantOf(sys, us, pid);
    if !ok {
      ok := HoldsOneOf(p.name, ALLOWLIST);
    }
  }

  /** Below one of our own descendants the allowlist plays no part: a process of the tree is safe
      exactly when its name is not blocked and it belongs to our user. */
  lemma SafeBelowOurs(sys: System, admit: Pid -> bool, us: Pid, pid: Pid, root: Pid)
    requires IsOurs(sys, us, root) && IsBelow(sys, admit, pid, root) && pid in sys.table
    ensures IsSafe(sys, us, pid) <==>
            !HoldsOneOf(sys.table[pid].name, BLOCKLIST) && !IsForeign(sys, us, sys.table[pid])
  {
    hide HoldsOneOf;
    var n: nat :| Climbs(sys, admit, pid, n, root);
    BelowOursIsOurs(sys, admit, us, pid, n, root);
  }

  /** The safety test as a predicate on pids. */
  ghost function SafeTest(sys: System, us: Pid): Pid -> bool {
    (p: Pid) => IsSafe(sys, us, p)
  }

  /** Breadth-first, through the children that pass the safety test. Since the walk from the root
      ends, so does every walk that starts below it. */
  method CollectKillList(sys: System, us: Pid, root: Pid) returns (pidsToKill: seq<Pid>)
    requires Valid(sys) && WalkEnds(sys, us, root)
    ensures IsKillList(sys, SafeTest(sys, us), root, pidsToKill)
  {
    hide IsSafe, WalkEnds;
    ghost var safe := SafeTest(sys, us);
    pidsToKill := [];
    var queue := [root];
    var index := 0;
    while index < |queue|
      invariant IsFrontier(sys, safe, root, queue, index)
      invariant pidsToKill == queue[..index]
      invariant ChildrenQueued(sys, safe, queue, index)
      invariant forall p | p in queue :: WalkEnds(sys, us, p)
      decreases |sys.order| + 1 - index
    {
      QueueBound(sys, safe, root, queue, index);
      var parent := queue[index];
      ghost var before := queue;
      assert queue[..index + 1] == queue[..index] + [parent];
      TakeKeepsFrontier(sys, safe, root, queue, index);
      index := index + 1;
      pidsToKill := pidsToKill + [parent];
      for i := 0 to |sys.order|
        invariant IsFrontier(sys, safe, root, queue, index)
        invariant before <= queue
        invariant forall p | p in queue :: WalkEnds(sys, us, p)
        invariant forall p | p in sys.order[..i] && IsChild(sys, p, parent) && safe(p) :: p in queue
      {
        var pid := sys.order[i];
        if sys.table[pid].parent == Some(parent) && pid !in queue {
          WalkFromChildEnds(sys, us, pid, parent);
          var ok := IsSafeToKill(sys, us, pid);
          if ok {
            PushKeepsFrontier(sys, safe, root, queue, index, pid);
            queue := queue + [pid];
          }
        }
      }
      assert queue[..index] == before[..index];
      forall k, p | 0 <= k < index && IsChild(sys, p, queue[k]) && safe(p) ensures p in queue {
        if k < index - 1 {
          assert queue[k] == before[k];
        } else {
          assert p in sys.order[..|sys.order|];
        }
      }
    }
    assert queue[..|queue|] == queue;
    QueueIsTree(sys, safe, root, queue);
    forall k | 0 < k < |queue| ensures exists j: nat :: j < k && IsChild(sys, queue[k], queue[j]) {
      assert HasEarlierParent(sys, safe, queue, k, |queue|);
    }
  }

  lemma SafeRootWalkEnds(sys: System, us: Pid, root: Pid)
    requires TestEnds(sys, us, root) && IsSafe(sys, us, root)
    ensures WalkEnds(sys, us, root)
  {
    if root !in sys.table {
      assert EndsWithin(sys, us, root, 0);
    }
  }

  /** The whole kill: nothing when the root is not safe, otherwise the processes of the tree that
      still exist, children first. It needs no more than that the test of the root ends. */
  method KillTreeOf(sys: System, us: Pid, root: Pid) returns (killed: seq<Pid>, ghost list: seq<Pid>)
    requires Valid(sys) && TestEnds(sys, us, root)
    ensures !IsSafe(sys, us, root) ==> killed == []
    ensures IsSafe(sys, us, root) ==>
              IsKillList(sys, SafeTest(sys, us), root, list) && killed == Existing(sys, Reversed(list))
    ensures forall p | p in killed :: p in sys.table && IsSafe(sys, us, p) && !OwnersDiffer(sys, us, p)
    ensures root in sys.table && IsSafe(sys, us, root) ==> killed != [] && killed[|killed| - 1] == root
  {
    hide IsSafe, IsKillList, TestEnds, WalkEnds, Existing, Reversed, OwnersDiffer;
    killed, list := [], [];
    var ok := IsSafeToKill(sys, us, root);
    if !ok {
      return;
    }
    SafeRootWalkEnds(sys, us, root);
    var pids := CollectKillList(sys, us, root);
    list := pids;
    killed := KillBottomUp(sys, pids);
    ListedAreSafe(sys, us, root, list);
    ExistingMembers(sys, Reversed(list));
    RootIsLast(sys, us, root, list);
  }

  method KillBottomUp(sys: System, pids: seq<Pid>) returns (killed: seq<Pid>)
    ensures killed == Existing(sys, Reversed(pids))
  {
    killed := [];
    var i := |pids|;
    assert Reversed(pids)[..0] == [];
    while i > 0
      invariant 0 <= i <= |pids|
      invariant killed == Existing(sys, Reversed(pids)[..|pids| - i])
    {
      i := i - 1;
      var done := |pids| - 1 - i;
      assert Reversed(pids)[..done + 1] == Reversed(pids)[..done] + [pids[i]];
      ExistingNext(sys, Reversed(pids)[..done], pids[i]);
      if pids[i] in sys.table {
        killed := killed + [pids[i]];
      }
    }
    assert Reversed(pids)[..|pids|] == Reversed(pids);
  }

  function Existing(sys: System, pids: seq<Pid>): seq<Pid> {
    if pids == [] then []
    else
      var front, last := Existing(sys, pids[..|pids| - 1]), pids[|pids| - 1];
      if last in sys.table then front + [last] else front
  }

  lemma ExistingNext(sys: System, front: seq<Pid>, p: Pid)
    ensures Existing(sys, front + [p]) == if p in sys.table then Existing(sys, front) + [p] else Existing(sys, front)
  {
    assert (front + [p])[..|front|] == front;
  }

  lemma {:induction false} ExistingMembers(sys: System, pids: seq<Pid>)
    ensures forall p :: p in Existing(sys, pids) <==> p in pids && p in sys.table
  {
    if pids != [] {
      var front, last := pids[..|pids| - 1], pids[|pids| - 1];
      ExistingMembers(sys, front);
      assert pids == front + [last];
    }
  }

  /** Everything on the list passed the test, and so belongs to no other user. */
  lemma ListedAreSafe(sys: System, us: Pid, root: Pid, list: seq<Pid>)
    requires IsKillList(sys, SafeTest(sys, us), root, list) && IsSafe(sys, us, root)
    ensures forall p | p in Reversed(list) && p in sys.table :: IsSafe(sys, us, p) && !OwnersDiffer(sys, us, p)
  {
    hide IsSafe, OwnersDiffer;
    ReversedAt(list);
    forall p | p in Reversed(list) && p in sys.table ensures IsSafe(sys, us, p) && !OwnersDiffer(sys, us, p) {
      assert p in list;
      BelowIsSafe(sys, us, p, root);
      SafeIff(sys, us, p);
    }
  }

  lemma BelowIsSafe(sys: System, us: Pid, p: Pid, root: Pid)
    requires IsSafe(sys, us, root) && IsBelow(sys, SafeTest(sys, us), p, root)
    ensures IsSafe(sys, us, p)
  {
    hide IsSafe;
    var n: nat :| Climbs(sys, SafeTest(sys, us), p, n, root);
  }

  lemma RootIsLast(sys: System, us: Pid, root: Pid, list: seq<Pid>)
    requires IsKillList(sys, SafeTest(sys, us), root, list)
    ensures root in sys.table ==>
              var killed := Existing(sys, Reversed(list)); killed != [] && killed[|killed| - 1] == root
  {
    hide IsBelow, IsChild;
    ReversedAt(list);
    var kills := Reversed(list);
    assert kills[|kills| - 1] == root;
  }
}
