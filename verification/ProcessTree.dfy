/** The table of running processes, and the breadth-first search for the tree below one of them. */
module ProcessTree {
  import opened Wrappers

  type Pid = nat

  datatype Process = Process(parent: Option<Pid>, name: string, uid: Option<nat>, ram: nat)

  /** A snapshot: each process under its pid, and the order in which the table is walked. */
  datatype System = System(table: map<Pid, Process>, order: seq<Pid>)

  ghost predicate Valid(sys: System) {
    NoRepeats(sys.order) && forall p :: p in sys.order <==> p in sys.table
  }

  predicate IsChild(sys: System, p: Pid, parent: Pid) {
    p in sys.table && sys.table[p].parent == Some(parent)
  }

  /** `p` reaches `root` by `n` steps from child to parent, through admitted processes. */
  predicate Climbs(sys: System, admit: Pid -> bool, p: Pid, n: nat, root: Pid)
    decreases n
  {
    if n == 0 then p == root
    else p in sys.table && admit(p) && sys.table[p].parent.Some?
         && Climbs(sys, admit, sys.table[p].parent.value, n - 1, root)
  }

  /** The reflexive and transitive children of `root` through admitted processes. */
  ghost predicate IsBelow(sys: System, admit: Pid -> bool, p: Pid, root: Pid) {
    exists n: nat :: Climbs(sys, admit, p, n, root)
  }

  // ----- Bounding the queue -----

  lemma {:induction false} NoRepeatsBound(s: seq<Pid>, t: seq<Pid>)
    requires NoRepeats(s) && forall p | p in s :: p in t
    ensures |s| <= |t|
  {
    if s != [] {
      assert s[0] in s;
      var i :| 0 <= i < |t| && t[i] == s[0];
      var t' := t[..i] + t[i + 1..];
      forall p | p in s[1..] ensures p in t' {
        var k :| 0 <= k < |s[1..]| && s[1..][k] == p;
        assert s[k + 1] == p && p != s[0];
        assert p in s;
        var j :| 0 <= j < |t| && t[j] == p;
        assert t'[if j < i then j else j - 1] == p;
      }
      NoRepeatsBound(s[1..], t');
    }
  }

  // ----- What the search keeps -----

  /** The queue so far: no repeats, the root first, and everything else behind its parent. */
  ghost predicate IsFrontier(sys: System, admit: Pid -> bool, root: Pid, queue: seq<Pid>, index: nat) {
    && NoRepeats(queue)
    && queue != [] && queue[0] == root
    && index <= |queue|
    && forall k | 0 < k < |queue| :: HasEarlierParent(sys, admit, queue, k, index)
  }

  ghost predicate HasEarlierParent(sys: System, admit: Pid -> bool, queue: seq<Pid>, k: nat, index: nat)
    requires k < |queue|
  {
    && queue[k] in sys.order
    && admit(queue[k])
    && exists j: nat :: j < k && j < index && IsChild(sys, queue[k], queue[j])
  }

  /** Every admitted child of the processes taken from the queue is in it. */
  ghost predicate ChildrenQueued(sys: System, admit: Pid -> bool, queue: seq<Pid>, index: nat)
    requires index <= |queue|
  {
    forall k, p | 0 <= k < index && IsChild(sys, p, queue[k]) && admit(p) :: p in queue
  }

  lemma QueueBound(sys: System, admit: Pid -> bool, root: Pid, queue: seq<Pid>, index: nat)
    requires IsFrontier(sys, admit, root, queue, index)
    ensures |queue| <= |sys.order| + 1
  {
    forall k | 0 < k < |queue| ensures queue[k] in sys.order {
      assert HasEarlierParent(sys, admit, queue, k, index);
    }
    NoRepeatsBound(queue[1..], sys.order);
  }

  lemma {:induction false} QueuedIsBelow(sys: System, admit: Pid -> bool, root: Pid,
                                        queue: seq<Pid>, index: nat, k: nat)
    requires Valid(sys) && IsFrontier(sys, admit, root, queue, index) && k < |queue|
    ensures IsBelow(sys, admit, queue[k], root)
  {
    if k == 0 {
      assert Climbs(sys, admit, queue[0], 0, root);
    } else {
      assert HasEarlierParent(sys, admit, queue, k, index);
      var j: nat :| j < k && j < index && IsChild(sys, queue[k], queue[j]);
      QueuedIsBelow(sys, admit, root, queue, index, j);
      var n: nat :| Climbs(sys, admit, queue[j], n, root);
      assert Climbs(sys, admit, queue[k], n + 1, root);
    }
  }

  lemma {:induction false} BelowIsQueued(sys: System, admit: Pid -> bool, root: Pid, queue: seq<Pid>, p: Pid, n: nat)
    requires ChildrenQueued(sys, admit, queue, |queue|) && root in queue
    requires Climbs(sys, admit, p, n, root)
    ensures p in queue
    decreases n
  {
    if n > 0 {
      var q := sys.table[p].parent.value;
      BelowIsQueued(sys, admit, root, queue, q, n - 1);
      var k :| 0 <= k < |queue| && queue[k] == q;
      assert IsChild(sys, p, queue[k]);
    }
  }

  /** An exhausted queue holds exactly the tree. */
  lemma QueueIsTree(sys: System, admit: Pid -> bool, root: Pid, queue: seq<Pid>)
    requires Valid(sys)
    requires IsFrontier(sys, admit, root, queue, |queue|) && ChildrenQueued(sys, admit, queue, |queue|)
    ensures forall p :: p in queue <==> IsBelow(sys, admit, p, root)
  {
    forall p ensures p in queue <==> IsBelow(sys, admit, p, root) {
      if p in queue {
        var k :| 0 <= k < |queue| && queue[k] == p;
        QueuedIsBelow(sys, admit, root, queue, |queue|, k);
      }
      if IsBelow(sys, admit, p, root) {
        var n: nat :| Climbs(sys, admit, p, n, root);
        BelowIsQueued(sys, admit, root, queue, p, n);
      }
    }
  }

  /** Pushing a child of the process at `index - 1` that is not queued yet. */
  lemma PushKeepsFrontier(sys: System, admit: Pid -> bool, root: Pid, queue: seq<Pid>, index: nat, p: Pid)
    requires Valid(sys) && IsFrontier(sys, admit, root, queue, index) && 0 < index
    requires IsChild(sys, p, queue[index - 1]) && admit(p) && p !in queue
    ensures IsFrontier(sys, admit, root, queue + [p], index)
  {
    var q := queue + [p];
    forall k | 0 < k < |q| ensures HasEarlierParent(sys, admit, q, k, index) {
      if k < |queue| {
        assert HasEarlierParent(sys, admit, queue, k, index);
        var j: nat :| j < k && j < index && IsChild(sys, queue[k], queue[j]);
        assert IsChild(sys, q[k], q[j]);
      } else {
        assert IsChild(sys, q[k], q[index - 1]);
      }
    }
  }

  lemma TakeKeepsFrontier(sys: System, admit: Pid -> bool, root: Pid, queue: seq<Pid>, index: nat)
    requires IsFrontier(sys, admit, root, queue, index) && index < |queue|
    ensures IsFrontier(sys, admit, root, queue, index + 1)
  {
    var next := index + 1;
    forall k | 0 < k < |queue| ensures HasEarlierParent(sys, admit, queue, k, next) {
      assert HasEarlierParent(sys, admit, queue, k, index);
      var j: nat :| j < k && j < index && IsChild(sys, queue[k], queue[j]);
    }
  }

  /** A child queued before its parent was taken would sit behind another parent. */
  lemma OnlyNewChildren(sys: System, admit: Pid -> bool, root: Pid, queue: seq<Pid>, index: nat, p: Pid)
    requires IsFrontier(sys, admit, root, queue, index) && index < |queue|
    requires IsChild(sys, p, queue[index]) && p in queue
    ensures p == root
  {
    var k :| 0 <= k < |queue| && queue[k] == p;
    assert k > 0 ==> HasEarlierParent(sys, admit, queue, k, index);
    assert k == 0;
  }

  // ----- The search for descendants -----

  const ANY: Pid -> bool := _ => true

  /** The pids of the tree below `root`; a child already taken is not queued again, which is all
      that parent cycles need. */
  method CollectTree(sys: System, root: Pid) returns (treePids: set<Pid>, ghost queue: seq<Pid>)
    requires Valid(sys)
    ensures forall p :: p in treePids <==> IsBelow(sys, ANY, p, root)
    ensures NoRepeats(queue) && treePids == (set p | p in queue)
  {
    treePids := {};
    var q := [root];
    var index := 0;
    while index < |q|
      invariant IsFrontier(sys, ANY, root, q, index)
      invariant treePids == set p | p in q[..index]
      invariant ChildrenQueued(sys, ANY, q, index)
      decreases |sys.order| + 1 - index
    {
      QueueBound(sys, ANY, root, q, index);
      var current := q[index];
      ghost var before := q;
      assert q[..index + 1] == q[..index] + [current];
      TakeKeepsFrontier(sys, ANY, root, q, index);
      index := index + 1;
      treePids := treePids + {current};
      for i := 0 to |sys.order|
        invariant IsFrontier(sys, ANY, root, q, index)
        invariant before <= q
        invariant forall p | p in q[|before|..] :: p in sys.order[..i]
        invariant treePids == set p | p in q[..index]
        invariant forall p | p in sys.order[..i] && IsChild(sys, p, current) :: p in q
      {
        var pid := sys.order[i];
        if sys.table[pid].parent == Some(current) && pid !in treePids {
          assert root in treePids by { assert q[..index][0] == root; }
          assert pid !in before by {
            if pid in before { OnlyNewChildren(sys, ANY, root, before, index - 1, pid); }
          }
          assert pid !in q by {
            assert q == before + q[|before|..];
            assert forall k | 0 <= k < i :: sys.order[k] != sys.order[i];
          }
          PushKeepsFrontier(sys, ANY, root, q, index, pid);
          assert (q + [pid])[..index] == q[..index];
          assert (q + [pid])[|before|..] == q[|before|..] + [pid];
          q := q + [pid];
        }
      }
      forall k, p | 0 <= k < index && IsChild(sys, p, q[k]) && ANY(p) ensures p in q {
        if k < index - 1 {
          assert q[k] == before[k];
        } else {
          assert p in sys.order[..|sys.order|];
        }
      }
    }
    assert q[..|q|] == q;
    QueueIsTree(sys, ANY, root, q);
    queue := q;
  }
}
