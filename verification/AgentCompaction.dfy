/** Rewriting a long history: keep the first user message, a notice and a tail that never
    separates a tool result from the batch that asked for it. */
module AgentCompaction {
  import opened Wrappers
  import opened AgentMessages

  const NOTICE :=
    "[System Notice: Older tool execution history has been truncated to preserve context length. "
    + "The original user request is preserved above. If you forgot any information, you can use "
    + "research tools to find it again.]"

  function Notice(stamp: string): Message {
    Message("sys_compact_" + stamp, System, Text(NOTICE))
  }

  function FirstUser(h: History): Option<Message> {
    if h == [] then None
    else if h[0].role == User then Some(h[0])
    else FirstUser(h[1..])
  }

  /** The cut: walk back from `i` while it points at a tool message. */
  function SafeStart(h: History, i: nat): (s: nat)
    requires i < |h|
    ensures s <= i
    ensures s == 0 || h[s].role != Tool
    ensures forall x | s < x <= i :: h[x].role == Tool
  {
    if i > 0 && h[i].role == Tool then SafeStart(h, i - 1) else i
  }

  predicate CanCompact(h: History, max: nat) {
    |h| <= max || max >= 3
  }

  function Cut(h: History, max: nat): (s: nat)
    requires 3 <= max < |h|
  {
    SafeStart(h, |h| - (max - 2))
  }

  /** What one compaction makes of a history. */
  function Compacted(h: History, max: nat, notice: Message): History
    requires CanCompact(h, max)
  {
    if |h| <= max then h
    else
      var s := Cut(h, max);
      var first := FirstUser(h);
      var anchor := if first.Some? && (s == 0 || forall m | m in h[s..] :: m.id != first.value.id)
                    then [first.value] else [];
      var note := if s > 0 then [notice] else [];
      anchor + note + h[s..]
  }

  // ----- One compaction -----

  /** Nothing has been called for before the second message. */
  predicate Opens(h: History) {
    h != [] && h[0].role == User && (|h| > 1 ==> h[1].role != Tool)
  }

  /** A session that starts with a user message never cuts at its very start. */
  lemma CutIsPositive(h: History, max: nat)
    requires 3 <= max < |h| && Opens(h)
    ensures Cut(h, max) >= 1 && h[Cut(h, max)].role != Tool
  {
  }

  /** The exact length, and what happens to the message that opens the session: it stays in
      front, exactly once, if and only if no kept message carries its id. */
  lemma CompactedShape(h: History, max: nat, notice: Message)
    requires 3 <= max < |h| && Opens(h)
    requires notice.role == System && notice.id != h[0].id
    ensures var s, c := Cut(h, max), Compacted(h, max, notice);
            && (h[0] == c[0] <==> forall m | m in h[s..] :: m.id != h[0].id)
            && (h[0] == c[0] ==>
                  && c == [h[0], notice] + h[s..]
                  && (forall x | 0 < x < |c| :: c[x].id != h[0].id)
                  && |c| == max + (|h| - (max - 2) - s))
            && (h[0] != c[0] ==> c == [notice] + h[s..])
            && h[s].role != Tool
            && (forall x | s < x <= |h| - (max - 2) :: h[x].role == Tool)
  {
    CutIsPositive(h, max);
    var s, c := Cut(h, max), Compacted(h, max, notice);
    assert FirstUser(h) == Some(h[0]);
    if forall m | m in h[s..] :: m.id != h[0].id {
      assert c == [h[0], notice] + h[s..];
      forall x | 0 < x < |c| ensures c[x].id != h[0].id {
        if x > 1 { assert c[x] == h[s..][x - 2]; }
      }
    }
  }

  /** Whatever the ids, results stay behind the batches they answer. */
  lemma CompactedWellPlaced(h: History, max: nat, notice: Message, inOrder: bool)
    requires CanCompact(h, max) && WellPlaced(h, inOrder) && notice.role != Tool
    ensures WellPlaced(Compacted(h, max, notice), inOrder)
  {
    hide WellPlaced, FirstUser, SafeStart;
    if |h| > max {
      var s := Cut(h, max);
      var first := FirstUser(h);
      FirstUserRole(h);
      FirstIsNoResult(h, inOrder);
      var anchor := if first.Some? && (s == 0 || forall m | m in h[s..] :: m.id != first.value.id)
                    then [first.value] else [];
      var note := if s > 0 then [notice] else [];
      SuffixWellPlaced(h, anchor + note, s, inOrder);
    }
  }

  lemma FirstIsNoResult(h: History, inOrder: bool)
    requires h != [] && WellPlaced(h, inOrder)
    ensures h[0].role != Tool
  {
  }

  lemma {:induction false} FirstUserRole(h: History)
    ensures FirstUser(h).Some? ==> FirstUser(h).value.role == User && FirstUser(h).value in h
  {
    if h != [] && h[0].role != User {
      FirstUserRole(h[1..]);
    }
  }

  // ----- Any number of compactions -----

  /** The whole transcript `log`, or its first message, one notice, and a suffix of it that
      begins with something other than a tool message. */
  ghost predicate Retains(h: History, log: History) {
    h == log || exists k: nat, n: Message :: RetainsFrom(h, log, k, n)
  }

  ghost predicate RetainsFrom(h: History, log: History, k: nat, n: Message) {
    && 1 <= k < |log|
    && log[k].role != Tool
    && n.role == System
    && h == [log[0], n] + log[k..]
  }

  /** The opening message is the user's, nothing is answered before something was asked, and the id
      of the opening message is not used again. */
  predicate Anchored(log: History) {
    && Opens(log)
    && forall x | 0 < x < |log| :: log[x].id != log[0].id
  }

  lemma RetainsAppend(h: History, log: History, ms: History)
    requires Retains(h, log)
    ensures Retains(h + ms, log + ms)
  {
    if h != log {
      var k: nat, n: Message :| RetainsFrom(h, log, k, n);
      assert (log + ms)[k..] == log[k..] + ms;
      assert h + ms == [log[0], n] + (log[k..] + ms);
      assert RetainsFrom(h + ms, log + ms, k, n);
    }
  }

  /** Compacting once more keeps the first message, replaces the notice and shortens the
      suffix; so two notices never pile up. */
  lemma RetainsCompacted(h: History, log: History, max: nat, notice: Message)
    requires CanCompact(h, max) && Retains(h, log) && Anchored(log)
    requires notice.role == System && notice.id != log[0].id
    ensures Retains(Compacted(h, max, notice), log)
  {
    if |h| > max {
      if h == log {
        CompactedFromWhole(h, max, notice);
      } else {
        var k: nat, n: Message :| RetainsFrom(h, log, k, n);
        CompactedFromRetained(h, log, max, notice, k, n);
      }
    }
  }

  lemma CompactedFromWhole(h: History, max: nat, notice: Message)
    requires 3 <= max < |h| && Anchored(h)
    requires notice.role == System && notice.id != h[0].id
    ensures Retains(Compacted(h, max, notice), h)
  {
    CompactedShape(h, max, notice);
    var s := Cut(h, max);
    CutIsPositive(h, max);
    assert forall m | m in h[s..] :: m.id != h[0].id;
    assert RetainsFrom(Compacted(h, max, notice), h, s, notice);
  }

  lemma CompactedFromRetained(h: History, log: History, max: nat, notice: Message, k: nat, n: Message)
    requires 3 <= max < |h| && Anchored(log) && RetainsFrom(h, log, k, n)
    requires notice.role == System && notice.id != log[0].id
    ensures Retains(Compacted(h, max, notice), log)
  {
    var s := Cut(h, max);
    CutIsPositive(h, max);
    assert h[2] == log[k];
    assert s >= 2;
    assert forall x | s <= x < |h| :: h[x] == log[k + x - 2];
    assert h[s..] == log[k + s - 2..];
    forall m | m in h[s..] ensures m.id != h[0].id {
      var x :| s <= x < |h| && h[x] == m;
    }
    CompactedShape(h, max, notice);
    assert log[k + s - 2] == h[s];
    assert RetainsFrom(Compacted(h, max, notice), log, k + s - 2, notice);
  }

  /** The in-file example: six messages compacted to at most four leave four, since no user
      message but the first is kept unless it lies in the tail. */
  lemma SixMessagesLeaveFour(notice: Message, b1: Message, r1: Message, u2: Message, b2: Message, r2: Message)
    requires b1.role == b2.role == Assistant && r1.role == r2.role == Tool && u2.role == User
    requires b2.id != "1" && r2.id != "1"
    ensures var u1 := Message("1", User, Text("hello"));
            Compacted([u1, b1, r1, u2, b2, r2], 4, notice) == [u1, notice, b2, r2]
  {
    var u1 := Message("1", User, Text("hello"));
    var h := [u1, b1, r1, u2, b2, r2];
    assert h[4..] == [b2, r2];
  }
}
