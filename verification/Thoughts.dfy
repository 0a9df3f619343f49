/** Reasoning is cut out of a model's answer before tool calls are looked for. */
module Thoughts {
  import opened Wrappers
  import opened Text

  const BEGIN := "<thought>"
  const END := "</thought>"

  /** The answer without its first thought block; an unfinished block takes the rest with it. */
  function StripThought(response: string): string {
    match CutText(response, BEGIN)
    case None => response
    case Some(cut) =>
      match CutText(BEGIN + cut.1, END)
      case None => cut.0
      case Some(closed) => cut.0 + closed.1
  }

  /** The result of the first strategy that finds anything. */
  function FirstNonEmpty<T>(strategies: seq<string -> seq<T>>, content: string): seq<T> {
    if strategies == [] then []
    else if strategies[0](content) != [] then strategies[0](content)
    else FirstNonEmpty(strategies[1..], content)
  }

  /** A task notification is answered without tool calls; anything else goes, stripped, through
      the strategies in turn. */
  function ToolCalls<T>(response: string, isNotification: string -> bool, strategies: seq<string -> seq<T>>): seq<T> {
    if isNotification(response) then [] else FirstNonEmpty(strategies, StripThought(response))
  }

  /** The strategies are tried in turn until one finds something. */
  lemma {:induction false} FirstFindingWins<T>(strategies: seq<string -> seq<T>>, content: string, k: nat)
    requires k <= |strategies| && forall i | 0 <= i < k :: strategies[i](content) == []
    ensures k == |strategies| ==> FirstNonEmpty(strategies, content) == []
    ensures k < |strategies| && strategies[k](content) != [] ==>
              FirstNonEmpty(strategies, content) == strategies[k](content)
  {
    if k > 0 {
      FirstFindingWins(strategies[1..], content, k - 1);
    }
  }

  lemma MarksStartOnce()
    ensures BEGIN != "" && BEGIN[0] !in BEGIN[1..]
    ensures END != "" && END[0] !in END[1..]
  {
  }

  lemma BeginHoldsNoEnd()
    ensures END[0] == '<' && BEGIN[1] != END[1] && '<' !in BEGIN[1..]
  {
  }

  /** The closing tag does not begin inside the opening one. */
  lemma EndBehindBegin(t: string)
    requires !Contains(t, END)
    ensures !Contains(BEGIN + t, END)
  {
    var s := BEGIN + t;
    BeginHoldsNoEnd();
    assert !(END <= s) by { assert s[1] == BEGIN[1]; }
    assert s[1..] == BEGIN[1..] + t;
    SkipsPlain(BEGIN[1..], t, END);
  }

  /** What is left of an answer does not depend on the thought. */
  lemma StripsFirstThought(pre: string, thought: string, post: string)
    requires !Contains(pre, "<thought>") && !Contains(thought, "</thought>")
    ensures StripThought(pre + "<thought>" + thought + "</thought>" + post) == pre + post
  {
    hide FindSub, Contains;
    MarksStartOnce();
    var tail := thought + END + post;
    assert pre + BEGIN + thought + END + post == pre + BEGIN + tail;
    CutsAfter(pre, BEGIN, tail);
    EndBehindBegin(thought);
    assert BEGIN + tail == (BEGIN + thought) + END + post;
    CutsAfter(BEGIN + thought, END, post);
  }

  lemma StripsUnfinishedThought(pre: string, thought: string)
    requires !Contains(pre, "<thought>") && !Contains(thought, "</thought>")
    ensures StripThought(pre + "<thought>" + thought) == pre
  {
    hide FindSub, Contains;
    MarksStartOnce();
    CutsAfter(pre, BEGIN, thought);
    EndBehindBegin(thought);
    assert CutText(BEGIN + thought, END) == None by { NotContained(BEGIN + thought, END); }
  }

  lemma NotContained(s: string, p: string)
    requires !Contains(s, p)
    ensures CutText(s, p) == None
  {
  }

  /** Reasoning never becomes a tool call: whatever the strategies are, replacing the text of the
      first thought block by any other changes no tool call found. */
  lemma ThoughtsAreNotCalls<T>(pre: string, t1: string, t2: string, post: string,
                               isNotification: string -> bool, strategies: seq<string -> seq<T>>)
    requires !Contains(pre, "<thought>") && !Contains(t1, "</thought>") && !Contains(t2, "</thought>")
    requires !isNotification(pre + "<thought>" + t1 + "</thought>" + post)
    requires !isNotification(pre + "<thought>" + t2 + "</thought>" + post)
    ensures ToolCalls(pre + "<thought>" + t1 + "</thought>" + post, isNotification, strategies) ==
            ToolCalls(pre + "<thought>" + t2 + "</thought>" + post, isNotification, strategies)
  {
    hide StripThought, FirstNonEmpty, Contains;
    StripsFirstThought(pre, t1, post);
    StripsFirstThought(pre, t2, post);
  }
}
