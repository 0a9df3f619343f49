/** Tool calls written as `<call:name>arguments</call:name>` in a model's answer. */
module CallTags {
  import opened Wrappers
  import opened Utf8
  import opened Text
  import opened JsonScan

  /** What a call block holds: the tool's name and the text of its arguments. */
  datatype RawCall = RawCall(name: string, args: string)

  const OPEN := "<call:"

  function CloseOf(name: string): string {
    "</call:" + name + ">"
  }

  /** One turn of the search: no tag is left, it would go on where no character begins, or it goes on
      with `rest`, having found a call or not. */
  datatype Turn = NoTag | OutOfStep | GoOn(found: Option<RawCall>, rest: string)

  /** Behind the opening tag of `name`: a tag without its closing tag takes the first balanced
      block as arguments, and the search goes on as many bytes behind the tag as that block is
      long, but at least one. */
  function TurnInBody(name: string, body: string): (t: Turn)
    ensures t.GoOn? ==> |t.rest| <= |body|
  {
    match CutText(body, CloseOf(name))
    case Some(block) => GoOn(Some(RawCall(name, block.0)), block.1)
    case None =>
      match BalancedJson(body)
      case Panic => OutOfStep
      case Done(json) =>
        match Boundary(body, Max1(ByteLength(json)))
        case None => OutOfStep
        case Some(skip) => GoOn(if json == "" then None else Some(RawCall(name, json)), body[skip..])
  }

  function Max1(n: nat): nat {
    if n > 1 then n else 1
  }

  function TurnInTag(after: string): (t: Turn)
    ensures t.GoOn? ==> |t.rest| <= |after|
  {
    var i := IndexOf(after, '>');
    if i == |after| then GoOn(None, after) else TurnInBody(Trim(after[..i]), after[i + 1..])
  }

  function TurnAt(content: string): (t: Turn)
    ensures t.GoOn? ==> |t.rest| < |content|
  {
    match CutText(content, OPEN)
    case None => NoTag
    case Some(tag) => TurnInTag(tag.1)
  }

  /** The calls in a text, from left to right. */
  function Calls(content: string): Outcome<seq<RawCall>>
    decreases |content|
  {
    match TurnAt(content)
    case NoTag => Done([])
    case OutOfStep => Panic
    case GoOn(found, rest) => Before(if found.Some? then [found.value] else [], Calls(rest))
  }

  function Before(calls: seq<RawCall>, more: Outcome<seq<RawCall>>): Outcome<seq<RawCall>> {
    match more
    case Panic => Panic
    case Done(rest) => Done(calls + rest)
  }

  /** The calls that the builder accepts. */
  function Build<T>(calls: seq<RawCall>, build: RawCall -> Option<T>): seq<T> {
    if calls == [] then []
    else
      var front := Build(calls[..|calls| - 1], build);
      match build(calls[|calls| - 1])
      case None => front
      case Some(t) => front + [t]
  }

  // ----- The loop -----

  method Turn1(content: string) returns (t: Turn)
    ensures t == TurnAt(content)
  {
    hide FindSub, BalancedJson, Boundary, ByteLength, Trim, CloseOf, IndexOf;
    var tag := CutText(content, OPEN);
    if tag.None? {
      return NoTag;
    }
    var after := tag.value.1;
    var i := IndexOf(after, '>');
    if i == |after| {
      return GoOn(None, after);
    }
    var name, body := Trim(after[..i]), after[i + 1..];
    var block := CutText(body, CloseOf(name));
    if block.Some? {
      return GoOn(Some(RawCall(name, block.value.0)), block.value.1);
    }
    var json := ExtractBalancedJson(body);
    if json.Panic? {
      return OutOfStep;
    }
    var skip := Boundary(body, Max1(ByteLength(json.value)));
    if skip.None? {
      return OutOfStep;
    }
    return GoOn(if json.value == "" then None else Some(RawCall(name, json.value)), body[skip.value..]);
  }

  method ParseXmlCallTags<T>(content: string, build: RawCall -> Option<T>) returns (results: Outcome<seq<T>>)
    ensures match Calls(content)
            case Panic => results == Panic
            case Done(calls) => results == Done(Build(calls, build))
  {
    hide TurnAt;
    ghost var calls: seq<RawCall> := [];
    var built: seq<T> := [];
    var rest := content;
    assert Calls(content).Done? ==> [] + Calls(content).value == Calls(content).value;
    while true
      invariant built == Build(calls, build)
      invariant match Calls(rest)
                case Panic => Calls(content) == Panic
                case Done(more) => Calls(content) == Done(calls + more)
      decreases |rest|
    {
      var t := Turn1(rest);
      match t {
        case NoTag =>
          assert calls + [] == calls;
          return Done(built);
        case OutOfStep => return Panic;
        case GoOn(found, next) =>
          ghost var before, more := calls, Calls(next);
          if found.Some? {
            assert (calls + [found.value])[..|calls|] == calls;
            calls := calls + [found.value];
            var tool := build(found.value);
            if tool.Some? {
              built := built + [tool.value];
            }
          }
          assert more.Done? ==>
            before + ((if found.Some? then [found.value] else []) + more.value) == calls + more.value;
          rest := next;
      }
    }
  }

  // ----- Text made of call blocks -----

  predicate IsToolName(n: string) {
    '<' !in n && '>' !in n && CleanEnds(n, IsSpace)
  }

  datatype Block = Block(before: string, left: string, right: string, call: RawCall)

  /** Free text without an opening tag, a tool name between white space, and arguments without their
      closing tag. */
  predicate IsBlock(b: Block) {
    && !Contains(b.before, "<call:")
    && AllMatch(b.left, IsSpace) && AllMatch(b.right, IsSpace)
    && IsToolName(b.call.name)
    && !Contains(b.call.args, "</call:" + b.call.name + ">")
  }

  function BlockText(b: Block): string {
    b.before + "<call:" + (b.left + b.call.name + b.right) + ">" + b.call.args + ("</call:" + b.call.name + ">")
  }

  function TextOf(blocks: seq<Block>, after: string): string {
    if blocks == [] then after else BlockText(blocks[0]) + TextOf(blocks[1..], after)
  }

  function CallsOf(blocks: seq<Block>): seq<RawCall> {
    seq(|blocks|, i requires 0 <= i < |blocks| => blocks[i].call)
  }

  lemma MarksStartOnce(name: string)
    requires IsToolName(name)
    ensures OPEN[0] !in OPEN[1..]
    ensures CloseOf(name) != "" && CloseOf(name)[0] !in CloseOf(name)[1..]
  {
    assert CloseOf(name)[1..] == "/call:" + name + ">";
  }

  /** One block is read as its call, and what follows it is what is left. */
  lemma TurnAtBlock(b: Block, rest: string)
    requires IsBlock(b)
    ensures TurnAt(BlockText(b) + rest) == GoOn(Some(b.call), rest)
  {
    hide FindSub, BalancedJson, Boundary, Contains;
    var name, args, close := b.call.name, b.call.args, CloseOf(b.call.name);
    MarksStartOnce(name);
    var body := args + close + rest;
    var tag := b.left + name + b.right;
    var tail := tag + ['>'] + body;
    assert BlockText(b) + rest == b.before + OPEN + tail;
    assert CutText(BlockText(b) + rest, OPEN) == Some((b.before, tail)) by {
      CutsAfter(b.before, OPEN, tail);
    }
    assert IndexOf(tail, '>') == |tag| by {
      assert !IsSpace('>');
      IndexOfAfter(tag, '>', body);
    }
    assert tail[..|tag|] == tag && tail[|tag| + 1..] == body;
    TrimAround(b.left, name, b.right, IsSpace);
    assert CutText(body, close) == Some((args, rest)) by {
      CutsAfter(args, close, rest);
    }
  }

  lemma NoTagIsLeft(text: string)
    requires !Contains(text, OPEN)
    ensures TurnAt(text) == NoTag
  {
    hide FindSub;
  }

  /** Call blocks in front of a text put their calls in front of its calls. */
  lemma {:induction false} BlocksComeFirst(blocks: seq<Block>, after: string)
    requires forall b | b in blocks :: IsBlock(b)
    ensures Calls(TextOf(blocks, after)) == Before(CallsOf(blocks), Calls(after))
  {
    hide TurnAt, Contains, IsBlock, BlockText, FindSub;
    if blocks == [] {
      assert Calls(after).Done? ==> [] + Calls(after).value == Calls(after).value;
    } else {
      assert IsBlock(blocks[0]);
      TurnAtBlock(blocks[0], TextOf(blocks[1..], after));
      BlocksComeFirst(blocks[1..], after);
      assert CallsOf(blocks) == [blocks[0].call] + CallsOf(blocks[1..]);
      assert Calls(after).Done? ==>
        CallsOf(blocks) + Calls(after).value == [blocks[0].call] + (CallsOf(blocks[1..]) + Calls(after).value);
    }
  }

  /** Text made of blocks parses to exactly their calls, in order. */
  lemma BlocksParse(blocks: seq<Block>, after: string)
    requires forall b | b in blocks :: IsBlock(b)
    requires !Contains(after, OPEN)
    ensures Calls(TextOf(blocks, after)) == Done(CallsOf(blocks))
  {
    hide TurnAt, Contains, IsBlock, FindSub;
    BlocksComeFirst(blocks, after);
    NoTagIsLeft(after);
    assert CallsOf(blocks) + [] == CallsOf(blocks);
  }

  // ----- Where the search stops the program -----

  /** An unclosed tag of `name`, and what follows it. */
  function UnclosedTag(before: string, name: string, body: string): string {
    before + "<call:" + name + ">" + body
  }

  lemma TurnAtUnclosed(before: string, name: string, body: string)
    requires !Contains(before, OPEN) && IsToolName(name)
    ensures TurnAt(UnclosedTag(before, name, body)) == TurnInBody(name, body)
  {
    hide FindSub, Contains, TurnInBody;
    MarksStartOnce(name);
    var tail := name + ['>'] + body;
    assert UnclosedTag(before, name, body) == before + OPEN + tail;
    CutsAfter(before, OPEN, tail);
    IndexOfAfter(name, '>', body);
    assert tail[..|name|] == name && tail[|name| + 1..] == body;
    CleanIsTrimmed(name, IsSpace);
  }

  /** The search gets behind an unclosed tag: there is text behind it, the first block there has
      a character's end where it is cut off, and so has the text where the search goes on. */
  predicate GetsBehind(body: string) {
    var n := |FirstBlock(body)|;
    && body != ""
    && Boundary(body[FirstOpener(body, 0)..], n).Some?
    && Boundary(body, Max1(n)).Some?
  }

  lemma TurnInUnclosedBody(name: string, body: string)
    requires !Contains(body, CloseOf(name))
    ensures var t := TurnInBody(name, body);
            if GetsBehind(body) then t.GoOn? && IsSuffix(t.rest, body) else t == OutOfStep
  {
    hide FindSub, FirstBlock, FirstOpener;
    var n := |FirstBlock(body)|;
    var rest := body[FirstOpener(body, 0)..];
    var k := Boundary(rest, n);
    if k.Some? {
      BoundaryIff(rest, n, k.value);
    }
  }

  /** An unclosed tag behind any number of blocks, with no closing tag and no other tag behind it,
      stops the program exactly when the search does not get behind it. */
  lemma UnclosedTagPanicsIff(blocks: seq<Block>, before: string, name: string, body: string)
    requires forall b | b in blocks :: IsBlock(b)
    requires !Contains(before, OPEN) && IsToolName(name)
    requires !Contains(body, CloseOf(name)) && !Contains(body, OPEN)
    ensures Calls(TextOf(blocks, UnclosedTag(before, name, body))) == Panic <==> !GetsBehind(body)
  {
    hide TurnAt, TurnInBody, Contains, IsBlock, FindSub, GetsBehind, IsToolName, IsSuffix;
    var after := UnclosedTag(before, name, body);
    BlocksComeFirst(blocks, after);
    TurnAtUnclosed(before, name, body);
    TurnInUnclosedBody(name, body);
    if GetsBehind(body) {
      SuffixHoldsNoTag(TurnInBody(name, body).rest, body);
      NoTagIsLeft(TurnInBody(name, body).rest);
    }
  }

  /** What an unclosed tag yields in front of ASCII text: a call with the first balanced block behind
      it, or no call when there is none. */
  lemma UnclosedTagYields(blocks: seq<Block>, before: string, name: string, body: string)
    requires forall b | b in blocks :: IsBlock(b)
    requires !Contains(before, "<call:") && IsToolName(name)
    requires !Contains(body, "</call:" + name + ">") && !Contains(body, "<call:")
    requires body != "" && IsAscii(body)
    ensures Calls(TextOf(blocks, UnclosedTag(before, name, body))) ==
            Done(CallsOf(blocks) + (if FirstBlock(body) == "" then [] else [RawCall(name, FirstBlock(body))]))
  {
    hide TurnAt, TurnInBody, Contains, IsBlock, FindSub, IsToolName, IsSuffix, FirstBlock, IsAscii;
    var after, json := UnclosedTag(before, name, body), FirstBlock(body);
    BlocksComeFirst(blocks, after);
    TurnAtUnclosed(before, name, body);
    AsciiTurnInBody(name, body);
    var rest := TurnInBody(name, body).rest;
    SuffixHoldsNoTag(rest, body);
    NoTagIsLeft(rest);
    assert Calls(rest) == Done([]);
    var found := if json == "" then [] else [RawCall(name, json)];
    assert found + [] == found;
  }

  lemma AsciiTurnInBody(name: string, body: string)
    requires !Contains(body, CloseOf(name)) && body != "" && IsAscii(body)
    ensures var t := TurnInBody(name, body);
            && t.GoOn?
            && t.found == (if FirstBlock(body) == "" then None else Some(RawCall(name, FirstBlock(body))))
            && IsSuffix(t.rest, body)
  {
    hide FindSub, FirstBlock, FirstOpener, Boundary;
    var n := |FirstBlock(body)|;
    var rest := body[FirstOpener(body, 0)..];
    FirstBlockIsPrefix(body);
    BalancedJsonIff(body);
    AsciiIff(FirstBlock(body));
    TakeBytesIff(body, Max1(n));
    assert IsAscii(FirstBlock(body));
  }

  lemma {:induction false} SuffixHoldsNoTag(rest: string, s: string)
    requires IsSuffix(rest, s) && !Contains(s, OPEN)
    ensures !Contains(rest, OPEN)
  {
    if |rest| < |s| {
      SuffixHoldsNoTag(rest, s[1..]);
    }
  }

  /** Behind an unclosed tag ASCII text is left by the search only if there is none. */
  lemma AsciiGetsBehind(body: string)
    requires IsAscii(body)
    ensures GetsBehind(body) <==> body != ""
  {
    hide FirstBlock, FirstOpener, Boundary;
    if body != "" {
      var n := |FirstBlock(body)|;
      var rest := body[FirstOpener(body, 0)..];
      FirstBlockIsPrefix(body);
      TakeBytesIff(rest, n);
      TakeBytesIff(body, Max1(n));
    }
  }

  /** An unclosed tag at the very end stops the program. */
  lemma UnclosedTagAtTheEndPanics(blocks: seq<Block>, before: string, name: string)
    requires forall b | b in blocks :: IsBlock(b)
    requires !Contains(before, OPEN) && IsToolName(name)
    ensures Calls(TextOf(blocks, before + OPEN + name + ">")) == Panic
  {
    hide IsBlock, FindSub, IsToolName, GetsBehind, TurnAt;
    assert UnclosedTag(before, name, "") == before + OPEN + name + ">";
    assert IsAscii("");
    AsciiGetsBehind("");
    UnclosedTagPanicsIff(blocks, before, name, "");
  }

  /** So does one in front of a letter two bytes wide: the search would go on at its second byte. */
  lemma UnclosedTagBeforeWideLetterPanics()
    ensures Calls("<call:x>\U{E9}") == Panic
  {
    hide TurnAt;
    var body := "\U{E9}";
    assert !Contains("", OPEN) && !Contains(body, CloseOf("x")) && !Contains(body, OPEN);
    assert TextOf([], UnclosedTag("", "x", body)) == "<call:x>\U{E9}";
    assert FirstOpener(body, 0) == 1;
    assert Width(body[0]) == 2;
    assert Boundary(body, 1) == None;
    UnclosedTagPanicsIff([], "", "x", body);
  }

  // ----- ASCII text -----

  lemma SuffixOfSuffix(a: string, b: string, c: string)
    requires IsSuffix(a, b) && IsSuffix(b, c)
    ensures IsSuffix(a, c)
  {
  }

  lemma CutIsSuffix(s: string, p: string)
    ensures CutText(s, p).Some? ==> IsSuffix(CutText(s, p).value.1, s)
  {
  }

  lemma BodyKeepsTheEnd(name: string, body: string)
    requires IsAscii(body)
    ensures var t := TurnInBody(name, body);
            (t.GoOn? ==> IsSuffix(t.rest, body)) && (t == OutOfStep ==> body == "")
  {
    hide FindSub, CutText, GetsBehind, IsAscii;
    if CutText(body, CloseOf(name)).Some? {
      CutIsSuffix(body, CloseOf(name));
    } else {
      assert !Contains(body, CloseOf(name)) by { CutIffContained(body, CloseOf(name)); }
      TurnInUnclosedBody(name, body);
      AsciiGetsBehind(body);
    }
  }

  lemma CutIffContained(s: string, p: string)
    ensures CutText(s, p).Some? <==> Contains(s, p)
  {
  }

  /** The text ends in a call tag that nothing follows. */
  ghost predicate EndsInOpenTag(s: string) {
    exists n: string :: '>' !in n && IsSuffix(OPEN + n + ">", s)
  }

  lemma TurnKeepsTheEnd(content: string)
    requires IsAscii(content)
    ensures var t := TurnAt(content);
            && (t.GoOn? ==> IsSuffix(t.rest, content))
            && (t == OutOfStep ==> EndsInOpenTag(content))
  {
    hide FindSub, TurnInTag, CutText, EndsInOpenTag, IsAscii, IsSuffix;
    var cut := CutText(content, OPEN);
    if cut.Some? {
      var after := cut.value.1;
      CutIsSuffix(content, OPEN);
      SuffixIsAscii(after, content);
      TagKeepsTheEnd(after);
      var t := TurnInTag(after);
      if t.GoOn? {
        SuffixOfSuffix(t.rest, after, content);
      } else if t == OutOfStep {
        var n := after[..|after| - 1];
        CutAtTheEnd(content, OPEN, after);
        assert OPEN + after == OPEN + n + ">";
        TagAtTheEnd(n, content);
      }
    }
  }

  lemma TagAtTheEnd(n: string, s: string)
    requires '>' !in n && IsSuffix(OPEN + n + ">", s)
    ensures EndsInOpenTag(s)
  {
  }

  lemma SuffixIsAscii(a: string, s: string)
    requires IsSuffix(a, s) && IsAscii(s)
    ensures IsAscii(a)
  {
    forall c | c in a ensures c in s {
    }
  }

  lemma TagKeepsTheEnd(after: string)
    requires IsAscii(after)
    ensures var t := TurnInTag(after);
            && (t.GoOn? ==> IsSuffix(t.rest, after))
            && (t == OutOfStep ==> after != "" && '>' !in after[..|after| - 1] && after == after[..|after| - 1] + ">")
  {
    hide TurnInBody, IndexOf, Trim;
    var i := IndexOf(after, '>');
    if i < |after| {
      var body := after[i + 1..];
      BodyKeepsTheEnd(Trim(after[..i]), body);
      var t := TurnInBody(Trim(after[..i]), body);
      if t == OutOfStep {
        assert i == |after| - 1;
      }
    }
  }

  lemma CutAtTheEnd(s: string, p: string, last: string)
    requires CutText(s, p).Some? && CutText(s, p).value.1 == last
    ensures IsSuffix(p + last, s)
  {
    FoundThere(s, p);
  }

  lemma {:induction false} FoundThere(s: string, p: string)
    ensures match FindSub(s, p) case None => true case Some(i) => s[i..i + |p|] == p
  {
    if !(p <= s) && s != "" {
      FoundThere(s[1..], p);
    }
  }

  lemma NoOpenTagInSuffix(a: string, s: string)
    requires IsSuffix(a, s) && !EndsInOpenTag(s)
    ensures !EndsInOpenTag(a)
  {
    forall n: string ensures IsSuffix(OPEN + n + ">", a) ==> IsSuffix(OPEN + n + ">", s) {
      if IsSuffix(OPEN + n + ">", a) {
        SuffixOfSuffix(OPEN + n + ">", a, s);
      }
    }
  }

  /** ASCII text is searched to its end unless that is a call tag that nothing follows. */
  lemma {:induction false} NoPanicBeforeTheEnd(content: string)
    requires IsAscii(content) && !EndsInOpenTag(content)
    ensures Calls(content).Done?
    decreases |content|
  {
    hide TurnAt, EndsInOpenTag;
    TurnKeepsTheEnd(content);
    var t := TurnAt(content);
    if t.GoOn? {
      NoOpenTagInSuffix(t.rest, content);
      SuffixIsAscii(t.rest, content);
      NoPanicBeforeTheEnd(t.rest);
    }
  }
}
