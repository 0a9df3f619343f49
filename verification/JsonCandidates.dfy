/** All balanced blocks of a text, from left to right and without repeats. */
module JsonCandidates {
  import opened Wrappers
  import opened Utf8
  import opened Text
  import opened JsonScan

  // ----- Fenced code -----

  const FENCE := "```"
  const FENCE_END := "\n```"

  predicate IsJsonLanguage(lang: string) {
    lang == "" || lang == "json" || lang == "javascript"
  }

  /** One turn of the search for fences: what it takes, and the text it leaves. */
  function FenceTurn(s: string): (t: Option<(seq<string>, string)>)
    ensures t.Some? ==> |t.value.1| < |s|
  {
    match CutText(s, FENCE)
    case None => None
    case Some(open) => Some(BehindFence(open.1))
  }

  function BehindFence(open: string): (t: (seq<string>, string))
    ensures |t.1| <= |open|
  {
    var i := IndexOf(open, '\n');
    if i == |open| then ([], open)
    else
      match CutText(open[i + 1..], FENCE_END)
      case None => ([], open)
      case Some(code) => (Taken(open[..i], code.0), code.1)
  }

  function Taken(lang: string, code: string): seq<string> {
    if IsJsonLanguage(Trim(lang)) then [Trim(code)] else []
  }

  /** The trimmed contents of the fenced code blocks that may hold JSON. */
  function Fenced(s: string): seq<string>
    decreases |s|
  {
    match FenceTurn(s)
    case None => []
    case Some(t) => t.0 + Fenced(t.1)
  }

  /** What follows an opening fence: the code taken, and where the search goes on. */
  method SearchBehindFence(open: string) returns (taken: seq<string>, rest: string)
    ensures (taken, rest) == BehindFence(open)
  {
    hide CutText, IndexOf, Trim, IsJsonLanguage;
    taken, rest := [], open;
    var newline := IndexOf(open, '\n');
    if newline < |open| {
      var code := CutText(open[newline + 1..], FENCE_END);
      if code.Some? {
        if IsJsonLanguage(Trim(open[..newline])) {
          taken := [Trim(code.value.0)];
        }
        rest := code.value.1;
      }
    }
  }

  method ExtractFenced(s: string) returns (blocks: seq<string>)
    ensures blocks == Fenced(s)
  {
    hide Fenced, FenceTurn, BehindFence, CutText;
    blocks := [];
    var rest := s;
    assert [] + Fenced(s) == Fenced(s);
    while true
      invariant blocks + Fenced(rest) == Fenced(s)
      decreases |rest|
    {
      NextFence(rest);
      var open := CutText(rest, FENCE);
      if open.None? {
        assert blocks + [] == blocks;
        return;
      }
      var taken;
      taken, rest := SearchBehindFence(open.value.1);
      assert blocks + (taken + Fenced(rest)) == blocks + taken + Fenced(rest);
      blocks := blocks + taken;
    }
  }

  lemma NextFence(s: string)
    ensures Fenced(s) ==
            match CutText(s, FENCE)
            case None => [] case Some(open) => BehindFence(open.1).0 + Fenced(BehindFence(open.1).1)
  {
    hide CutText, BehindFence;
  }

  /** A fence in free text: its language and its code, each between white space. */
  datatype Fence = Fence(before: string, left: string, lang: string, right: string,
                         top: string, code: string, bottom: string)

  function FirstLine(f: Fence): string {
    f.left + f.lang + f.right
  }

  function Inside(f: Fence): string {
    f.top + f.code + f.bottom
  }

  /** Free text that holds no fence and does not run into one, a language on one line, and code
      without a closing fence. */
  predicate IsFence(f: Fence) {
    && !Contains(f.before, "```") && (f.before == "" || f.before[|f.before| - 1] != '`')
    && '\n' !in FirstLine(f) && !Contains(Inside(f), "\n```")
    && AllMatch(f.left, IsSpace) && AllMatch(f.right, IsSpace) && CleanEnds(f.lang, IsSpace)
    && AllMatch(f.top, IsSpace) && AllMatch(f.bottom, IsSpace) && CleanEnds(f.code, IsSpace)
  }

  function FenceText(f: Fence): string {
    f.before + "```" + FirstLine(f) + "\n" + Inside(f) + "\n```"
  }

  function FencedText(fs: seq<Fence>, after: string): string {
    if fs == [] then after else FenceText(fs[0]) + FencedText(fs[1..], after)
  }

  /** The code of the fences without a language, or in JSON or JavaScript. */
  function AllTaken(fs: seq<Fence>): seq<string> {
    if fs == [] then []
    else
      (if fs[0].lang == "" || fs[0].lang == "json" || fs[0].lang == "javascript" then [fs[0].code] else [])
      + AllTaken(fs[1..])
  }

  lemma FenceMarks()
    ensures FENCE != "" && forall c | c in FENCE :: c == FENCE[0]
    ensures FENCE_END != "" && FENCE_END[0] !in FENCE_END[1..]
  {
  }

  lemma FenceIsTaken(f: Fence, rest: string)
    requires IsFence(f)
    ensures Fenced(FenceText(f) + rest) == Taken(FirstLine(f), Inside(f)) + Fenced(rest)
  {
    hide FindSub, CutText, IndexOf, Taken, Contains, Fenced, BehindFence, FirstLine, Inside;
    FenceMarks();
    var body := Inside(f) + FENCE_END + rest;
    var tail := FirstLine(f) + ['\n'] + body;
    assert FenceText(f) + rest == f.before + FENCE + tail;
    FindsRunAfter(f.before, FENCE, tail);
    CutAround(f.before, FENCE, tail);
    NextFence(f.before + FENCE + tail);
    CodeIsTaken(FirstLine(f), Inside(f), rest);
  }

  lemma TakenWithoutSpace(f: Fence)
    requires IsFence(f)
    ensures Taken(FirstLine(f), Inside(f)) == AllTaken([f])
  {
    hide Contains, TrimBoth, FindSub;
    TrimAround(f.left, f.lang, f.right, IsSpace);
    TrimAround(f.top, f.code, f.bottom, IsSpace);
    assert [f][1..] == [];
  }

  lemma CodeIsTaken(lang: string, code: string, rest: string)
    requires '\n' !in lang && !Contains(code, FENCE_END)
    ensures BehindFence(lang + ['\n'] + (code + FENCE_END + rest)) == (Taken(lang, code), rest)
  {
    hide FindSub, CutText, IndexOf, Taken, Contains;
    FenceMarks();
    var body := code + FENCE_END + rest;
    var tail := lang + ['\n'] + body;
    IndexOfAfter(lang, '\n', body);
    assert tail[..|lang|] == lang && tail[|lang| + 1..] == body;
    CutsAfter(code, FENCE_END, rest);
  }

  /** Fenced code is taken block by block, in order, whatever it holds and whatever is around it. */
  lemma {:induction false} FencesAreTaken(fs: seq<Fence>, after: string)
    requires (forall f | f in fs :: IsFence(f)) && !Contains(after, "```")
    ensures Fenced(FencedText(fs, after)) == AllTaken(fs)
  {
    hide FindSub, Contains, IsFence, FenceText, Taken, Fenced, AllTaken, FencedText;
    FencesUnfold(fs, after);
    if fs == [] {
      NoFenceLeft(after);
    } else {
      assert IsFence(fs[0]);
      TakenWithoutSpace(fs[0]);
      FenceIsTaken(fs[0], FencedText(fs[1..], after));
      FencesAreTaken(fs[1..], after);
    }
  }

  lemma FencesUnfold(fs: seq<Fence>, after: string)
    ensures fs == [] ==> FencedText(fs, after) == after && AllTaken(fs) == []
    ensures fs != [] ==> FencedText(fs, after) == FenceText(fs[0]) + FencedText(fs[1..], after)
    ensures fs != [] ==> AllTaken(fs) == AllTaken([fs[0]]) + AllTaken(fs[1..])
  {
    hide FenceText;
    if fs != [] {
      assert [fs[0]][1..] == [];
    }
  }

  lemma NoFenceLeft(s: string)
    requires !Contains(s, "```")
    ensures Fenced(s) == []
  {
    NextFence(s);
  }

  // ----- Blocks -----

  type Span = (nat, nat)

  /** The spans of the blocks met when every search starts behind the block before; an opener that
      never closes ends the search. */
  function Spans(s: string, i: nat): (sp: seq<Span>)
    requires i <= |s|
    ensures forall x | x in sp :: i <= x.0 < x.1 <= |s|
    decreases |s| - i
  {
    var o := FirstOpener(s, i);
    if o == |s| then []
    else match BlockEnd(s, o, o + 1)
      case None => []
      case Some(e) => [(o, e)] + Spans(s, e)
  }

  predicate InText(s: string, sp: seq<Span>) {
    forall x | x in sp :: x.0 <= x.1 <= |s|
  }

  function Texts(s: string, sp: seq<Span>): seq<string>
    requires InText(s, sp)
  {
    seq(|sp|, i requires 0 <= i < |sp| => assert sp[i] in sp; s[sp[i].0..sp[i].1])
  }

  function AddNew(cs: seq<string>, c: string): seq<string> {
    if c in cs then cs else cs + [c]
  }

  function AddAll(cs: seq<string>, more: seq<string>): seq<string>
    decreases |more|
  {
    if more == [] then cs else AddAll(AddNew(cs, more[0]), more[1..])
  }

  /** The blocks in fenced code, and then all other blocks of the text. */
  function Candidates(s: string): seq<string> {
    AddAll(Fenced(s), Texts(s, Spans(s, 0)))
  }

  // ----- The loops -----

  method FindBlockEnd(s: string, start: nat) returns (end: Option<nat>)
    requires start < |s| && IsOpener(s[start])
    ensures end == BlockEnd(s, start, start + 1)
  {
    hide ScanOf, BlockEnd;
    var scan := START;
    ScanNothing(s, start);
    ghost var all := BlockEnd(s, start, start + 1);
    var i := start;
    while i < |s|
      invariant start <= i <= |s|
      invariant scan == ScanOf(s[start..i])
      invariant i > start ==> scan.depth > 0 && BlockEnd(s, start, i) == all
    {
      var c := s[i];
      ScanStep(s, start, i);
      BlockEndStep(s, start, i + 1);
      if i > start {
        BlockEndStep(s, start, i);
      }
      if scan.escape {
        scan := scan.(escape := false);
        i := i + 1;
        continue;
      }
      if c == '"' {
        scan := scan.(inString := !scan.inString);
      } else if c == '\\' && scan.inString {
        scan := scan.(escape := true);
      } else if IsOpener(c) && !scan.inString {
        scan := scan.(depth := scan.depth + 1);
      } else if IsCloser(c) && !scan.inString {
        scan := scan.(depth := scan.depth - 1);
        if scan.depth == 0 {
          return Some(i + 1);
        }
      }
      i := i + 1;
    }
    BlockEndStep(s, start, |s|);
    return None;
  }

  method ExtractJsonCandidates(s: string) returns (candidates: seq<string>)
    ensures candidates == Candidates(s)
  {
    hide BlockEnd, Texts, ScanOf, IsOpener, Fenced;
    candidates := ExtractFenced(s);
    var i := 0;
    while i < |s|
      invariant 0 <= i <= |s|
      invariant AddAll(candidates, Texts(s, Spans(s, i))) == Candidates(s)
    {
      if IsOpener(s[i]) {
        var end := FindBlockEnd(s, i);
        if end.None? {
          assert Spans(s, i) == [];
          NothingToAdd(s, candidates);
          return;
        }
        TextsCons(s, (i, end.value), Spans(s, end.value));
        candidates := AddNew(candidates, s[i..end.value]);
        i := end.value;
      } else {
        assert Spans(s, i) == Spans(s, i + 1);
        i := i + 1;
      }
    }
    assert Spans(s, |s|) == [];
    NothingToAdd(s, candidates);
  }

  lemma NothingToAdd(s: string, cs: seq<string>)
    ensures AddAll(cs, Texts(s, [])) == cs
  {
  }

  lemma TextsCons(s: string, x: Span, rest: seq<Span>)
    requires InText(s, rest) && x.0 <= x.1 <= |s|
    ensures Texts(s, [x] + rest) == [s[x.0..x.1]] + Texts(s, rest)
  {
  }

  // ----- What the spans are -----

  /** Disjoint blocks from left to right, with no opener left out but one that never closes. */
  ghost predicate AreGreedyBlocks(s: string, i: nat, sp: seq<Span>)
    requires i <= |s|
    decreases |sp|
  {
    if sp == [] then
      (forall j | i <= j < |s| :: !IsOpener(s[j])) || NeverCloses(s, FirstOpener(s, i))
    else
      && i <= sp[0].0
      && IsBlock(s, sp[0].0, sp[0].1)
      && (forall j | i <= j < sp[0].0 :: !IsOpener(s[j]))
      && AreGreedyBlocks(s, sp[0].1, sp[1..])
  }

  lemma FirstOpenerIs(s: string, i: nat, k: nat)
    requires i <= k < |s| && IsOpener(s[k])
    requires forall j | i <= j < k :: !IsOpener(s[j])
    ensures FirstOpener(s, i) == k
  {
  }

  lemma {:induction false} SpansAreGreedy(s: string, i: nat)
    requires i <= |s|
    ensures AreGreedyBlocks(s, i, Spans(s, i))
    decreases |s| - i
  {
    hide ScanOf;
    var o := FirstOpener(s, i);
    if o < |s| {
      BlockEndIsBlock(s, o);
      var e := BlockEnd(s, o, o + 1);
      if e.Some? {
        assert IsBlock(s, o, e.value);
        SpansAreGreedy(s, e.value);
        assert ([(o, e.value)] + Spans(s, e.value))[1..] == Spans(s, e.value);
      }
    }
  }

  lemma {:induction false} GreedyIsUnique(s: string, i: nat, sp: seq<Span>)
    requires i <= |s| && AreGreedyBlocks(s, i, sp)
    ensures sp == Spans(s, i)
    decreases |sp|
  {
    hide ScanOf;
    var o := FirstOpener(s, i);
    if sp == [] {
      if o < |s| {
        BlockEndIsBlock(s, o);
      }
    } else {
      FirstOpenerIs(s, i, sp[0].0);
      BlockEndIsBlock(s, o);
      GreedyIsUnique(s, sp[0].1, sp[1..]);
      assert sp == [sp[0]] + sp[1..];
    }
  }

  /** The spans are the only such list. */
  lemma SpansAreGreedyBlocks(s: string, i: nat, sp: seq<Span>)
    requires i <= |s|
    ensures AreGreedyBlocks(s, i, sp) <==> sp == Spans(s, i)
  {
    SpansAreGreedy(s, i);
    if AreGreedyBlocks(s, i, sp) {
      GreedyIsUnique(s, i, sp);
    }
  }

  // ----- What the candidates are -----

  /** The spans whose text is not in `cs` and did not occur before. */
  function Kept(s: string, sp: seq<Span>, cs: seq<string>): (kept: seq<Span>)
    requires InText(s, sp)
    ensures InText(s, kept)
    ensures forall x | x in kept :: x in sp
  {
    if sp == [] then []
    else
      var front, last := Kept(s, sp[..|sp| - 1], cs), sp[|sp| - 1];
      if s[last.0..last.1] in cs + Texts(s, front) then front else front + [last]
  }

  lemma {:induction false} AddAllSnoc(cs: seq<string>, more: seq<string>, c: string)
    ensures AddAll(cs, more + [c]) == AddNew(AddAll(cs, more), c)
    decreases |more|
  {
    if more == [] {
      assert [] + [c] == [c] && [c][1..] == [];
    } else {
      AddAllSnoc(AddNew(cs, more[0]), more[1..], c);
      assert (more + [c])[1..] == more[1..] + [c];
    }
  }

  lemma TextsSnoc(s: string, front: seq<Span>, x: Span)
    requires InText(s, front) && x.0 <= x.1 <= |s|
    ensures InText(s, front + [x])
    ensures Texts(s, front + [x]) == Texts(s, front) + [s[x.0..x.1]]
  {
  }

  lemma {:induction false} KeptTexts(s: string, sp: seq<Span>, cs: seq<string>)
    requires InText(s, sp)
    ensures AddAll(cs, Texts(s, sp)) == cs + Texts(s, Kept(s, sp, cs))
    ensures NoRepeats(Texts(s, Kept(s, sp, cs)))
    ensures forall t | t in Texts(s, Kept(s, sp, cs)) :: t !in cs
    ensures forall x | x in sp :: s[x.0..x.1] in cs + Texts(s, Kept(s, sp, cs))
  {
    hide AddAll;
    if sp == [] {
      NothingToAdd(s, cs);
    } else {
      var front: seq<Span>, last: Span := sp[..|sp| - 1], sp[|sp| - 1];
      KeptTexts(s, front, cs);
      assert sp == front + [last];
      assert last in sp;
      TextsSnoc(s, front, last);
      AddAllSnoc(cs, Texts(s, front), s[last.0..last.1]);
      TextsSnoc(s, Kept(s, front, cs), last);
    }
  }

  predicate LeftToRight(sp: seq<Span>) {
    forall i, j | 0 <= i < j < |sp| :: sp[i].1 <= sp[j].0
  }

  lemma {:induction false} SpansLeftToRight(s: string, i: nat)
    requires i <= |s|
    ensures LeftToRight(Spans(s, i))
    decreases |s| - i
  {
    hide ScanOf, IsOpener;
    var o := FirstOpener(s, i);
    if o < |s| && BlockEnd(s, o, o + 1).Some? {
      var e := BlockEnd(s, o, o + 1).value;
      SpansLeftToRight(s, e);
      var sp := Spans(s, i);
      forall j | 0 < j < |sp| ensures sp[0].1 <= sp[j].0 {
        assert sp[j] == Spans(s, e)[j - 1] && sp[j] in Spans(s, e);
      }
    }
  }

  lemma {:induction false} KeptLeftToRight(s: string, sp: seq<Span>, cs: seq<string>)
    requires InText(s, sp) && LeftToRight(sp)
    ensures LeftToRight(Kept(s, sp, cs))
  {
    if sp != [] {
      var front, last := sp[..|sp| - 1], sp[|sp| - 1];
      KeptLeftToRight(s, front, cs);
      var kept := Kept(s, front, cs);
      forall i | 0 <= i < |kept| ensures kept[i].1 <= last.0 {
        assert kept[i] in front;
        var k :| 0 <= k < |front| && front[k] == kept[i];
        assert sp[k].1 <= sp[|sp| - 1].0;
      }
    }
  }

  lemma {:induction false} SpansAreBlocks(s: string, i: nat)
    requires i <= |s|
    ensures forall x | x in Spans(s, i) :: IsBlock(s, x.0, x.1)
    decreases |s| - i
  {
    var o := FirstOpener(s, i);
    if o < |s| {
      BlockEndIsBlock(s, o);
      var e := BlockEnd(s, o, o + 1);
      if e.Some? {
        assert IsBlock(s, o, e.value);
        SpansAreBlocks(s, e.value);
      }
    }
  }

  /** Behind those in fenced code, the candidates are the distinct texts of disjoint blocks, in the
      order of their first occurrence, none of them taken before and none missing. */
  lemma CandidatesAreBlocks(s: string)
    ensures var fenced, sp := Fenced(s), Spans(s, 0);
            var kept := Kept(s, sp, fenced);
            && AreGreedyBlocks(s, 0, sp)
            && Candidates(s) == fenced + Texts(s, kept)
            && NoRepeats(Texts(s, kept))
            && (forall t | t in Texts(s, kept) :: t !in fenced)
            && LeftToRight(kept)
            && (forall x | x in kept :: IsBlock(s, x.0, x.1))
            && (forall x | x in sp :: s[x.0..x.1] in Candidates(s))
  {
    hide Fenced, ScanOf;
    SpansAreGreedyBlocks(s, 0, Spans(s, 0));
    KeptTexts(s, Spans(s, 0), Fenced(s));
    SpansLeftToRight(s, 0);
    KeptLeftToRight(s, Spans(s, 0), Fenced(s));
    SpansAreBlocks(s, 0);
  }

  lemma {:induction false} AddAllKeepsFirst(cs: seq<string>, more: seq<string>)
    ensures cs <= AddAll(cs, more)
    decreases |more|
  {
    if more != [] {
      AddAllKeepsFirst(AddNew(cs, more[0]), more[1..]);
    }
  }

  lemma FirstCandidate(s: string)
    requires Fenced(s) == []
    ensures Candidates(s) == [] <==> FirstBlock(s) == ""
    ensures Candidates(s) != [] ==> Candidates(s)[0] == FirstBlock(s)
  {
    hide Fenced;
    var o := FirstOpener(s, 0);
    if o < |s| && BlockEnd(s, o, o + 1).Some? {
      var e := BlockEnd(s, o, o + 1).value;
      TextsCons(s, (o, e), Spans(s, e));
      assert AddNew([], s[o..e]) == [s[o..e]];
      AddAllKeepsFirst([s[o..e]], Texts(s, Spans(s, e)));
    }
  }

  /** The two scanners agree without fenced code: there is no candidate exactly when there is no
      balanced block, and the first candidate is the balanced block exactly when it is ASCII. */
  lemma FirstCandidateIsBalanced(s: string)
    requires Fenced(s) == []
    ensures Candidates(s) == [] <==> BalancedJson(s) == Done("")
    ensures Candidates(s) != [] ==> (BalancedJson(s) == Done(Candidates(s)[0]) <==> IsAscii(Candidates(s)[0]))
  {
    hide Fenced, Candidates, BalancedJson, FirstBlock, IsAscii;
    FirstCandidate(s);
    BalancedJsonIff(s);
  }
}
