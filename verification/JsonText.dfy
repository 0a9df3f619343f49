/** JSON texts by their structure, as in RFC 8259, and the scanners on them. */
module JsonText {
  import opened Wrappers
  import opened Utf8
  import opened Text
  import opened JsonScan
  import opened JsonCandidates

  /** What stands between the quotes of a string: characters that are neither a quote nor a backslash,
      and backslashes each with the character it escapes. */
  predicate IsStringBody(s: string) {
    || s == ""
    || (s[0] != '"' && s[0] != '\\' && IsStringBody(s[1..]))
    || (s[0] == '\\' && |s| > 1 && IsStringBody(s[2..]))
  }

  /** A JSON text in parts; numbers, literals, commas, colons and white space are atoms. */
  datatype Json =
    | Atom(text: string)
    | Str(body: string)
    | Object(parts: seq<Json>)
    | Array(parts: seq<Json>)

  predicate IsAtom(s: string) {
    '"' !in s && '{' !in s && '}' !in s && '[' !in s && ']' !in s
  }

  predicate IsJson(j: Json) {
    match j
    case Atom(s) => IsAtom(s)
    case Str(body) => IsStringBody(body)
    case Object(parts) => AreJson(parts)
    case Array(parts) => AreJson(parts)
  }

  predicate AreJson(js: seq<Json>) {
    js == [] || (IsJson(js[0]) && AreJson(js[1..]))
  }

  function TextOf(j: Json): string {
    match j
    case Atom(s) => s
    case Str(body) => "\"" + body + "\""
    case Object(parts) => "{" + TextsOf(parts) + "}"
    case Array(parts) => "[" + TextsOf(parts) + "]"
  }

  function TextsOf(js: seq<Json>): string {
    if js == [] then "" else TextOf(js[0]) + TextsOf(js[1..])
  }

  // ----- The scanner on parts of a text -----

  /** The scanner behind `text`, started at `st`. */
  function Scanned(st: Scan, text: string): Scan {
    if text == "" then st else Next(Scanned(st, text[..|text| - 1]), text[|text| - 1])
  }

  lemma {:induction false} ScannedFromStart(text: string)
    ensures Scanned(START, text) == ScanOf(text)
  {
    if text != "" {
      ScannedFromStart(text[..|text| - 1]);
    }
  }

  lemma {:induction false} ScannedAppend(st: Scan, a: string, b: string)
    ensures Scanned(st, a + b) == Scanned(Scanned(st, a), b)
  {
    if b == "" {
      assert a + b == a;
    } else {
      assert (a + b)[..|a + b| - 1] == a + b[..|b| - 1];
      ScannedAppend(st, a, b[..|b| - 1]);
    }
  }

  lemma ScannedOne(st: Scan, c: char)
    ensures Scanned(st, [c]) == Next(st, c)
  {
    assert [c][..0] == "";
  }

  lemma ScannedNothing(st: Scan)
    ensures Scanned(st, "") == st
  {
  }

  /** The scanner started at `st` is never below depth `d` on a prefix of `text`. */
  ghost predicate StaysAt(st: Scan, text: string, d: int) {
    forall m | 0 <= m <= |text| :: Scanned(st, text[..m]).depth >= d
  }

  lemma StaysAppend(st: Scan, a: string, b: string, d: int)
    requires StaysAt(st, a, d) && StaysAt(Scanned(st, a), b, d)
    ensures StaysAt(st, a + b, d)
  {
    forall m | 0 <= m <= |a + b| ensures Scanned(st, (a + b)[..m]).depth >= d {
      if m <= |a| {
        assert (a + b)[..m] == a[..m];
      } else {
        assert (a + b)[..m] == a + b[..m - |a|];
        ScannedAppend(st, a, b[..m - |a|]);
      }
    }
  }

  lemma StaysOne(st: Scan, c: char, d: int)
    requires st.depth >= d && Next(st, c).depth >= d
    ensures StaysAt(st, [c], d)
  {
    ScannedOne(st, c);
    ScannedNothing(st);
    forall m | 0 <= m <= 1 ensures Scanned(st, [c][..m]).depth >= d {
      assert [c][..m] == if m == 0 then "" else [c];
    }
  }

  lemma StaysNothing(st: Scan, d: int)
    requires st.depth >= d
    ensures StaysAt(st, "", d)
  {
  }

  /** A text that leaves the scanner where it was, and never below that depth on the way. */
  ghost predicate IsLevel(st: Scan, text: string) {
    Scanned(st, text) == st && StaysAt(st, text, st.depth)
  }

  lemma LevelAppend(st: Scan, a: string, b: string)
    requires IsLevel(st, a) && IsLevel(st, b)
    ensures IsLevel(st, a + b)
  {
    ScannedAppend(st, a, b);
    StaysAppend(st, a, b, st.depth);
  }

  lemma LevelOne(st: Scan, c: char)
    requires Next(st, c) == st
    ensures IsLevel(st, [c])
  {
    ScannedOne(st, c);
    StaysOne(st, c, st.depth);
  }

  lemma LevelNothing(st: Scan)
    ensures IsLevel(st, "")
  {
    StaysNothing(st, st.depth);
  }

  lemma {:induction false} StringBodyIsLevel(d: int, s: string)
    requires IsStringBody(s)
    ensures IsLevel(Scan(d, true, false), s)
  {
    hide IsLevel;
    var st := Scan(d, true, false);
    if s == "" {
      LevelNothing(st);
    } else if s[0] == '\\' {
      StringBodyIsLevel(d, s[2..]);
      EscapeIsLevel(d, s[1]);
      LevelAppend(st, [s[0], s[1]], s[2..]);
      assert s == [s[0], s[1]] + s[2..];
    } else {
      StringBodyIsLevel(d, s[1..]);
      LevelOne(st, s[0]);
      LevelAppend(st, [s[0]], s[1..]);
      assert s == [s[0]] + s[1..];
    }
  }

  /** A backslash in a string, and whatever it escapes. */
  lemma EscapeIsLevel(d: int, c: char)
    ensures IsLevel(Scan(d, true, false), ['\\', c])
  {
    var st := Scan(d, true, false);
    var escaped := Scan(d, true, true);
    ScannedOne(st, '\\');
    ScannedOne(escaped, c);
    ScannedAppend(st, ['\\'], [c]);
    StaysOne(st, '\\', d);
    StaysOne(escaped, c, d);
    StaysAppend(st, ['\\'], [c], d);
    assert ['\\'] + [c] == ['\\', c];
  }

  lemma {:induction false} AtomIsLevel(d: int, s: string)
    requires IsAtom(s)
    ensures IsLevel(Scan(d, false, false), s)
  {
    hide IsLevel;
    var st := Scan(d, false, false);
    if s == "" {
      LevelNothing(st);
    } else {
      assert s[0] in s;
      AtomIsLevel(d, s[1..]);
      LevelOne(st, s[0]);
      LevelAppend(st, [s[0]], s[1..]);
      assert s == [s[0]] + s[1..];
    }
  }

  /** A text between two characters that change the scanner's state to `inner` and back. */
  lemma LevelBetween(st: Scan, open: char, inner: Scan, text: string, close: char)
    requires Next(st, open) == inner && IsLevel(inner, text) && Next(inner, close) == st
    requires inner.depth >= st.depth
    ensures IsLevel(st, [open] + text + [close])
    ensures Scanned(st, [open] + text) == inner
    ensures forall m | 0 < m <= |text| + 1 :: Scanned(st, ([open] + text)[..m]).depth >= inner.depth
  {
    ScannedOne(st, open);
    ScannedOne(inner, close);
    ScannedAppend(st, [open], text);
    ScannedAppend(st, [open] + text, [close]);
    forall m | 0 < m <= |text| + 1 ensures Scanned(st, ([open] + text)[..m]).depth >= inner.depth {
      assert ([open] + text)[..m] == [open] + text[..m - 1];
      ScannedAppend(st, [open], text[..m - 1]);
    }
    StaysOne(st, open, st.depth);
    assert StaysAt(inner, text, st.depth);
    StaysAppend(st, [open], text, st.depth);
    StaysOne(inner, close, st.depth);
    StaysAppend(st, [open] + text, [close], st.depth);
  }

  lemma {:induction false} JsonIsLevel(d: int, j: Json)
    requires IsJson(j)
    ensures IsLevel(Scan(d, false, false), TextOf(j))
    decreases j
  {
    hide IsLevel;
    var st := Scan(d, false, false);
    match j
    case Atom(s) => AtomIsLevel(d, s);
    case Str(body) =>
      StringBodyIsLevel(d, body);
      LevelBetween(st, '"', Scan(d, true, false), body, '"');
    case Object(parts) =>
      PartsAreLevel(d + 1, parts);
      LevelBetween(st, '{', Scan(d + 1, false, false), TextsOf(parts), '}');
    case Array(parts) =>
      PartsAreLevel(d + 1, parts);
      LevelBetween(st, '[', Scan(d + 1, false, false), TextsOf(parts), ']');
  }

  lemma {:induction false} PartsAreLevel(d: int, js: seq<Json>)
    requires AreJson(js)
    ensures IsLevel(Scan(d, false, false), TextsOf(js))
    decreases js
  {
    hide IsLevel;
    var st := Scan(d, false, false);
    if js == [] {
      LevelNothing(st);
    } else {
      JsonIsLevel(d, js[0]);
      PartsAreLevel(d, js[1..]);
      LevelAppend(st, TextOf(js[0]), TextsOf(js[1..]));
    }
  }

  // ----- Blocks -----

  predicate IsBracketed(j: Json) {
    j.Object? || j.Array?
  }

  /** An object or array is a block wherever it stands. */
  lemma JsonIsBlock(pre: string, j: Json, post: string)
    requires IsJson(j) && IsBracketed(j)
    ensures IsBlock(pre + TextOf(j) + post, |pre|, |pre| + |TextOf(j)|)
  {
    hide IsLevel, TextsOf;
    var s, t, inner := pre + TextOf(j) + post, TextOf(j), Scan(1, false, false);
    PartsAreLevel(1, j.parts);
    var open, close := t[0], t[|t| - 1];
    LevelBetween(START, open, inner, TextsOf(j.parts), close);
    assert t == [open] + TextsOf(j.parts) + [close];
    assert s[|pre|..|pre| + |t|] == t && s[|pre|] == open;
    ScannedFromStart(t);
    assert ScanOf(t) == START by { LevelScan(START, t); }
    forall m | |pre| < m < |pre| + |t| ensures ScanOf(s[|pre|..m]).depth > 0 {
      var n := m - |pre|;
      assert s[|pre|..m] == ([open] + TextsOf(j.parts))[..n];
      ScannedFromStart(s[|pre|..m]);
    }
  }

  lemma LevelScan(st: Scan, t: string)
    requires IsLevel(st, t)
    ensures Scanned(st, t) == st
  {
  }

  predicate HoldsNoOpener(s: string) {
    '{' !in s && '[' !in s
  }

  /** Behind any front, the first opener and the end of its block are those of the first object or
      array of the rest. */
  lemma JsonIsMet(front: string, pre: string, j: Json, post: string)
    requires HoldsNoOpener(pre) && IsJson(j) && IsBracketed(j)
    ensures var s, start := front + pre + TextOf(j) + post, |front| + |pre|;
            && FirstOpener(s, |front|) == start < |s|
            && BlockEnd(s, start, start + 1) == Some(start + |TextOf(j)|)
            && s[start..start + |TextOf(j)|] == TextOf(j)
  {
    hide IsJson, ScanOf, BlockEnd, TextsOf;
    var s, start, t := front + pre + TextOf(j) + post, |front| + |pre|, TextOf(j);
    JsonIsBlock(front + pre, j, post);
    assert s[start] == t[0];
    forall k | |front| <= k < start ensures !IsOpener(s[k]) {
      assert s[k] == pre[k - |front|] && pre[k - |front|] in pre;
    }
    FirstOpenerIs(s, |front|, start);
    BlockEndIsBlock(s, start);
  }

  /** The first block of free text that holds an object or array, whatever its strings hold, is that
      object or array; and it is taken as it stands exactly when it is ASCII. */
  lemma FirstBlockIsJson(pre: string, j: Json, post: string)
    requires HoldsNoOpener(pre) && IsJson(j) && IsBracketed(j)
    ensures FirstBlock(pre + TextOf(j) + post) == TextOf(j)
    ensures BalancedJson(pre + TextOf(j) + post) == Done(TextOf(j)) <==> IsAscii(TextOf(j))
  {
    hide IsJson, ScanOf, BlockEnd, FirstOpener, TextOf, IsAscii, BalancedJson;
    JsonIsMet("", pre, j, post);
    assert "" + pre + TextOf(j) + post == pre + TextOf(j) + post;
    BalancedJsonIff(pre + TextOf(j) + post);
  }

  /** An object or array, and the free text in front of it. */
  datatype Item = Item(pre: string, json: Json)

  predicate IsItem(x: Item) {
    HoldsNoOpener(x.pre) && IsJson(x.json) && IsBracketed(x.json)
  }

  function ItemsText(items: seq<Item>, post: string): string {
    if items == [] then post else items[0].pre + TextOf(items[0].json) + ItemsText(items[1..], post)
  }

  function Values(items: seq<Item>): seq<string> {
    seq(|items|, i requires 0 <= i < |items| => TextOf(items[i].json))
  }

  /** The blocks met in free text are its objects and arrays, from left to right. */
  lemma {:induction false} SpansAreJson(front: string, items: seq<Item>, post: string)
    requires (forall x | x in items :: IsItem(x)) && HoldsNoOpener(post)
    ensures var s := front + ItemsText(items, post);
            Texts(s, Spans(s, |front|)) == Values(items)
    decreases |items|
  {
    hide IsJson, ScanOf, BlockEnd, FirstOpener, TextOf, IsItem, IsOpener, HoldsNoOpener, IsBracketed, Spans, Texts;
    var s := front + ItemsText(items, post);
    if items == [] {
      NoneIsMet(front, post);
      NoTexts(s);
    } else {
      assert IsItem(items[0]);
      var pre, j, rest := items[0].pre, items[0].json, ItemsText(items[1..], post);
      assert HoldsNoOpener(pre) && IsJson(j) && IsBracketed(j) by { ItemParts(items[0]); }
      JsonIsMet(front, pre, j, rest);
      assert s == front + pre + TextOf(j) + rest;
      var next := front + pre + TextOf(j);
      SpansAreJson(next, items[1..], post);
      SpansStep(s, |front|, |front| + |pre|, |next|);
      TextsCons(s, (|front| + |pre|, |next|), Spans(s, |next|));
      assert Values(items) == [TextOf(j)] + Values(items[1..]);
    }
  }

  lemma SpansStep(s: string, i: nat, o: nat, e: nat)
    requires i <= |s| && FirstOpener(s, i) == o < |s| && BlockEnd(s, o, o + 1) == Some(e)
    ensures Spans(s, i) == [(o, e)] + Spans(s, e)
  {
    hide BlockEnd, FirstOpener;
  }

  lemma NoTexts(s: string)
    ensures Texts(s, []) == []
  {
  }

  lemma ItemParts(x: Item)
    requires IsItem(x)
    ensures HoldsNoOpener(x.pre) && IsJson(x.json) && IsBracketed(x.json)
  {
  }

  lemma NoneIsMet(front: string, post: string)
    requires HoldsNoOpener(post)
    ensures Spans(front + post, |front|) == []
  {
    hide BlockEnd;
    var s := front + post;
    forall k | |front| <= k < |s| ensures !IsOpener(s[k]) {
      assert s[k] == post[k - |front|] && post[k - |front|] in post;
    }
  }

  /** So the candidates of free text without fences are its objects and arrays, each once, in the
      order in which they first occur. */
  lemma CandidatesAreJson(items: seq<Item>, post: string)
    requires (forall x | x in items :: IsItem(x)) && HoldsNoOpener(post)
    requires !Contains(ItemsText(items, post), "```")
    ensures Candidates(ItemsText(items, post)) == AddAll([], Values(items))
  {
    hide IsItem, Spans, Texts, AddAll, CutText;
    var s := ItemsText(items, post);
    SpansAreJson("", items, post);
    assert "" + s == s;
    assert Fenced(s) == [] by { NoFenceLeft(s); }
  }

  /** Text by text, what is not there yet is added: each once, in the order of first occurrence. */
  lemma {:induction false} AddAllIsDistinct(vs: seq<string>)
    ensures NoRepeats(AddAll([], vs))
    ensures forall v :: v in AddAll([], vs) <==> v in vs
    decreases |vs|
  {
    if vs != [] {
      var front, last := vs[..|vs| - 1], vs[|vs| - 1];
      AddAllIsDistinct(front);
      assert vs == front + [last];
      AddAllSnoc([], front, last);
    }
  }
}
