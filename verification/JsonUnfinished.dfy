/** JSON texts cut off at any place outside of an escape, and what the repair makes of them. */
module JsonUnfinished {
  import opened Wrappers
  import opened JsonText
  import opened JsonRepair

  // ----- Texts that break off -----

  /** Atoms without backslashes, all the way down. */
  predicate IsTidy(j: Json) {
    match j
    case Atom(s) => '\\' !in s
    case Str(_) => true
    case Object(parts) => AreTidy(parts)
    case Array(parts) => AreTidy(parts)
  }

  predicate AreTidy(js: seq<Json>) {
    js == [] || (IsTidy(js[0]) && AreTidy(js[1..]))
  }

  /** An object or array that was opened, and what of it is there. */
  datatype Frame = Frame(isObject: bool, parts: seq<Json>)

  predicate IsFrame(f: Frame) {
    AreJson(f.parts) && AreTidy(f.parts)
  }

  function FrameText(f: Frame): string {
    (if f.isObject then "{" else "[") + TextsOf(f.parts)
  }

  function FramesText(fs: seq<Frame>): string {
    if fs == [] then "" else FramesText(fs[..|fs| - 1]) + FrameText(fs[|fs| - 1])
  }

  /** The text breaks off behind some finished parts, inside of some frames, and possibly inside of a
      string. */
  function UnfinishedText(parts: seq<Json>, fs: seq<Frame>, str: Option<string>): string {
    TextsOf(parts) + FramesText(fs) + (if str.Some? then "\"" + str.value else "")
  }

  function OpenObjects(fs: seq<Frame>): nat {
    if fs == [] then 0 else OpenObjects(fs[..|fs| - 1]) + (if fs[|fs| - 1].isObject then 1 else 0)
  }

  // ----- The two passes on parts of a text -----

  /** Both passes together. */
  datatype Passes = Passes(quotes: Quotes, braces: Braces)

  function NextPasses(p: Passes, c: char): Passes {
    Passes(NextQuotes(p.quotes, c), NextBraces(p.braces, c))
  }

  function Passed(p: Passes, text: string): Passes {
    if text == "" then p else NextPasses(Passed(p, text[..|text| - 1]), text[|text| - 1])
  }

  lemma {:induction false} PassedFromStart(text: string)
    ensures Passed(Passes(Quotes(false, false), Braces(0, false, false)), text) ==
                Passes(QuotesOf(text), BracesOf(text))
  {
    if text != "" {
      PassedFromStart(text[..|text| - 1]);
    }
  }

  lemma {:induction false} PassedAppend(p: Passes, a: string, b: string)
    ensures Passed(p, a + b) == Passed(Passed(p, a), b)
  {
    if b == "" {
      assert a + b == a;
    } else {
      assert (a + b)[..|a + b| - 1] == a + b[..|b| - 1];
      PassedAppend(p, a, b[..|b| - 1]);
    }
  }

  lemma PassedOne(p: Passes, c: char)
    ensures Passed(p, [c]) == NextPasses(p, c)
  {
    assert [c][..0] == "";
  }

  /** Outside of strings, and inside of one, at a brace depth. */
  function Outside(d: int): Passes {
    Passes(Quotes(false, false), Braces(d, false, false))
  }

  function Inside(d: int): Passes {
    Passes(Quotes(true, false), Braces(d, true, false))
  }

  lemma {:induction false} StringBodyPasses(d: int, s: string)
    requires IsStringBody(s)
    ensures Passed(Inside(d), s) == Inside(d)
  {
    if s != "" {
      if s[0] == '\\' {
        PassedOne(Inside(d), '\\');
        PassedOne(Passes(Quotes(true, true), Braces(d, true, true)), s[1]);
        PassedAppend(Inside(d), ['\\'], [s[1]]);
        assert ['\\'] + [s[1]] == s[..2] && s == s[..2] + s[2..];
        PassedAppend(Inside(d), s[..2], s[2..]);
        StringBodyPasses(d, s[2..]);
      } else {
        PassedOne(Inside(d), s[0]);
        assert s == [s[0]] + s[1..];
        PassedAppend(Inside(d), [s[0]], s[1..]);
        StringBodyPasses(d, s[1..]);
      }
    }
  }

  lemma {:induction false} AtomPasses(d: int, s: string)
    requires IsAtom(s) && '\\' !in s
    ensures Passed(Outside(d), s) == Outside(d)
  {
    if s != "" {
      assert s[0] in s;
      PassedOne(Outside(d), s[0]);
      assert s == [s[0]] + s[1..];
      PassedAppend(Outside(d), [s[0]], s[1..]);
      AtomPasses(d, s[1..]);
    }
  }

  lemma PassedBetween(p: Passes, open: char, inner: Passes, text: string, close: char)
    requires NextPasses(p, open) == inner && Passed(inner, text) == inner && NextPasses(inner, close) == p
    ensures Passed(p, [open] + text + [close]) == p
  {
    PassedOne(p, open);
    PassedOne(inner, close);
    PassedAppend(p, [open], text);
    PassedAppend(p, [open] + text, [close]);
  }

  lemma {:induction false} JsonPasses(d: int, j: Json)
    requires IsJson(j) && IsTidy(j)
    ensures Passed(Outside(d), TextOf(j)) == Outside(d)
    decreases j
  {
    hide Passed;
    match j
    case Atom(s) => AtomPasses(d, s);
    case Str(body) =>
      StringBodyPasses(d, body);
      PassedBetween(Outside(d), '"', Inside(d), body, '"');
    case Object(parts) =>
      PartsPass(d + 1, parts);
      PassedBetween(Outside(d), '{', Outside(d + 1), TextsOf(parts), '}');
    case Array(parts) =>
      PartsPass(d, parts);
      PassedBetween(Outside(d), '[', Outside(d), TextsOf(parts), ']');
  }

  lemma {:induction false} PartsPass(d: int, js: seq<Json>)
    requires AreJson(js) && AreTidy(js)
    ensures Passed(Outside(d), TextsOf(js)) == Outside(d)
    decreases js
  {
    hide Passed;
    if js == [] {
      NothingPasses(Outside(d));
    } else {
      JsonPasses(d, js[0]);
      PartsPass(d, js[1..]);
      PassedAppend(Outside(d), TextOf(js[0]), TextsOf(js[1..]));
    }
  }

  lemma NothingPasses(p: Passes)
    ensures Passed(p, "") == p
  {
  }

  lemma {:induction false} FramesPass(d: int, fs: seq<Frame>)
    requires forall f | f in fs :: IsFrame(f)
    ensures Passed(Outside(d), FramesText(fs)) == Outside(d + OpenObjects(fs))
  {
    hide Passed;
    if fs == [] {
      NothingPasses(Outside(d));
    } else {
      var front, last := fs[..|fs| - 1], fs[|fs| - 1];
      FramesPass(d, front);
      assert last in fs;
      var below := d + OpenObjects(front);
      var inner := if last.isObject then below + 1 else below;
      var open := if last.isObject then '{' else '[';
      PassedOne(Outside(below), open);
      PartsPass(inner, last.parts);
      PassedAppend(Outside(below), [open], TextsOf(last.parts));
      PassedAppend(Outside(d), FramesText(front), FrameText(last));
    }
  }

  // ----- What is appended -----

  lemma {:induction false} ClosersAreBraces(n: nat)
    ensures |Closers(n)| == n && forall c | c in Closers(n) :: c == '}'
  {
    if n > 0 {
      ClosersAreBraces(n - 1);
    }
  }

  lemma UnfinishedPasses(parts: seq<Json>, fs: seq<Frame>, str: Option<string>)
    requires AreJson(parts) && AreTidy(parts) && forall f | f in fs :: IsFrame(f)
    requires str.Some? ==> IsStringBody(str.value)
    ensures var s, d := UnfinishedText(parts, fs, str), OpenObjects(fs);
            Passes(QuotesOf(s), BracesOf(s)) == if str.Some? then Inside(d) else Outside(d)
  {
    hide Passed, IsFrame;
    var s, d := UnfinishedText(parts, fs, str), OpenObjects(fs);
    PartsPass(0, parts);
    FramesPass(0, fs);
    PassedAppend(Outside(0), TextsOf(parts), FramesText(fs));
    if str.Some? {
      PassedOne(Outside(d), '"');
      StringBodyPasses(d, str.value);
      PassedAppend(Outside(d), "\"", str.value);
      PassedAppend(Outside(0), TextsOf(parts) + FramesText(fs), "\"" + str.value);
    } else {
      assert s == TextsOf(parts) + FramesText(fs);
    }
    PassedFromStart(s);
  }

  /** A JSON text that breaks off is closed by a quote, if a string was open, and one brace for each
      open object; open arrays are not closed. */
  lemma UnfinishedIsClosed(parts: seq<Json>, fs: seq<Frame>, str: Option<string>)
    requires AreJson(parts) && AreTidy(parts) && forall f | f in fs :: IsFrame(f)
    requires str.Some? ==> IsStringBody(str.value)
    ensures exists braces: string ::
              && Repaired(UnfinishedText(parts, fs, str)) ==
                   UnfinishedText(parts, fs, str) + (if str.Some? then "\"" else "") + braces
              && |braces| == OpenObjects(fs)
              && forall c | c in braces :: c == '}'
  {
    hide QuotesOf, BracesOf, UnfinishedText, IsFrame, Repaired;
    UnfinishedPasses(parts, fs, str);
    OnlyAppends(UnfinishedText(parts, fs, str));
    ClosersAreBraces(OpenObjects(fs));
  }

  /** So a JSON text that does not break off is left alone. */
  lemma FinishedIsLeftAlone(j: Json)
    requires IsJson(j) && IsTidy(j)
    ensures Repaired(TextOf(j)) == TextOf(j)
  {
    hide Repaired, QuotesOf, BracesOf, TextOf;
    UnfinishedIsClosed([j], [], None);
    var braces: string :| Repaired(UnfinishedText([j], [], None)) == UnfinishedText([j], [], None) + "" + braces
                          && |braces| == 0;
    assert TextsOf([j]) == TextOf(j) + "" == TextOf(j);
    assert UnfinishedText([j], [], None) == TextOf(j);
    assert TextOf(j) + "" + braces == TextOf(j);
  }
}
