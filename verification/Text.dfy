/** Text as sequences of characters: the parts of the string library the program relies on. */
module Text {
  import opened Wrappers

  predicate StartsWith(s: string, p: string) {
    p <= s
  }

  /** Unicode white space, as `trim` understands it. */
  predicate IsSpace(c: char) {
    var n := c as int;
    9 <= n <= 13 || n == 32 || n == 0x85 || n == 0xA0 || n == 0x1680 || 0x2000 <= n <= 0x200A
    || n == 0x2028 || n == 0x2029 || n == 0x202F || n == 0x205F || n == 0x3000
  }

  predicate IsQuote(c: char) {
    c == '"'
  }

  // ----- Trimming -----

  function TrimStart(s: string, p: char -> bool): string {
    if s != [] && p(s[0]) then TrimStart(s[1..], p) else s
  }

  function TrimEnd(s: string, p: char -> bool): string {
    if s != [] && p(s[|s| - 1]) then TrimEnd(s[..|s| - 1], p) else s
  }

  function TrimBoth(s: string, p: char -> bool): string {
    TrimEnd(TrimStart(s, p), p)
  }

  function Trim(s: string): string {
    TrimBoth(s, IsSpace)
  }

  predicate CleanEnds(s: string, p: char -> bool) {
    s == [] || (!p(s[0]) && !p(s[|s| - 1]))
  }

  lemma {:induction false} TrimStartIsSuffix(s: string, p: char -> bool)
    ensures exists k :: 0 <= k <= |s| && TrimStart(s, p) == s[k..]
    ensures TrimStart(s, p) == [] || !p(TrimStart(s, p)[0])
  {
    if s != [] && p(s[0]) {
      TrimStartIsSuffix(s[1..], p);
      var k :| 0 <= k <= |s[1..]| && TrimStart(s[1..], p) == s[1..][k..];
      assert s[1..][k..] == s[k + 1..];
    } else {
      assert s[0..] == s;
    }
  }

  lemma {:induction false} TrimEndIsPrefix(s: string, p: char -> bool)
    ensures TrimEnd(s, p) <= s
    ensures TrimEnd(s, p) == [] || !p(TrimEnd(s, p)[|TrimEnd(s, p)| - 1])
  {
    if s != [] && p(s[|s| - 1]) {
      TrimEndIsPrefix(s[..|s| - 1], p);
    }
  }

  /** Trimmed text has clean ends and holds nothing the text did not hold. */
  lemma TrimmedIsClean(s: string, p: char -> bool)
    ensures CleanEnds(TrimBoth(s, p), p)
    ensures forall c | c in TrimBoth(s, p) :: c in s
  {
    TrimStartIsSuffix(s, p);
    TrimEndIsPrefix(TrimStart(s, p), p);
  }

  lemma CleanIsTrimmed(s: string, p: char -> bool)
    requires CleanEnds(s, p)
    ensures TrimBoth(s, p) == s
  {
  }

  predicate AllMatch(s: string, p: char -> bool) {
    forall c | c in s :: p(c)
  }

  lemma {:induction false} TrimStartOff(a: string, s: string, p: char -> bool)
    requires AllMatch(a, p)
    ensures TrimStart(a + s, p) == TrimStart(s, p)
  {
    if a == "" {
      assert a + s == s;
    } else {
      assert a[0] in a && (a + s)[1..] == a[1..] + s;
      TrimStartOff(a[1..], s, p);
    }
  }

  lemma {:induction false} TrimEndOff(s: string, b: string, p: char -> bool)
    requires AllMatch(b, p)
    ensures TrimEnd(s + b, p) == TrimEnd(s, p)
  {
    if b == "" {
      assert s + b == s;
    } else {
      var n := |b| - 1;
      assert b[n] in b && (s + b)[..|s| + n] == s + b[..n];
      TrimEndOff(s, b[..n], p);
    }
  }

  /** Matching characters on both sides of clean text come off, and no more. */
  lemma TrimAround(a: string, s: string, b: string, p: char -> bool)
    requires AllMatch(a, p) && AllMatch(b, p) && CleanEnds(s, p)
    ensures TrimBoth(a + s + b, p) == s
  {
    assert a + s + b == a + (s + b);
    TrimStartOff(a, s + b, p);
    if s == "" {
      assert s + b == b && b + "" == b;
      TrimStartOff(b, "", p);
    } else {
      assert TrimStart(s + b, p) == s + b;
      TrimEndOff(s, b, p);
      CleanIsTrimmed(s, p);
    }
  }

  // ----- Splitting -----

  function IndexOf(s: string, c: char): (i: nat)
    ensures i <= |s|
    ensures c !in s[..i]
    ensures i < |s| ==> s[i] == c
  {
    if s == [] || s[0] == c then 0 else 1 + IndexOf(s[1..], c)
  }

  lemma {:induction false} IndexOfAfter(a: string, c: char, b: string)
    requires c !in a
    ensures IndexOf(a + [c] + b, c) == |a|
  {
    if a != [] {
      assert a[0] in a;
      IndexOfAfter(a[1..], c, b);
      assert (a + [c] + b)[1..] == a[1..] + [c] + b;
    }
  }

  lemma {:induction false} IndexOfMissing(s: string, c: char)
    requires c !in s
    ensures IndexOf(s, c) == |s|
  {
    if s != [] {
      assert s[0] in s;
      IndexOfMissing(s[1..], c);
    }
  }

  function SplitOnce(s: string, c: char): Option<(string, string)> {
    var i := IndexOf(s, c);
    if i < |s| then Some((s[..i], s[i + 1..])) else None
  }

  /** All the parts between occurrences of `c`; at least one. */
  function Split(s: string, c: char): (parts: seq<string>)
    ensures |parts| >= 1
    decreases |s|
  {
    var i := IndexOf(s, c);
    if i < |s| then [s[..i]] + Split(s[i + 1..], c) else [s]
  }

  lemma SplitCons(a: string, c: char, b: string)
    requires c !in a
    ensures Split(a + [c] + b, c) == [a] + Split(b, c)
    ensures SplitOnce(a + [c] + b, c) == Some((a, b))
  {
    IndexOfAfter(a, c, b);
    var s := a + [c] + b;
    assert s[..|a|] == a && s[|a| + 1..] == b;
  }

  lemma SplitSingle(a: string, c: char)
    requires c !in a
    ensures Split(a, c) == [a]
  {
    IndexOfMissing(a, c);
  }

  // ----- Lines -----

  function StripCr(s: string): string {
    if s != [] && s[|s| - 1] == '\r' then s[..|s| - 1] else s
  }

  /** Lines end at a newline, with a carriage return before it dropped; text after the last
      newline is a line unless it is empty. */
  function Lines(s: string): seq<string>
    decreases |s|
  {
    var i := IndexOf(s, '\n');
    if i < |s| then [StripCr(s[..i])] + Lines(s[i + 1..])
    else if s == [] then [] else [s]
  }

  function Join(lines: seq<string>): string {
    if lines == [] then ""
    else if |lines| == 1 then lines[0]
    else lines[0] + "\n" + Join(lines[1..])
  }

  lemma {:induction false} LinesHoldNoNewline(s: string)
    ensures forall l | l in Lines(s) :: '\n' !in l
    decreases |s|
  {
    var i := IndexOf(s, '\n');
    if i < |s| {
      LinesHoldNoNewline(s[i + 1..]);
    } else {
      assert s[..i] == s;
    }
  }

  predicate IsPlainLine(l: string) {
    l != [] && '\n' !in l && l[|l| - 1] != '\r'
  }

  lemma LinesCons(l: string, rest: string)
    requires IsPlainLine(l)
    ensures Lines(l + "\n" + rest) == [l] + Lines(rest)
  {
    var s := l + "\n" + rest;
    assert s == l + ['\n'] + rest;
    IndexOfAfter(l, '\n', rest);
    assert s[..|l|] == l && s[|l| + 1..] == rest;
  }

  lemma {:induction false} LinesOfJoin(lines: seq<string>)
    requires forall l | l in lines :: IsPlainLine(l)
    ensures Lines(Join(lines)) == lines
  {
    if |lines| == 1 {
      assert lines[0] in lines;
      IndexOfMissing(lines[0], '\n');
    } else if |lines| > 1 {
      assert lines[0] in lines;
      LinesCons(lines[0], Join(lines[1..]));
      LinesOfJoin(lines[1..]);
      assert lines == [lines[0]] + lines[1..];
    }
  }

  // ----- Searching -----

  /** The first place where `p` occurs. */
  function FindSub(s: string, p: string): (r: Option<nat>)
    ensures r.Some? ==> r.value + |p| <= |s|
  {
    if p <= s then Some(0)
    else if s == [] then None
    else match FindSub(s[1..], p)
      case None => None
      case Some(i) => Some(i + 1)
  }

  function Shift(o: Option<nat>, n: nat): Option<nat> {
    if o.Some? then Some(o.value + n) else None
  }

  lemma {:induction false} SkipsPlain(x: string, rest: string, p: string)
    requires p != [] && p[0] !in x
    ensures FindSub(x + rest, p) == Shift(FindSub(rest, p), |x|)
  {
    if x == [] {
      assert x + rest == rest;
    } else {
      assert (x + rest)[0] == x[0] && x[0] in x;
      assert (x + rest)[1..] == x[1..] + rest;
      SkipsPlain(x[1..], rest, p);
    }
  }

  predicate StandsAt(s: string, p: string, i: nat) {
    i <= |s| && p <= s[i..]
  }

  /** The first place where `p` stands, and nothing when it stands nowhere. */
  lemma {:induction false} FindSubIsFirst(s: string, p: string)
    ensures match FindSub(s, p)
            case None => forall i: nat :: !StandsAt(s, p, i)
            case Some(k) => StandsAt(s, p, k) && forall i: nat | i < k :: !StandsAt(s, p, i)
  {
    assert s[0..] == s;
    if !(p <= s) && s != "" {
      FindSubIsFirst(s[1..], p);
      forall i: nat | 0 < i ensures StandsAt(s, p, i) <==> StandsAt(s[1..], p, i - 1) {
        if i <= |s| {
          assert s[1..][i - 1..] == s[i..];
        }
      }
    }
  }

  /** Text contains `p` exactly when `p` stands somewhere in it. */
  lemma ContainsIff(s: string, p: string)
    ensures Contains(s, p) <==> exists x: string, y: string :: s == x + p + y
  {
    FindSubIsFirst(s, p);
    if Contains(s, p) {
      var k := FindSub(s, p).value;
      assert s == s[..k] + p + s[k + |p|..];
    }
    forall x: string, y: string | s == x + p + y ensures Contains(s, p) {
      assert s[|x|..] == p + y;
      assert StandsAt(s, p, |x|);
    }
  }

  predicate Contains(s: string, p: string) {
    FindSub(s, p).Some?
  }

  /** Text without `p` before `p` itself does not hide it, when `p` begins with a character it
      does not hold again. */
  lemma {:induction false} FindsAfter(x: string, p: string, rest: string)
    requires p != "" && p[0] !in p[1..] && !Contains(x, p)
    ensures FindSub(x + p + rest, p) == Some(|x|)
  {
    var s := x + p + rest;
    if x == "" {
      assert s == p + rest;
    } else {
      assert !(p <= s) by {
        BeginsNoEarlier(x, p, rest);
      }
      assert s[1..] == x[1..] + p + rest;
      FindsAfter(x[1..], p, rest);
    }
  }

  lemma BeginsNoEarlier(x: string, p: string, rest: string)
    requires p != "" && p[0] !in p[1..] && x != "" && !(p <= x)
    ensures !(p <= x + p + rest)
  {
    var s := x + p + rest;
    if |p| <= |x| {
      assert s[..|p|] == x[..|p|];
    } else {
      assert s[|x|] == p[0];
      assert p[|x|] == p[1..][|x| - 1];
      assert p[|x|] in p[1..];
    }
  }

  /** The text before and behind the first place where `p` occurs. */
  function CutText(s: string, p: string): (r: Option<(string, string)>)
    ensures r.Some? ==> |r.value.1| <= |s| - |p| && r.value.1 == s[|s| - |r.value.1|..]
  {
    match FindSub(s, p)
    case None => None
    case Some(i) => Some((s[..i], s[i + |p|..]))
  }

  /** The same for a `p` of one repeated character, which the text before it does not end with. */
  lemma {:induction false} FindsRunAfter(x: string, p: string, rest: string)
    requires p != "" && (forall c | c in p :: c == p[0]) && !Contains(x, p)
    requires x == "" || x[|x| - 1] != p[0]
    ensures FindSub(x + p + rest, p) == Some(|x|)
  {
    var s := x + p + rest;
    if x == "" {
      assert s == p + rest;
    } else {
      assert !(p <= s) by {
        if |p| <= |x| {
          assert s[..|p|] == x[..|p|];
        } else {
          assert s[|x| - 1] == x[|x| - 1] && p[|x| - 1] in p;
        }
      }
      assert s[1..] == x[1..] + p + rest;
      FindsRunAfter(x[1..], p, rest);
    }
  }

  lemma CutAround(a: string, p: string, b: string)
    requires FindSub(a + p + b, p) == Some(|a|)
    ensures CutText(a + p + b, p) == Some((a, b))
  {
    var s := a + p + b;
    assert s[..|a|] == a && s[|a| + |p|..] == b;
  }

  lemma CutsAfter(x: string, p: string, rest: string)
    requires p != "" && p[0] !in p[1..] && !Contains(x, p)
    ensures CutText(x + p + rest, p) == Some((x, rest))
  {
    hide FindSub;
    FindsAfter(x, p, rest);
    CutAround(x, p, rest);
  }
}
