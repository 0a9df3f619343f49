/** Finding balanced JSON blocks in free text; strings as in section 7 of RFC 8259. */
module JsonScan {
  import opened Wrappers
  import opened Utf8

  // ----- The scanner -----

  /** Bracket depth, whether a string is open, and whether the next character is escaped. */
  datatype Scan = Scan(depth: int, inString: bool, escape: bool)

  const START := Scan(0, false, false)

  predicate IsOpener(c: char) {
    c == '{' || c == '['
  }

  predicate IsCloser(c: char) {
    c == '}' || c == ']'
  }

  function Next(s: Scan, c: char): Scan {
    if s.escape then s.(escape := false)
    else if c == '"' then s.(inString := !s.inString)
    else if s.inString then (if c == '\\' then s.(escape := true) else s)
    else if IsOpener(c) then s.(depth := s.depth + 1)
    else if IsCloser(c) then s.(depth := s.depth - 1)
    else s
  }

  /** The scanner after a whole text. */
  function ScanOf(text: string): Scan {
    if text == "" then START else Next(ScanOf(text[..|text| - 1]), text[|text| - 1])
  }

  /** The shortest text from an opener at which the depth is back at zero. */
  ghost predicate IsBlock(s: string, start: nat, end: nat) {
    && start < end <= |s|
    && IsOpener(s[start])
    && ScanOf(s[start..end]).depth == 0
    && forall m | start < m < end :: ScanOf(s[start..m]).depth > 0
  }

  /** The first end at or behind `from` at which the depth is zero. */
  function BlockEnd(s: string, start: nat, from: nat): (r: Option<nat>)
    requires start <= from <= |s|
    ensures r.Some? ==> from <= r.value <= |s| && ScanOf(s[start..r.value]).depth == 0
    ensures r.Some? ==> forall m | from <= m < r.value :: ScanOf(s[start..m]).depth != 0
    ensures r.None? ==> forall m | from <= m <= |s| :: ScanOf(s[start..m]).depth != 0
    decreases |s| - from
  {
    if ScanOf(s[start..from]).depth == 0 then Some(from)
    else if from == |s| then None
    else BlockEnd(s, start, from + 1)
  }

  function FirstOpener(s: string, i: nat): (k: nat)
    requires i <= |s|
    ensures i <= k <= |s|
    ensures k < |s| ==> IsOpener(s[k])
    ensures forall j | i <= j < k :: !IsOpener(s[j])
    decreases |s| - i
  {
    if i == |s| || IsOpener(s[i]) then i else FirstOpener(s, i + 1)
  }

  lemma ScanStep(s: string, start: nat, m: nat)
    requires start <= m < |s|
    ensures ScanOf(s[start..m + 1]) == Next(ScanOf(s[start..m]), s[m])
  {
    assert s[start..m + 1][..m - start] == s[start..m];
  }

  lemma ScanNothing(s: string, start: nat)
    requires start <= |s|
    ensures ScanOf(s[start..start]) == START
  {
  }

  /** The search for the end looks at one position after the other. */
  lemma BlockEndStep(s: string, start: nat, m: nat)
    requires start <= m <= |s|
    ensures ScanOf(s[start..m]).depth == 0 ==> BlockEnd(s, start, m) == Some(m)
    ensures ScanOf(s[start..m]).depth != 0 ==>
              BlockEnd(s, start, m) == if m == |s| then None else BlockEnd(s, start, m + 1)
  {
    hide ScanOf;
  }

  /** Depth moves by one, so before it is back at zero it is positive. */
  lemma {:induction false} DepthStaysPositive(s: string, start: nat, m: nat)
    requires start < m <= |s| && IsOpener(s[start])
    requires forall x | start < x <= m :: ScanOf(s[start..x]).depth != 0
    ensures ScanOf(s[start..m]).depth > 0
  {
    if m == start + 1 {
      ScanStep(s, start, start);
      assert s[start..start] == "";
    } else {
      DepthStaysPositive(s, start, m - 1);
      ScanStep(s, start, m - 1);
    }
  }

  ghost predicate NeverCloses(s: string, start: nat) {
    forall end: nat :: !IsBlock(s, start, end)
  }

  /** Blocks are what the search finds. */
  lemma BlockEndIsBlock(s: string, start: nat)
    requires start < |s| && IsOpener(s[start])
    ensures var e := BlockEnd(s, start, start + 1);
            (forall end: nat :: IsBlock(s, start, end) <==> e == Some(end)) && (NeverCloses(s, start) <==> e == None)
  {
    var e := BlockEnd(s, start, start + 1);
    forall end: nat ensures IsBlock(s, start, end) <==> e == Some(end) {
      if e == Some(end) {
        forall m | start < m < end ensures ScanOf(s[start..m]).depth > 0 {
          DepthStaysPositive(s, start, m);
        }
      }
    }
    if e.Some? {
      assert IsBlock(s, start, e.value);
    }
  }

  // ----- The first block -----

  /** The block at the first opener, or nothing when it never closes. */
  function FirstBlock(s: string): (block: string)
    ensures |block| <= |s|
  {
    var start := FirstOpener(s, 0);
    if start == |s| then ""
    else match BlockEnd(s, start, start + 1)
      case None => ""
      case Some(end) => s[start..end]
  }

  /** What the program takes for it: as many bytes, from the opener on, as it has characters. */
  function BalancedJson(s: string): Outcome<string> {
    TakeBytes(s[FirstOpener(s, 0)..], |FirstBlock(s)|)
  }

  /** It takes the block itself exactly when that is ASCII, and nothing exactly when there is none. */
  lemma BalancedJsonIff(s: string)
    ensures BalancedJson(s) == Done(FirstBlock(s)) <==> IsAscii(FirstBlock(s))
    ensures BalancedJson(s) == Done("") <==> FirstBlock(s) == ""
  {
    hide BlockEnd, ScanOf, IsOpener, Boundary, IsAscii;
    var rest, n := s[FirstOpener(s, 0)..], |FirstBlock(s)|;
    FirstBlockIsPrefix(s);
    assert rest[..n] == FirstBlock(s);
    TakeBytesIff(rest, n);
    if n == 0 {
      assert IsAscii(FirstBlock(s)) by { AsciiIff(""); }
    }
  }

  lemma FirstBlockIsPrefix(s: string)
    ensures FirstBlock(s) <= s[FirstOpener(s, 0)..]
  {
  }

  method ExtractBalancedJson(s: string) returns (block: Outcome<string>)
    ensures block == BalancedJson(s)
  {
    hide TakeBytes, ScanOf, BlockEnd;
    var start := FirstOpener(s, 0);
    if start == |s| {
      assert TakeBytes(s[start..], 0) == Done("") by { NoBytes(s[start..]); }
      return Done("");
    }
    var scan := START;
    ScanNothing(s, start);
    ghost var all := BlockEnd(s, start, start + 1);
    for i := start to |s|
      invariant scan == ScanOf(s[start..i])
      invariant i > start ==> scan.depth > 0 && BlockEnd(s, start, i) == all
    {
      var c := s[i];
      ScanStep(s, start, i);
      BlockEndStep(s, start, i + 1);
      if i > start {
        BlockEndStep(s, start, i);
      }
      if scan.escape {
        scan := scan.(escape := false);
        continue;
      }
      if c == '"' {
        scan := scan.(inString := !scan.inString);
      } else if c == '\\' && scan.inString {
        scan := scan.(escape := true);
      } else if IsOpener(c) && !scan.inString {
        scan := scan.(depth := scan.depth + 1);
      } else if IsCloser(c) && !scan.inString {
        scan := scan.(depth := scan.depth - 1);
        if scan.depth == 0 {
          return TakeBytes(s[start..], i + 1 - start);
        }
      }
    }
    BlockEndStep(s, start, |s|);
    assert TakeBytes(s[start..], 0) == Done("") by { NoBytes(s[start..]); }
    return Done("");
  }

  lemma NoBytes(s: string)
    ensures TakeBytes(s, 0) == Done("")
  {
  }
}
