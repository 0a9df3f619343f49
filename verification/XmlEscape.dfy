/** Escaping of the four characters that have a meaning in the summaries. */
module XmlEscape {

  /** Every occurrence of one character replaced by a text. */
  function Replace(s: string, c: char, r: string): string {
    if s == [] then [] else (if s[0] == c then r else [s[0]]) + Replace(s[1..], c, r)
  }

  /** The program's escaping: four passes, the ampersand first. */
  function EscapeXml(s: string): string {
    Replace(Replace(Replace(Replace(s, '&', "&amp;"), '<', "&lt;"), '>', "&gt;"), '"', "&quot;")
  }

  /** The predefined entities of section 4.6 of XML 1.0, but for the apostrophe. */
  function EscapeChar(c: char): string {
    match c
    case '&' => "&amp;"
    case '<' => "&lt;"
    case '>' => "&gt;"
    case '"' => "&quot;"
    case _ => [c]
  }

  function EscapeEach(s: string): string {
    if s == [] then [] else EscapeChar(s[0]) + EscapeEach(s[1..])
  }

  lemma {:induction false} ReplaceAppend(s: string, t: string, c: char, r: string)
    ensures Replace(s + t, c, r) == Replace(s, c, r) + Replace(t, c, r)
  {
    if s == [] {
      assert s + t == t;
    } else {
      ReplaceAppend(s[1..], t, c, r);
      assert (s + t)[1..] == s[1..] + t;
    }
  }

  lemma {:induction false} ReplaceAbsent(s: string, c: char, r: string)
    requires c !in s
    ensures Replace(s, c, r) == s
  {
    if s != [] {
      assert s[0] in s;
      ReplaceAbsent(s[1..], c, r);
    }
  }

  lemma ReplaceOne(c: char, d: char, r: string)
    ensures Replace([c], d, r) == if c == d then r else [c]
  {
    assert [c][1..] == [] && r + [] == r;
  }

  function LastTwo(s: string): string {
    Replace(Replace(s, '>', "&gt;"), '"', "&quot;")
  }

  function LastThree(s: string): string {
    LastTwo(Replace(s, '<', "&lt;"))
  }

  /** No later pass touches what an earlier one wrote. */
  lemma LaterPassesLeave(r: string)
    requires '>' !in r && '"' !in r
    ensures LastTwo(r) == r
    ensures '<' !in r ==> LastThree(r) == r
  {
    ReplaceAbsent(r, '>', "&gt;");
    ReplaceAbsent(r, '"', "&quot;");
    if '<' !in r {
      ReplaceAbsent(r, '<', "&lt;");
    }
  }

  lemma LastTwoOnOne(c: char)
    ensures LastTwo([c]) == if c == '>' then "&gt;" else if c == '"' then "&quot;" else [c]
  {
    ReplaceOne(c, '>', "&gt;");
    ReplaceOne(c, '"', "&quot;");
    if c == '>' {
      ReplaceAbsent("&gt;", '"', "&quot;");
    }
  }

  lemma LastThreeOnOne(c: char)
    ensures LastThree([c]) == if c == '<' then "&lt;" else LastTwo([c])
  {
    ReplaceOne(c, '<', "&lt;");
    if c == '<' {
      LaterPassesLeave("&lt;");
    }
  }

  lemma FourPassesOnOne(c: char)
    ensures EscapeXml([c]) == EscapeChar(c)
  {
    hide Replace;
    ReplaceOne(c, '&', "&amp;");
    assert EscapeXml([c]) == LastThree(Replace([c], '&', "&amp;"));
    if c == '&' {
      LaterPassesLeave("&amp;");
    } else {
      LastThreeOnOne(c);
      LastTwoOnOne(c);
    }
  }

  lemma EscapeXmlAppend(s: string, t: string)
    ensures EscapeXml(s + t) == EscapeXml(s) + EscapeXml(t)
  {
    ReplaceAppend(s, t, '&', "&amp;");
    var s1, t1 := Replace(s, '&', "&amp;"), Replace(t, '&', "&amp;");
    ReplaceAppend(s1, t1, '<', "&lt;");
    var s2, t2 := Replace(s1, '<', "&lt;"), Replace(t1, '<', "&lt;");
    ReplaceAppend(s2, t2, '>', "&gt;");
    ReplaceAppend(Replace(s2, '>', "&gt;"), Replace(t2, '>', "&gt;"), '"', "&quot;");
  }

  /** The four chained passes are one pass, character by character. */
  lemma {:induction false} FourPassesAreOne(s: string)
    ensures EscapeXml(s) == EscapeEach(s)
  {
    if s != [] {
      assert s == [s[0]] + s[1..];
      EscapeXmlAppend([s[0]], s[1..]);
      FourPassesOnOne(s[0]);
      FourPassesAreOne(s[1..]);
    }
  }

  lemma {:induction false} EscapedHoldsNoMarkup(s: string)
    ensures '<' !in EscapeEach(s) && '>' !in EscapeEach(s) && '"' !in EscapeEach(s)
  {
    if s != [] {
      EscapedHoldsNoMarkup(s[1..]);
    }
  }

  /** The codes of two characters never begin alike. */
  lemma EscapeCharPrefix(a: char, b: char, x: string, y: string)
    requires EscapeChar(a) + x == EscapeChar(b) + y
    ensures a == b
  {
    var s, t := EscapeChar(a) + x, EscapeChar(b) + y;
    assert s[0] == EscapeChar(a)[0] && t[0] == EscapeChar(b)[0];
    if |EscapeChar(a)| > 1 && |EscapeChar(b)| > 1 {
      assert s[1] == EscapeChar(a)[1] && t[1] == EscapeChar(b)[1];
      assert s[2] == EscapeChar(a)[2] && t[2] == EscapeChar(b)[2];
    }
  }

  /** Escaping loses nothing. */
  lemma {:induction false} EscapeInjective(s: string, t: string)
    requires EscapeEach(s) == EscapeEach(t)
    ensures s == t
  {
    if s != [] && t != [] {
      EscapeCharPrefix(s[0], t[0], EscapeEach(s[1..]), EscapeEach(t[1..]));
      var n := |EscapeChar(s[0])|;
      assert EscapeEach(s)[n..] == EscapeEach(s[1..]);
      assert EscapeEach(t)[n..] == EscapeEach(t[1..]);
      EscapeInjective(s[1..], t[1..]);
    }
  }

  predicate IsPlain(s: string) {
    '&' !in s && '<' !in s && '>' !in s && '"' !in s
  }

  lemma {:induction false} EscapeGrows(s: string)
    ensures |EscapeEach(s)| >= |s|
    ensures !IsPlain(s) ==> |EscapeEach(s)| > |s|
    ensures IsPlain(s) ==> EscapeEach(s) == s
  {
    if s != [] {
      assert s == [s[0]] + s[1..];
      EscapeGrows(s[1..]);
    }
  }

  /** Escaping is the identity exactly on text without the four characters. */
  lemma EscapeIsIdentityIff(s: string)
    ensures EscapeEach(s) == s <==> IsPlain(s)
  {
    EscapeGrows(s);
  }
}
