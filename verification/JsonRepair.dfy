/** Closing an unfinished JSON text: one quote, then the missing braces. */
module JsonRepair {

  // ----- The two passes -----

  /** First pass: parity of the quotes that no backslash precedes, inside or outside strings. */
  datatype Quotes = Quotes(odd: bool, escaped: bool)

  function NextQuotes(q: Quotes, c: char): Quotes {
    if c == '\\' && !q.escaped then q.(escaped := true)
    else if c == '"' && !q.escaped then q.(odd := !q.odd)
    else q.(escaped := false)
  }

  function QuotesOf(s: string): Quotes {
    if s == "" then Quotes(false, false) else NextQuotes(QuotesOf(s[..|s| - 1]), s[|s| - 1])
  }

  /** Second pass: brace depth outside strings; a backslash escapes only inside one. */
  datatype Braces = Braces(depth: int, inString: bool, escape: bool)

  function NextBraces(b: Braces, c: char): Braces {
    if b.escape then b.(escape := false)
    else if c == '\\' && b.inString then b.(escape := true)
    else if c == '"' then b.(inString := !b.inString)
    else if c == '{' && !b.inString then b.(depth := b.depth + 1)
    else if c == '}' && !b.inString then b.(depth := b.depth - 1)
    else b
  }

  function BracesOf(s: string): Braces {
    if s == "" then Braces(0, false, false) else NextBraces(BracesOf(s[..|s| - 1]), s[|s| - 1])
  }

  function Closers(n: int): string {
    if n <= 0 then "" else Closers(n - 1) + "}"
  }

  function ClosedQuote(s: string): string {
    if QuotesOf(s).odd then s + "\"" else s
  }

  /** What the repair returns. */
  function Repaired(s: string): string {
    ClosedQuote(s) + Closers(BracesOf(ClosedQuote(s)).depth)
  }

  method FixMissingBrackets(s: string) returns (result: string)
    ensures result == Repaired(s)
  {
    result := s;
    var count := 0;
    var escaped := false;
    for i := 0 to |s|
      invariant count >= 0 && QuotesOf(s[..i]) == Quotes(count % 2 == 1, escaped)
    {
      assert s[..i + 1][..i] == s[..i];
      if s[i] == '\\' && !escaped {
        escaped := true;
      } else if s[i] == '"' && !escaped {
        count := count + 1;
      } else {
        escaped := false;
      }
    }
    assert s[..|s|] == s;
    if count % 2 == 1 {
      result := result + "\"";
    }
    var depth, inString, esc := 0, false, false;
    var text := result;
    for i := 0 to |text|
      invariant BracesOf(text[..i]) == Braces(depth, inString, esc)
    {
      assert text[..i + 1][..i] == text[..i];
      var c := text[i];
      if esc {
        esc := false;
        continue;
      }
      if c == '\\' && inString {
        esc := true;
      } else if c == '"' {
        inString := !inString;
      } else if c == '{' && !inString {
        depth := depth + 1;
      } else if c == '}' && !inString {
        depth := depth - 1;
      }
    }
    assert text[..|text|] == text;
    var missing := if depth > 0 then depth else 0;
    for n := 0 to missing
      invariant result == text + Closers(n)
    {
      result := result + "}";
    }
  }

  // ----- How the passes behave on what is appended -----

  lemma Appended(s: string, c: char)
    ensures QuotesOf(s + [c]) == NextQuotes(QuotesOf(s), c)
    ensures BracesOf(s + [c]) == NextBraces(BracesOf(s), c)
  {
    assert (s + [c])[..|s|] == s;
  }

  /** An escape is open only inside a string. */
  lemma {:induction false} EscapesAreInStrings(s: string)
    ensures BracesOf(s).escape ==> BracesOf(s).inString
  {
    if s != "" {
      EscapesAreInStrings(s[..|s| - 1]);
    }
  }

  /** Both passes see the same open string, and no escape waits for a character. */
  predicate PassesAgree(s: string) {
    QuotesOf(s).odd == BracesOf(s).inString && !BracesOf(s).escape
  }

  lemma ClosersNext(s: string, n: nat)
    ensures s + Closers(0) == s
    ensures n > 0 ==> s + Closers(n) == s + Closers(n - 1) + ['}']
  {
  }

  lemma {:induction false} ClosersOutside(s: string, n: nat)
    requires !BracesOf(s).inString && !BracesOf(s).escape
    ensures BracesOf(s + Closers(n)) == BracesOf(s).(depth := BracesOf(s).depth - n)
  {
    hide QuotesOf, BracesOf, Closers;
    ClosersNext(s, n);
    if n > 0 {
      ClosersOutside(s, n - 1);
      Appended(s + Closers(n - 1), '}');
    }
  }

  lemma {:induction false} ClosersInside(s: string, n: nat)
    requires BracesOf(s).inString
    ensures BracesOf(s + Closers(n)).inString
    ensures BracesOf(s + Closers(n)).depth == BracesOf(s).depth
  {
    hide QuotesOf, BracesOf, Closers;
    ClosersNext(s, n);
    if n > 0 {
      ClosersInside(s, n - 1);
      Appended(s + Closers(n - 1), '}');
      EscapesAreInStrings(s + Closers(n - 1));
    }
  }

  lemma {:induction false} ClosersKeepParity(s: string, n: nat)
    ensures QuotesOf(s + Closers(n)).odd == QuotesOf(s).odd
  {
    hide QuotesOf, BracesOf, Closers;
    ClosersNext(s, n);
    if n > 0 {
      ClosersKeepParity(s, n - 1);
      Appended(s + Closers(n - 1), '}');
    }
  }

  lemma ClosingQuote(s: string)
    ensures BracesOf(ClosedQuote(s)).depth == BracesOf(s).depth
    ensures !BracesOf(ClosedQuote(s)).inString <==> PassesAgree(s)
    ensures PassesAgree(s) ==> !BracesOf(ClosedQuote(s)).escape
    ensures QuotesOf(ClosedQuote(s)).odd <==> QuotesOf(s).odd && QuotesOf(s).escaped
  {
    EscapesAreInStrings(s);
    Appended(s, '"');
    assert s + ['"'] == s + "\"";
  }

  function Max0(n: int): nat {
    if n > 0 then n else 0
  }

  lemma ClosersOfDepth(n: int)
    ensures Closers(n) == Closers(Max0(n))
  {
  }

  // ----- Main results -----

  /** The repair only appends: at most one quote, then one brace for every level still open. */
  lemma OnlyAppends(s: string)
    ensures s <= Repaired(s)
    ensures Repaired(s) == s + (if QuotesOf(s).odd then "\"" else "") + Closers(Max0(BracesOf(s).depth))
  {
    ClosingQuote(s);
    ClosersOfDepth(BracesOf(s).depth);
    assert s + "" == s;
  }

  /** It ends outside any string exactly when the two passes agree on the input. */
  lemma EndsOutsideIff(s: string)
    ensures !BracesOf(Repaired(s)).inString <==> PassesAgree(s)
  {
    var t, n := ClosedQuote(s), Max0(BracesOf(s).depth);
    ClosingQuote(s);
    ClosersOfDepth(BracesOf(s).depth);
    if PassesAgree(s) {
      ClosersOutside(t, n);
    } else {
      ClosersInside(t, n);
    }
  }

  /** On an escaped quote outside of any string they do not: one pass skips it, the other opens a
      string that stays open. */
  lemma EscapedQuoteStaysOpen()
    ensures BracesOf(Repaired("\\\"")).inString
  {
    var s := "\\\"";
    Appended("", '\\');
    Appended("" + ['\\'], '"');
    assert s == "" + ['\\'] + ['"'];
    assert !QuotesOf(s).odd && BracesOf(s).inString;
    EndsOutsideIff(s);
  }

  /** And then every brace is closed exactly when the input closed none too many. */
  lemma ClosesBracesIff(s: string)
    requires PassesAgree(s)
    ensures BracesOf(Repaired(s)).depth == 0 <==> BracesOf(s).depth >= 0
    ensures BracesOf(Repaired(s)).depth <= 0 && !BracesOf(Repaired(s)).escape
  {
    ClosingQuote(s);
    ClosersOfDepth(BracesOf(s).depth);
    ClosersOutside(ClosedQuote(s), Max0(BracesOf(s).depth));
  }

  /** Repairing twice is repairing once exactly when the closing quote, if one was added, was not
      itself escaped, and no braces were added inside an open string. */
  lemma RepairIsIdempotentIff(s: string)
    ensures Repaired(Repaired(s)) == Repaired(s) <==>
            !(QuotesOf(s).odd && QuotesOf(s).escaped) && (BracesOf(s).depth <= 0 || PassesAgree(s))
  {
    var t, n, r := ClosedQuote(s), Max0(BracesOf(s).depth), Repaired(s);
    ClosingQuote(s);
    ClosersOfDepth(BracesOf(s).depth);
    ClosersKeepParity(t, n);
    if PassesAgree(s) {
      ClosersOutside(t, n);
    } else {
      ClosersInside(t, n);
    }
    OnlyAppends(r);
    ClosersLength(Max0(BracesOf(r).depth));
  }

  lemma {:induction false} ClosersLength(n: nat)
    ensures |Closers(n)| == n
  {
    if n > 0 {
      ClosersLength(n - 1);
    }
  }

  // ----- Ordinary text -----

  /** Every backslash stands in a string. */
  predicate NoStrayBackslash(s: string) {
    forall i | 0 <= i < |s| && s[i] == '\\' :: BracesOf(s[..i]).inString
  }

  /** On text without stray backslashes the two passes see the same quotes and escapes. */
  lemma {:induction false} PassesInStep(s: string)
    requires NoStrayBackslash(s)
    ensures QuotesOf(s) == Quotes(BracesOf(s).inString, BracesOf(s).escape)
  {
    if s != "" {
      var t := s[..|s| - 1];
      forall i | 0 <= i < |t| && t[i] == '\\' ensures BracesOf(t[..i]).inString {
        assert t[..i] == s[..i] && s[i] == '\\';
      }
      PassesInStep(t);
      EscapesAreInStrings(t);
      assert s[|s| - 1] == '\\' ==> BracesOf(s[..|s| - 1]).inString;
    }
  }

  /** So ordinary text, with no escape left dangling and no brace closed too many, comes back
      closed: outside any string, at depth zero, and needing no second repair. */
  lemma OrdinaryTextIsClosed(s: string)
    requires NoStrayBackslash(s) && !BracesOf(s).escape
    ensures PassesAgree(s)
    ensures !BracesOf(Repaired(s)).inString
    ensures BracesOf(s).depth >= 0 ==> BracesOf(Repaired(s)) == Braces(0, false, false)
    ensures Repaired(Repaired(s)) == Repaired(s)
  {
    PassesInStep(s);
    EndsOutsideIff(s);
    ClosesBracesIff(s);
    RepairIsIdempotentIff(s);
  }
}
