/** The loops that print a summary and that extract its lists. */
module SummaryProgram {
  import opened Wrappers
  import opened Text
  import opened Markup
  import opened XmlEscape
  import opened SummaryXml
  import opened SummaryRoundTrip

  /** All texts between an opening tag and the next closing tag, searched from left to right. */
  method ExtractTagMulti(content: string, tag: string) returns (results: seq<string>)
    ensures results == ExtractAll(content, tag)
  {
    results := SearchAll(content, "<" + tag + ">", "</" + tag + ">");
  }

  lemma BetweenStep(s: string, first: string, i: nat, last: string, j: nat)
    requires first != "" && FindSub(s, first) == Some(i)
    requires FindSub(s[i + |first|..], last) == Some(j)
    ensures var rest := s[i + |first|..];
            ExtractBetween(s, first, last) == [rest[..j]] + ExtractBetween(rest[j + |last|..], first, last)
  {
    hide FindSub, Contains;
    var rest := s[i + |first|..];
    assert CutText(s, first) == Some((s[..i], rest));
    assert CutText(rest, last) == Some((rest[..j], rest[j + |last|..]));
    hide CutText;
  }

  lemma BetweenNone(s: string, first: string, last: string)
    requires first != ""
    requires match FindSub(s, first) case None => true case Some(i) => FindSub(s[i + |first|..], last) == None
    ensures ExtractBetween(s, first, last) == []
  {
    hide FindSub;
  }

  /** The first text between the two marks, and how far the search has come behind it. */
  method SearchOne(s: string, first: string, last: string) returns (found: Option<(string, nat)>)
    requires first != ""
    ensures match found
            case None => ExtractBetween(s, first, last) == []
            case Some(f) =>
              0 < f.1 <= |s| && ExtractBetween(s, first, last) == [f.0] + ExtractBetween(s[f.1..], first, last)
  {
    hide *;
    var start := FindSub(s, first);
    if start.None? {
      BetweenNone(s, first, last);
      return None;
    }
    var absStart := start.value + |first|;
    var end := FindSub(s[absStart..], last);
    if end.None? {
      BetweenNone(s, first, last);
      return None;
    }
    BetweenStep(s, first, start.value, last, end.value);
    var next := absStart + end.value + |last|;
    assert s[absStart..][end.value + |last|..] == s[next..];
    return Some((s[absStart..][..end.value], next));
  }

  method SearchAll(content: string, first: string, last: string) returns (results: seq<string>)
    requires first != ""
    ensures results == ExtractBetween(content, first, last)
  {
    hide *;
    results := [];
    var searchStart := 0;
    assert content[0..] == content;
    while true
      invariant searchStart <= |content|
      invariant results + ExtractBetween(content[searchStart..], first, last) == ExtractBetween(content, first, last)
      decreases |content| - searchStart
    {
      var found := SearchOne(content[searchStart..], first, last);
      if found.None? {
        return;
      }
      assert content[searchStart..][found.value.1..] == content[searchStart + found.value.1..];
      results := results + [found.value.0];
      searchStart := searchStart + found.value.1;
    }
  }

  // ----- Printing part by part -----

  function PrintedUpTo(s: CompactionSummary, i: nat): string
    requires i <= PART_COUNT
  {
    Render(AsPieces(Flatten(Parts(s)[..i])))
  }

  lemma {:induction false} FlattenNext(parts: seq<Part>, p: Part)
    ensures Flatten(parts + [p]) == Flatten(parts) + PartTokens(p)
  {
    hide PartTokens;
    if parts == [] {
      assert [p][1..] == [] && PartTokens(p) + [] == PartTokens(p) && [] + [p] == [p];
    } else {
      FlattenNext(parts[1..], p);
      assert (parts + [p])[1..] == parts[1..] + [p];
    }
  }

  lemma PrintedNext(s: CompactionSummary, i: nat)
    requires i < PART_COUNT
    ensures PrintedUpTo(s, i + 1) == PrintedUpTo(s, i) + Render(AsPieces(PartTokens(PartAt(s, i))))
  {
    var parts := Parts(s);
    assert parts[..i + 1] == parts[..i] + [PartAt(s, i)];
    FlattenNext(parts[..i], PartAt(s, i));
    AsPiecesAppend(Flatten(parts[..i]), PartTokens(PartAt(s, i)));
    RenderAppend(AsPieces(Flatten(parts[..i])), AsPieces(PartTokens(PartAt(s, i))));
  }

  method RenderTokens(tokens: seq<Token>) returns (text: string)
    ensures text == Render(AsPieces(tokens))
  {
    text := "";
    for n := 0 to |tokens|
      invariant text == Render(AsPieces(tokens[..n]))
    {
      assert tokens[..n + 1] == tokens[..n] + [tokens[n]];
      RenderedNext(tokens[..n], tokens[n]);
      text := text + RenderPiece(AsPiece(tokens[n]));
    }
    assert tokens[..|tokens|] == tokens;
  }

  method PushTokens(xml: string, ghost s: CompactionSummary, ghost i: nat, tokens: seq<Token>) returns (xml': string)
    requires i < PART_COUNT && PartAt(s, i) == Fixed(tokens) && xml == PrintedUpTo(s, i)
    ensures xml' == PrintedUpTo(s, i + 1)
  {
    var text := RenderTokens(tokens);
    PrintedNext(s, i);
    xml' := xml + text;
  }

  lemma RenderedNext(ts: seq<Token>, t: Token)
    ensures Render(AsPieces(ts + [t])) == Render(AsPieces(ts)) + RenderPiece(AsPiece(t))
  {
    AsPiecesAppend(ts, [t]);
    RenderAppend(AsPieces(ts), AsPieces([t]));
    assert AsPieces([t]) == [AsPiece(t)];
    assert [AsPiece(t)][1..] == [] && RenderPiece(AsPiece(t)) + "" == RenderPiece(AsPiece(t));
  }

  lemma {:induction false} ItemsNext(indent: string, k: TagName, vs: seq<string>, v: string)
    ensures Items(indent, k, vs + [v]) == Items(indent, k, vs) + Item(indent, k, v)
  {
    hide Item;
    if vs == [] {
      assert [v][1..] == [] && [] + [v] == [v] && Item(indent, k, v) + [] == Item(indent, k, v);
    } else {
      ItemsNext(indent, k, vs[1..], v);
      assert (vs + [v])[1..] == vs[1..] + [v];
    }
  }

  lemma RenderedItem(indent: string, k: TagName, v: string)
    ensures Render(AsPieces(Item(indent, k, v))) == indent + "<" + Name(k) + ">" + v + "</" + Name(k) + ">" + "\n"
  {
    ItemPieces(indent, k, v);
    RenderedFive(Raw(indent), Tag(Name(k)), Raw(v), Tag("/" + Name(k)), Raw("\n"));
    CloseTag(Name(k));
    Regroup(indent, Name(k), v);
  }

  lemma RenderedFive(a: Piece, b: Piece, c: Piece, d: Piece, e: Piece)
    ensures Render([a, b, c, d, e]) ==
            RenderPiece(a) + (RenderPiece(b) + (RenderPiece(c) + (RenderPiece(d) + RenderPiece(e))))
  {
    assert [a, b, c, d, e][1..] == [b, c, d, e] && [b, c, d, e][1..] == [c, d, e] && [c, d, e][1..] == [d, e];
    assert [d, e][1..] == [e] && [e][1..] == [];
    assert Render([e]) == RenderPiece(e);
    assert Render([d, e]) == RenderPiece(d) + RenderPiece(e);
    assert Render([c, d, e]) == RenderPiece(c) + Render([d, e]);
    assert Render([b, c, d, e]) == RenderPiece(b) + Render([c, d, e]);
  }

  lemma Regroup(indent: string, n: string, v: string)
    ensures indent + (("<" + n + ">") + (v + (("</" + n + ">") + "\n"))) ==
            indent + "<" + n + ">" + v + "</" + n + ">" + "\n"
  {
  }

  lemma RenderedItems(indent: string, k: TagName, vs: seq<string>, v: string)
    ensures Render(AsPieces(Items(indent, k, vs + [v]))) ==
            Render(AsPieces(Items(indent, k, vs))) + (indent + "<" + Name(k) + ">" + v + "</" + Name(k) + ">" + "\n")
  {
    var before, item := Items(indent, k, vs), Item(indent, k, v);
    ItemsNext(indent, k, vs, v);
    AsPiecesAppend(before, item);
    RenderAppend(AsPieces(before), AsPieces(item));
    RenderedItem(indent, k, v);
  }

  method RenderItems(indent: string, k: TagName, items: seq<string>) returns (text: string)
    ensures text == Render(AsPieces(Items(indent, k, EscapeAll(items))))
  {
    text := "";
    var name := Name(k);
    ghost var vs := EscapeAll(items);
    for n := 0 to |items|
      invariant text == Render(AsPieces(Items(indent, k, vs[..n])))
    {
      assert vs[..n + 1] == vs[..n] + [EscapeXml(items[n])];
      RenderedItems(indent, k, vs[..n], EscapeXml(items[n]));
      text := text + (indent + "<" + name + ">" + EscapeXml(items[n]) + "</" + name + ">" + "\n");
    }
    assert vs[..|vs|] == vs;
  }

  method PushList(xml: string, ghost s: CompactionSummary, ghost i: nat, indent: string, k: TagName, items: seq<string>)
    returns (xml': string)
    requires i < PART_COUNT && PartAt(s, i) == Listed(indent, k, EscapeAll(items)) && xml == PrintedUpTo(s, i)
    ensures xml' == PrintedUpTo(s, i + 1)
  {
    var text := RenderItems(indent, k, items);
    PrintedNext(s, i);
    xml' := xml + text;
  }

  method PushDiscoveries(xml: string, s: CompactionSummary) returns (xml': string)
    requires xml == PrintedUpTo(s, 11)
    ensures xml' == PrintedUpTo(s, 12)
  {
    var tokens := [];
    for n := 0 to |s.discoveries|
      invariant tokens == DiscoveryTokens(s.discoveries[..n])
    {
      assert s.discoveries[..n + 1] == s.discoveries[..n] + [s.discoveries[n]];
      DiscoveriesNext(s.discoveries[..n], s.discoveries[n]);
      tokens := tokens + FindingTokens(s.discoveries[n]);
    }
    assert s.discoveries[..|s.discoveries|] == s.discoveries;
    xml' := PushTokens(xml, s, 11, tokens);
  }

  lemma {:induction false} DiscoveriesNext(ds: seq<Discovery>, d: Discovery)
    ensures DiscoveryTokens(ds + [d]) == DiscoveryTokens(ds) + FindingTokens(d)
  {
    hide FindingTokens;
    if ds == [] {
      assert [d][1..] == [] && [] + [d] == [d] && FindingTokens(d) + [] == FindingTokens(d);
    } else {
      DiscoveriesNext(ds[1..], d);
      assert (ds + [d])[1..] == ds[1..] + [d];
    }
  }

  method PushOverview(s: CompactionSummary) returns (xml: string)
    ensures xml == PrintedUpTo(s, 6)
  {
    xml := PushTokens("", s, 0, Opening("", Summary) + Opening("  ", TaskOverview));
    assert EscapeAll([s.coreRequest]) == [EscapeXml(s.coreRequest)];
    xml := PushList(xml, s, 1, "    ", CoreRequest, [s.coreRequest]);
    assert EscapeAll([s.successCriteria]) == [EscapeXml(s.successCriteria)];
    xml := PushList(xml, s, 2, "    ", SuccessCriteria, [s.successCriteria]);
    xml := PushTokens(xml, s, 3, if s.constraints != [] then Opening("    ", Constraints) else []);
    xml := PushList(xml, s, 4, "      ", Constraint, s.constraints);
    xml := PushTokens(xml, s, 5, if s.constraints != [] then Closing("    ", Constraints) else []);
  }

  method PushState(xml0: string, s: CompactionSummary) returns (xml: string)
    requires xml0 == PrintedUpTo(s, 6)
    ensures xml == PrintedUpTo(s, 12)
  {
    xml := PushTokens(xml0, s, 6, Closing("  ", TaskOverview) + Opening("  ", CurrentState));
    xml := PushList(xml, s, 7, "    ", Completed, s.completed);
    xml := PushList(xml, s, 8, "    ", FileModified, s.filesModified);
    xml := PushList(xml, s, 9, "    ", FileCreated, s.filesCreated);
    xml := PushTokens(xml, s, 10, Closing("  ", CurrentState) + Opening("  ", Discoveries));
    xml := PushDiscoveries(xml, s);
  }

  method PrintXml(s: CompactionSummary) returns (xml: string)
    ensures xml == ToXml(s)
  {
    xml := PushOverview(s);
    xml := PushState(xml, s);
    xml := PushTokens(xml, s, 12, Closing("  ", Discoveries) + Opening("  ", NextSteps));
    xml := PushList(xml, s, 13, "    ", NextStep, s.nextSteps);
    xml := PushTokens(xml, s, 14, Closing("  ", NextSteps) + Opening("  ", ContextToPreserve));
    xml := PushList(xml, s, 15, "    ", Context, s.context);
    xml := PushTokens(xml, s, 16, Closing("  ", ContextToPreserve) + [Close(Summary)]);
    assert Parts(s)[..PART_COUNT] == Parts(s);
  }
}
