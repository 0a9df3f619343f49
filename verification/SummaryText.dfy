/** The text of a summary spelled out, and which elements its reader looks for. */
module SummaryText {
  import opened Wrappers
  import opened Text
  import opened Markup
  import opened XmlEscape
  import opened SummaryXml
  import opened SummaryRoundTrip
  import opened SummaryProgram

  /** A line that opens an element, one that closes it, and one that holds all of it. */
  function Head(indent: string, name: string): string {
    indent + ("<" + name + ">" + "\n")
  }

  function Foot(indent: string, name: string): string {
    indent + ("</" + name + ">" + "\n")
  }

  function Whole(indent: string, name: string, text: string): string {
    indent + "<" + name + ">" + text + ("</" + name + ">" + "\n")
  }

  /** One line for each value, escaped character by character. */
  function Wholes(indent: string, name: string, vs: seq<string>): string {
    if vs == [] then ""
    else Wholes(indent, name, vs[..|vs| - 1]) + Whole(indent, name, EscapeEach(vs[|vs| - 1]))
  }

  /** Of a finding, whether there is a resolution is told, and not which. */
  function FindingLines(ds: seq<Discovery>): string {
    if ds == [] then ""
    else
      var d := ds[|ds| - 1];
      FindingLines(ds[..|ds| - 1])
      + ("    " + "<"
         + (if d.resolution.Some? then "finding resolution=\"resolved\"" else "finding resolution=\"unresolved\"")
         + ">" + EscapeEach(d.finding) + ("</" + "finding" + ">" + "\n"))
  }

  /** The text, piece by piece. */
  function PieceText(s: CompactionSummary, i: nat): string
    requires i < 17
  {
    match i
    case 0 => Head("", "summary") + Head("  ", "task-overview")
    case 1 => Whole("    ", "core-request", EscapeEach(s.coreRequest))
    case 2 => Whole("    ", "success-criteria", EscapeEach(s.successCriteria))
    case 3 => if s.constraints == [] then "" else Head("    ", "constraints")
    case 4 => Wholes("      ", "constraint", s.constraints)
    case 5 => if s.constraints == [] then "" else Foot("    ", "constraints")
    case 6 => Foot("  ", "task-overview") + Head("  ", "current-state")
    case 7 => Wholes("    ", "completed", s.completed)
    case 8 => Wholes("    ", "file-modified", s.filesModified)
    case 9 => Wholes("    ", "file-created", s.filesCreated)
    case 10 => Foot("  ", "current-state") + Head("  ", "discoveries")
    case 11 => FindingLines(s.discoveries)
    case 12 => Foot("  ", "discoveries") + Head("  ", "next-steps")
    case 13 => Wholes("    ", "step", s.nextSteps)
    case 14 => Foot("  ", "next-steps") + Head("  ", "context-to-preserve")
    case 15 => Wholes("    ", "context", s.context)
    case 16 => Foot("  ", "context-to-preserve") + "</summary>"
  }

  function TextUpTo(s: CompactionSummary, n: nat): string
    requires n <= 17
  {
    if n == 0 then "" else TextUpTo(s, n - 1) + PieceText(s, n - 1)
  }

  // ----- Part by part -----

  lemma RenderedThree(a: Piece, b: Piece, c: Piece)
    ensures Render([a, b, c]) == RenderPiece(a) + RenderPiece(b) + RenderPiece(c)
  {
    assert [a, b, c][1..] == [b, c] && [b, c][1..] == [c] && [c][1..] == [];
    assert Render([c]) == RenderPiece(c) + "" == RenderPiece(c);
    assert Render([b, c]) == RenderPiece(b) + RenderPiece(c);
    var x, y, z := RenderPiece(a), RenderPiece(b), RenderPiece(c);
    assert x + (y + z) == x + y + z;
  }

  lemma OpeningText(indent: string, k: TagName)
    ensures Render(AsPieces(Opening(indent, k))) == Head(indent, Name(k))
  {
    hide Name;
    assert AsPieces(Opening(indent, k)) == [Raw(indent), Tag(Name(k)), Raw("\n")];
    RenderedThree(Raw(indent), Tag(Name(k)), Raw("\n"));
  }

  lemma ClosingText(indent: string, k: TagName)
    ensures Render(AsPieces(Closing(indent, k))) == Foot(indent, Name(k))
  {
    hide Name;
    assert AsPieces(Closing(indent, k)) == [Raw(indent), Tag("/" + Name(k)), Raw("\n")];
    RenderedThree(Raw(indent), Tag("/" + Name(k)), Raw("\n"));
    CloseTag(Name(k));
  }

  lemma TwoTexts(a: seq<Token>, b: seq<Token>)
    ensures Render(AsPieces(a + b)) == Render(AsPieces(a)) + Render(AsPieces(b))
  {
    AsPiecesAppend(a, b);
    RenderAppend(AsPieces(a), AsPieces(b));
  }

  lemma {:induction false} ItemsText(indent: string, k: TagName, vs: seq<string>)
    ensures Render(AsPieces(Items(indent, k, EscapeAll(vs)))) ==
            Wholes(indent, Name(k), vs)
  {
    hide Render, Name;
    if vs == [] {
      assert AsPieces(Items(indent, k, [])) == [];
      assert Render([]) == "" by { NothingText(); }
      assert EscapeAll(vs) == [];
    } else {
      var front, last := vs[..|vs| - 1], vs[|vs| - 1];
      ItemsText(indent, k, front);
      assert EscapeAll(vs) == EscapeAll(front) + [EscapeXml(last)];
      FourPassesAreOne(last);
      RenderedItems(indent, k, EscapeAll(front), EscapeXml(last));
      ItemRegrouped(indent, Name(k), EscapeXml(last));
    }
  }

  lemma NothingText()
    ensures Render([]) == ""
  {
  }

  lemma ItemRegrouped(indent: string, n: string, v: string)
    ensures indent + "<" + n + ">" + v + "</" + n + ">" + "\n" == (indent + "<" + n + ">") + v + ("</" + n + ">" + "\n")
  {
  }

  lemma {:induction false} FindingsText(ds: seq<Discovery>)
    ensures Render(AsPieces(DiscoveryTokens(ds))) == FindingLines(ds)
  {
    hide Render;
    if ds == [] {
      assert AsPieces([]) == [];
      NothingText();
    } else {
      var front, d := ds[..|ds| - 1], ds[|ds| - 1];
      FindingsText(front);
      assert ds == front + [d];
      DiscoveriesNext(front, d);
      TwoTexts(DiscoveryTokens(front), FindingTokens(d));
      FindingText(d);
    }
  }

  lemma FindingText(d: Discovery)
    ensures Render(AsPieces(FindingTokens(d))) ==
            "    " + "<"
            + (if d.resolution.Some? then "finding resolution=\"resolved\"" else "finding resolution=\"unresolved\"")
            + ">" + EscapeEach(d.finding) + ("</" + "finding" + ">" + "\n")
  {
    FourPassesAreOne(d.finding);
    FindingPieces(if d.resolution.Some? then FindingResolved else FindingUnresolved, EscapeXml(d.finding));
  }

  lemma FindingPieces(k: TagName, v: string)
    ensures Render(AsPieces([Chars("    "), Open(k), Chars(v), Close(Finding), Chars("\n")])) ==
            "    " + "<" + Name(k) + ">" + v + ("</" + "finding" + ">" + "\n")
  {
    hide Render;
    var ps := [Raw("    "), Tag(Name(k)), Raw(v), Tag("/" + Name(Finding)), Raw("\n")];
    assert AsPieces([Chars("    "), Open(k), Chars(v), Close(Finding), Chars("\n")]) == ps by { hide Name; }
    hide Name;
    RenderedFive(Raw("    "), Tag(Name(k)), Raw(v), Tag("/" + Name(Finding)), Raw("\n"));
    CloseTag(Name(Finding));
    FindingName();
    FindingRegrouped("    ", Name(k), v, Name(Finding), "\n");
  }

  lemma FindingName()
    ensures Name(Finding) == "finding"
  {
  }

  lemma FindingRegrouped(indent: string, n: string, v: string, m: string, end: string)
    ensures indent + (("<" + n + ">") + (v + (("</" + m + ">") + end))) ==
            indent + "<" + n + ">" + v + ("</" + m + ">" + end)
  {
  }

  lemma OneLine(indent: string, k: TagName, v: string)
    ensures Render(AsPieces(Items(indent, k, [EscapeXml(v)]))) ==
            Whole(indent, Name(k), EscapeEach(v))
  {
    hide Render, Name, EscapeXml, EscapeEach;
    assert EscapeAll([v]) == [EscapeXml(v)];
    ItemsText(indent, k, [v]);
    assert [v][..0] == [];
  }

  lemma ClosingOpening(i1: string, k1: TagName, i2: string, k2: TagName)
    ensures Render(AsPieces(Closing(i1, k1) + Opening(i2, k2))) ==
            Foot(i1, Name(k1)) + Head(i2, Name(k2))
  {
    hide Render, Name, Foot, Head;
    TwoTexts(Closing(i1, k1), Opening(i2, k2));
    ClosingText(i1, k1);
    OpeningText(i2, k2);
  }

  lemma LastTag()
    ensures Render(AsPieces([Close(Summary)])) == "</summary>"
  {
    assert AsPieces([Close(Summary)]) == [Tag("/" + Name(Summary))];
    assert [Tag("/" + Name(Summary))][1..] == [];
    CloseTag(Name(Summary));
  }

  lemma NoTokens()
    ensures Render(AsPieces([])) == ""
  {
    assert AsPieces([]) == [];
  }

  lemma FramePiece(s: CompactionSummary, i: nat)
    requires i == 0 || i == 3 || i == 5 || i == 6 || i == 10 || i == 12 || i == 14 || i == 16
    ensures Render(AsPieces(PartTokens(PartAt(s, i)))) == PieceText(s, i)
  {
    hide Render, AsPieces, Wholes, Head, Foot, Whole, FindingLines, Opening, Closing;
    match i
    case 0 =>
      TwoTexts(Opening("", Summary), Opening("  ", TaskOverview));
      OpeningText("", Summary);
      OpeningText("  ", TaskOverview);
    case 3 => if s.constraints == [] { NoTokens(); } else { OpeningText("    ", Constraints); }
    case 5 => if s.constraints == [] { NoTokens(); } else { ClosingText("    ", Constraints); }
    case 6 => ClosingOpening("  ", TaskOverview, "  ", CurrentState);
    case 10 => ClosingOpening("  ", CurrentState, "  ", Discoveries);
    case 12 => ClosingOpening("  ", Discoveries, "  ", NextSteps);
    case 14 => ClosingOpening("  ", NextSteps, "  ", ContextToPreserve);
    case 16 =>
      TwoTexts(Closing("  ", ContextToPreserve), [Close(Summary)]);
      ClosingText("  ", ContextToPreserve);
      LastTag();
  }

  lemma ListPiece(s: CompactionSummary, i: nat)
    requires i == 1 || i == 2 || i == 4 || i == 7 || i == 8 || i == 9 || i == 11 || i == 13 || i == 15
    ensures Render(AsPieces(PartTokens(PartAt(s, i)))) == PieceText(s, i)
  {
    hide Render, AsPieces, Wholes, Whole, FindingLines, Items, EscapeXml, EscapeEach;
    match i
    case 1 => OneLine("    ", CoreRequest, s.coreRequest);
    case 2 => OneLine("    ", SuccessCriteria, s.successCriteria);
    case 4 => ItemsText("      ", Constraint, s.constraints);
    case 7 => ItemsText("    ", Completed, s.completed);
    case 8 => ItemsText("    ", FileModified, s.filesModified);
    case 9 => ItemsText("    ", FileCreated, s.filesCreated);
    case 11 => FindingsText(s.discoveries);
    case 13 => ItemsText("    ", NextStep, s.nextSteps);
    case 15 => ItemsText("    ", Context, s.context);
  }

  lemma {:induction false} PrintedIsText(s: CompactionSummary, n: nat)
    requires n <= 17
    ensures PrintedUpTo(s, n) == TextUpTo(s, n)
  {
    hide Render, PieceText, PartAt;
    if n == 0 {
      assert Parts(s)[..0] == [];
      NoTokens();
    } else {
      PrintedIsText(s, n - 1);
      PrintedNext(s, n - 1);
      var i := n - 1;
      if i == 0 || i == 3 || i == 5 || i == 6 || i == 10 || i == 12 || i == 14 || i == 16 {
        FramePiece(s, i);
      } else {
        ListPiece(s, i);
      }
    }
  }

  /** The text of a summary, piece by piece. */
  lemma DocumentText(s: CompactionSummary)
    ensures ToXml(s) == TextUpTo(s, 17)
  {
    PrintedIsText(s, 17);
    assert Parts(s)[..17] == Parts(s);
  }
}
