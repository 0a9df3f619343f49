/** Markup as a list of tags and tag-free text, and the searches the summary parser runs on what
    such a list renders to. */
module Markup {
  import opened Wrappers
  import opened Text

  /** A tag with the text between its angles, or text that holds no opening angle. */
  datatype Piece = Tag(body: string) | Raw(text: string)

  predicate NoAngles(s: string) {
    '<' !in s && '>' !in s
  }

  predicate WellFormed(p: Piece) {
    match p
    case Tag(body) => NoAngles(body)
    case Raw(text) => '<' !in text
  }

  predicate AllWellFormed(ps: seq<Piece>) {
    forall p | p in ps :: WellFormed(p)
  }

  function RenderPiece(p: Piece): string {
    match p
    case Tag(body) => "<" + body + ">"
    case Raw(text) => text
  }

  function Render(ps: seq<Piece>): string {
    if ps == [] then "" else RenderPiece(ps[0]) + Render(ps[1..])
  }

  lemma {:induction false} RenderAppend(ps: seq<Piece>, qs: seq<Piece>)
    ensures Render(ps + qs) == Render(ps) + Render(qs)
  {
    hide RenderPiece;
    if ps == [] {
      assert ps + qs == qs;
    } else {
      RenderAppend(ps[1..], qs);
      assert (ps + qs)[1..] == ps[1..] + qs && (ps + qs)[0] == ps[0];
      Associate(RenderPiece(ps[0]), Render(ps[1..]), Render(qs));
    }
  }

  // ----- Searching -----

  /** One tag stands at the start of another only if they are the same. */
  lemma TagPrefix(b: string, c: string, rest: string)
    requires NoAngles(b) && NoAngles(c)
    requires "<" + b + ">" <= "<" + c + ">" + rest
    ensures b == c
  {
    var p, s := "<" + b + ">", "<" + c + ">" + rest;
    assert forall i | 0 <= i < |b| :: p[i + 1] == b[i] && b[i] in b;
    assert forall i | 0 <= i < |c| :: s[i + 1] == c[i] && c[i] in c;
    assert p[|b| + 1] == '>' && s[|c| + 1] == '>';
    assert forall i | 0 <= i < |p| :: p[i] == s[i];
    assert |b| == |c|;
    assert forall i | 0 <= i < |b| :: b[i] == c[i];
  }

  lemma SkipsOtherTag(c: string, rest: string, b: string)
    requires NoAngles(b) && NoAngles(c) && b != c
    ensures var s, p := "<" + c + ">", "<" + b + ">";
            FindSub(s + rest, p) == Shift(FindSub(rest, p), |s|)
  {
    var s, p := "<" + c + ">" + rest, "<" + b + ">";
    if p <= s {
      TagPrefix(b, c, rest);
    }
    var tail := c + ">";
    assert s[1..] == tail + rest;
    SkipsPlain(tail, rest, p);
  }

  function FirstIndex(ps: seq<Piece>, q: Piece): (r: Option<nat>)
    ensures r.Some? ==> r.value < |ps| && ps[r.value] == q && q !in ps[..r.value]
    ensures r.None? ==> q !in ps
  {
    if ps == [] then None
    else if ps[0] == q then Some(0)
    else Shift(FirstIndex(ps[1..], q), 1)
  }

  lemma SkipsPiece(q: Piece, rest: string, b: string)
    requires WellFormed(q) && NoAngles(b) && q != Tag(b)
    ensures FindSub(RenderPiece(q) + rest, RenderPiece(Tag(b))) ==
            Shift(FindSub(rest, RenderPiece(Tag(b))), |RenderPiece(q)|)
  {
    match q {
      case Raw(text) => SkipsPlain(text, rest, RenderPiece(Tag(b)));
      case Tag(c) => SkipsOtherTag(c, rest, b);
    }
  }

  lemma FindsNothing(b: string)
    ensures FindSub("", RenderPiece(Tag(b))) == None
  {
  }

  lemma FindsHere(p: string, rest: string)
    ensures FindSub(p + rest, p) == Some(0)
  {
  }

  /** Where a tag is found in the text is where it stands in the list. */
  lemma {:induction false} FindInRender(ps: seq<Piece>, b: string)
    requires AllWellFormed(ps) && NoAngles(b)
    ensures FindSub(Render(ps), RenderPiece(Tag(b))) ==
            match FirstIndex(ps, Tag(b)) case None => None case Some(i) => Some(|Render(ps[..i])|)
  {
    hide FindSub, RenderPiece, NoAngles;
    var p := RenderPiece(Tag(b));
    if ps == [] {
      FindsNothing(b);
    } else {
      var first, rest := ps[0], Render(ps[1..]);
      assert Render(ps) == RenderPiece(first) + rest;
      if first == Tag(b) {
        FindsHere(p, rest);
      } else {
        assert WellFormed(first);
        SkipsPiece(first, rest, b);
        FindInRender(ps[1..], b);
        var i := FirstIndex(ps[1..], Tag(b));
        if i.Some? {
          assert ps[..i.value + 1][1..] == ps[1..][..i.value];
        }
      }
    }
  }

  // ----- Cutting at a tag -----

  function CutList(ps: seq<Piece>, q: Piece): (r: Option<(seq<Piece>, seq<Piece>)>)
    ensures r.Some? ==> |r.value.1| < |ps|
  {
    match FirstIndex(ps, q)
    case None => None
    case Some(i) => Some((ps[..i], ps[i + 1..]))
  }

  lemma RenderCons(q: Piece, y: seq<Piece>)
    ensures Render([q] + y) == RenderPiece(q) + Render(y)
  {
    hide RenderPiece;
    assert ([q] + y)[1..] == y;
  }

  lemma RenderSplit(ps: seq<Piece>, x: seq<Piece>, q: Piece, y: seq<Piece>)
    requires ps == x + [q] + y
    ensures Render(ps) == Render(x) + RenderPiece(q) + Render(y)
  {
    hide Render, RenderPiece;
    var tail := [q] + y;
    RenderCons(q, y);
    RenderAppend(x, tail);
    assert ps == x + tail;
    Associate(Render(x), RenderPiece(q), Render(y));
  }

  lemma Associate(a: string, b: string, c: string)
    ensures a + b + c == a + (b + c)
  {
  }

  lemma CutInRender(ps: seq<Piece>, b: string)
    requires AllWellFormed(ps) && NoAngles(b)
    ensures match CutList(ps, Tag(b))
            case None => CutText(Render(ps), RenderPiece(Tag(b))) == None
            case Some(c) => CutText(Render(ps), RenderPiece(Tag(b))) == Some((Render(c.0), Render(c.1)))
                            && AllWellFormed(c.0) && AllWellFormed(c.1)
  {
    hide FindSub, Render, FirstIndex, RenderPiece;
    var p := RenderPiece(Tag(b));
    FindInRender(ps, b);
    match CutList(ps, Tag(b)) {
      case None =>
      case Some(c) =>
        assert Render(ps) == Render(c.0) + p + Render(c.1) by {
          RenderSplit(ps, c.0, Tag(b), c.1);
        }
        CutAround(Render(c.0), p, Render(c.1));
    }
  }

  // ----- Extraction, on text as the program does it -----

  function ExtractTag(content: string, tag: string): Option<string> {
    match CutText(content, "<" + tag + ">")
    case None => None
    case Some(entered) =>
      match CutText(entered.1, "</" + tag + ">")
      case None => None
      case Some(closed) => Some(closed.0)
  }

  /** All texts between `first` and the next `last`, searched from left to right. */
  function ExtractBetween(content: string, first: string, last: string): seq<string>
    requires first != ""
    decreases |content|
  {
    match CutText(content, first)
    case None => []
    case Some(entered) =>
      match CutText(entered.1, last)
      case None => []
      case Some(closed) => [closed.0] + ExtractBetween(closed.1, first, last)
  }

  function ExtractAll(content: string, tag: string): seq<string> {
    ExtractBetween(content, "<" + tag + ">", "</" + tag + ">")
  }

  // ----- Extraction, on the list -----

  /** The content of the first element `tag`, and what follows its closing tag. */
  function FirstElement(ps: seq<Piece>, tag: string): (r: Option<(seq<Piece>, seq<Piece>)>)
    ensures r.Some? ==> |r.value.1| < |ps|
  {
    match CutList(ps, Tag(tag))
    case None => None
    case Some(entered) => CutList(entered.1, Tag("/" + tag))
  }

  function Elements(ps: seq<Piece>, tag: string): seq<string>
    decreases |ps|
  {
    match FirstElement(ps, tag)
    case None => []
    case Some(e) => [Render(e.0)] + Elements(e.1, tag)
  }

  lemma CloseTag(tag: string)
    ensures RenderPiece(Tag("/" + tag)) == "</" + tag + ">"
    ensures NoAngles(tag) ==> NoAngles("/" + tag)
  {
    assert "</" == "<" + "/";
  }

  lemma ExtractTagFromRender(ps: seq<Piece>, tag: string)
    requires AllWellFormed(ps) && NoAngles(tag)
    ensures match FirstElement(ps, tag)
            case None => ExtractTag(Render(ps), tag) == None
            case Some(e) => ExtractTag(Render(ps), tag) == Some(Render(e.0))
  {
    CutInRender(ps, tag);
    CloseTag(tag);
    var entered := CutList(ps, Tag(tag));
    if entered.Some? {
      CutInRender(entered.value.1, "/" + tag);
    }
  }

  lemma {:induction false} ExtractAllFromRender(ps: seq<Piece>, tag: string)
    requires AllWellFormed(ps) && NoAngles(tag)
    ensures ExtractAll(Render(ps), tag) == Elements(ps, tag)
    decreases |ps|
  {
    CutInRender(ps, tag);
    CloseTag(tag);
    var entered := CutList(ps, Tag(tag));
    if entered.Some? {
      CutInRender(entered.value.1, "/" + tag);
      var e := FirstElement(ps, tag);
      if e.Some? {
        ExtractAllFromRender(e.value.1, tag);
      }
    }
  }

  // ----- Reading a list part by part -----

  lemma {:induction false} FirstIndexSkips(ps: seq<Piece>, qs: seq<Piece>, q: Piece)
    requires q !in ps
    ensures FirstIndex(ps + qs, q) == Shift(FirstIndex(qs, q), |ps|)
  {
    if ps == [] {
      assert ps + qs == qs;
    } else {
      assert ps[0] in ps && (ps + qs)[1..] == ps[1..] + qs;
      FirstIndexSkips(ps[1..], qs, q);
    }
  }

  lemma SkipsPart(ps: seq<Piece>, qs: seq<Piece>, tag: string)
    requires Tag(tag) !in ps
    ensures FirstElement(ps + qs, tag) == FirstElement(qs, tag)
    ensures Elements(ps + qs, tag) == Elements(qs, tag)
  {
    FirstIndexSkips(ps, qs, Tag(tag));
    var i := FirstIndex(qs, Tag(tag));
    if i.Some? {
      assert (ps + qs)[|ps| + i.value + 1..] == qs[i.value + 1..];
      assert CutList(ps + qs, Tag(tag)).value.1 == CutList(qs, Tag(tag)).value.1;
    }
  }

  function Element(tag: string, text: string): seq<Piece> {
    [Tag(tag), Raw(text), Tag("/" + tag)]
  }

  lemma TakesElement(tag: string, text: string, qs: seq<Piece>)
    ensures FirstElement(Element(tag, text) + qs, tag) == Some(([Raw(text)], qs))
    ensures Render([Raw(text)]) == text
    ensures Elements(Element(tag, text) + qs, tag) == [text] + Elements(qs, tag)
  {
    var ps := Element(tag, text) + qs;
    assert ps[0] == Tag(tag);
    var rest := ps[1..];
    assert CutList(ps, Tag(tag)) == Some(([], rest));
    assert rest == [Raw(text)] + ([Tag("/" + tag)] + qs);
    FirstIndexSkips([Raw(text)], [Tag("/" + tag)] + qs, Tag("/" + tag));
    assert rest[..1] == [Raw(text)] && rest[2..] == qs;
    assert CutList(rest, Tag("/" + tag)) == Some(([Raw(text)], qs));
    assert [Raw(text)][1..] == [];
  }
}
