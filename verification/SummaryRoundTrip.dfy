/** The whole summary document, and what reading it back returns. */
module SummaryRoundTrip {
  import opened Wrappers
  import opened Markup
  import opened XmlEscape
  import opened SummaryXml

  // ----- The document -----

  function EscapeAll(vs: seq<string>): seq<string> {
    seq(|vs|, i requires 0 <= i < |vs| => EscapeXml(vs[i]))
  }

  function Opening(indent: string, k: TagName): seq<Token> {
    [Chars(indent), Open(k), Chars("\n")]
  }

  function Closing(indent: string, k: TagName): seq<Token> {
    [Chars(indent), Close(k), Chars("\n")]
  }

  function FindingTokens(d: Discovery): seq<Token> {
    [Chars("    "), Open(if d.resolution.Some? then FindingResolved else FindingUnresolved),
     Chars(EscapeXml(d.finding)), Close(Finding), Chars("\n")]
  }

  function DiscoveryTokens(ds: seq<Discovery>): seq<Token> {
    if ds == [] then [] else FindingTokens(ds[0]) + DiscoveryTokens(ds[1..])
  }

  const PART_COUNT: nat := 17

  function PartAt(s: CompactionSummary, i: nat): Part
    requires i < PART_COUNT
  {
    if i == 0 then Fixed(Opening("", Summary) + Opening("  ", TaskOverview))
    else if i == 1 then Listed("    ", CoreRequest, [EscapeXml(s.coreRequest)])
    else if i == 2 then Listed("    ", SuccessCriteria, [EscapeXml(s.successCriteria)])
    else if i == 3 then Fixed(if s.constraints != [] then Opening("    ", Constraints) else [])
    else if i == 4 then Listed("      ", Constraint, EscapeAll(s.constraints))
    else if i == 5 then Fixed(if s.constraints != [] then Closing("    ", Constraints) else [])
    else if i == 6 then Fixed(Closing("  ", TaskOverview) + Opening("  ", CurrentState))
    else if i == 7 then Listed("    ", Completed, EscapeAll(s.completed))
    else if i == 8 then Listed("    ", FileModified, EscapeAll(s.filesModified))
    else if i == 9 then Listed("    ", FileCreated, EscapeAll(s.filesCreated))
    else if i == 10 then Fixed(Closing("  ", CurrentState) + Opening("  ", Discoveries))
    else if i == 11 then Fixed(DiscoveryTokens(s.discoveries))
    else if i == 12 then Fixed(Closing("  ", Discoveries) + Opening("  ", NextSteps))
    else if i == 13 then Listed("    ", NextStep, EscapeAll(s.nextSteps))
    else if i == 14 then Fixed(Closing("  ", NextSteps) + Opening("  ", ContextToPreserve))
    else if i == 15 then Listed("    ", Context, EscapeAll(s.context))
    else Fixed(Closing("  ", ContextToPreserve) + [Close(Summary)])
  }

  function Parts(s: CompactionSummary): seq<Part> {
    seq(PART_COUNT, i requires 0 <= i < PART_COUNT => PartAt(s, i))
  }

  function ToXml(s: CompactionSummary): string {
    Render(AsPieces(Flatten(Parts(s))))
  }

  // ----- Reading -----

  function FromXml(xml: string): Option<CompactionSummary> {
    if !("<summary>" <= xml) then None
    else Some(CompactionSummary(
      ExtractTag(xml, Name(CoreRequest)).GetOr(""),
      ExtractTag(xml, Name(SuccessCriteria)).GetOr(""),
      ExtractAll(xml, Name(Constraint)),
      ExtractAll(xml, Name(Completed)),
      ExtractAll(xml, Name(FileModified)),
      ExtractAll(xml, Name(FileCreated)),
      [],
      [],
      ExtractAll(xml, Name(NextStep)),
      ExtractAll(xml, Name(Context))))
  }

  /** What a summary is after one trip: escaped, and without discoveries and key outputs. */
  function Escaped(s: CompactionSummary): CompactionSummary {
    CompactionSummary(EscapeXml(s.coreRequest), EscapeXml(s.successCriteria), EscapeAll(s.constraints),
                      EscapeAll(s.completed), EscapeAll(s.filesModified), EscapeAll(s.filesCreated),
                      [], [], EscapeAll(s.nextSteps), EscapeAll(s.context))
  }

  // ----- No stray markup -----

  predicate AngleFree(vs: seq<string>) {
    forall v | v in vs :: '<' !in v
  }

  lemma EscapedIsAngleFree(v: string)
    ensures '<' !in EscapeXml(v)
  {
    FourPassesAreOne(v);
    EscapedHoldsNoMarkup(v);
  }

  lemma EscapedListIsAngleFree(vs: seq<string>)
    ensures AngleFree(EscapeAll(vs))
  {
    forall v | v in EscapeAll(vs) ensures '<' !in v {
      var i :| 0 <= i < |vs| && EscapeAll(vs)[i] == v;
      EscapedIsAngleFree(vs[i]);
    }
  }

  predicate PartTagFree(p: Part) {
    match p
    case Fixed(ts) => TagFree(ts)
    case Listed(indent, _, vs) => '<' !in indent && AngleFree(vs)
  }

  lemma {:induction false} ItemsTagFree(indent: string, k: TagName, vs: seq<string>)
    requires '<' !in indent && AngleFree(vs)
    ensures TagFree(Items(indent, k, vs))
  {
    if vs != [] {
      assert vs[0] in vs;
      ItemsTagFree(indent, k, vs[1..]);
    }
  }

  lemma {:induction false} FlattenTagFree(parts: seq<Part>)
    requires forall p | p in parts :: PartTagFree(p)
    ensures TagFree(Flatten(parts))
  {
    if parts != [] {
      assert PartTagFree(parts[0]);
      if parts[0].Listed? {
        ItemsTagFree(parts[0].indent, parts[0].k, parts[0].values);
      }
      FlattenTagFree(parts[1..]);
    }
  }

  lemma {:induction false} DiscoveriesAreSimple(ds: seq<Discovery>, k: TagName)
    requires !k.FindingResolved? && !k.FindingUnresolved?
    ensures TagFree(DiscoveryTokens(ds)) && Open(k) !in DiscoveryTokens(ds)
  {
    if ds != [] {
      EscapedIsAngleFree(ds[0].finding);
      DiscoveriesAreSimple(ds[1..], k);
    }
  }

  lemma FrameTagFree(indent: string, k: TagName)
    requires '<' !in indent
    ensures TagFree(Opening(indent, k)) && TagFree(Closing(indent, k))
  {
  }

  lemma FixedTagFree(s: CompactionSummary, i: nat)
    requires i < PART_COUNT && PartAt(s, i).Fixed?
    ensures PartTagFree(PartAt(s, i))
  {
    forall indent: string, k | '<' !in indent ensures TagFree(Opening(indent, k)) && TagFree(Closing(indent, k)) {
      FrameTagFree(indent, k);
    }
    DiscoveriesAreSimple(s.discoveries, Summary);
  }

  lemma ListedTagFree(s: CompactionSummary, i: nat)
    requires i < PART_COUNT && PartAt(s, i).Listed?
    ensures PartTagFree(PartAt(s, i))
  {
    forall v ensures '<' !in EscapeXml(v) {
      EscapedIsAngleFree(v);
    }
    forall vs ensures AngleFree(EscapeAll(vs)) {
      EscapedListIsAngleFree(vs);
    }
  }

  lemma PartsTagFree(s: CompactionSummary)
    ensures TagFree(Flatten(Parts(s)))
  {
    forall p | p in Parts(s) ensures PartTagFree(p) {
      var i :| 0 <= i < PART_COUNT && Parts(s)[i] == p;
      if PartAt(s, i).Fixed? {
        FixedTagFree(s, i);
      } else {
        ListedTagFree(s, i);
      }
    }
    FlattenTagFree(Parts(s));
  }

  // ----- Every list is read from its own part -----

  predicate IsListTag(k: TagName) {
    k.CoreRequest? || k.SuccessCriteria? || k.Constraint? || k.Completed? || k.FileModified? || k.FileCreated?
    || k.NextStep? || k.Context?
  }

  function PartOf(k: TagName): (i: nat)
    requires IsListTag(k)
    ensures i < 17
  {
    match k
    case CoreRequest => 1
    case SuccessCriteria => 2
    case Constraint => 4
    case Completed => 7
    case FileModified => 8
    case FileCreated => 9
    case NextStep => 13
    case Context => 15
  }

  function Values(s: CompactionSummary, k: TagName): seq<string>
    requires IsListTag(k)
  {
    match k
    case CoreRequest => [EscapeXml(s.coreRequest)]
    case SuccessCriteria => [EscapeXml(s.successCriteria)]
    case Constraint => EscapeAll(s.constraints)
    case Completed => EscapeAll(s.completed)
    case FileModified => EscapeAll(s.filesModified)
    case FileCreated => EscapeAll(s.filesCreated)
    case NextStep => EscapeAll(s.nextSteps)
    case Context => EscapeAll(s.context)
  }

  lemma ListedParts(s: CompactionSummary, j: nat, k: TagName)
    requires j < PART_COUNT && IsListTag(k)
    ensures PartAt(s, j).Listed? ==> (PartAt(s, j).k == k <==> j == PartOf(k))
    ensures PartAt(s, PartOf(k)).Listed? && PartAt(s, PartOf(k)).values == Values(s, k)
  {
  }

  lemma FrameOpens(i1: string, j1: TagName, i2: string, j2: TagName, k: TagName)
    requires j1 != k && j2 != k
    ensures Open(k) !in Opening(i1, j1) + Opening(i2, j2)
    ensures Open(k) !in Closing(i1, j1) + Opening(i2, j2)
    ensures Open(k) !in Opening(i1, j1) && Open(k) !in Closing(i1, j1)
  {
  }

  lemma FixedParts(s: CompactionSummary, j: nat, k: TagName)
    requires j < PART_COUNT && IsListTag(k) && PartAt(s, j).Fixed?
    ensures !Mentions(PartAt(s, j), k)
  {
    if j == 0 { FrameOpens("", Summary, "  ", TaskOverview, k); }
    else if j == 3 || j == 5 { FrameOpens("    ", Constraints, "", Summary, k); }
    else if j == 6 { FrameOpens("  ", TaskOverview, "  ", CurrentState, k); }
    else if j == 10 { FrameOpens("  ", CurrentState, "  ", Discoveries, k); }
    else if j == 11 { DiscoveriesAreSimple(s.discoveries, k); }
    else if j == 12 { FrameOpens("  ", Discoveries, "  ", NextSteps, k); }
    else if j == 14 { FrameOpens("  ", NextSteps, "  ", ContextToPreserve, k); }
    else { FrameOpens("  ", ContextToPreserve, "", Summary, k); }
  }

  lemma ListComesBack(s: CompactionSummary, k: TagName)
    requires IsListTag(k)
    ensures ExtractAll(ToXml(s), Name(k)) == Values(s, k)
  {
    var parts, i := Parts(s), PartOf(k);
    ListedParts(s, i, k);
    forall j | 0 <= j < |parts| && j != i ensures !Mentions(parts[j], k) {
      ListedParts(s, j, k);
      if PartAt(s, j).Fixed? { FixedParts(s, j, k); }
    }
    ListIsRead(parts, i);
    PartsTagFree(s);
    TokensWellFormed(Flatten(parts));
    NamesHoldNoAngles(k);
    ExtractAllFromRender(AsPieces(Flatten(parts)), Name(k));
  }

  lemma FirstOfAll(content: string, tag: string)
    ensures ExtractTag(content, tag) ==
            if ExtractAll(content, tag) == [] then None else Some(ExtractAll(content, tag)[0])
  {
  }

  lemma StartsAsSummary(s: CompactionSummary)
    ensures "<summary>" <= ToXml(s)
  {
    var ps := AsPieces(Flatten(Parts(s)));
    assert Parts(s)[0] == Fixed(Opening("", Summary) + Opening("  ", TaskOverview));
    assert Flatten(Parts(s)) == PartTokens(Parts(s)[0]) + Flatten(Parts(s)[1..]);
    assert ps[0] == Raw("") && ps[1] == Tag("summary");
    assert Render(ps) == "" + Render(ps[1..]);
    assert ps[1..][0] == Tag("summary");
    assert RenderPiece(Tag("summary")) == "<summary>";
  }

  // ----- Main results -----

  /** Whatever its strings hold, a summary comes back with every list and field in order, each
      string exactly escaped. */
  lemma RoundTripEscapes(s: CompactionSummary)
    ensures FromXml(ToXml(s)) == Some(Escaped(s))
  {
    StartsAsSummary(s);
    FirstOfAll(ToXml(s), Name(CoreRequest));
    FirstOfAll(ToXml(s), Name(SuccessCriteria));
    ListComesBack(s, CoreRequest);
    ListComesBack(s, SuccessCriteria);
    ListComesBack(s, Constraint);
    ListComesBack(s, Completed);
    ListComesBack(s, FileModified);
    ListComesBack(s, FileCreated);
    ListComesBack(s, NextStep);
    ListComesBack(s, Context);
  }

  predicate AllPlain(vs: seq<string>) {
    forall v | v in vs :: IsPlain(v)
  }

  lemma EscapeAllIsIdentityIff(vs: seq<string>)
    ensures EscapeAll(vs) == vs <==> AllPlain(vs)
  {
    forall i | 0 <= i < |vs| ensures EscapeAll(vs)[i] == vs[i] <==> IsPlain(vs[i]) {
      FourPassesAreOne(vs[i]);
      EscapeIsIdentityIff(vs[i]);
    }
    if EscapeAll(vs) == vs {
      forall v | v in vs ensures IsPlain(v) {
        var i :| 0 <= i < |vs| && vs[i] == v;
        assert EscapeAll(vs)[i] == vs[i];
      }
    }
  }

  lemma EscapeXmlIsIdentityIff(v: string)
    ensures EscapeXml(v) == v <==> IsPlain(v)
  {
    FourPassesAreOne(v);
    EscapeIsIdentityIff(v);
  }

  predicate PlainTexts(s: CompactionSummary) {
    && IsPlain(s.coreRequest) && IsPlain(s.successCriteria) && AllPlain(s.constraints)
    && AllPlain(s.completed) && AllPlain(s.filesModified) && AllPlain(s.filesCreated)
    && AllPlain(s.nextSteps) && AllPlain(s.context)
  }

  /** A summary comes back unchanged exactly when no string holds one of the four escaped
      characters and there are neither discoveries nor key outputs to drop. */
  lemma RoundTripIff(s: CompactionSummary)
    ensures FromXml(ToXml(s)) == Some(s) <==>
            PlainTexts(s) && s.discoveries == [] && s.keyOutputs == []
  {
    RoundTripEscapes(s);
    EscapeXmlIsIdentityIff(s.coreRequest);
    EscapeXmlIsIdentityIff(s.successCriteria);
    EscapeAllIsIdentityIff(s.constraints);
    EscapeAllIsIdentityIff(s.completed);
    EscapeAllIsIdentityIff(s.filesModified);
    EscapeAllIsIdentityIff(s.filesCreated);
    EscapeAllIsIdentityIff(s.nextSteps);
    EscapeAllIsIdentityIff(s.context);
  }

  lemma EscapeAllInjective(vs: seq<string>, ws: seq<string>)
    requires EscapeAll(vs) == EscapeAll(ws)
    ensures vs == ws
  {
    assert |vs| == |EscapeAll(ws)|;
    forall i | 0 <= i < |vs| ensures vs[i] == ws[i] {
      assert EscapeAll(vs)[i] == EscapeAll(ws)[i];
      EscapeXmlInjective(vs[i], ws[i]);
    }
  }

  lemma EscapeXmlInjective(v: string, w: string)
    requires EscapeXml(v) == EscapeXml(w)
    ensures v == w
  {
    FourPassesAreOne(v);
    FourPassesAreOne(w);
    EscapeInjective(v, w);
  }

  /** Nothing but discoveries and key outputs is lost: two summaries with the same text agree on
      everything else. */
  lemma NothingElseIsLost(s: CompactionSummary, t: CompactionSummary)
    requires ToXml(s) == ToXml(t)
    ensures s.(discoveries := [], keyOutputs := []) == t.(discoveries := [], keyOutputs := [])
  {
    RoundTripEscapes(s);
    RoundTripEscapes(t);
    EscapeXmlInjective(s.coreRequest, t.coreRequest);
    EscapeXmlInjective(s.successCriteria, t.successCriteria);
    EscapeAllInjective(s.constraints, t.constraints);
    EscapeAllInjective(s.completed, t.completed);
    EscapeAllInjective(s.filesModified, t.filesModified);
    EscapeAllInjective(s.filesCreated, t.filesCreated);
    EscapeAllInjective(s.nextSteps, t.nextSteps);
    EscapeAllInjective(s.context, t.context);
  }
}
