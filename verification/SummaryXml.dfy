/** Continuation summaries as XML: the printer escapes, the parser does not unescape. */
module SummaryXml {
  import opened Wrappers
  import opened Markup

  datatype Discovery = Discovery(finding: string, resolution: Option<string>)

  datatype CompactionSummary = CompactionSummary(
    coreRequest: string,
    successCriteria: string,
    constraints: seq<string>,
    completed: seq<string>,
    filesModified: seq<string>,
    filesCreated: seq<string>,
    keyOutputs: seq<string>,
    discoveries: seq<Discovery>,
    nextSteps: seq<string>,
    context: seq<string>)

  // ----- The tags in use -----

  datatype TagName =
    | Summary | TaskOverview | CoreRequest | SuccessCriteria | Constraints | Constraint
    | CurrentState | Completed | FileModified | FileCreated
    | Discoveries | Finding | FindingResolved | FindingUnresolved
    | NextSteps | NextStep | ContextToPreserve | Context

  function Name(k: TagName): string {
    match k
    case Summary => "summary"
    case TaskOverview => "task-overview"
    case CoreRequest => "core-request"
    case SuccessCriteria => "success-criteria"
    case Constraints => "constraints"
    case Constraint => "constraint"
    case CurrentState => "current-state"
    case Completed => "completed"
    case FileModified => "file-modified"
    case FileCreated => "file-created"
    case Discoveries => "discoveries"
    case Finding => "finding"
    case FindingResolved => "finding resolution=\"resolved\""
    case FindingUnresolved => "finding resolution=\"unresolved\""
    case NextSteps => "next-steps"
    case NextStep => "step"
    case ContextToPreserve => "context-to-preserve"
    case Context => "context"
  }

  /** Length and first character tell the names apart. */
  function Mark(k: TagName): (m: (nat, char))
    ensures |Name(k)| == m.0 && m.0 > 0 && Name(k)[0] == m.1 && m.1 != '/'
  {
    match k
    case Summary => (7, 's')
    case TaskOverview => (13, 't')
    case CoreRequest => (12, 'c')
    case SuccessCriteria => (16, 's')
    case Constraints => (11, 'c')
    case Constraint => (10, 'c')
    case CurrentState => (13, 'c')
    case Completed => (9, 'c')
    case FileModified => (13, 'f')
    case FileCreated => (12, 'f')
    case Discoveries => (11, 'd')
    case Finding => (7, 'f')
    case FindingResolved => (29, 'f')
    case FindingUnresolved => (31, 'f')
    case NextSteps => (10, 'n')
    case NextStep => (4, 's')
    case ContextToPreserve => (19, 'c')
    case Context => (7, 'c')
  }

  lemma OverviewNames()
    ensures NoAngles("summary") && NoAngles("task-overview") && NoAngles("core-request")
    ensures NoAngles("success-criteria") && NoAngles("constraints") && NoAngles("constraint")
  {
  }

  lemma StateNames()
    ensures NoAngles("current-state") && NoAngles("completed") && NoAngles("file-modified") && NoAngles("file-created")
  {
  }

  lemma ListNames()
    ensures NoAngles("next-steps") && NoAngles("step") && NoAngles("context-to-preserve") && NoAngles("context")
  {
  }

  lemma FindingNames()
    ensures NoAngles("discoveries") && NoAngles("finding")
    ensures NoAngles("finding resolution=\"resolved\"") && NoAngles("finding resolution=\"unresolved\"")
  {
  }

  lemma NamesHoldNoAngles(k: TagName)
    ensures NoAngles(Name(k)) && NoAngles("/" + Name(k))
  {
    OverviewNames();
    StateNames();
    ListNames();
    FindingNames();
  }

  lemma NameInjective(j: TagName, k: TagName)
    requires Name(j) == Name(k)
    ensures j == k
  {
    assert Mark(j) == Mark(k);
  }

  // ----- Documents -----

  datatype Token = Open(k: TagName) | Close(k: TagName) | Chars(text: string)

  function AsPiece(t: Token): Piece {
    match t
    case Open(k) => Tag(Name(k))
    case Close(k) => Tag("/" + Name(k))
    case Chars(text) => Raw(text)
  }

  function AsPieces(ts: seq<Token>): seq<Piece> {
    seq(|ts|, i requires 0 <= i < |ts| => AsPiece(ts[i]))
  }

  predicate TagFree(ts: seq<Token>) {
    forall t | t in ts && t.Chars? :: '<' !in t.text
  }

  lemma TokensWellFormed(ts: seq<Token>)
    requires TagFree(ts)
    ensures AllWellFormed(AsPieces(ts))
  {
    forall p | p in AsPieces(ts) ensures WellFormed(p) {
      var i :| 0 <= i < |ts| && AsPieces(ts)[i] == p;
      assert ts[i] in ts;
      if !ts[i].Chars? {
        NamesHoldNoAngles(ts[i].k);
      }
    }
  }

  lemma OpenAbsent(ts: seq<Token>, k: TagName)
    requires Open(k) !in ts
    ensures Tag(Name(k)) !in AsPieces(ts)
  {
    forall i | 0 <= i < |ts| ensures AsPieces(ts)[i] != Tag(Name(k)) {
      assert ts[i] in ts;
      match ts[i] {
        case Open(j) => if Name(j) == Name(k) { NameInjective(j, k); }
        case Close(j) => assert ("/" + Name(j))[0] == '/' && Name(k)[0] == Mark(k).1;
        case Chars(_) =>
      }
    }
  }

  function Item(indent: string, k: TagName, v: string): seq<Token> {
    [Chars(indent), Open(k), Chars(v), Close(k), Chars("\n")]
  }

  function Items(indent: string, k: TagName, vs: seq<string>): seq<Token> {
    if vs == [] then [] else Item(indent, k, vs[0]) + Items(indent, k, vs[1..])
  }

  lemma ElementsSkip(a: Piece, ps: seq<Piece>, tag: string)
    requires a != Tag(tag)
    ensures Elements([a] + ps, tag) == Elements(ps, tag)
  {
    SkipsPart([a], ps, tag);
  }

  /** One item on its own line, before more pieces. */
  lemma ItemIsRead(indent: string, tag: string, v: string, rest: seq<Piece>)
    ensures Elements([Raw(indent), Tag(tag), Raw(v), Tag("/" + tag), Raw("\n")] + rest, tag) ==
            [v] + Elements(rest, tag)
  {
    var tail := [Raw("\n")] + rest;
    assert [Raw(indent), Tag(tag), Raw(v), Tag("/" + tag), Raw("\n")] + rest ==
           [Raw(indent)] + (Element(tag, v) + tail);
    ElementsSkip(Raw(indent), Element(tag, v) + tail, tag);
    TakesElement(tag, v, tail);
    ElementsSkip(Raw("\n"), rest, tag);
  }

  lemma ItemTokensAreRead(indent: string, k: TagName, v: string, rest: seq<Piece>)
    ensures Elements(AsPieces(Item(indent, k, v)) + rest, Name(k)) == [v] + Elements(rest, Name(k))
  {
    ItemPieces(indent, k, v);
    ItemIsRead(indent, Name(k), v, rest);
  }

  /** The elements read out of a list of items, and of what follows without such an element, are
      the values of the list. */
  lemma {:induction false} ItemsAreRead(indent: string, k: TagName, vs: seq<string>, post: seq<Token>)
    requires Open(k) !in post
    ensures Elements(AsPieces(Items(indent, k, vs) + post), Name(k)) == vs
  {
    if vs == [] {
      assert Items(indent, k, vs) + post == post;
      OpenAbsent(post, k);
      SkipsPart(AsPieces(post), [], Name(k));
      assert AsPieces(post) + [] == AsPieces(post);
    } else {
      var item, rest := Item(indent, k, vs[0]), Items(indent, k, vs[1..]) + post;
      assert AsPieces(Items(indent, k, vs) + post) == AsPieces(item) + AsPieces(rest) by {
        assert Items(indent, k, vs) + post == item + rest;
        AsPiecesAppend(item, rest);
      }
      ItemTokensAreRead(indent, k, vs[0], AsPieces(rest));
      ItemsAreRead(indent, k, vs[1..], post);
    }
  }

  lemma AsPiecesAppend(ts: seq<Token>, us: seq<Token>)
    ensures AsPieces(ts + us) == AsPieces(ts) + AsPieces(us)
  {
  }

  lemma ItemPieces(indent: string, k: TagName, v: string)
    ensures AsPieces(Item(indent, k, v)) == [Raw(indent), Tag(Name(k)), Raw(v), Tag("/" + Name(k)), Raw("\n")]
  {
  }

  datatype Part = Fixed(tokens: seq<Token>) | Listed(indent: string, k: TagName, values: seq<string>)

  function PartTokens(p: Part): seq<Token> {
    match p
    case Fixed(ts) => ts
    case Listed(indent, k, vs) => Items(indent, k, vs)
  }

  function Flatten(parts: seq<Part>): seq<Token> {
    if parts == [] then [] else PartTokens(parts[0]) + Flatten(parts[1..])
  }

  predicate Mentions(p: Part, k: TagName) {
    match p
    case Fixed(ts) => Open(k) in ts
    case Listed(_, j, _) => j == k
  }

  lemma {:induction false} ItemsMention(indent: string, j: TagName, vs: seq<string>, k: TagName)
    requires j != k
    ensures Open(k) !in Items(indent, j, vs)
  {
    if vs != [] {
      ItemsMention(indent, j, vs[1..], k);
    }
  }

  lemma {:induction false} UnmentionedIsAbsent(parts: seq<Part>, k: TagName)
    requires forall p | p in parts :: !Mentions(p, k)
    ensures Open(k) !in Flatten(parts)
  {
    if parts != [] {
      assert parts[0] in parts;
      if parts[0].Listed? {
        ItemsMention(parts[0].indent, parts[0].k, parts[0].values, k);
      }
      UnmentionedIsAbsent(parts[1..], k);
    }
  }

  lemma {:induction false} FlattenAt(parts: seq<Part>, i: nat)
    requires i < |parts|
    ensures Flatten(parts) == Flatten(parts[..i]) + (PartTokens(parts[i]) + Flatten(parts[i + 1..]))
  {
    hide PartTokens;
    if i > 0 {
      var rest := parts[1..];
      FlattenAt(rest, i - 1);
      assert parts[..i][1..] == rest[..i - 1] && rest[i - 1 + 1..] == parts[i + 1..];
      var a, b, c := PartTokens(parts[0]), Flatten(rest[..i - 1]), PartTokens(parts[i]) + Flatten(parts[i + 1..]);
      assert a + (b + c) == a + b + c;
    }
  }

  /** A list printed in one part of a document, under a tag no other part opens, is read back. */
  lemma ListIsRead(parts: seq<Part>, i: nat)
    requires i < |parts| && parts[i].Listed?
    requires forall j | 0 <= j < |parts| && j != i :: !Mentions(parts[j], parts[i].k)
    ensures Elements(AsPieces(Flatten(parts)), Name(parts[i].k)) == parts[i].values
  {
    var k := parts[i].k;
    var pre, post := Flatten(parts[..i]), Flatten(parts[i + 1..]);
    FlattenAt(parts, i);
    UnmentionedIsAbsent(parts[..i], k);
    UnmentionedIsAbsent(parts[i + 1..], k);
    OpenAbsent(pre, k);
    var rest := Items(parts[i].indent, k, parts[i].values) + post;
    AsPiecesAppend(pre, rest);
    SkipsPart(AsPieces(pre), AsPieces(rest), Name(k));
    ItemsAreRead(parts[i].indent, k, parts[i].values, post);
  }
}
