/** Searching entries by function name, with their vectors or without. */
module NameQuery {
  import opened Wrappers
  import opened Utf8
  import opened VectorIndex
  import opened StableSorting

  /** Which entries are searched: those of a language, else those of a project, else all of them in
      the order in which the store walks its table. */
  datatype Filter = ByLang(lang: string) | ByProj(project: string) | All(order: seq<Id>)

  /** A language, if given, comes before a project. */
  function FilterOf(lang: Option<string>, project: Option<string>, order: seq<Id>): Filter {
    match (lang, project)
    case (Some(l), _) => ByLang(l)
    case (_, Some(p)) => ByProj(p)
    case (None, None) => All(order)
  }

  function Candidates(s: Store, f: Filter): seq<Entry> {
    match f
    case ByLang(lang) => ByLanguage(s, lang)
    case ByProj(project) => ByProject(s, project)
    case All(order) => Live(s.entries, order)
  }

  function LiveMeta(entries: map<Id, Entry>, ids: seq<Id>): seq<Meta> {
    if ids == [] then []
    else
      var front, last := LiveMeta(entries, ids[..|ids| - 1]), ids[|ids| - 1];
      if last in entries then front + [Light(entries[last])] else front
  }

  function CandidatesMeta(s: Store, f: Filter): seq<Meta> {
    match f
    case ByLang(lang) => LiveMeta(s.entries, Listed(s.langIndex, lang))
    case ByProj(project) => LiveMeta(s.entries, Listed(s.projectIndex, project))
    case All(order) => LiveMeta(s.entries, order)
  }

  function Keep<T>(s: seq<T>, p: T -> bool): seq<T> {
    if s == [] then [] else if p(s[0]) then [s[0]] + Keep(s[1..], p) else Keep(s[1..], p)
  }

  function Truncate<T>(s: seq<T>, k: nat): seq<T> {
    if |s| <= k then s else s[..k]
  }

  function NameLength(m: Meta): int {
    ByteLength(m.funcName)
  }

  /** The shortest names first; `matches` is the case-blind search for the name asked for. */
  function QueryByName(s: Store, f: Filter, matches: string -> bool, topK: nat): seq<Entry> {
    Truncate(Sort(Keep(Candidates(s, f), (e: Entry) => matches(e.meta.funcName)),
                  (e: Entry) => NameLength(e.meta)), topK)
  }

  function QueryByNameMeta(s: Store, f: Filter, matches: string -> bool, topK: nat): seq<Meta> {
    Truncate(Sort(Keep(CandidatesMeta(s, f), (m: Meta) => matches(m.funcName)), NameLength), topK)
  }

  lemma {:induction false} LiveMetaIsLight(entries: map<Id, Entry>, ids: seq<Id>)
    ensures LiveMeta(entries, ids) == Map(Light, Live(entries, ids))
  {
    if ids != [] {
      LiveMetaIsLight(entries, ids[..|ids| - 1]);
    }
  }

  lemma {:induction false} KeepCommutes<T, U>(f: T -> U, s: seq<T>, p: T -> bool, q: U -> bool)
    requires forall t :: q(f(t)) <==> p(t)
    ensures Keep(Map(f, s), q) == Map(f, Keep(s, p))
  {
    if s != [] {
      KeepCommutes(f, s[1..], p, q);
      assert Map(f, s)[1..] == Map(f, s[1..]);
    }
  }

  /** The light query is the full query without the vectors, element by element. */
  lemma MetaIsLightQuery(s: Store, f: Filter, matches: string -> bool, topK: nat)
    ensures QueryByNameMeta(s, f, matches, topK) == Map(Light, QueryByName(s, f, matches, topK))
  {
    var p := (e: Entry) => matches(e.meta.funcName);
    var q := (m: Meta) => matches(m.funcName);
    var key := (e: Entry) => NameLength(e.meta);
    var found := Keep(Candidates(s, f), p);
    match f {
      case ByLang(lang) => LiveMetaIsLight(s.entries, Listed(s.langIndex, lang));
      case ByProj(project) => LiveMetaIsLight(s.entries, Listed(s.projectIndex, project));
      case All(order) => LiveMetaIsLight(s.entries, order);
    }
    assert CandidatesMeta(s, f) == Map(Light, Candidates(s, f));
    KeepCommutes(Light, Candidates(s, f), p, q);
    SortCommutes(Light, found, key, NameLength);
    var sorted := Sort(found, key);
    assert Sort(Keep(CandidatesMeta(s, f), q), NameLength) == Map(Light, sorted);
    assert Truncate(Map(Light, sorted), topK) == Map(Light, Truncate(sorted, topK));
  }

  lemma {:induction false} KeepMembers<T>(s: seq<T>, p: T -> bool)
    ensures forall x :: x in Keep(s, p) <==> x in s && p(x)
  {
    if s != [] {
      KeepMembers(s[1..], p);
      assert s == [s[0]] + s[1..];
    }
  }

  /** What is left of a sorted list behind its head has no smaller keys. */
  lemma HeadComesFirst<T>(sorted: seq<T>, key: T -> int, k: nat, e: T, x: T)
    requires SortedBy(sorted, key) && k <= |sorted|
    requires e in sorted && e !in sorted[..k] && x in sorted[..k]
    ensures key(x) <= key(e)
  {
    var j :| 0 <= j < |sorted| && sorted[j] == e;
    var i :| 0 <= i < k && sorted[..k][i] == x;
    assert forall n | 0 <= n < k :: sorted[..k][n] == sorted[n] && sorted[..k][n] in sorted[..k];
    assert k <= j;
    assert sorted[i] == x;
  }

  /** The head of a sorted list holds nothing with a larger key than what it leaves out. */
  lemma HeadOfSorted<T>(found: seq<T>, key: T -> int, k: nat)
    ensures var r := Truncate(Sort(found, key), k);
            && |r| <= k
            && SortedBy(r, key)
            && (forall x | x in r :: x in found)
            && (forall e, x | e in found && e !in r && x in r :: key(x) <= key(e))
            && (|r| < k ==> forall e | e in found :: e in r)
  {
    hide Sort;
    var sorted := Sort(found, key);
    SortSorts(found, key);
    forall e ensures e in sorted <==> e in found {
      assert e in sorted <==> e in multiset(sorted);
      assert e in found <==> e in multiset(found);
    }
    var r := Truncate(sorted, k);
    forall x | x in r ensures x in found {
      assert x in sorted;
    }
    if k < |sorted| {
      forall e, x | e in found && e !in sorted[..k] && x in sorted[..k] ensures key(x) <= key(e) {
        HeadComesFirst(sorted, key, k, e, x);
      }
    }
  }

  /** What a query returns matches, is sorted by the length of the name, and no candidate left
      out has a shorter name than one returned. */
  lemma QueryReturnsShortest(s: Store, f: Filter, matches: string -> bool, topK: nat)
    ensures var r := QueryByName(s, f, matches, topK);
            && |r| <= topK
            && (forall e | e in r :: e in Candidates(s, f) && matches(e.meta.funcName))
            && (forall i, j | 0 <= i < j < |r| :: ByteLength(r[i].meta.funcName) <= ByteLength(r[j].meta.funcName))
            && (forall e, x | e in Candidates(s, f) && matches(e.meta.funcName) && e !in r && x in r ::
                  ByteLength(x.meta.funcName) <= ByteLength(e.meta.funcName))
            && (|r| < topK ==> forall e | e in Candidates(s, f) && matches(e.meta.funcName) :: e in r)
  {
    hide Sort, Keep, Candidates, Truncate;
    var p := (e: Entry) => matches(e.meta.funcName);
    var key := (e: Entry) => NameLength(e.meta);
    var found := Keep(Candidates(s, f), p);
    KeepMembers(Candidates(s, f), p);
    HeadOfSorted(found, key, topK);
    var r := QueryByName(s, f, matches, topK);
    forall i, j | 0 <= i < j < |r| ensures ByteLength(r[i].meta.funcName) <= ByteLength(r[j].meta.funcName) {
      assert key(r[i]) <= key(r[j]);
    }
    forall e, x | e in Candidates(s, f) && matches(e.meta.funcName) && e !in r && x in r
      ensures ByteLength(x.meta.funcName) <= ByteLength(e.meta.funcName)
    {
      assert key(x) <= key(e);
    }
  }

  /** While ids keep their language and project, what is searched are the live entries of the language,
      or else of the project, or else all. */
  lemma CandidatesAreLive(ops: seq<Op>, lang: Option<string>, project: Option<string>, order: seq<Id>, e: Entry)
    requires Steady(ops) && forall id :: id in order <==> id in RunOf(ops).entries
    ensures e in Candidates(RunOf(ops), FilterOf(lang, project, order)) <==>
              && IsLive(RunOf(ops), e)
              && (if lang.Some? then e.meta.langId == lang.value
                  else project.Some? ==> e.meta.projectId == project.value)
  {
    hide RunOf, Steady;
    if lang.Some? {
      SteadyQueriesAreExact(ops, lang.value);
    } else if project.Some? {
      SteadyQueriesAreExact(ops, project.value);
    } else {
      RunsAreIndexed(ops);
      LiveAmong(RunOf(ops), order);
    }
  }
}
