/** The vector store: entries by id, and the ids listed by language and by project. */
module VectorIndex {
  type Id = string

  datatype Meta = Meta(id: Id, langId: string, projectId: string, funcName: string, text: string)

  datatype Entry = Entry(meta: Meta, vector: seq<real>)

  function Light(e: Entry): Meta {
    e.meta
  }

  datatype Store = Store(
    entries: map<Id, Entry>,
    langIndex: map<string, seq<Id>>,
    projectIndex: map<string, seq<Id>>)

  const EMPTY := Store(map[], map[], map[])

  function Listed(index: map<string, seq<Id>>, key: string): seq<Id> {
    if key in index then index[key] else []
  }

  // ----- Updates -----

  datatype Op = Upsert(entry: Entry) | Delete(id: Id) | DeleteProject(project: string)

  function IdSet(ids: seq<Id>): set<Id> {
    set id | id in ids
  }

  function Done(s: Store, op: Op): Store {
    match op
    case Upsert(e) =>
      Store(s.entries[e.meta.id := e],
            s.langIndex[e.meta.langId := Listed(s.langIndex, e.meta.langId) + [e.meta.id]],
            s.projectIndex[e.meta.projectId := Listed(s.projectIndex, e.meta.projectId) + [e.meta.id]])
    case Delete(id) => s.(entries := s.entries - {id})
    case DeleteProject(project) =>
      s.(entries := s.entries - IdSet(Listed(s.projectIndex, project)), projectIndex := s.projectIndex - {project})
  }

  // ----- Queries -----

  /** The live entries among `ids`, in their order and with their repeats. */
  function Live(entries: map<Id, Entry>, ids: seq<Id>): seq<Entry> {
    if ids == [] then []
    else
      var front, last := Live(entries, ids[..|ids| - 1]), ids[|ids| - 1];
      if last in entries then front + [entries[last]] else front
  }

  function ByLanguage(s: Store, lang: string): seq<Entry> {
    Live(s.entries, Listed(s.langIndex, lang))
  }

  function ByProject(s: Store, project: string): seq<Entry> {
    Live(s.entries, Listed(s.projectIndex, project))
  }

  // ----- The store object -----

  class VectorDb {
    var entries: map<Id, Entry>
    var langIndex: map<string, seq<Id>>
    var projectIndex: map<string, seq<Id>>

    function View(): Store
      reads this
    {
      Store(entries, langIndex, projectIndex)
    }

    constructor ()
      ensures View() == EMPTY
    {
      entries, langIndex, projectIndex := map[], map[], map[];
    }

    method UpsertEntry(e: Entry)
      modifies this
      ensures View() == Done(old(View()), Upsert(e))
    {
      entries := entries[e.meta.id := e];
      var ids := if e.meta.langId in langIndex then langIndex[e.meta.langId] else [];
      langIndex := langIndex[e.meta.langId := ids + [e.meta.id]];
      ids := if e.meta.projectId in projectIndex then projectIndex[e.meta.projectId] else [];
      projectIndex := projectIndex[e.meta.projectId := ids + [e.meta.id]];
    }

    method DeleteEntry(id: Id)
      modifies this
      ensures View() == Done(old(View()), Delete(id))
    {
      entries := entries - {id};
    }

    method DeleteWholeProject(project: string)
      modifies this
      ensures View() == Done(old(View()), DeleteProject(project))
    {
      var ids := if project in projectIndex then projectIndex[project] else [];
      ghost var before := entries;
      for i := 0 to |ids|
        invariant entries == before - IdSet(ids[..i])
        invariant langIndex == old(langIndex) && projectIndex == old(projectIndex)
      {
        assert IdSet(ids[..i + 1]) == IdSet(ids[..i]) + {ids[i]};
        entries := entries - {ids[i]};
      }
      assert ids[..|ids|] == ids;
      projectIndex := projectIndex - {project};
    }
  }

  // ----- Runs -----

  function RunOf(ops: seq<Op>): Store {
    if ops == [] then EMPTY else Done(RunOf(ops[..|ops| - 1]), ops[|ops| - 1])
  }

  /** Every live entry stands under its id, and its id is listed under its language and project. */
  ghost predicate Indexed(s: Store) {
    forall id | id in s.entries ::
      && s.entries[id].meta.id == id
      && id in Listed(s.langIndex, s.entries[id].meta.langId)
      && id in Listed(s.projectIndex, s.entries[id].meta.projectId)
  }

  lemma {:induction false} RunsAreIndexed(ops: seq<Op>)
    ensures Indexed(RunOf(ops))
  {
    if ops != [] {
      RunsAreIndexed(ops[..|ops| - 1]);
      StepIndexed(RunOf(ops[..|ops| - 1]), ops[|ops| - 1]);
    }
  }

  lemma StepIndexed(s: Store, op: Op)
    requires Indexed(s)
    ensures Indexed(Done(s, op))
  {
    var t := Done(s, op);
    forall id | id in t.entries
      ensures t.entries[id].meta.id == id
      ensures id in Listed(t.langIndex, t.entries[id].meta.langId)
      ensures id in Listed(t.projectIndex, t.entries[id].meta.projectId)
    {
      if op.DeleteProject? {
        assert id in s.entries && id !in IdSet(Listed(s.projectIndex, op.project));
      } else if op.Delete? {
        assert id in s.entries;
      } else if id != op.entry.meta.id {
        assert id in s.entries;
      }
    }
  }

  lemma {:induction false} LiveMembers(entries: map<Id, Entry>, ids: seq<Id>, e: Entry)
    ensures e in Live(entries, ids) <==> exists id :: id in ids && id in entries && entries[id] == e
  {
    if ids != [] {
      var front, last := ids[..|ids| - 1], ids[|ids| - 1];
      LiveMembers(entries, front, e);
      assert ids == front + [last];
      assert last in ids;
    }
  }

  // ----- The store, read off the operations -----

  predicate PutsAt(ops: seq<Op>, i: int, id: Id) {
    0 <= i < |ops| && ops[i].Upsert? && ops[i].entry.meta.id == id
  }

  /** The id was stored in this language, at any time. */
  ghost predicate PutInLanguage(ops: seq<Op>, id: Id, lang: string) {
    exists i :: PutsAt(ops, i, id) && ops[i].entry.meta.langId == lang
  }

  /** The id was stored in this project, and the project was not deleted since. */
  ghost predicate PutInProject(ops: seq<Op>, id: Id, project: string) {
    exists i :: PutsAt(ops, i, id) && ops[i].entry.meta.projectId == project && IsKept(ops, i, project)
  }

  ghost predicate IsKept(ops: seq<Op>, i: int, project: string) {
    forall j | 0 <= j < |ops| && i < j :: ops[j] != DeleteProject(project)
  }

  /** Operation `j` deletes the id, by itself or with a project it was put in. */
  ghost predicate Removes(ops: seq<Op>, j: nat, id: Id)
    requires j < |ops|
  {
    match ops[j]
    case Upsert(_) => false
    case Delete(other) => other == id
    case DeleteProject(project) => PutInProject(ops[..j], id, project)
  }

  /** Operation `i` is the last to store the id, and nothing has deleted it since. */
  ghost predicate IsLast(ops: seq<Op>, i: int, id: Id) {
    && PutsAt(ops, i, id)
    && forall j | 0 <= j < |ops| && i < j :: !PutsAt(ops, j, id) && !Removes(ops, j, id)
  }

  ghost predicate IsLastEntry(ops: seq<Op>, id: Id, e: Entry) {
    exists i :: IsLast(ops, i, id) && ops[i].entry == e
  }

  lemma PutInLanguageNext(ops: seq<Op>, op: Op, id: Id, lang: string)
    ensures PutInLanguage(ops + [op], id, lang) <==>
            PutInLanguage(ops, id, lang) || (op.Upsert? && op.entry.meta.id == id && op.entry.meta.langId == lang)
  {
    var all := ops + [op];
    assert PutsAt(all, |ops|, id) <==> op.Upsert? && op.entry.meta.id == id;
    forall i | i < |ops| ensures PutsAt(all, i, id) <==> PutsAt(ops, i, id) {
    }
  }

  lemma PutInProjectNext(ops: seq<Op>, op: Op, id: Id, project: string)
    ensures PutInProject(ops + [op], id, project) <==>
            op != DeleteProject(project)
            && (PutInProject(ops, id, project)
                || (op.Upsert? && op.entry.meta.id == id && op.entry.meta.projectId == project))
  {
    var all := ops + [op];
    assert PutsAt(all, |ops|, id) <==> op.Upsert? && op.entry.meta.id == id;
    assert all[|ops|] == op;
    forall i | i < |ops|
      ensures PutsAt(all, i, id) <==> PutsAt(ops, i, id)
      ensures IsKept(all, i, project) <==> IsKept(ops, i, project) && op != DeleteProject(project)
    {
      assert forall j | 0 <= j < |ops| :: all[j] == ops[j];
    }
  }

  /** An id is listed under a key exactly while it has been put there. */
  lemma {:induction false} ListedIff(ops: seq<Op>, id: Id, key: string)
    ensures id in Listed(RunOf(ops).langIndex, key) <==> PutInLanguage(ops, id, key)
    ensures id in Listed(RunOf(ops).projectIndex, key) <==> PutInProject(ops, id, key)
  {
    hide PutInLanguage, PutInProject;
    if ops == [] {
      NothingPut(id, key);
    } else {
      var front, last := ops[..|ops| - 1], ops[|ops| - 1];
      ListedIff(front, id, key);
      assert ops == front + [last];
      PutInLanguageNext(front, last, id, key);
      PutInProjectNext(front, last, id, key);
      ListedNext(RunOf(front), last, id, key);
    }
  }

  lemma NothingPut(id: Id, key: string)
    ensures !PutInLanguage([], id, key) && !PutInProject([], id, key)
  {
  }

  lemma ListedNext(s: Store, op: Op, id: Id, key: string)
    ensures id in Listed(Done(s, op).langIndex, key) <==>
            id in Listed(s.langIndex, key) || (op.Upsert? && op.entry.meta.id == id && op.entry.meta.langId == key)
    ensures id in Listed(Done(s, op).projectIndex, key) <==>
            op != DeleteProject(key)
            && (id in Listed(s.projectIndex, key)
                || (op.Upsert? && op.entry.meta.id == id && op.entry.meta.projectId == key))
  {
  }

  lemma IsLastEntryNext(ops: seq<Op>, op: Op, id: Id, e: Entry)
    ensures IsLastEntry(ops + [op], id, e) <==>
            if PutsAt(ops + [op], |ops|, id) then op.entry == e
            else IsLastEntry(ops, id, e) && !Removes(ops + [op], |ops|, id)
  {
    hide PutInProject;
    var all := ops + [op];
    forall i | i < |ops|
      ensures IsLast(all, i, id) <==>
              IsLast(ops, i, id) && !PutsAt(all, |ops|, id) && !Removes(all, |ops|, id)
    {
      forall j | 0 <= j < |ops|
        ensures PutsAt(all, j, id) <==> PutsAt(ops, j, id)
        ensures Removes(all, j, id) <==> Removes(ops, j, id)
      {
        assert all[..j] == ops[..j];
      }
    }
    if PutsAt(all, |ops|, id) {
      assert IsLast(all, |ops|, id);
    }
    assert forall i | 0 <= i < |ops| :: all[i] == ops[i];
  }

  /** An entry is live exactly when it was the last stored under its id and nothing has deleted it
      since. */
  lemma {:induction false} LiveIff(ops: seq<Op>, id: Id, e: Entry)
    ensures id in RunOf(ops).entries && RunOf(ops).entries[id] == e <==> IsLastEntry(ops, id, e)
  {
    hide IsLastEntry;
    if ops == [] {
      assert !IsLastEntry([], id, e) by { NothingLast(id, e); }
    } else {
      var front, last := ops[..|ops| - 1], ops[|ops| - 1];
      LiveIff(front, id, e);
      assert ops == front + [last];
      IsLastEntryNext(front, last, id, e);
      if last.DeleteProject? {
        ListedIff(front, id, last.project);
        assert ops[..|front|] == front;
      }
    }
  }

  lemma NothingLast(id: Id, e: Entry)
    ensures !IsLastEntry([], id, e)
  {
  }

  // ----- What a query returns -----

  predicate IsLive(s: Store, e: Entry) {
    e.meta.id in s.entries && s.entries[e.meta.id] == e
  }

  /** The id was put in one language, and its live entry is in another. */
  ghost predicate MovedFromLanguage(ops: seq<Op>, id: Id, lang: string) {
    PutInLanguage(ops, id, lang) && exists e :: IsLastEntry(ops, id, e) && e.meta.langId != lang
  }

  ghost predicate MovedFromProject(ops: seq<Op>, id: Id, project: string) {
    PutInProject(ops, id, project) && exists e :: IsLastEntry(ops, id, e) && e.meta.projectId != project
  }

  /** A list of ids yields the live entries among them. */
  lemma LiveAmong(s: Store, ids: seq<Id>)
    requires Indexed(s)
    ensures forall e :: e in Live(s.entries, ids) <==> IsLive(s, e) && e.meta.id in ids
  {
    forall e ensures e in Live(s.entries, ids) <==> IsLive(s, e) && e.meta.id in ids {
      LiveMembers(s.entries, ids, e);
      if e in Live(s.entries, ids) {
        var id :| id in ids && id in s.entries && s.entries[id] == e;
        assert e.meta.id == id;
      }
    }
  }

  /** After any run a query misses no live entry; and it returns only those asked for exactly when
      no id was moved: stored in the language, and stored last in another. */
  lemma ByLanguageIff(ops: seq<Op>, lang: string)
    ensures var s := RunOf(ops);
            && (forall e | IsLive(s, e) && e.meta.langId == lang :: e in ByLanguage(s, lang))
            && (forall e | e in ByLanguage(s, lang) :: IsLive(s, e))
            && ((forall e :: e in ByLanguage(s, lang) <==> IsLive(s, e) && e.meta.langId == lang)
                <==> forall id :: !MovedFromLanguage(ops, id, lang))
  {
    hide PutInLanguage, IsLastEntry, RunOf, Listed, Live;
    var s := RunOf(ops);
    RunsAreIndexed(ops);
    LiveAmong(s, Listed(s.langIndex, lang));
    forall id, e
      ensures id in Listed(s.langIndex, lang) <==> PutInLanguage(ops, id, lang)
      ensures id in s.entries && s.entries[id] == e <==> IsLastEntry(ops, id, e)
    {
      ListedIff(ops, id, lang);
      LiveIff(ops, id, e);
    }
    forall id | MovedFromLanguage(ops, id, lang) ensures exists e :: e in ByLanguage(s, lang) && e.meta.langId != lang {
      var e :| IsLastEntry(ops, id, e) && e.meta.langId != lang;
      assert s.entries[id] == e && e.meta.id == id;
      assert e in ByLanguage(s, lang);
    }
    forall e | e in ByLanguage(s, lang) && e.meta.langId != lang ensures MovedFromLanguage(ops, e.meta.id, lang) {
      assert IsLive(s, e) && IsLastEntry(ops, e.meta.id, e);
    }
  }

  lemma ByProjectIff(ops: seq<Op>, project: string)
    ensures var s := RunOf(ops);
            && (forall e | IsLive(s, e) && e.meta.projectId == project :: e in ByProject(s, project))
            && (forall e | e in ByProject(s, project) :: IsLive(s, e))
            && ((forall e :: e in ByProject(s, project) <==> IsLive(s, e) && e.meta.projectId == project)
                <==> forall id :: !MovedFromProject(ops, id, project))
  {
    hide PutInProject, IsLastEntry, RunOf, Listed, Live;
    var s := RunOf(ops);
    RunsAreIndexed(ops);
    LiveAmong(s, Listed(s.projectIndex, project));
    forall id, e
      ensures id in Listed(s.projectIndex, project) <==> PutInProject(ops, id, project)
      ensures id in s.entries && s.entries[id] == e <==> IsLastEntry(ops, id, e)
    {
      ListedIff(ops, id, project);
      LiveIff(ops, id, e);
    }
    forall id | MovedFromProject(ops, id, project)
      ensures exists e :: e in ByProject(s, project) && e.meta.projectId != project {
      var e :| IsLastEntry(ops, id, e) && e.meta.projectId != project;
      assert s.entries[id] == e && e.meta.id == id;
      assert e in ByProject(s, project);
    }
    forall e | e in ByProject(s, project) && e.meta.projectId != project
      ensures MovedFromProject(ops, e.meta.id, project) {
      assert IsLive(s, e) && IsLastEntry(ops, e.meta.id, e);
    }
  }

  /** An id stored in one language and then in another is still returned for the first. */
  lemma MovedEntryIsReturned(e1: Entry, e2: Entry)
    requires e1.meta.id == e2.meta.id && e1.meta.langId != e2.meta.langId
    ensures e2 in ByLanguage(RunOf([Upsert(e1), Upsert(e2)]), e1.meta.langId)
  {
    var ops := [Upsert(e1), Upsert(e2)];
    var s := RunOf(ops);
    assert ops[..1] == [Upsert(e1)] && ops[..1][..0] == [];
    assert RunOf(ops[..1]) == Done(EMPTY, Upsert(e1));
    assert e1.meta.id in Listed(s.langIndex, e1.meta.langId);
    LiveMembers(s.entries, Listed(s.langIndex, e1.meta.langId), e2);
  }

  // ----- Ids that never move -----

  /** An id always carries the same language and project. */
  predicate Steady(ops: seq<Op>) {
    forall i, j | 0 <= i < j < |ops| && ops[i].Upsert? && ops[j].Upsert?
             && ops[i].entry.meta.id == ops[j].entry.meta.id ::
      SamePlace(ops[i].entry.meta, ops[j].entry.meta)
  }

  predicate SamePlace(a: Meta, b: Meta) {
    a.langId == b.langId && a.projectId == b.projectId
  }

  lemma SteadyAgrees(ops: seq<Op>, i: int, j: int, id: Id)
    requires Steady(ops) && PutsAt(ops, i, id) && PutsAt(ops, j, id)
    ensures SamePlace(ops[i].entry.meta, ops[j].entry.meta)
  {
    if i != j {
      var a, b := if i < j then i else j, if i < j then j else i;
      assert SamePlace(ops[a].entry.meta, ops[b].entry.meta);
    }
  }

  lemma SteadyNeverMoves(ops: seq<Op>, id: Id, key: string)
    requires Steady(ops)
    ensures !MovedFromLanguage(ops, id, key) && !MovedFromProject(ops, id, key)
  {
    forall i, j | PutsAt(ops, i, id) && PutsAt(ops, j, id)
      ensures SamePlace(ops[i].entry.meta, ops[j].entry.meta)
    {
      SteadyAgrees(ops, i, j, id);
    }
  }

  /** While ids keep their language and project, both queries return, as sets, exactly the live
      entries asked for. */
  lemma SteadyQueriesAreExact(ops: seq<Op>, key: string)
    requires Steady(ops)
    ensures var s := RunOf(ops);
            && (forall e :: e in ByLanguage(s, key) <==> IsLive(s, e) && e.meta.langId == key)
            && (forall e :: e in ByProject(s, key) <==> IsLive(s, e) && e.meta.projectId == key)
  {
    hide *;
    forall id ensures !MovedFromLanguage(ops, id, key) && !MovedFromProject(ops, id, key) {
      SteadyNeverMoves(ops, id, key);
    }
    ByLanguageIff(ops, key);
    ByProjectIff(ops, key);
  }
}
