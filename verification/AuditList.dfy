/**
 Listing the audit log: the in-memory filter, stable sort and cap, and the SQL query that
 PgStore builds, interpreted over the rows of the table.
 */
module AuditList {
  import opened Wrappers
  import opened Sorting

  datatype Entry = Entry(
    id: nat, actorID: string, action: string, resourceType: string, resourceID: string,
    details: string, before: Option<string>, after: Option<string>, createdAt: int)

  /** Empty strings, absent times and a non-positive limit mean "no bound". */
  datatype ListFilter = ListFilter(
    actorID: string, action: string, resourceType: string, resourceID: string,
    since: Option<int>, until: Option<int>, limit: int)

  const DEFAULT_LIST_LIMIT: nat := 100
  const MAX_LIST_LIMIT: nat := 1000

  function Limit(f: ListFilter): (n: nat)
    ensures 0 < n <= MAX_LIST_LIMIT
  {
    if f.limit <= 0 then DEFAULT_LIST_LIMIT else if f.limit > MAX_LIST_LIMIT then MAX_LIST_LIMIT else f.limit
  }

  predicate Matches(f: ListFilter, e: Entry) {
    && (f.actorID != "" ==> e.actorID == f.actorID)
    && (f.action != "" ==> e.action == f.action)
    && (f.resourceType != "" ==> e.resourceType == f.resourceType)
    && (f.resourceID != "" ==> e.resourceID == f.resourceID)
    && (f.since.Some? ==> e.createdAt >= f.since.value)
    && (f.until.Some? ==> e.createdAt <= f.until.value)
  }

  /** The list path returns copies without the before and after blobs. */
  function Elide(e: Entry): Entry {
    e.(before := None, after := None)
  }

  predicate Newer(x: Entry, y: Entry) {
    x.createdAt > y.createdAt
  }

  function Matching(f: ListFilter): Entry -> bool {
    (e: Entry) => Matches(f, e)
  }

  function Newest(f: ListFilter, entries: seq<Entry>): seq<Entry> {
    Sort(Newer, Filter(Matching(f), entries))
  }

  function Take<T>(s: seq<T>, n: nat): seq<T> {
    if |s| > n then s[..n] else s
  }

  function MemoryList(f: ListFilter, entries: seq<Entry>): seq<Entry> {
    Map(Elide, Take(Newest(f, entries), Limit(f)))
  }

  /** Entries as MemoryStore.Insert appends them. */
  ghost predicate AscendingIds(s: seq<Entry>) {
    forall i, j :: 0 <= i < j < |s| ==> s[i].id < s[j].id
  }

  class MemoryStore {
    var nextID: nat
    var entries: seq<Entry>

    /** Ids grow in insertion order. */
    ghost predicate Valid() reads this {
      AscendingIds(entries) && forall e :: e in entries ==> e.id <= nextID
    }

    constructor ()
      ensures Valid() && entries == []
    {
      nextID := 0;
      entries := [];
    }

    /** `now` is read when the entry brings no timestamp; action and resource type are required. */
    method Insert(e: Entry, hasTime: bool, now: int) returns (row: Option<Entry>)
      requires Valid()
      modifies this
      ensures Valid()
      ensures row.None? <==> e.action == "" || e.resourceType == ""
      ensures entries == if row.Some? then old(entries) + [row.value] else old(entries)
      ensures row.Some? ==>
        row.value == e.(id := old(nextID) + 1, createdAt := if hasTime then e.createdAt else now)
    {
      if e.action == "" {
        return None;
      }
      if e.resourceType == "" {
        return None;
      }
      nextID := nextID + 1;
      var added := e.(id := nextID, createdAt := if hasTime then e.createdAt else now);
      entries := entries + [added];
      return Some(added);
    }

    method List(f: ListFilter) returns (out: seq<Entry>)
      ensures out == MemoryList(f, entries)
    {
      var limit := f.limit;
      if limit <= 0 {
        limit := DEFAULT_LIST_LIMIT;
      }
      if limit > MAX_LIST_LIMIT {
        limit := MAX_LIST_LIMIT;
      }
      var matched: seq<Entry> := [];
      ghost var p := Matching(f);
      for i := 0 to |entries|
        invariant matched == Filter(p, entries[..i])
      {
        var e := entries[i];
        assert entries[..i + 1][..i] == entries[..i];
        if f.actorID != "" && e.actorID != f.actorID {
          continue;
        }
        if f.action != "" && e.action != f.action {
          continue;
        }
        if f.resourceType != "" && e.resourceType != f.resourceType {
          continue;
        }
        if f.resourceID != "" && e.resourceID != f.resourceID {
          continue;
        }
        if f.since.Some? && e.createdAt < f.since.value {
          continue;
        }
        if f.until.Some? && e.createdAt > f.until.value {
          continue;
        }
        matched := matched + [e];
      }
      assert entries[..|entries|] == entries;
      matched := Sort(Newer, matched);
      if |matched| > limit {
        matched := matched[..limit];
      }
      ghost var kept := matched;
      out := [];
      for i := 0 to |matched|
        invariant out == Map(Elide, kept[..i])
      {
        out := out + [matched[i].(before := None, after := None)];
      }
      assert kept[..|kept|] == kept;
    }
  }

  // ---- the SQL side ----

  /** A table row; empty optional strings are stored as NULL. */
  datatype Row = Row(
    id: nat, actorID: Option<string>, action: string, resourceType: string, resourceID: Option<string>,
    details: string, before: Option<string>, after: Option<string>, createdAt: int)

  function NullString(s: string): Option<string> {
    if s == "" then None else Some(s)
  }

  function TextOf(o: Option<string>): string {
    if o.Some? then o.value else ""
  }

  function ToRow(e: Entry): Row {
    Row(e.id, NullString(e.actorID), e.action, e.resourceType, NullString(e.resourceID),
        e.details, e.before, e.after, e.createdAt)
  }

  /** scanAuditRow on the list path. */
  function Scan(r: Row): Entry {
    Entry(r.id, TextOf(r.actorID), r.action, r.resourceType, TextOf(r.resourceID), r.details, None, None, r.createdAt)
  }

  datatype Column = ActorID | Action | ResourceType | ResourceID | CreatedAt
  datatype Operator = Equal | AtLeast | AtMost
  datatype Value = Text(text: string) | Time(at: int) | Count(n: nat)

  /** `column operator $placeholder`. */
  datatype Cond = Cond(column: Column, operator: Operator, placeholder: nat)

  /** SELECT ... WHERE conds ORDER BY created_at DESC, id DESC LIMIT $limit, with its arguments. */
  datatype Query = Query(conds: seq<Cond>, args: seq<Value>, limit: nat)

  function Argument(args: seq<Value>, placeholder: nat): Option<Value> {
    if 1 <= placeholder <= |args| then Some(args[placeholder - 1]) else None
  }

  function Cell(r: Row, c: Column): Option<Value> {
    match c
    case ActorID => if r.actorID.Some? then Some(Text(r.actorID.value)) else None
    case Action => Some(Text(r.action))
    case ResourceType => Some(Text(r.resourceType))
    case ResourceID => if r.resourceID.Some? then Some(Text(r.resourceID.value)) else None
    case CreatedAt => Some(Time(r.createdAt))
  }

  /** A comparison with NULL, or of different types, does not hold. */
  predicate Compare(x: Option<Value>, op: Operator, y: Option<Value>) {
    match (x, op, y)
    case (Some(v), Equal, Some(w)) => v == w
    case (Some(Time(v)), AtLeast, Some(Time(w))) => v >= w
    case (Some(Time(v)), AtMost, Some(Time(w))) => v <= w
    case _ => false
  }

  predicate Holds(c: Cond, args: seq<Value>, r: Row) {
    Compare(Cell(r, c.column), c.operator, Argument(args, c.placeholder))
  }

  predicate Where(q: Query, r: Row) {
    forall c :: c in q.conds ==> Holds(c, q.args, r)
  }

  predicate NewerRow(x: Row, y: Row) {
    x.createdAt > y.createdAt || (x.createdAt == y.createdAt && x.id > y.id)
  }

  function LimitOf(q: Query): nat {
    match Argument(q.args, q.limit)
    case Some(Count(n)) => n
    case _ => 0
  }

  function Selected(q: Query): Row -> bool {
    (r: Row) => Where(q, r)
  }

  /** What the database returns. */
  function Select(q: Query, table: seq<Row>): seq<Row> {
    Take(Sort(NewerRow, Filter(Selected(q), table)), LimitOf(q))
  }

  // ---- building the query ----

  /** A predicate the filter asks for: column, operator and the value to bind. */
  datatype Predicate = Predicate(column: Column, operator: Operator, value: Value)

  function Asked(p: Predicate, asked: bool): seq<Predicate> {
    if asked then [p] else []
  }

  function TextPredicates(f: ListFilter): seq<Predicate> {
    Asked(Predicate(ActorID, Equal, Text(f.actorID)), f.actorID != "")
    + Asked(Predicate(Action, Equal, Text(f.action)), f.action != "")
    + Asked(Predicate(ResourceType, Equal, Text(f.resourceType)), f.resourceType != "")
    + Asked(Predicate(ResourceID, Equal, Text(f.resourceID)), f.resourceID != "")
  }

  function TimePredicates(f: ListFilter): seq<Predicate> {
    Asked(Predicate(CreatedAt, AtLeast, Time(if f.since.Some? then f.since.value else 0)), f.since.Some?)
    + Asked(Predicate(CreatedAt, AtMost, Time(if f.until.Some? then f.until.value else 0)), f.until.Some?)
  }

  function CondsOf(ps: seq<Predicate>): seq<Cond> {
    seq(|ps|, i requires 0 <= i < |ps| => Cond(ps[i].column, ps[i].operator, i + 1))
  }

  function ArgsOf(ps: seq<Predicate>): seq<Value> {
    seq(|ps|, i requires 0 <= i < |ps| => ps[i].value)
  }

  function Build(f: ListFilter): Query {
    var ps := TextPredicates(f) + TimePredicates(f);
    Query(CondsOf(ps), ArgsOf(ps) + [Count(Limit(f))], |ps| + 1)
  }

  /** Appends one predicate: the value first, so that its placeholder is the new length. */
  method Append(conds: seq<Cond>, args: seq<Value>, p: Predicate, asked: bool, ghost ps: seq<Predicate>)
    returns (conds': seq<Cond>, args': seq<Value>)
    requires conds == CondsOf(ps) && args == ArgsOf(ps)
    ensures conds' == CondsOf(ps + Asked(p, asked)) && args' == ArgsOf(ps + Asked(p, asked))
  {
    conds', args' := conds, args;
    if asked {
      args' := args' + [p.value];
      conds' := conds' + [Cond(p.column, p.operator, |args'|)];
    }
  }

  method AppendTexts(f: ListFilter) returns (conds: seq<Cond>, args: seq<Value>)
    ensures conds == CondsOf(TextPredicates(f)) && args == ArgsOf(TextPredicates(f))
  {
    var actor, action := Predicate(ActorID, Equal, Text(f.actorID)), Predicate(Action, Equal, Text(f.action));
    var kind, resource := Predicate(ResourceType, Equal, Text(f.resourceType)), Predicate(ResourceID, Equal, Text(f.resourceID));
    ghost var one := Asked(actor, f.actorID != "");
    ghost var two := one + Asked(action, f.action != "");
    ghost var three := two + Asked(kind, f.resourceType != "");
    conds, args := Append([], [], actor, f.actorID != "", []);
    assert [] + one == one;
    conds, args := Append(conds, args, action, f.action != "", one);
    conds, args := Append(conds, args, kind, f.resourceType != "", two);
    conds, args := Append(conds, args, resource, f.resourceID != "", three);
  }

  method BuildQuery(f: ListFilter) returns (q: Query)
    ensures q == Build(f)
  {
    var limit := f.limit;
    if limit <= 0 {
      limit := DEFAULT_LIST_LIMIT;
    }
    if limit > MAX_LIST_LIMIT {
      limit := MAX_LIST_LIMIT;
    }
    var conds, args := AppendTexts(f);
    ghost var ps := TextPredicates(f);
    var since := Predicate(CreatedAt, AtLeast, Time(if f.since.Some? then f.since.value else 0));
    conds, args := Append(conds, args, since, f.since.Some?, ps);
    ps := ps + Asked(since, f.since.Some?);
    var until := Predicate(CreatedAt, AtMost, Time(if f.until.Some? then f.until.value else 0));
    conds, args := Append(conds, args, until, f.until.Some?, ps);
    ps := ps + Asked(until, f.until.Some?);
    assert ps == TextPredicates(f) + TimePredicates(f);
    args := args + [Count(limit)];
    return Query(conds, args, |args|);
  }

  predicate Satisfies(r: Row, p: Predicate) {
    Compare(Cell(r, p.column), p.operator, Some(p.value))
  }

  /** Read with its bound arguments, the i-th condition is the i-th predicate asked for. */
  lemma WhereIsPredicates(ps: seq<Predicate>, more: seq<Value>, limit: nat, r: Row)
    ensures Where(Query(CondsOf(ps), ArgsOf(ps) + more, limit), r) <==> forall p :: p in ps ==> Satisfies(r, p)
  {
    var q := Query(CondsOf(ps), ArgsOf(ps) + more, limit);
    forall i | 0 <= i < |ps|
      ensures Holds(q.conds[i], q.args, r) == Satisfies(r, ps[i])
    {
      assert q.args[i] == ps[i].value;
    }
    if Where(q, r) {
      forall p | p in ps
        ensures Satisfies(r, p)
      {
        var i :| 0 <= i < |ps| && ps[i] == p;
        assert q.conds[i] in q.conds;
      }
    }
    if forall p :: p in ps ==> Satisfies(r, p) {
      forall c | c in q.conds
        ensures Holds(c, q.args, r)
      {
        var i :| 0 <= i < |q.conds| && q.conds[i] == c;
        assert ps[i] in ps;
      }
    }
  }

  lemma TextPredicatesMean(f: ListFilter, r: Row)
    ensures (forall p :: p in TextPredicates(f) ==> Satisfies(r, p)) <==>
      && (f.actorID != "" ==> r.actorID == Some(f.actorID))
      && (f.action != "" ==> r.action == f.action)
      && (f.resourceType != "" ==> r.resourceType == f.resourceType)
      && (f.resourceID != "" ==> r.resourceID == Some(f.resourceID))
  {
    var p0, p1 := Predicate(ActorID, Equal, Text(f.actorID)), Predicate(Action, Equal, Text(f.action));
    var p2, p3 := Predicate(ResourceType, Equal, Text(f.resourceType)), Predicate(ResourceID, Equal, Text(f.resourceID));
    assert p0 in TextPredicates(f) <==> f.actorID != "";
    assert p1 in TextPredicates(f) <==> f.action != "";
    assert p2 in TextPredicates(f) <==> f.resourceType != "";
    assert p3 in TextPredicates(f) <==> f.resourceID != "";
    assert forall p :: p in TextPredicates(f) ==> p == p0 || p == p1 || p == p2 || p == p3;
    assert Satisfies(r, p0) <==> r.actorID == Some(f.actorID);
    assert Satisfies(r, p1) <==> r.action == f.action;
    assert Satisfies(r, p2) <==> r.resourceType == f.resourceType;
    assert Satisfies(r, p3) <==> r.resourceID == Some(f.resourceID);
  }

  lemma TimePredicatesMean(f: ListFilter, r: Row)
    ensures (forall p :: p in TimePredicates(f) ==> Satisfies(r, p)) <==>
      && (f.since.Some? ==> r.createdAt >= f.since.value)
      && (f.until.Some? ==> r.createdAt <= f.until.value)
  {
    var p0 := Predicate(CreatedAt, AtLeast, Time(if f.since.Some? then f.since.value else 0));
    var p1 := Predicate(CreatedAt, AtMost, Time(if f.until.Some? then f.until.value else 0));
    assert p0 in TimePredicates(f) <==> f.since.Some?;
    assert p1 in TimePredicates(f) <==> f.until.Some?;
    assert forall p :: p in TimePredicates(f) ==> p == p0 || p == p1;
  }

  lemma NumberedArguments(ps: seq<Predicate>, last: Value)
    ensures forall i :: 0 <= i < |ps| ==> Argument(ArgsOf(ps) + [last], CondsOf(ps)[i].placeholder) == Some(ps[i].value)
    ensures Argument(ArgsOf(ps) + [last], |ps| + 1) == Some(last)
  {
    var args := ArgsOf(ps) + [last];
    assert args[|ps|] == last;
    assert forall i :: 0 <= i < |ps| ==> args[i] == ps[i].value;
  }

  /** Each placeholder denotes the value appended for its own predicate, and the last one the clamped limit. */
  lemma PlaceholdersDenoteTheirValues(f: ListFilter)
    ensures
      var q, ps := Build(f), TextPredicates(f) + TimePredicates(f);
      && |q.conds| == |ps|
      && (forall i :: 0 <= i < |ps| ==>
           q.conds[i].column == ps[i].column && Argument(q.args, q.conds[i].placeholder) == Some(ps[i].value))
      && (forall i, j :: 0 <= i < j < |ps| ==> q.conds[i].placeholder != q.conds[j].placeholder)
      && Argument(q.args, q.limit) == Some(Count(Limit(f)))
  {
    NumberedArguments(TextPredicates(f) + TimePredicates(f), Count(Limit(f)));
  }

  /** The WHERE clause, read with its bound arguments, is the in-memory filter. */
  lemma WhereIsMatches(f: ListFilter, e: Entry)
    ensures Where(Build(f), ToRow(e)) <==> Matches(f, e)
  {
    var texts, times := TextPredicates(f), TimePredicates(f);
    WhereIsPredicates(texts + times, [Count(Limit(f))], |texts + times| + 1, ToRow(e));
    TextPredicatesMean(f, ToRow(e));
    TimePredicatesMean(f, ToRow(e));
    assert (forall p :: p in texts + times ==> Satisfies(ToRow(e), p)) <==>
      (forall p :: p in texts ==> Satisfies(ToRow(e), p)) && (forall p :: p in times ==> Satisfies(ToRow(e), p));
  }

  // ---- the two stores ----

  /** Ties broken as insertion order breaks them, and as the SQL ORDER BY does. */
  predicate NewerThenOldId(x: Entry, y: Entry) {
    x.createdAt > y.createdAt || (x.createdAt == y.createdAt && x.id < y.id)
  }

  predicate NewerThenNewId(x: Entry, y: Entry) {
    x.createdAt > y.createdAt || (x.createdAt == y.createdAt && x.id > y.id)
  }

  lemma {:induction false} InsertBreaksTies(s: seq<Entry>, x: Entry)
    requires Sorted(NewerThenOldId, s) && forall e :: e in s ==> e.id < x.id
    ensures Sorted(NewerThenOldId, Insert(Newer, s, x))
  {
    if s != [] && Newer(x, s[|s| - 1]) {
      var front, last := s[..|s| - 1], s[|s| - 1];
      InsertBreaksTies(front, x);
      InsertIsPermutation(Newer, front, x);
      var inserted := Insert(Newer, front, x);
      forall i | 0 <= i < |inserted|
        ensures !NewerThenOldId(last, inserted[i])
      {
        assert inserted[i] in multiset(inserted);
        assert inserted[i] == x || inserted[i] in front;
      }
    } else if s != [] {
      forall i | 0 <= i < |s|
        ensures !NewerThenOldId(x, s[i])
      {
        assert s[i] in s;
        assert i < |s| - 1 ==> !NewerThenOldId(s[|s| - 1], s[i]);
      }
    }
  }

  /** The stable sort keeps equal timestamps in insertion order, that is by ascending id. */
  lemma {:induction false} StableSortBreaksTies(s: seq<Entry>)
    requires AscendingIds(s)
    ensures Sorted(NewerThenOldId, Sort(Newer, s))
  {
    if s != [] {
      var front := s[..|s| - 1];
      StableSortBreaksTies(front);
      SortIsPermutation(Newer, front);
      SameElements(Sort(Newer, front), front);
      InsertBreaksTies(Sort(Newer, front), s[|s| - 1]);
    }
  }

  function PgList(f: ListFilter, table: seq<Row>): seq<Entry> {
    Map(Scan, Select(Build(f), table))
  }

  function NewestById(f: ListFilter, entries: seq<Entry>): seq<Entry> {
    Sort(NewerThenNewId, Filter(Matching(f), entries))
  }

  lemma MapTake<T(!new), U(!new)>(g: T -> U, s: seq<T>, n: nat)
    ensures Take(Map(g, s), n) == Map(g, Take(s, n))
  {
  }

  lemma SortedRows(f: ListFilter, stored: seq<Entry>)
    ensures Sort(NewerRow, Filter(Selected(Build(f)), Map(ToRow, stored))) == Map(ToRow, NewestById(f, stored))
  {
    forall e | e in stored
      ensures Matching(f)(e) == Selected(Build(f))(ToRow(e))
    {
      WhereIsMatches(f, e);
    }
    FilterOfMap(ToRow, Selected(Build(f)), Matching(f), stored);
    SortOfMap(NewerThenNewId, NewerRow, ToRow, Filter(Matching(f), stored));
  }

  lemma ScanOfToRow(s: seq<Entry>)
    ensures Map(Scan, Map(ToRow, s)) == Map(Elide, s)
  {
    forall i | 0 <= i < |s|
      ensures Scan(ToRow(s[i])) == Elide(s[i])
    {
    }
  }

  lemma LimitIsBound(f: ListFilter)
    ensures LimitOf(Build(f)) == Limit(f)
  {
    PlaceholdersDenoteTheirValues(f);
  }

  class PgStore {
    var table: seq<Row>

    constructor (table: seq<Row>)
      ensures this.table == table
    {
      this.table := table;
    }

    method List(f: ListFilter) returns (out: seq<Entry>)
      ensures out == PgList(f, table)
    {
      var q := BuildQuery(f);
      var rows := Select(q, table);
      out := [];
      for i := 0 to |rows|
        invariant out == Map(Scan, rows[..i])
      {
        out := out + [Scan(rows[i])];
      }
      assert rows[..|rows|] == rows;
    }
  }

  /** The database's answer, brought back to entries. */
  lemma PgListIs(f: ListFilter, stored: seq<Entry>)
    ensures PgList(f, Map(ToRow, stored)) == Map(Elide, Take(NewestById(f, stored), Limit(f)))
  {
    SortedRows(f, stored);
    LimitIsBound(f);
    MapTake(ToRow, NewestById(f, stored), Limit(f));
    ScanOfToRow(Take(NewestById(f, stored), Limit(f)));
  }

  lemma {:induction false} FilteredIdsAscend(p: Entry -> bool, s: seq<Entry>)
    requires AscendingIds(s)
    ensures AscendingIds(Filter(p, s))
  {
    if s != [] {
      FilteredIdsAscend(p, s[..|s| - 1]);
      FilterElements(p, s[..|s| - 1]);
      var front := Filter(p, s[..|s| - 1]);
      forall i | 0 <= i < |front|
        ensures front[i].id < s[|s| - 1].id
      {
        assert front[i] in s[..|s| - 1];
      }
    }
  }

  lemma SamePopulation(f: ListFilter, entries: seq<Entry>, stored: seq<Entry>)
    requires multiset(stored) == multiset(entries)
    ensures multiset(Newest(f, entries)) == multiset(NewestById(f, stored))
  {
    FilterOfPermutation(Matching(f), entries, stored);
    SortIsPermutation(Newer, Filter(Matching(f), entries));
    SortIsPermutation(NewerThenNewId, Filter(Matching(f), stored));
  }

  lemma BothSorted(f: ListFilter, entries: seq<Entry>, stored: seq<Entry>)
    requires AscendingIds(entries)
    ensures Sorted(NewerThenOldId, Newest(f, entries)) && Sorted(NewerThenNewId, NewestById(f, stored))
  {
    FilteredIdsAscend(Matching(f), entries);
    StableSortBreaksTies(Filter(Matching(f), entries));
    SortSorted(NewerThenNewId, Filter(Matching(f), stored));
  }

  /** An arrangement of entries that are told apart by their ids. */
  ghost predicate OneEach(a: seq<Entry>) {
    forall i, j :: 0 <= i < j < |a| ==> a[i].id != a[j].id
  }

  /** Distinctness survives rearrangement: each entry occurs once, and ids differ. */
  lemma OneEachKept(s: seq<Entry>, a: seq<Entry>)
    requires AscendingIds(s) && multiset(a) == multiset(s)
    ensures OneEach(a)
  {
    SameElements(a, s);
    forall i, j | 0 <= i < j < |a|
      ensures a[i].id != a[j].id
    {
      if a[i] == a[j] {
        CountTwice(a, i, j);
        OnceInMultiset(s, a[i]);
      } else {
        assert a[i] in s && a[j] in s;
      }
    }
  }

  lemma {:induction false} OnceInMultiset(s: seq<Entry>, x: Entry)
    requires AscendingIds(s)
    ensures multiset(s)[x] <= 1
  {
    if s != [] {
      OnceInMultiset(s[..|s| - 1], x);
      assert s == s[..|s| - 1] + [s[|s| - 1]];
      if x == s[|s| - 1] {
        assert x !in s[..|s| - 1];
      }
    }
  }

  lemma TimesAlign(a: seq<Entry>, b: seq<Entry>)
    requires multiset(a) == multiset(b)
    requires Sorted(NewerThenOldId, a) && Sorted(NewerThenNewId, b)
    ensures |a| == |b| && forall i :: 0 <= i < |a| ==> a[i].createdAt == b[i].createdAt
  {
    assert Sorted(Newer, a);
    assert Sorted(Newer, b);
    SortedArrangementsAlign(Newer, a, b);
  }

  /** No entry that makes it into the list shares its timestamp with another matching entry. */
  ghost predicate NoTieWithinLimit(newest: seq<Entry>, limit: nat) {
    forall i, j :: 0 <= i < |newest| && i < limit && 0 <= j < |newest| && i != j ==>
      newest[i].createdAt != newest[j].createdAt
  }

  lemma NoTieAgrees(a: seq<Entry>, b: seq<Entry>, limit: nat)
    requires multiset(a) == multiset(b) && |a| == |b|
    requires forall i :: 0 <= i < |a| ==> a[i].createdAt == b[i].createdAt
    requires NoTieWithinLimit(a, limit)
    ensures Take(a, limit) == Take(b, limit)
  {
    SameElements(a, b);
    forall i | 0 <= i < |a| && i < limit
      ensures a[i] == b[i]
    {
      assert b[i] in a;
      var j :| 0 <= j < |a| && a[j] == b[i];
    }
  }

  /** Where the group of entries with a[i]'s timestamp begins. */
  lemma {:induction false} GroupStart(a: seq<Entry>, i: nat) returns (first: nat)
    requires i < |a| && Sorted(NewerThenOldId, a)
    ensures first <= i && a[first].createdAt == a[i].createdAt
    ensures forall k :: 0 <= k < first ==> a[k].createdAt > a[i].createdAt
  {
    first := i;
    while first > 0 && a[first - 1].createdAt == a[i].createdAt
      invariant 0 <= first <= i && a[first].createdAt == a[i].createdAt
    {
      first := first - 1;
    }
    forall k | 0 <= k < first
      ensures a[k].createdAt > a[i].createdAt
    {
      assert !NewerThenOldId(a[first], a[first - 1]);
      assert k < first - 1 ==> !NewerThenOldId(a[first - 1], a[k]);
    }
  }

  /** In a group of ties the two orders begin with different entries. */
  lemma TieDisagrees(a: seq<Entry>, b: seq<Entry>, limit: nat, i: nat, j: nat)
    requires multiset(a) == multiset(b) && |a| == |b| && OneEach(a)
    requires Sorted(NewerThenOldId, a) && Sorted(NewerThenNewId, b)
    requires forall k :: 0 <= k < |a| ==> a[k].createdAt == b[k].createdAt
    requires i < |a| && i < limit && j < |a| && i != j && a[i].createdAt == a[j].createdAt
    ensures exists k :: 0 <= k < |a| && k < limit && a[k].id != b[k].id
  {
    var first := GroupStart(a, i);
    var other := if first == i then j else i;
    assert first < other && a[first].id < a[other].id by {
      assert !NewerThenOldId(a[other], a[first]);
    }
    SameElements(a, b);
    assert a[other] in b;
    var m :| 0 <= m < |b| && b[m] == a[other];
    assert m >= first;
    if m > first {
      assert !NewerThenNewId(b[m], b[first]);
    }
    assert a[first].id != b[first].id;
  }

  lemma ElidedPrefixes(a: seq<Entry>, b: seq<Entry>, limit: nat, k: nat)
    requires |a| == |b| && k < |a| && k < limit && a[k].id != b[k].id
    ensures Map(Elide, Take(a, limit)) != Map(Elide, Take(b, limit))
  {
    var x, y := Map(Elide, Take(a, limit)), Map(Elide, Take(b, limit));
    assert x[k].id == a[k].id && y[k].id == b[k].id;
  }

  // ---- what a listing is ----

  /** 100 unless the caller asks for another number, and never more than 1000. */
  function PageSize(f: ListFilter): nat {
    if f.limit <= 0 then 100 else if f.limit > 1000 then 1000 else f.limit
  }

  ghost predicate Shows(out: seq<Entry>, e: Entry) {
    exists i :: 0 <= i < |out| && out[i] == e.(before := None, after := None)
  }

  /**
   The listing holds matching entries without their blobs, in strict order and at most PageSize of them;
   a matching entry that is not shown comes after all that are, and then the page is full.
   */
  ghost predicate Page(out: seq<Entry>, f: ListFilter, entries: seq<Entry>, first: (Entry, Entry) -> bool) {
    && |out| <= PageSize(f)
    && (forall i :: 0 <= i < |out| ==>
          exists e :: e in entries && Matches(f, e) && out[i] == e.(before := None, after := None))
    && (forall i, j :: 0 <= i < j < |out| ==> first(out[i], out[j]))
    && (forall e :: e in entries && Matches(f, e) ==>
          Shows(out, e) || (|out| == PageSize(f) && forall i :: 0 <= i < |out| ==> first(out[i], e)))
  }

  /** Told apart by their ids, and blind to the blobs. */
  ghost predicate ById(first: (Entry, Entry) -> bool) {
    && (forall x: Entry, y: Entry :: x.id != y.id ==> first(x, y) || first(y, x))
    && (forall x: Entry, y: Entry :: first(Elide(x), y) == first(x, y) && first(x, Elide(y)) == first(x, y))
  }

  lemma StrictlyOrdered(newest: seq<Entry>, first: (Entry, Entry) -> bool, i: nat, j: nat)
    requires OneEach(newest) && Sorted(first, newest) && ById(first) && i < j < |newest|
    ensures first(newest[i], newest[j]) && first(Elide(newest[i]), Elide(newest[j])) && first(Elide(newest[i]), newest[j])
  {
  }

  lemma PageShows(f: ListFilter, newest: seq<Entry>, first: (Entry, Entry) -> bool, e: Entry)
    requires OneEach(newest) && Sorted(first, newest) && ById(first) && e in newest
    ensures
      var out := Map(Elide, Take(newest, Limit(f)));
      Shows(out, e) || (|out| == PageSize(f) && forall i :: 0 <= i < |out| ==> first(out[i], e))
  {
    var out := Map(Elide, Take(newest, Limit(f)));
    var k :| 0 <= k < |newest| && newest[k] == e;
    if k < |out| {
      assert out[k] == e.(before := None, after := None);
    } else {
      forall i | 0 <= i < |out|
        ensures first(out[i], e)
      {
        StrictlyOrdered(newest, first, i, k);
      }
    }
  }

  lemma PageOf(f: ListFilter, entries: seq<Entry>, newest: seq<Entry>, first: (Entry, Entry) -> bool)
    requires multiset(newest) == multiset(Filter(Matching(f), entries))
    requires OneEach(newest) && Sorted(first, newest) && ById(first)
    ensures Page(Map(Elide, Take(newest, Limit(f))), f, entries, first)
  {
    var out := Map(Elide, Take(newest, Limit(f)));
    SameElements(newest, Filter(Matching(f), entries));
    FilterElements(Matching(f), entries);
    forall i | 0 <= i < |out|
      ensures exists e :: e in entries && Matches(f, e) && out[i] == e.(before := None, after := None)
    {
      assert newest[i] in newest && out[i] == newest[i].(before := None, after := None);
    }
    forall i, j | 0 <= i < j < |out|
      ensures first(out[i], out[j])
    {
      StrictlyOrdered(newest, first, i, j);
    }
    forall e | e in entries && Matches(f, e)
      ensures Shows(out, e) || (|out| == PageSize(f) && forall i :: 0 <= i < |out| ==> first(out[i], e))
    {
      assert e in newest;
      PageShows(f, newest, first, e);
    }
  }

  /** The in-memory listing: the newest matching entries, the older id first among equal timestamps. */
  lemma MemoryListIsPage(f: ListFilter, entries: seq<Entry>)
    requires AscendingIds(entries)
    ensures Page(MemoryList(f, entries), f, entries, NewerThenOldId)
  {
    FilteredIdsAscend(Matching(f), entries);
    SortIsPermutation(Newer, Filter(Matching(f), entries));
    OneEachKept(Filter(Matching(f), entries), Newest(f, entries));
    BothSorted(f, entries, entries);
    TieBreaksAreById();
    PageOf(f, entries, Newest(f, entries), NewerThenOldId);
  }

  lemma SameMatches(f: ListFilter, entries: seq<Entry>, stored: seq<Entry>)
    requires multiset(stored) == multiset(entries)
    ensures multiset(NewestById(f, stored)) == multiset(Filter(Matching(f), entries))
  {
    FilterOfPermutation(Matching(f), entries, stored);
    SortIsPermutation(NewerThenNewId, Filter(Matching(f), stored));
  }

  lemma TieBreaksAreById()
    ensures ById(NewerThenOldId) && ById(NewerThenNewId)
  {
  }

  lemma NewestByIdIsPage(f: ListFilter, entries: seq<Entry>, stored: seq<Entry>)
    requires AscendingIds(entries) && multiset(stored) == multiset(entries)
    ensures Page(Map(Elide, Take(NewestById(f, stored), Limit(f))), f, entries, NewerThenNewId)
  {
    FilteredIdsAscend(Matching(f), entries);
    SameMatches(f, entries, stored);
    OneEachKept(Filter(Matching(f), entries), NewestById(f, stored));
    BothSorted(f, entries, stored);
    TieBreaksAreById();
    PageOf(f, entries, NewestById(f, stored), NewerThenNewId);
  }

  /** The SQL listing, whatever the physical order of the table: the newer id first. */
  lemma PgListIsPage(f: ListFilter, entries: seq<Entry>, stored: seq<Entry>)
    requires AscendingIds(entries) && multiset(stored) == multiset(entries)
    ensures Page(PgList(f, Map(ToRow, stored)), f, entries, NewerThenNewId)
  {
    NewestByIdIsPage(f, entries, stored);
    PgListIs(f, stored);
  }

  /**
   For every filter, every log and every physical order of the table: the two stores list
   the same entries in the same order exactly when no listed entry shares its timestamp
   with another matching entry (as when all timestamps are distinct).
   */
  lemma ListsAgreeExactly(f: ListFilter, entries: seq<Entry>, stored: seq<Entry>)
    requires AscendingIds(entries) && multiset(stored) == multiset(entries)
    ensures MemoryList(f, entries) == PgList(f, Map(ToRow, stored))
       <==> NoTieWithinLimit(Newest(f, entries), Limit(f))
  {
    var a, b := Newest(f, entries), NewestById(f, stored);
    PgListIs(f, stored);
    SamePopulation(f, entries, stored);
    BothSorted(f, entries, stored);
    TimesAlign(a, b);
    FilteredIdsAscend(Matching(f), entries);
    SortIsPermutation(Newer, Filter(Matching(f), entries));
    OneEachKept(Filter(Matching(f), entries), a);
    if NoTieWithinLimit(a, Limit(f)) {
      NoTieAgrees(a, b, Limit(f));
    } else {
      var i, j :| 0 <= i < |a| && i < Limit(f) && 0 <= j < |a| && i != j && a[i].createdAt == a[j].createdAt;
      TieDisagrees(a, b, Limit(f), i, j);
      var k :| 0 <= k < |a| && k < Limit(f) && a[k].id != b[k].id;
      ElidedPrefixes(a, b, Limit(f), k);
    }
  }

  /** Two entries of one instant: the in-memory list gives the older id first, the SQL list the newer. */
  lemma EqualTimestampsSplitTheLists(x: Entry, y: Entry)
    requires x.id == 1 && y.id == 2 && x.createdAt == y.createdAt
    ensures
      var f := ListFilter("", "", "", "", None, None, 0);
      MemoryList(f, [x, y]) != PgList(f, Map(ToRow, [x, y]))
  {
    var f := ListFilter("", "", "", "", None, None, 0);
    TiedPair(f, x, y);
    ListsAgreeExactly(f, [x, y], [x, y]);
  }

  lemma TiedPair(f: ListFilter, x: Entry, y: Entry)
    requires f == ListFilter("", "", "", "", None, None, 0) && x.createdAt == y.createdAt
    ensures !NoTieWithinLimit(Newest(f, [x, y]), Limit(f))
  {
    var both := [x, y];
    assert both[..1] == [x] && [x][..0] == [];
    assert Filter(Matching(f), [x]) == [x];
    assert Filter(Matching(f), both) == both;
    assert Sort(Newer, [x]) == [x];
    assert Sort(Newer, both) == both;
    assert both[0].createdAt == both[1].createdAt;
  }
}
