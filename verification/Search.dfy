/**
  Full-text search in two steps: ranked ids from the index column, then the rows
  themselves through the scoped client. And the trigger that keeps the column.
*/
module Search {
  import opened Common
  import opened Lifecycle

  const PAGE: nat := 50

  /** The weighted parts of a search vector: title (A), approved AI text (B), metadata (C). */
  datatype Vector = Vector(title: string, text: string, metadata: string)

  datatype Row = Row(tenant: Id, title: string, metadata: string, contentType: ContentType, eventType: Option<Id>,
                     lifecycle: LifecycleStatus, createdAt: int, deleted: bool, vector: Vector)

  type Table = map<Id, Row>

  /** The database's text search: whether a vector matches a query, and how well. */
  datatype TextSearch = TextSearch(matches: (Vector, string) -> bool, rank: (Vector, string) -> real)

  datatype Query = Query(q: Option<string>, contentType: Option<ContentType>, eventType: Option<Id>,
                         lifecycle: Option<LifecycleStatus>, dateFrom: Option<int>, dateTo: Option<int>)

  datatype Condition =
    | TenantIs(tenant: Id)
    | ContentTypeIs(contentType: ContentType)
    | EventTypeIs(eventType: Id)
    | LifecycleIs(lifecycle: LifecycleStatus)
    | CreatedFrom(at: int)
    | CreatedTo(at: int)
    | TextMatches(q: string)

  datatype Order = NewestFirst | BestMatchFirst(q: string)

  // -------------------------------------------------------- what a search asks for

  /** JavaScript's white space and line terminators. */
  predicate IsSpace(c: char) {
    || c == ' ' || ('\t' <= c <= '\r') || c == '\U{A0}' || c == '\U{1680}' || ('\U{2000}' <= c <= '\U{200A}')
    || c == '\U{2028}' || c == '\U{2029}' || c == '\U{202F}' || c == '\U{205F}' || c == '\U{3000}' || c == '\U{FEFF}'
  }

  /** The white space by code point. */
  lemma SpacesAre(c: char)
    ensures var n := c as int;
            IsSpace(c) <==>
            || 9 <= n <= 13 || n == 32 || n == 160 || n == 5760 || 8192 <= n <= 8202
            || n == 8232 || n == 8233 || n == 8239 || n == 8287 || n == 12288 || n == 65279
    ensures !IsSpace('a') && !IsSpace('0') && !IsSpace('-') && IsSpace(' ') && IsSpace('\n')
  {
  }

  function TrimStart(s: string): string {
    if s != "" && IsSpace(s[0]) then TrimStart(s[1..]) else s
  }

  function TrimEnd(s: string): string {
    if s != "" && IsSpace(s[|s| - 1]) then TrimEnd(s[..|s| - 1]) else s
  }

  function Trim(s: string): string {
    TrimEnd(TrimStart(s))
  }

  /** `q?.trim()` is truthy. */
  predicate HasText(q: Option<string>) {
    q.Some? && Trim(q.value) != ""
  }

  lemma {:induction false} TrimStartKeeps(s: string, c: char)
    requires !IsSpace(c)
    ensures c in s <==> c in TrimStart(s)
  {
    if s != "" && IsSpace(s[0]) {
      assert s == [s[0]] + s[1..];
      TrimStartKeeps(s[1..], c);
    }
  }

  lemma {:induction false} TrimEndKeeps(s: string, c: char)
    requires !IsSpace(c)
    ensures c in s <==> c in TrimEnd(s)
  {
    if s != "" && IsSpace(s[|s| - 1]) {
      assert s == s[..|s| - 1] + [s[|s| - 1]];
      TrimEndKeeps(s[..|s| - 1], c);
    }
  }

  lemma {:induction false} TrimEndEdge(s: string)
    ensures TrimEnd(s) != "" ==> !IsSpace(TrimEnd(s)[|TrimEnd(s)| - 1])
  {
    if s != "" && IsSpace(s[|s| - 1]) {
      TrimEndEdge(s[..|s| - 1]);
    }
  }

  /** Trimming leaves something exactly when some character is not white space. */
  lemma TrimMeans(s: string)
    ensures Trim(s) != "" <==> exists c | c in s :: !IsSpace(c)
  {
    if c :| c in s && !IsSpace(c) {
      TrimStartKeeps(s, c);
      TrimEndKeeps(TrimStart(s), c);
    } else {
      TrimEndEdge(TrimStart(s));
      if Trim(s) != "" {
        var last := Trim(s)[|Trim(s)| - 1];
        TrimEndKeeps(TrimStart(s), last);
        TrimStartKeeps(s, last);
      }
    }
  }

  lemma {:induction false} TrimStartEdge(s: string)
    ensures TrimStart(s) != "" ==> !IsSpace(TrimStart(s)[0])
    ensures |TrimStart(s)| <= |s| && TrimStart(s) == s[|s| - |TrimStart(s)|..]
  {
    if s != "" && IsSpace(s[0]) {
      TrimStartEdge(s[1..]);
    }
  }

  lemma {:induction false} TrimEndFront(s: string)
    ensures |TrimEnd(s)| <= |s| && TrimEnd(s) == s[..|TrimEnd(s)|]
  {
    if s != "" && IsSpace(s[|s| - 1]) {
      TrimEndFront(s[..|s| - 1]);
    }
  }

  /** What is left neither starts nor ends with white space. */
  lemma TrimEdges(s: string)
    ensures Trim(s) != "" ==> !IsSpace(Trim(s)[0]) && !IsSpace(Trim(s)[|Trim(s)| - 1])
  {
    TrimStartEdge(s);
    TrimEndEdge(TrimStart(s));
    TrimEndFront(TrimStart(s));
  }

  predicate Qualifies(engine: TextSearch, row: Row, tenant: Id, query: Query) {
    && row.tenant == tenant
    && (query.contentType.Some? ==> row.contentType == query.contentType.value)
    && (query.eventType.Some? && query.eventType.value != "" ==> row.eventType == query.eventType)
    && (query.lifecycle.Some? ==> row.lifecycle == query.lifecycle.value)
    && (query.dateFrom.Some? ==> row.createdAt >= query.dateFrom.value)
    && (query.dateTo.Some? ==> row.createdAt <= query.dateTo.value)
    && (query.q.Some? && (exists c | c in query.q.value :: !IsSpace(c)) ==> engine.matches(row.vector, query.q.value))
  }

  function Score(engine: TextSearch, row: Row, query: Query): real {
    if query.q.Some? && exists c | c in query.q.value ::
        !IsSpace(c) then engine.rank(row.vector, query.q.value) else row.createdAt as real
  }

  // ------------------------------------------------------------ the SQL statement

  predicate Holds(engine: TextSearch, c: Condition, row: Row) {
    match c
    case TenantIs(t) => row.tenant == t
    case ContentTypeIs(t) => row.contentType == t
    case EventTypeIs(e) => row.eventType == Some(e)
    case LifecycleIs(l) => row.lifecycle == l
    case CreatedFrom(at) => row.createdAt >= at
    case CreatedTo(at) => row.createdAt <= at
    case TextMatches(q) => engine.matches(row.vector, q)
  }

  predicate AllHold(engine: TextSearch, conditions: seq<Condition>, row: Row) {
    forall i | 0 <= i < |conditions| :: Holds(engine, conditions[i], row)
  }

  function OrderKey(engine: TextSearch, order: Order, row: Row): real {
    match order
    case NewestFirst => row.createdAt as real
    case BestMatchFirst(q) => engine.rank(row.vector, q)
  }

  /** The rows the statement keeps, in the order the database scans them. */
  function Scan(engine: TextSearch, table: Table, conditions: seq<Condition>, scan: seq<Id>): seq<Id> {
    if scan == [] then []
    else
      (if scan[0] in table && AllHold(engine, conditions, table[scan[0]]) then [scan[0]] else [])
      + Scan(engine, table, conditions, scan[1..])
  }

  function Place(engine: TextSearch, table: Table, order: Order, ids: seq<Id>, id: Id): seq<Id>
    requires id in table && forall x | x in ids :: x in table
  {
    if ids == [] || OrderKey(engine, order, table[id]) >= OrderKey(engine, order, table[ids[0]]) then [id] + ids
    else [ids[0]] + Place(engine, table, order, ids[1..], id)
  }

  /** Descending by the order's key. */
  function Ranked(engine: TextSearch, table: Table, order: Order, ids: seq<Id>): (r: seq<Id>)
    requires forall x | x in ids :: x in table
    ensures multiset(r) == multiset(ids)
    ensures forall x | x in r :: x in table
  {
    if ids == [] then []
    else
      assert ids == [ids[0]] + ids[1..];
      var rest := Ranked(engine, table, order, ids[1..]);
      PlaceAdds(engine, table, order, rest, ids[0]);
      var r := Place(engine, table, order, rest, ids[0]);
      assert forall x | x in r :: x in multiset(r);
      assert forall x | x in multiset(ids) :: x in ids;
      r
  }

  lemma {:induction false} PlaceAdds(engine: TextSearch, table: Table, order: Order, ids: seq<Id>, id: Id)
    requires id in table && forall x | x in ids :: x in table
    ensures multiset(Place(engine, table, order, ids, id)) == multiset(ids) + multiset{id}
  {
    if ids != [] {
      assert ids == [ids[0]] + ids[1..];
      PlaceAdds(engine, table, order, ids[1..], id);
    }
  }

  function Limited(ids: seq<Id>): seq<Id> {
    if |ids| <= PAGE then ids else ids[..PAGE]
  }

  // -------------------------------------------------------------------- hydrate

  /** The rows of these ids still found in the tenant, in the order of the ids. */
  function Hydrated(table: Table, tenant: Id, ids: seq<Id>): seq<(Id, Row)> {
    if ids == [] then []
    else
      (if ids[0] in table && table[ids[0]].tenant == tenant then [(ids[0], table[ids[0]])] else [])
      + Hydrated(table, tenant, ids[1..])
  }

  // ------------------------------------------------------------ what an answer is

  ghost predicate Distinct(ids: seq<Id>) {
    forall i, j | 0 <= i < j < |ids| :: ids[i] != ids[j]
  }

  /**
    One scan's answer: distinct qualifying rows of the tenant, best first, at most a
    page; a qualifying row is left out only for a full page of rows at least as good.
  */
  ghost predicate IsAnswer(engine: TextSearch, table: Table, tenant: Id, query: Query, ids: seq<Id>) {
    && Distinct(ids) && |ids| <= 50
    && (forall i | 0 <= i < |ids| :: ids[i] in table && Qualifies(engine, table[ids[i]], tenant, query))
    && (forall i, j | 0 <= i < j < |ids| :: Score(engine, table[ids[i]], query) >= Score(engine, table[ids[j]], query))
    && (forall id | id in table && Qualifies(engine, table[id], tenant, query) && id !in ids ::
          |ids| == 50 && forall i | 0 <= i < |ids| ::
              Score(engine, table[ids[i]], query) >= Score(engine, table[id], query))
  }

  ghost predicate Enumerates(scan: seq<Id>, table: Table) {
    Distinct(scan) && forall id :: id in scan <==> id in table
  }

  // ------------------------------------------------------ the statement's answer

  lemma {:induction false} ScanFinds(engine: TextSearch, table: Table, conditions: seq<Condition>, scan: seq<Id>)
    ensures forall id :: id in Scan(engine, table, conditions, scan) <==>
                         id in scan && id in table && AllHold(engine, conditions, table[id])
    ensures Distinct(scan) ==> Distinct(Scan(engine, table, conditions, scan))
  {
    if scan != [] {
      assert scan == [scan[0]] + scan[1..];
      ScanFinds(engine, table, conditions, scan[1..]);
      if Distinct(scan) {
        assert Distinct(scan[1..]);
        assert scan[0] !in scan[1..];
      }
    }
  }

  ghost predicate Descending(engine: TextSearch, table: Table, order: Order, ids: seq<Id>) {
    && (forall id | id in ids :: id in table)
    && forall i, j | 0 <= i < j < |ids| ::
        OrderKey(engine, order, table[ids[i]]) >= OrderKey(engine, order, table[ids[j]])
  }

  lemma DescendingFrom(engine: TextSearch, table: Table, order: Order, first: Id, rest: seq<Id>)
    requires Descending(engine, table, order, rest) && first in table
    requires forall id | id in rest :: OrderKey(engine, order, table[first]) >= OrderKey(engine, order, table[id])
    ensures Descending(engine, table, order, [first] + rest)
  {
  }

  lemma DescendingSplit(engine: TextSearch, table: Table, order: Order, ids: seq<Id>)
    requires ids != [] && Descending(engine, table, order, ids)
    ensures Descending(engine, table, order, ids[1..])
    ensures forall id | id in ids :: OrderKey(engine, order, table[ids[0]]) >= OrderKey(engine, order, table[id])
  {
  }

  lemma {:induction false} PlaceDescends(engine: TextSearch, table: Table, order: Order, ids: seq<Id>, id: Id)
    requires id in table && Descending(engine, table, order, ids)
    ensures Descending(engine, table, order, Place(engine, table, order, ids, id))
    ensures forall x | x in Place(engine, table, order, ids, id) :: x == id || x in ids
  {
    if ids == [] {
      assert Place(engine, table, order, ids, id) == [id];
    } else {
      DescendingSplit(engine, table, order, ids);
      if OrderKey(engine, order, table[id]) >= OrderKey(engine, order, table[ids[0]]) {
        DescendingFrom(engine, table, order, id, ids);
      } else {
        PlaceDescends(engine, table, order, ids[1..], id);
        DescendingFrom(engine, table, order, ids[0], Place(engine, table, order, ids[1..], id));
      }
    }
  }

  lemma {:induction false} RankedDescends(engine: TextSearch, table: Table, order: Order, ids: seq<Id>)
    requires forall x | x in ids :: x in table
    ensures Descending(engine, table, order, Ranked(engine, table, order, ids))
  {
    if ids != [] {
      RankedDescends(engine, table, order, ids[1..]);
      PlaceDescends(engine, table, order, Ranked(engine, table, order, ids[1..]), ids[0]);
    }
  }

  lemma {:induction false} DistinctCounts(ids: seq<Id>)
    ensures Distinct(ids) <==> forall id | id in multiset(ids) :: multiset(ids)[id] == 1
  {
    if ids != [] {
      var head, rest := ids[0], ids[1..];
      assert ids == [head] + rest;
      DistinctCounts(rest);
      assert head in rest <==> head in multiset(rest);
      if Distinct(ids) {
        assert Distinct(rest) && head !in rest;
      } else if Distinct(rest) {
        assert multiset(ids)[head] > 1;
      } else {
        var id :| id in multiset(rest) && multiset(rest)[id] != 1;
        assert multiset(ids)[id] != 1;
      }
    }
  }

  /** These conditions and this order say what the query asks for. */
  ghost predicate Asks(engine: TextSearch, conditions: seq<Condition>, order: Order, tenant: Id, query: Query) {
    && (forall row :: AllHold(engine, conditions, row) <==> Qualifies(engine, row, tenant, query))
    && (forall row :: OrderKey(engine, order, row) == Score(engine, row, query))
  }

  /** What the statement returns is an answer, in whatever order the table was scanned. */
  lemma {:induction false} StatementAnswers(engine: TextSearch, table: Table, conditions: seq<Condition>,
      order: Order, tenant: Id,
      query: Query, scan: seq<Id>)
    requires Enumerates(scan, table) && Asks(engine, conditions, order, tenant, query)
    requires forall x | x in Scan(engine, table, conditions, scan) :: x in table
    ensures IsAnswer(engine, table, tenant, query,
              Limited(Ranked(engine, table, order, Scan(engine, table, conditions, scan))))
  {
    var found := Scan(engine, table, conditions, scan);
    var ranked := Ranked(engine, table, order, found);
    ScanFinds(engine, table, conditions, scan);
    RankedDescends(engine, table, order, found);
    DistinctCounts(found);
    DistinctCounts(ranked);
    assert forall id :: id in ranked <==> id in multiset(ranked);
    assert forall id :: id in found <==> id in multiset(found);
    LimitedAnswers(engine, table, order, tenant, query, ranked);
  }

  lemma LimitedAnswers(engine: TextSearch, table: Table, order: Order, tenant: Id, query: Query, ranked: seq<Id>)
    requires Distinct(ranked) && Descending(engine, table, order, ranked)
    requires forall row :: OrderKey(engine, order, row) == Score(engine, row, query)
    requires forall id :: id in ranked <==> id in table && Qualifies(engine, table[id], tenant, query)
    ensures IsAnswer(engine, table, tenant, query, Limited(ranked))
  {
    var ids := Limited(ranked);
    assert forall i | 0 <= i < |ids| :: ids[i] == ranked[i] && ids[i] in ranked;
    forall id | id in table && Qualifies(engine, table[id], tenant, query) && id !in ids
      ensures |ids| == PAGE && forall i | 0 <= i < |ids| ::
                Score(engine, table[ids[i]], query) >= Score(engine, table[id], query)
    {
      var k :| 0 <= k < |ranked| && ranked[k] == id;
      assert k >= |ids|;
    }
  }

  // ----------------------------------------------- the trigger, and other writers

  /** What the BEFORE INSERT OR UPDATE trigger makes of a row about to be stored. */
  function Triggered(row: Row): Row {
    row.(vector := Vector(row.title, "", row.metadata))
  }

  datatype Write =
    | Insert(id: Id, row: Row)
    | Update(id: Id, row: Row)
    | Reindex(tenant: Id, id: Id, approvedText: string)

  /** Content rows are never removed and never change tenant; `reindex` sets the column itself. */
  function Next(table: Table, w: Write): Table {
    match w
    case Insert(id, row) => if id in table then table else table[id := Triggered(row)]
    case Update(id, row) => if id !in table || row.tenant != table[id].tenant then table
      else table[id := Triggered(row)]
    case Reindex(tenant, id, approvedText) =>
      if id !in table || table[id].tenant != tenant then table
      else table[id := Triggered(table[id].(vector := Vector(table[id].title, approvedText, table[id].metadata)))]
  }

  function Run(table: Table, writes: seq<Write>): Table
    decreases |writes|
  {
    if writes == [] then table else Run(Next(table, writes[0]), writes[1..])
  }

  /** What is stored is what was written, with the column recomputed; other rows are as they were. */
  lemma StoredAsWritten(table: Table, id: Id, row: Row)
    ensures id !in table ==>
              Next(table, Insert(id, row)) == table[id := row.(vector := Vector(row.title, "", row.metadata))]
    ensures id in table && row.tenant == table[id].tenant ==>
              Next(table, Update(id, row)) == table[id := row.(vector := Vector(row.title, "", row.metadata))]
  {
  }

  lemma {:induction false} RunOneMore(table: Table, writes: seq<Write>, w: Write)
    ensures Run(table, writes + [w]) == Next(Run(table, writes), w)
    decreases |writes|
  {
    if writes == [] {
      assert writes + [w] == [w] && [w][1..] == [];
      assert Run(table, [w]) == Run(Next(table, w), []);
    } else {
      assert (writes + [w])[1..] == writes[1..] + [w];
      RunOneMore(Next(table, writes[0]), writes[1..], w);
    }
  }

  ghost predicate IndexFresh(table: Table) {
    forall id | id in table :: table[id].vector == Vector(table[id].title, "", table[id].metadata)
  }

  /** The installation script's `UPDATE content_items SET title = title`, over rows that predate the trigger. */
  function Backfilled(table: Table): Table {
    map id | id in table :: Triggered(table[id])
  }

  /**
    After the backfill, and whatever is written since, the column agrees with each
    row's current title and metadata.
  */
  lemma {:induction false} IndexAlwaysFresh(table: Table, writes: seq<Write>)
    requires IndexFresh(table)
    ensures IndexFresh(Run(table, writes)) && IndexFresh(Backfilled(table))
    decreases |writes|
  {
    if writes != [] {
      IndexAlwaysFresh(Next(table, writes[0]), writes[1..]);
    }
  }

  lemma BackfillFreshens(table: Table)
    ensures IndexFresh(Backfilled(table))
    ensures Backfilled(table) == table <==> IndexFresh(table)
  {
    forall id | id in table ensures Backfilled(table)[id] == table[id] <==>
        table[id].vector == Vector(table[id].title, "", table[id].metadata) {
    }
  }

  function WithoutReindex(writes: seq<Write>): seq<Write> {
    if writes == [] then [] else (if writes[0].Reindex? then [] else [writes[0]]) + WithoutReindex(writes[1..])
  }

  /**
    The trigger overwrites what `reindex` sets: no approved text ever reaches the
    column, so every call of it could be left out.
  */
  lemma {:induction false} ReindexChangesNothing(table: Table, writes: seq<Write>)
    requires IndexFresh(table)
    ensures Run(table, writes) == Run(table, WithoutReindex(writes))
    decreases |writes|
  {
    if writes != [] {
      var next := Next(table, writes[0]);
      ReindexChangesNothing(next, writes[1..]);
      if writes[0].Reindex? {
        assert next == table;
        assert WithoutReindex(writes) == WithoutReindex(writes[1..]);
      } else {
        assert WithoutReindex(writes) == [writes[0]] + WithoutReindex(writes[1..]);
      }
    }
  }

  lemma {:induction false} RowsStay(table: Table, writes: seq<Write>, id: Id)
    requires id in table
    ensures id in Run(table, writes) && Run(table, writes)[id].tenant == table[id].tenant
    decreases |writes|
  {
    if writes != [] {
      RowsStay(Next(table, writes[0]), writes[1..], id);
    }
  }

  lemma {:induction false} HydratedAll(table: Table, tenant: Id, ids: seq<Id>)
    requires forall id | id in ids :: id in table && table[id].tenant == tenant
    ensures |Hydrated(table, tenant, ids)| == |ids|
    ensures forall i | 0 <= i < |ids| :: Hydrated(table, tenant, ids)[i] == (ids[i], table[ids[i]])
  {
    if ids != [] {
      HydratedAll(table, tenant, ids[1..]);
    }
  }

  /**
    Two steps give what one scan would: whatever is written between them, the rows
    returned are exactly the ranked page of the first step, none lost, none twice,
    each as it is by then.
  */
  lemma TwoStepsAreOneScan(engine: TextSearch, table: Table, writes: seq<Write>, tenant: Id, query: Query, ids: seq<Id>)
    requires IsAnswer(engine, table, tenant, query, ids)
    ensures var after := Run(table, writes);
            var items := Hydrated(after, tenant, ids);
            && |items| == |ids|
            && forall i | 0 <= i < |ids| ::
                ids[i] in after && items[i] == (ids[i], after[ids[i]]) && after[ids[i]].tenant == tenant
  {
    forall id | id in ids ensures id in Run(table, writes) && Run(table, writes)[id].tenant == tenant {
      RowsStay(table, writes, id);
    }
    HydratedAll(Run(table, writes), tenant, ids);
  }

  lemma Pushed(engine: TextSearch, conditions: seq<Condition>, c: Condition)
    ensures forall row :: AllHold(engine, conditions + [c], row) <==>
              AllHold(engine, conditions, row) && Holds(engine, c, row)
  {
    forall row
      ensures AllHold(engine, conditions + [c], row) <==> AllHold(engine, conditions, row) && Holds(engine, c, row)
    {
      var more := conditions + [c];
      assert more[|conditions|] == c;
      assert forall i | 0 <= i < |conditions| :: more[i] == conditions[i];
    }
  }

  lemma HydratedStep(table: Table, tenant: Id, ids: seq<Id>, i: nat, done: seq<(Id, Row)>)
    requires i < |ids|
    ensures var id := ids[i];
            done + Hydrated(table, tenant, ids[i..]) ==
            (if id in table && table[id].tenant == tenant then done + [(id, table[id])] else done)
            + Hydrated(table, tenant, ids[i + 1..])
  {
    assert ids[i..][1..] == ids[i + 1..];
  }

  predicate Wanted(table: Table, tenant: Id, ids: seq<Id>, id: Id) {
    id in ids && id in table && table[id].tenant == tenant
  }

  /** The filters on a row's own columns; an empty event type asks for none. */
  predicate MeetsFilters(row: Row, tenant: Id, query: Query) {
    && row.tenant == tenant
    && (query.contentType.Some? ==> row.contentType == query.contentType.value)
    && (query.eventType.Some? && query.eventType.value != "" ==> row.eventType == query.eventType)
    && (query.lifecycle.Some? ==> row.lifecycle == query.lifecycle.value)
    && (query.dateFrom.Some? ==> query.dateFrom.value <= row.createdAt)
    && (query.dateTo.Some? ==> row.createdAt <= query.dateTo.value)
  }

  /** What an answer is, with a text to look for and without. */
  lemma AnswerMeans(engine: TextSearch, table: Table, tenant: Id, query: Query, ids: seq<Id>, items: seq<(Id, Row)>)
    requires IsAnswer(engine, table, tenant, query, ids)
    requires |items| == |ids| && forall i | 0 <= i < |ids| :: items[i] == (ids[i], table[ids[i]])
    ensures |items| <= 50 && forall i | 0 <= i < |items| :: MeetsFilters(items[i].1, tenant, query)
    ensures query.q.Some? && (exists c | c in query.q.value :: !IsSpace(c)) ==>
              && (forall i | 0 <= i < |items| :: engine.matches(items[i].1.vector, query.q.value))
              && (forall i, j | 0 <= i < j < |items| ::
                    engine.rank(items[i].1.vector, query.q.value) >= engine.rank(items[j].1.vector, query.q.value))
    ensures (query.q.None? || forall c | c in query.q.value :: IsSpace(c)) ==>
              && (forall i, j | 0 <= i < j < |items| :: items[i].1.createdAt >= items[j].1.createdAt)
              && (forall id | id in table && MeetsFilters(table[id], tenant, query) && (id, table[id]) !in items ::
                    |items| == 50 && forall i | 0 <= i < 50 :: items[i].1.createdAt >= table[id].createdAt)
  {
    if query.q.None? || forall c | c in query.q.value :: IsSpace(c) {
      forall i, j | 0 <= i < j < |items| ensures items[i].1.createdAt >= items[j].1.createdAt {
        assert Score(engine, table[ids[i]], query) >= Score(engine, table[ids[j]], query);
      }
      forall id | id in table && MeetsFilters(table[id], tenant, query) && (id, table[id]) !in items
        ensures |items| == 50 && forall i | 0 <= i < 50 :: items[i].1.createdAt >= table[id].createdAt
      {
        assert Qualifies(engine, table[id], tenant, query);
        forall i | 0 <= i < |ids| ensures ids[i] != id {
          assert items[i] in items;
        }
        forall i | 0 <= i < |ids| ensures items[i].1.createdAt >= table[id].createdAt {
          assert Score(engine, table[ids[i]], query) >= Score(engine, table[id], query);
        }
      }
    }
  }

  // ------------------------------------------------------------------ the service

  datatype SearchError = NoTenantContext

  class SearchService {
    var rows: Table
    const engine: TextSearch

    constructor (engine: TextSearch, rows: Table)
      ensures this.engine == engine && this.rows == rows
    {
      this.engine, this.rows := engine, rows;
    }

    /** The conditions on the row's own columns. */
    method BuildFilters(tenant: Id, query: Query) returns (conditions: seq<Condition>)
      ensures forall row :: AllHold(engine, conditions, row) <==> Qualifies(engine, row, tenant, query.(q := None))
    {
      conditions := [TenantIs(tenant)];
      Pushed(engine, [], TenantIs(tenant));
      assert [] + conditions == conditions;
      if query.contentType.Some? {
        Pushed(engine, conditions, ContentTypeIs(query.contentType.value));
        conditions := conditions + [ContentTypeIs(query.contentType.value)];
      }
      if query.eventType.Some? && query.eventType.value != "" {
        Pushed(engine, conditions, EventTypeIs(query.eventType.value));
        conditions := conditions + [EventTypeIs(query.eventType.value)];
      }
      if query.lifecycle.Some? {
        Pushed(engine, conditions, LifecycleIs(query.lifecycle.value));
        conditions := conditions + [LifecycleIs(query.lifecycle.value)];
      }
      var dates := DateFilters(query.dateFrom, query.dateTo, conditions);
      conditions := dates;
    }

    method DateFilters(from: Option<int>, to: Option<int>, before: seq<Condition>) returns (conditions: seq<Condition>)
      ensures forall row :: AllHold(engine, conditions, row) <==>
                && AllHold(engine, before, row)
                && (from.Some? ==> row.createdAt >= from.value) && (to.Some? ==> row.createdAt <= to.value)
    {
      conditions := before;
      if from.Some? {
        Pushed(engine, conditions, CreatedFrom(from.value));
        conditions := conditions + [CreatedFrom(from.value)];
      }
      if to.Some? {
        Pushed(engine, conditions, CreatedTo(to.value));
        conditions := conditions + [CreatedTo(to.value)];
      }
    }

    method BuildStatement(tenant: Id, query: Query) returns (conditions: seq<Condition>, order: Order)
      ensures Asks(engine, conditions, order, tenant, query)
    {
      conditions := BuildFilters(tenant, query);
      order := NewestFirst;
      if query.q.Some? {
        TrimMeans(query.q.value);
      }
      if HasText(query.q) {
        Pushed(engine, conditions, TextMatches(query.q.value));
        conditions := conditions + [TextMatches(query.q.value)];
        order := BestMatchFirst(query.q.value);
      }
    }

    /** `listing`: the order in which the database returns rows to `findMany`. */
    method Hydrate(tenant: Id, orderedIds: seq<Id>, listing: seq<Id>) returns (items: seq<(Id, Row)>)
      requires Enumerates(listing, rows)
      ensures items == Hydrated(rows, tenant, orderedIds)
    {
      var byId := FindMany(tenant, orderedIds, listing);
      items := [];
      var i := 0;
      while i < |orderedIds|
        invariant 0 <= i <= |orderedIds|
        invariant Hydrated(rows, tenant, orderedIds) == items + Hydrated(rows, tenant, orderedIds[i..])
      {
        var id := orderedIds[i];
        assert id in orderedIds;
        HydratedStep(rows, tenant, orderedIds, i, items);
        if id in byId {
          items := items + [(id, byId[id])];
        }
        i := i + 1;
      }
    }

    method FindMany(tenant: Id, ids: seq<Id>, listing: seq<Id>) returns (byId: Table)
      requires Enumerates(listing, rows)
      ensures forall id :: id in byId <==> Wanted(rows, tenant, ids, id)
      ensures forall id | id in byId :: id in rows && byId[id] == rows[id]
    {
      byId := map[];
      for i := 0 to |listing|
        invariant forall id :: id in byId <==> id in listing[..i] && Wanted(rows, tenant, ids, id)
        invariant forall id | id in byId :: id in rows && byId[id] == rows[id]
      {
        var id := listing[i];
        assert id in listing;
        if id in ids && rows[id].tenant == tenant {
          byId := byId[id := rows[id]];
        }
        assert listing[..i + 1] == listing[..i] + [id];
      }
      assert listing[..|listing|] == listing;
    }

    /** The statement's page, hydrated. */
    method FindPage(tenant: Id, query: Query, scan: seq<Id>, listing: seq<Id>)
        returns (items: seq<(Id, Row)>, ghost ids: seq<Id>)
      requires Enumerates(scan, rows) && Enumerates(listing, rows)
      ensures IsAnswer(engine, rows, tenant, query, ids) && |items| == |ids|
      ensures forall i | 0 <= i < |ids| :: items[i] == (ids[i], rows[ids[i]])
    {
      var conditions, order := BuildStatement(tenant, query);
      ScanFinds(engine, rows, conditions, scan);
      var orderedIds := Limited(Ranked(engine, rows, order, Scan(engine, rows, conditions, scan)));
      ids := orderedIds;
      StatementAnswers(engine, rows, conditions, order, tenant, query, scan);
      items := Hydrate(tenant, orderedIds, listing);
      TwoStepsAreOneScan(engine, rows, [], tenant, query, orderedIds);
    }

    method Search(tenant: Option<Id>, query: Query, scan: seq<Id>, listing: seq<Id>)
        returns (r: Result<seq<(Id, Row)>, SearchError>)
      requires Enumerates(scan, rows) && Enumerates(listing, rows)
      ensures r.Err? <==> tenant.None?
      ensures r.Ok? ==> exists ids ::
                && IsAnswer(engine, rows, tenant.value, query, ids) && |r.value| == |ids|
                && forall i | 0 <= i < |ids| :: r.value[i] == (ids[i], rows[ids[i]])
      ensures r.Ok? ==> |r.value| <= 50 && forall i | 0 <= i < |r.value| ::
                MeetsFilters(r.value[i].1, tenant.value, query)
      ensures r.Ok? && query.q.Some? && (exists c | c in query.q.value :: !IsSpace(c)) ==>
                && (forall i | 0 <= i < |r.value| :: engine.matches(r.value[i].1.vector, query.q.value))
                && (forall i, j | 0 <= i < j < |r.value| ::
                      engine.rank(r.value[i].1.vector, query.q.value) >= engine.rank(r.value[j].1.vector,
                          query.q.value))
      ensures r.Ok? && (query.q.None? || forall c | c in query.q.value :: IsSpace(c)) ==>
                && (forall i, j | 0 <= i < j < |r.value| :: r.value[i].1.createdAt >= r.value[j].1.createdAt)
                && (forall id | id in rows && MeetsFilters(rows[id], tenant.value, query) &&
                    (id, rows[id]) !in r.value ::
                      |r.value| == 50 && forall i | 0 <= i < 50 :: r.value[i].1.createdAt >= rows[id].createdAt)
    {
      if tenant.None? {
        return Err(NoTenantContext);
      }
      var items, ids := FindPage(tenant.value, query, scan, listing);
      AnswerMeans(engine, rows, tenant.value, query, ids, items);
      return Ok(items);
    }

    /** Insert or update, behind the trigger. */
    method Store(id: Id, row: Row)
      modifies this
      ensures rows == Next(old(rows), if id in old(rows) then Update(id, row) else Insert(id, row))
    {
      if id in rows && rows[id].tenant != row.tenant {
        return;
      }
      rows := rows[id := row.(vector := Vector(row.title, "", row.metadata))];
    }

    method ReindexItem(tenant: Id, id: Id, approvedText: string)
      modifies this
      ensures rows == Next(old(rows), Reindex(tenant, id, approvedText))
      ensures IndexFresh(old(rows)) ==> rows == old(rows)
    {
      if id in rows && rows[id].tenant == tenant {
        var reset := rows[id].(vector := Vector(rows[id].title, approvedText, rows[id].metadata));
        rows := rows[id := reset.(vector := Vector(reset.title, "", reset.metadata))];
      }
    }
  }
}
