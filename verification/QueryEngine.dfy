/**
  The part of the ORM's query language that the scoping extension has to deal
  with: where-trees, flat payloads, and the effect of every client operation on
  one table. A table is the sequence of its rows in storage order.
*/
module QueryEngine {
  import opened Common

  datatype Value = Null | Str(s: string) | Num(n: int)

  datatype Field = IdField | TenantField | Column(name: string)

  /** A row, and also a flat create/update payload. A missing column is NULL. */
  type Row = map<Field, Value>

  function Get(row: Row, f: Field): Value {
    if f in row then row[f] else Null
  }

  // ---------------------------------------------------------------- where

  datatype Filter =
    | Equals(v: Value)
    | NotEquals(v: Value)
    | In(vs: seq<Value>)
    | Lte(bound: int)
    | Gt(bound: int)

  /** `fields` are the keys of the object itself; the rest are AND, OR and NOT. */
  datatype Where = Where(fields: map<Field, Filter>, and: seq<Where>, or: OrClause, not: seq<Where>)

  /** An absent OR restricts nothing; an empty OR list matches nothing. */
  datatype OrClause = NoOr | AnyOf(branches: seq<Where>)

  const Everything := Where(map[], [], NoOr, [])

  /** SQL truth values: comparing with NULL is neither true nor false. */
  datatype Truth = True | False | Unknown

  function FromBool(b: bool): Truth {
    if b then True else False
  }

  function EvalFilter(f: Filter, v: Value): Truth {
    match f
    case Equals(Null) => FromBool(v == Null)
    case NotEquals(Null) => FromBool(v != Null)
    case Equals(x) => if v == Null then Unknown else FromBool(v == x)
    case NotEquals(x) => if v == Null then Unknown else FromBool(v != x)
    case In(vs) => if v == Null then Unknown else FromBool(v in vs)
    case Lte(b) => if v.Num? then FromBool(v.n <= b) else Unknown
    case Gt(b) => if v.Num? then FromBool(v.n > b) else Unknown
  }

  function Eval(w: Where, row: Row): Truth
    decreases w
  {
    if && (forall f | f in w.fields :: EvalFilter(w.fields[f], Get(row, f)) == True)
       && (forall c | c in w.and :: Eval(c, row) == True)
       && (w.or.AnyOf? ==> exists c | c in w.or.branches :: Eval(c, row) == True)
       && (forall c | c in w.not :: Eval(c, row) == False)
    then True
    else if || (exists f | f in w.fields :: EvalFilter(w.fields[f], Get(row, f)) == False)
            || (exists c | c in w.and :: Eval(c, row) == False)
            || (w.or.AnyOf? && forall c | c in w.or.branches :: Eval(c, row) == False)
            || (exists c | c in w.not :: Eval(c, row) == True)
    then False
    else Unknown
  }

  predicate Matches(w: Where, row: Row) {
    Eval(w, row) == True
  }

  // ------------------------------------------------------- table primitives

  function Select(table: seq<Row>, w: Where): seq<Row> {
    if table == [] then []
    else
      var rest := Select(table[1..], w);
      if Matches(w, table[0]) then [table[0]] + rest else rest
  }

  function SetAll(table: seq<Row>, w: Where, data: Row): seq<Row> {
    if table == [] then []
    else
      var rest := SetAll(table[1..], w, data);
      if Matches(w, table[0]) then [table[0] + data] + rest else [table[0]] + rest
  }

  function SetFirst(table: seq<Row>, w: Where, data: Row): seq<Row> {
    if table == [] then []
    else if Matches(w, table[0]) then [table[0] + data] + table[1..]
    else [table[0]] + SetFirst(table[1..], w, data)
  }

  function RemoveAll(table: seq<Row>, w: Where): seq<Row> {
    if table == [] then []
    else
      var rest := RemoveAll(table[1..], w);
      if Matches(w, table[0]) then rest else [table[0]] + rest
  }

  function RemoveFirst(table: seq<Row>, w: Where): seq<Row> {
    if table == [] then []
    else if Matches(w, table[0]) then table[1..]
    else [table[0]] + RemoveFirst(table[1..], w)
  }

  predicate HasId(table: seq<Row>, id: Value) {
    exists r | r in table :: Get(r, IdField) == id
  }

  /** The primary key is unique over the whole table, whatever the tenant. */
  predicate Insertable(table: seq<Row>, rows: seq<Row>)
    decreases |rows|
  {
    rows == [] || (!HasId(table, Get(rows[0], IdField)) && Insertable(table + [rows[0]], rows[1..]))
  }

  // ------------------------------------------------------------- operations

  datatype Op =
    | FindMany | FindFirst | FindUnique | Count | Aggregate | GroupBy
    | Create | CreateMany
    | Update | UpdateMany | Delete | DeleteMany | Upsert
    | FindFirstOrThrow | FindUniqueOrThrow | CreateManyAndReturn

  /** `data` of a call: absent, one object, or an array (createMany). */
  datatype Data = NoData | One(row: Row) | Many(rows: seq<Row>)

  /** Order, paging and the column an aggregate or a grouping looks at. */
  datatype Shape = Shape(orderBy: Field, descending: bool, skip: nat, take: Option<nat>, column: Field)

  datatype Args = Args(filter: Option<Where>, data: Data, create: Option<Row>, update: Row, shape: Shape)

  datatype Outcome =
    | Rows(rows: seq<Row>)
    | OneRow(row: Option<Row>)
    | Number(n: int)
    | Groups(groups: multiset<Value>)
    | NotFound
    | UniqueViolation
    | Forbidden
    | NoTenantContext

  function WhereOf(args: Args): Where {
    if args.filter.Some? then args.filter.value else Everything
  }

  function Single(d: Data): Row {
    if d.One? then d.row else map[]
  }

  function Batch(d: Data): seq<Row> {
    match d
    case NoData => [map[]]
    case One(row) => [row]
    case Many(rows) => rows
  }

  function Key(row: Row, f: Field): int {
    if Get(row, f).Num? then Get(row, f).n else 0
  }

  function InsertSorted(row: Row, rows: seq<Row>, s: Shape): seq<Row> {
    if rows == [] then [row]
    else if s.descending && Key(row, s.orderBy) >= Key(rows[0], s.orderBy) then [row] + rows
    else if !s.descending && Key(row, s.orderBy) <= Key(rows[0], s.orderBy) then [row] + rows
    else [rows[0]] + InsertSorted(row, rows[1..], s)
  }

  function Sorted(rows: seq<Row>, s: Shape): seq<Row> {
    if rows == [] then [] else InsertSorted(rows[0], Sorted(rows[1..], s), s)
  }

  function Page(rows: seq<Row>, s: Shape): seq<Row> {
    var rest := if s.skip <= |rows| then rows[s.skip..] else [];
    if s.take.Some? && s.take.value <= |rest| then rest[..s.take.value] else rest
  }

  function Sum(rows: seq<Row>, f: Field): int {
    if rows == [] then 0 else Key(rows[0], f) + Sum(rows[1..], f)
  }

  function Values(rows: seq<Row>, f: Field): multiset<Value> {
    if rows == [] then multiset{} else multiset{Get(rows[0], f)} + Values(rows[1..], f)
  }

  function Head(rows: seq<Row>): Option<Row> {
    if rows == [] then None else Some(rows[0])
  }

  /** Answer of a read, from the matching rows. */
  function Answer(op: Op, found: seq<Row>, s: Shape): Outcome {
    match op
    case FindMany => Rows(Page(Sorted(found, s), s))
    case FindFirst => OneRow(Head(Page(Sorted(found, s), s)))
    case FindFirstOrThrow => OrThrow(Head(Page(Sorted(found, s), s)))
    case FindUniqueOrThrow => OrThrow(Head(found))
    case Aggregate => Number(Sum(found, s.column))
    case GroupBy => Groups(Values(found, s.column))
    case Count => Number(|found|)
    case _ => OneRow(Head(found))
  }

  function OrThrow(row: Option<Row>): Outcome {
    if row.None? then NotFound else OneRow(row)
  }

  function Insert(table: seq<Row>, rows: seq<Row>, success: Outcome): (Outcome, seq<Row>) {
    if Insertable(table, rows) then (success, table + rows) else (UniqueViolation, table)
  }

  /** Answer of a call that changes or removes the rows it matched. */
  function Changed(op: Op, found: seq<Row>, data: Row): Outcome {
    if op == UpdateMany || op == DeleteMany then Number(|found|)
    else if found == [] then NotFound
    else if op == Delete then OneRow(Some(found[0]))
    else OneRow(Some(found[0] + data))
  }

  function Change(op: Op, table: seq<Row>, w: Where, data: Row): seq<Row> {
    if op == UpdateMany then SetAll(table, w, data)
    else if op == DeleteMany then RemoveAll(table, w)
    else if op == Delete then RemoveFirst(table, w)
    else SetFirst(table, w, data)
  }

  function Mutate(op: Op, table: seq<Row>, w: Where, data: Row): (Outcome, seq<Row>) {
    (Changed(op, Select(table, w), data), Change(op, table, w, data))
  }

  /** What the client does with the arguments it is finally given. */
  function Exec(op: Op, a: Args, table: seq<Row>): (Outcome, seq<Row>) {
    match op
    case Create => Insert(table, [Single(a.data)], OneRow(Some(Single(a.data))))
    case CreateMany => Insert(table, Batch(a.data), Number(|Batch(a.data)|))
    case CreateManyAndReturn => Insert(table, Batch(a.data), Rows(Batch(a.data)))
    case Update => Mutate(op, table, WhereOf(a), Single(a.data))
    case UpdateMany => Mutate(op, table, WhereOf(a), Single(a.data))
    case Delete => Mutate(op, table, WhereOf(a), map[])
    case DeleteMany => Mutate(op, table, WhereOf(a), map[])
    case Upsert =>
      if Select(table, WhereOf(a)) != [] then Mutate(op, table, WhereOf(a), a.update)
      else
        var row := if a.create.Some? then a.create.value else map[];
        Insert(table, [row], OneRow(Some(row)))
    case _ => (Answer(op, Select(table, WhereOf(a)), a.shape), table)
  }

  // ----------------------------------------------------- what the calls do, row by row

  function Only(f: Field, filter: Filter): Where {
    Where(map[f := filter], [], NoOr, [])
  }

  lemma {:induction false} OnlyMeans(f: Field, filter: Filter, row: Row)
    ensures Matches(Only(f, filter), row) <==> EvalFilter(filter, Get(row, f)) == True
  {
    assert f in Only(f, filter).fields;
  }

  /** A column with no value matches the test for no value, and no comparison, not even a negated one. */
  lemma {:induction false} NullMatchesOnlyNull(f: Field, row: Row, filter: Filter)
    requires Get(row, f) == Null
    ensures Matches(Only(f, filter), row) <==> filter == Equals(Null)
  {
    OnlyMeans(f, filter, row);
  }

  lemma {:induction false} FiltersMean(f: Field, row: Row, v: Value, vs: seq<Value>, b: int)
    requires Get(row, f) != Null && v != Null
    ensures Matches(Only(f, Equals(v)), row) <==> Get(row, f) == v
    ensures Matches(Only(f, NotEquals(v)), row) <==> Get(row, f) != v
    ensures Matches(Only(f, In(vs)), row) <==> Get(row, f) in vs
    ensures Matches(Only(f, Lte(b)), row) <==> Get(row, f).Num? && Get(row, f).n <= b
    ensures Matches(Only(f, Gt(b)), row) <==> Get(row, f).Num? && Get(row, f).n > b
  {
    OnlyMeans(f, Equals(v), row);
    OnlyMeans(f, NotEquals(v), row);
    OnlyMeans(f, In(vs), row);
    OnlyMeans(f, Lte(b), row);
    OnlyMeans(f, Gt(b), row);
  }

  /** A tree matches when its own fields, every AND and some OR branch do, and every NOT branch is false. */
  lemma {:induction false} AndMeans(a: Where, b: Where, row: Row)
    ensures Matches(Where(map[], [a, b], NoOr, []), row) <==> Matches(a, row) && Matches(b, row)
  {
    assert [a, b][0] == a && [a, b][1] == b;
  }

  lemma {:induction false} OrMeans(a: Where, b: Where, row: Row)
    ensures Matches(Where(map[], [], AnyOf([a, b]), []), row) <==> Matches(a, row) || Matches(b, row)
    ensures !Matches(Where(map[], [], AnyOf([]), []), row)
  {
    assert [a, b][0] == a && [a, b][1] == b;
  }

  lemma {:induction false} NotMeans(a: Where, row: Row)
    ensures Matches(Where(map[], [], NoOr, [a]), row) <==> Eval(a, row) == False
    ensures Matches(Where(map[], [], NoOr, [a]), row) ==> !Matches(a, row)
  {
    assert [a][0] == a;
  }

  function Not(a: Where): Where {
    Where(map[], [], NoOr, [a])
  }

  /** NOT of a comparison needs a value to compare, as the comparison does. */
  lemma {:induction false} NotEqualsMeans(f: Field, v: Value, row: Row)
    requires v != Null
    ensures Matches(Not(Only(f, Equals(v))), row) <==> Get(row, f) != Null && Get(row, f) != v
  {
    var a := Only(f, Equals(v));
    assert [a][0] == a && f in a.fields;
    NotMeans(a, row);
  }

  /**
    A tree that does not match is false, so that its negation matches, when one of its
    own fields or AND branches is, or every OR branch, or a NOT branch is true; else
    it is unknown.
  */
  lemma {:induction false} FalseWhen(w: Where, row: Row)
    ensures Matches(Not(w), row) <==>
            && !Matches(w, row)
            && (|| (exists f | f in w.fields :: EvalFilter(w.fields[f], Get(row, f)) == False)
                || (exists i | 0 <= i < |w.and| :: Eval(w.and[i], row) == False)
                || (w.or.AnyOf? && forall i | 0 <= i < |w.or.branches| :: Eval(w.or.branches[i], row) == False)
                || (exists i | 0 <= i < |w.not| :: Eval(w.not[i], row) == True))
  {
    NotMeans(w, row);
  }

  lemma {:induction false} NotNot(a: Where, row: Row)
    ensures Matches(Not(Not(a)), row) <==> Matches(a, row)
  {
    assert [a][0] == a;
    NotMeans(Not(a), row);
  }

  lemma {:induction false} SelectMeans(table: seq<Row>, w: Where)
    ensures forall r :: multiset(Select(table, w))[r] == if Matches(w, r) then multiset(table)[r] else 0
  {
    if table != [] {
      assert table == [table[0]] + table[1..];
      SelectMeans(table[1..], w);
    }
  }

  /** Updating sets the payload's columns on every matching row, where it stands, and touches no other. */
  lemma {:induction false} SetAllMeans(table: seq<Row>, w: Where, data: Row)
    ensures |SetAll(table, w, data)| == |table|
    ensures forall i | 0 <= i < |table| ::
              SetAll(table, w, data)[i] == if Matches(w, table[i]) then table[i] + data else table[i]
  {
    if table != [] {
      SetAllMeans(table[1..], w, data);
    }
  }

  /** Removing keeps the rows that do not match, each as often as it was there. */
  lemma {:induction false} RemoveAllMeans(table: seq<Row>, w: Where)
    ensures forall r :: multiset(RemoveAll(table, w))[r] == if Matches(w, r) then 0 else multiset(table)[r]
  {
    if table != [] {
      assert table == [table[0]] + table[1..];
      RemoveAllMeans(table[1..], w);
    }
  }

  function FirstIndex(table: seq<Row>, p: Row -> bool): nat {
    if table == [] || p(table[0]) then 0 else 1 + FirstIndex(table[1..], p)
  }

  lemma {:induction false} FirstIndexIs(table: seq<Row>, p: Row -> bool)
    ensures var i := FirstIndex(table, p);
            && i <= |table| && (i < |table| ==> p(table[i]))
            && forall j | 0 <= j < i :: !p(table[j])
  {
    if table != [] && !p(table[0]) {
      FirstIndexIs(table[1..], p);
      assert forall j | 0 < j < |table| :: table[j] == table[1..][j - 1];
    }
  }

  function FirstMatching(table: seq<Row>, w: Where): nat {
    FirstIndex(table, (r: Row) => Matches(w, r))
  }

  lemma Spliced(head: Row, rest: seq<Row>, i: nat, middle: seq<Row>)
    requires i < |rest|
    ensures [head] + (rest[..i] + middle + rest[i + 1..]) ==
            ([head] + rest)[..i + 1] + middle + ([head] + rest)[i + 2..]
  {
    assert ([head] + rest)[..i + 1] == [head] + rest[..i];
    assert ([head] + rest)[i + 2..] == rest[i + 1..];
  }

  /** The operations on one row act on the first that matches, and on none if none does. */
  lemma {:induction false} SetFirstMeans(table: seq<Row>, w: Where, data: Row)
    ensures var i := FirstMatching(table, w);
            SetFirst(table, w, data) ==
            if i < |table| then table[..i] + [table[i] + data] + table[i + 1..] else table
  {
    if table != [] && !Matches(w, table[0]) {
      var head, rest := table[0], table[1..];
      assert table == [head] + rest;
      SetFirstMeans(rest, w, data);
      FirstIndexIs(rest, (r: Row) => Matches(w, r));
      var i := FirstMatching(rest, w);
      if i < |rest| {
        Spliced(head, rest, i, [rest[i] + data]);
      }
    }
  }

  lemma {:induction false} RemoveFirstMeans(table: seq<Row>, w: Where)
    ensures var i := FirstMatching(table, w);
            RemoveFirst(table, w) == if i < |table| then table[..i] + [] + table[i + 1..] else table
  {
    if table != [] && !Matches(w, table[0]) {
      var head, rest := table[0], table[1..];
      assert table == [head] + rest;
      RemoveFirstMeans(rest, w);
      FirstIndexIs(rest, (r: Row) => Matches(w, r));
      var i := FirstMatching(rest, w);
      if i < |rest| {
        Spliced(head, rest, i, []);
      }
    }
  }

  /** An insert appends its rows, all or none: none when an id is taken or comes twice. */
  lemma {:induction false} InsertableMeans(table: seq<Row>, rows: seq<Row>)
    ensures Insertable(table, rows) <==>
            && (forall i, j | 0 <= i < |table| && 0 <= j < |rows| :: Get(table[i], IdField) != Get(rows[j], IdField))
            && (forall i, j | 0 <= i < j < |rows| :: Get(rows[i], IdField) != Get(rows[j], IdField))
    decreases |rows|
  {
    if rows != [] {
      var more, rest := table + [rows[0]], rows[1..];
      InsertableMeans(more, rest);
      assert forall i | 0 <= i < |table| :: table[i] in table && more[i] == table[i];
      assert more[|table|] == rows[0];
      assert forall j | 0 <= j < |rest| :: rest[j] == rows[j + 1];
      assert forall j | 0 < j < |rows| :: rows[j] == rest[j - 1];
    }
  }

  lemma {:induction false} SortedKeeps(rows: seq<Row>, s: Shape)
    ensures multiset(Sorted(rows, s)) == multiset(rows)
  {
    if rows != [] {
      assert rows == [rows[0]] + rows[1..];
      SortedKeeps(rows[1..], s);
      InsertKeeps(rows[0], Sorted(rows[1..], s), s);
    }
  }

  lemma {:induction false} InsertKeeps(row: Row, rows: seq<Row>, s: Shape)
    ensures multiset(InsertSorted(row, rows, s)) == multiset(rows) + multiset{row}
  {
    if rows != [] {
      assert rows == [rows[0]] + rows[1..];
      InsertKeeps(row, rows[1..], s);
    }
  }

  lemma SameMembers(rows: seq<Row>, found: seq<Row>)
    requires multiset(rows) == multiset(found)
    ensures |rows| == |found| && forall r :: r in rows <==> r in found
  {
    assert |multiset(rows)| == |rows| && |multiset(found)| == |found|;
    assert forall r :: r in rows <==> r in multiset(rows);
    assert forall r :: r in found <==> r in multiset(found);
  }

  /** Reads answer from the rows that match: all of them, their number, or one. */
  lemma {:induction false} ReadsAnswer(a: Args, table: seq<Row>, found: seq<Row>)
    requires a.shape.skip == 0 && a.shape.take.None? && found == Select(table, WhereOf(a))
    ensures Exec(FindMany, a, table).0.Rows? && multiset(Exec(FindMany, a, table).0.rows) == multiset(found)
  {
    SortedKeeps(found, a.shape);
    assert Page(Sorted(found, a.shape), a.shape) == Sorted(found, a.shape);
  }

  lemma {:induction false} CountAnswers(a: Args, table: seq<Row>, found: seq<Row>)
    requires found == Select(table, WhereOf(a))
    ensures Exec(Count, a, table).0 == Number(|found|)
    ensures Exec(FindUnique, a, table).0 == OneRow(if found == [] then None else Some(found[0]))
  {
  }

  lemma {:induction false} FindFirstAnswers(a: Args, table: seq<Row>, found: seq<Row>)
    requires a.shape.skip == 0 && a.shape.take.None? && found == Select(table, WhereOf(a))
    ensures var r := Exec(FindFirst, a, table).0;
            r.OneRow? && if found == [] then r.row.None? else r.row.Some? && r.row.value in found
  {
    SortedKeeps(found, a.shape);
    var rows := Sorted(found, a.shape);
    SameMembers(rows, found);
    assert Page(rows, a.shape) == rows;
  }

  /** Writes change the rows that match, or the first of them, and say what they found. */
  lemma {:induction false} ManyWrites(a: Args, table: seq<Row>)
    ensures Exec(UpdateMany, a, table) ==
              (Number(|Select(table, WhereOf(a))|), SetAll(table, WhereOf(a), Single(a.data)))
    ensures Exec(DeleteMany, a, table) == (Number(|Select(table, WhereOf(a))|), RemoveAll(table, WhereOf(a)))
  {
  }

  lemma {:induction false} UpdateWrites(a: Args, table: seq<Row>, found: seq<Row>)
    requires found == Select(table, WhereOf(a))
    ensures Exec(Update, a, table) ==
            (if found == [] then NotFound else OneRow(Some(found[0] + Single(a.data))),
             SetFirst(table, WhereOf(a), Single(a.data)))
  {
  }

  lemma {:induction false} DeleteWrites(a: Args, table: seq<Row>, found: seq<Row>)
    requires found == Select(table, WhereOf(a))
    ensures Exec(Delete, a, table) ==
            (if found == [] then NotFound else OneRow(Some(found[0])), RemoveFirst(table, WhereOf(a)))
  {
  }

  // ------------------------------------------------------ order, paging, totals

  ghost predicate InOrder(rows: seq<Row>, s: Shape) {
    forall i, j | 0 <= i < j < |rows| ::
      if s.descending then Get(rows[i], s.orderBy).Num? && Get(rows[j], s.orderBy).Num? ==>
                             Get(rows[i], s.orderBy).n >= Get(rows[j], s.orderBy).n
      else Get(rows[i], s.orderBy).Num? && Get(rows[j], s.orderBy).Num? ==>
             Get(rows[i], s.orderBy).n <= Get(rows[j], s.orderBy).n
  }

  predicate Precedes(a: Row, b: Row, s: Shape) {
    if s.descending then Key(a, s.orderBy) >= Key(b, s.orderBy) else Key(a, s.orderBy) <= Key(b, s.orderBy)
  }

  ghost predicate KeysInOrder(rows: seq<Row>, s: Shape) {
    forall i, j | 0 <= i < j < |rows| :: Precedes(rows[i], rows[j], s)
  }

  lemma {:induction false} InsertOrders(row: Row, rows: seq<Row>, s: Shape)
    requires KeysInOrder(rows, s)
    ensures KeysInOrder(InsertSorted(row, rows, s), s)
    ensures forall r | r in InsertSorted(row, rows, s) :: r == row || r in rows
  {
    if rows != [] {
      var rest := rows[1..];
      assert rows == [rows[0]] + rest && KeysInOrder(rest, s);
      InsertOrders(row, rest, s);
      assert forall r | r in rest :: Precedes(rows[0], r, s);
      if Precedes(row, rows[0], s) {
        assert forall r | r in rows :: Precedes(row, r, s);
      } else {
        assert forall r | r in InsertSorted(row, rest, s) :: Precedes(rows[0], r, s);
      }
    }
  }

  lemma {:induction false} SortedKeysInOrder(rows: seq<Row>, s: Shape)
    ensures KeysInOrder(Sorted(rows, s), s)
  {
    if rows != [] {
      SortedKeysInOrder(rows[1..], s);
      InsertOrders(rows[0], Sorted(rows[1..], s), s);
    }
  }

  /** Rows come ordered by the column asked for, ascending or descending. */
  lemma SortedInOrder(rows: seq<Row>, s: Shape)
    ensures InOrder(Sorted(rows, s), s)
  {
    SortedKeysInOrder(rows, s);
    var sorted := Sorted(rows, s);
    forall i, j | 0 <= i < j < |sorted| && Get(sorted[i], s.orderBy).Num? && Get(sorted[j], s.orderBy).Num?
      ensures if s.descending then Get(sorted[i], s.orderBy).n >= Get(sorted[j], s.orderBy).n
              else Get(sorted[i], s.orderBy).n <= Get(sorted[j], s.orderBy).n
    {
      assert Precedes(sorted[i], sorted[j], s);
    }
  }

  /** A page leaves out what is skipped and what lies beyond what is taken. */
  lemma PageMeans(rows: seq<Row>, s: Shape, i: nat)
    ensures |Page(rows, s)| ==
            (var rest := if s.skip < |rows| then |rows| - s.skip else 0;
             if s.take.Some? && s.take.value < rest then s.take.value else rest)
    ensures i < |Page(rows, s)| ==> s.skip + i < |rows| && Page(rows, s)[i] == rows[s.skip + i]
  {
  }

  /** A sum adds up the column's numbers, row by row, and a grouping counts its values. */
  lemma {:induction false} TotalsMean(rows: seq<Row>, row: Row, f: Field)
    ensures Sum(rows + [row], f) == Sum(rows, f) + (if Get(row, f).Num? then Get(row, f).n else 0) && Sum([], f) == 0
    ensures Values(rows + [row], f) == Values(rows, f) + multiset{Get(row, f)} && Values([], f) == multiset{}
  {
    if rows == [] {
      assert [] + [row] == [row] && [row][1..] == [];
    } else {
      assert (rows + [row])[1..] == rows[1..] + [row];
      TotalsMean(rows[1..], row, f);
    }
  }

  /** A create with a taken id is refused and changes nothing. */
  lemma {:induction false} CreateWrites(a: Args, table: seq<Row>)
    ensures Exec(Create, a, table) ==
            if exists i :: 0 <= i < |table| && Get(table[i], IdField) == Get(Single(a.data), IdField)
            then (UniqueViolation, table) else (OneRow(Some(Single(a.data))), table + [Single(a.data)])
  {
    InsertableMeans(table, [Single(a.data)]);
  }
}
