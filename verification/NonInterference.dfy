/**
  What the scoping rewrite guarantees: on its own tenant's rows a rewritten call
  is the original call, on everybody else's it is nothing, and so whole runs of
  interleaved tenants do not interfere.
*/
module NonInterference {
  import opened Common
  import opened QueryEngine
  import opened TenantScoping

  // ------------------------------------------------------------ sub-tables

  /** The rows of one tenant, in storage order. */
  function Sub(table: seq<Row>, t: Id): seq<Row> {
    if table == [] then []
    else
      var rest := Sub(table[1..], t);
      if Get(table[0], TenantField) == Str(t) then [table[0]] + rest else rest
  }

  /** Consing a row onto a table, seen through `Sub`. */
  lemma SubCons(row: Row, rest: seq<Row>, t: Id)
    ensures Sub([row] + rest, t) == if Get(row, TenantField) == Str(t) then [row] + Sub(rest, t) else Sub(rest, t)
  {
    assert ([row] + rest)[1..] == rest;
  }

  /** The caller's where-tree without its own top-level tenantId key. */
  function Unscoped(w: Where): Where {
    w.(fields := w.fields - {TenantField})
  }

  lemma {:induction false} SubConcat(a: seq<Row>, b: seq<Row>, t: Id)
    ensures Sub(a + b, t) == Sub(a, t) + Sub(b, t)
  {
    if a == [] {
      assert a + b == b;
    } else {
      SubConcat(a[1..], b, t);
      assert a + b == [a[0]] + (a[1..] + b);
      SubCons(a[0], a[1..] + b, t);
    }
  }

  lemma {:induction false} SubMembers(table: seq<Row>, t: Id, r: Row)
    ensures r in Sub(table, t) <==> r in table && Get(r, TenantField) == Str(t)
  {
    if table != [] {
      SubMembers(table[1..], t, r);
      assert table == [table[0]] + table[1..];
    }
  }

  /** The rewritten filter selects exactly the caller's choice among the tenant's rows. */
  lemma {:induction false} ScopedMatch(w: Where, t: Id, row: Row)
    ensures Matches(ScopeWhere(w, t), row) <==> Get(row, TenantField) == Str(t) && Matches(Unscoped(w), row)
  {
    var s, u := ScopeWhere(w, t), Unscoped(w);
    assert forall f :: f in u.fields ==> f in s.fields && s.fields[f] == u.fields[f];
    assert forall f :: f in s.fields ==> f == TenantField || f in u.fields;
    assert TenantField in s.fields && s.fields[TenantField] == Equals(Str(t));
  }

  // ------------------------------------------- primitives commute with Sub

  lemma {:induction false} SelectScoped(table: seq<Row>, w: Where, t: Id)
    ensures Select(table, ScopeWhere(w, t)) == Select(Sub(table, t), Unscoped(w))
  {
    if table != [] {
      var rest := table[1..];
      assert ([table[0]] + Sub(rest, t))[1..] == Sub(rest, t);
      ScopedMatch(w, t, table[0]);
      SelectScoped(table[1..], w, t);
    }
  }

  predicate KeepsTenant(data: Row, t: Id) {
    TenantField in data ==> data[TenantField] == Str(t)
  }

  lemma {:induction false} SetAllScoped(table: seq<Row>, w: Where, data: Row, t: Id, u: Id)
    requires KeepsTenant(data, t)
    ensures Sub(SetAll(table, ScopeWhere(w, t), data), u) ==
            if u == t then SetAll(Sub(table, t), Unscoped(w), data) else Sub(table, u)
  {
    if table != [] {
      var head, rest := table[0], table[1..];
      assert ([head] + Sub(rest, t))[1..] == Sub(rest, t);
      SubCons(head, SetAll(rest, ScopeWhere(w, t), data), u);
      SubCons(head + data, SetAll(rest, ScopeWhere(w, t), data), u);
      ScopedMatch(w, t, table[0]);
      SetAllScoped(table[1..], w, data, t, u);
    }
  }

  lemma {:induction false} SetFirstScoped(table: seq<Row>, w: Where, data: Row, t: Id, u: Id)
    requires KeepsTenant(data, t)
    ensures Sub(SetFirst(table, ScopeWhere(w, t), data), u) ==
            if u == t then SetFirst(Sub(table, t), Unscoped(w), data) else Sub(table, u)
  {
    if table != [] {
      var head, rest := table[0], table[1..];
      assert ([head] + Sub(rest, t))[1..] == Sub(rest, t);
      SubCons(head, SetFirst(rest, ScopeWhere(w, t), data), u);
      SubCons(head + data, SetFirst(rest, ScopeWhere(w, t), data), u);
      SubCons(head + data, rest, u);
      ScopedMatch(w, t, table[0]);
      SetFirstScoped(table[1..], w, data, t, u);
    }
  }

  lemma {:induction false} RemoveAllScoped(table: seq<Row>, w: Where, t: Id, u: Id)
    ensures Sub(RemoveAll(table, ScopeWhere(w, t)), u) ==
            if u == t then RemoveAll(Sub(table, t), Unscoped(w)) else Sub(table, u)
  {
    if table != [] {
      var head, rest := table[0], table[1..];
      assert ([head] + Sub(rest, t))[1..] == Sub(rest, t);
      SubCons(head, RemoveAll(rest, ScopeWhere(w, t)), u);
      ScopedMatch(w, t, table[0]);
      RemoveAllScoped(table[1..], w, t, u);
    }
  }

  lemma {:induction false} RemoveFirstScoped(table: seq<Row>, w: Where, t: Id, u: Id)
    ensures Sub(RemoveFirst(table, ScopeWhere(w, t)), u) ==
            if u == t then RemoveFirst(Sub(table, t), Unscoped(w)) else Sub(table, u)
  {
    if table != [] {
      var head, rest := table[0], table[1..];
      assert ([head] + Sub(rest, t))[1..] == Sub(rest, t);
      SubCons(head, RemoveFirst(rest, ScopeWhere(w, t)), u);
      ScopedMatch(w, t, table[0]);
      RemoveFirstScoped(table[1..], w, t, u);
    }
  }

  // ------------------------------------------------------- id ownership

  /**
    Ids are fresh uuids, so no two tenants ever use the same one: `owner` tells
    whose id it is.
  */
  ghost predicate Owned(rows: seq<Row>, owner: Value -> Id) {
    forall r | r in rows :: Get(r, TenantField) == Str(owner(Get(r, IdField)))
  }

  ghost predicate OwnedBy(rows: seq<Row>, owner: Value -> Id, t: Id) {
    forall i | 0 <= i < |rows| :: Get(rows[i], TenantField) == Str(t) && owner(Get(rows[i], IdField)) == t
  }

  lemma HasIdInSub(table: seq<Row>, id: Value, owner: Value -> Id)
    requires Owned(table, owner)
    ensures HasId(table, id) <==> HasId(Sub(table, owner(id)), id)
  {
    var t := owner(id);
    forall r: Row ensures r in Sub(table, t) <==> r in table && Get(r, TenantField) == Str(t) {
      SubMembers(table, t, r);
    }
    if HasId(table, id) {
      var r :| r in table && Get(r, IdField) == id;
      assert r in Sub(table, t);
    }
  }

  lemma {:induction false} InsertableInSub(table: seq<Row>, rows: seq<Row>, owner: Value -> Id, t: Id)
    requires Owned(table, owner) && OwnedBy(rows, owner, t)
    ensures Insertable(table, rows) <==> Insertable(Sub(table, t), rows)
    decreases |rows|
  {
    if rows != [] {
      HasIdInSub(table, Get(rows[0], IdField), owner);
      assert Owned(table + [rows[0]], owner);
      SubConcat(table, [rows[0]], t);
      assert Sub([rows[0]], t) == [rows[0]];
      InsertableInSub(table + [rows[0]], rows[1..], owner, t);
    }
  }

  lemma {:induction false} SubOfStamped(rows: seq<Row>, owner: Value -> Id, t: Id, u: Id)
    requires OwnedBy(rows, owner, t)
    ensures Sub(rows, u) == if u == t then rows else []
  {
    if rows != [] {
      SubOfStamped(rows[1..], owner, t, u);
      assert rows == [rows[0]] + rows[1..];
    }
  }

  // --------------------------------------------- one call: what it means

  /** Rows a call asks to insert. */
  function Payload(op: Op, a: Args): seq<Row> {
    match op
    case Create => [Single(a.data)]
    case CreateMany => Batch(a.data)
    case Upsert => [if a.create.Some? then a.create.value else map[]]
    case _ => []
  }

  /** Rows it inserts, as stamped by the rewrite. */
  function Created(op: Op, a: Args, t: Id): seq<Row> {
    match op
    case Create => [Single(ScopedArgs(op, a, t).data)]
    case CreateMany => Batch(ScopedArgs(op, a, t).data)
    case Upsert => [ScopedArgs(op, a, t).create.value]
    case _ => []
  }

  /** Payload of an update; it may not be used to re-home a row or change its id. */
  function Changes(op: Op, a: Args): Row {
    match op
    case Update => Single(a.data)
    case UpdateMany => Single(a.data)
    case Upsert => a.update
    case _ => map[]
  }

  /** A covered operation whose payload re-homes no row and draws its ids from the tenant's own. */
  ghost predicate InDomain(op: Op, a: Args, owner: Value -> Id, t: Id) {
    && (|| op.FindMany? || op.FindFirst? || op.FindUnique? || op.Count? || op.Aggregate? || op.GroupBy?
        || op.Create? || op.CreateMany?
        || op.Update? || op.UpdateMany? || op.Delete? || op.DeleteMany? || op.Upsert?)
    && (TenantField in Changes(op, a) ==> Changes(op, a)[TenantField] == Str(t)) && IdField !in Changes(op, a)
    && forall i | 0 <= i < |Payload(op, a)| :: owner(Get(Payload(op, a)[i], IdField)) == t
  }

  lemma CreatedOwned(op: Op, a: Args, owner: Value -> Id, t: Id)
    requires InDomain(op, a, owner, t)
    ensures OwnedBy(Created(op, a, t), owner, t)
  {
    assert |Created(op, a, t)| == |Payload(op, a)|;
    forall i | 0 <= i < |Payload(op, a)| ensures Created(op, a, t)[i] == Payload(op, a)[i][TenantField := Str(t)] {
    }
  }

  /** The call as its author wrote it, meant for a database holding one tenant only, whose rows name it. */
  function Intended(op: Op, a: Args, t: Id): Args {
    match op
    case Create => a.(data := One(Single(a.data)[TenantField := Str(t)]))
    case CreateMany => a.(data := Many(Named(Batch(a.data), t)))
    case Upsert =>
      var row := if a.create.Some? then a.create.value else map[];
      a.(filter := Some(Unscoped(WhereOf(a))), create := Some(row[TenantField := Str(t)]))
    case _ => a.(filter := Some(Unscoped(WhereOf(a))))
  }

  function Named(rows: seq<Row>, t: Id): seq<Row> {
    if rows == [] then [] else [rows[0][TenantField := Str(t)]] + Named(rows[1..], t)
  }

  lemma {:induction false} NamedIsStamped(rows: seq<Row>, t: Id)
    ensures Named(rows, t) == StampAll(rows, t)
  {
    if rows != [] {
      NamedIsStamped(rows[1..], t);
      assert StampAll(rows, t) == [Stamp(rows[0], t)] + StampAll(rows[1..], t);
    }
  }

  /** What an insert asks for and what it is meant to insert are the same rows. */
  lemma BatchesAgree(op: Op, a: Args, t: Id)
    requires op.Create? || op.CreateMany?
    ensures Batch(Intended(op, a, t).data) == Created(op, a, t) == Batch(ScopedArgs(op, a, t).data)
    ensures op.Create? ==> Single(Intended(op, a, t).data) == Single(ScopedArgs(op, a, t).data)
  {
    NamedIsStamped(Batch(a.data), t);
    if op.CreateMany? && !a.data.Many? {
      assert Batch(a.data)[1..] == [];
    }
  }

  /** What "same meaning" says about one call and the rows of tenant `u`. */
  ghost predicate SameMeaning(op: Op, a: Args, table: seq<Row>, t: Id, u: Id) {
    var (out, after) := Exec(op, ScopedArgs(op, a, t), table);
    var (intended, intendedAfter) := Exec(op, Intended(op, a, t), Sub(table, t));
    out == intended && Sub(after, u) == if u == t then intendedAfter else Sub(table, u)
  }

  /**
    Meaning preservation: run on the whole table, the rewritten call answers what
    the original answers on the tenant's sub-table, leaves that sub-table as the
    original would, and leaves every other tenant's rows as they were.
  */
  lemma {:induction false} ScopingPreservesMeaning(op: Op, a: Args, table: seq<Row>, owner: Value -> Id, t: Id, u: Id)
    requires Owned(table, owner) && InDomain(op, a, owner, t)
    ensures SameMeaning(op, a, table, t, u)
  {
    if IsReadOp(op) {
      ReadMeaning(op, a, table, t, u);
    } else if IsCreateOp(op) {
      CreatedOwned(op, a, owner, t);
      InsertCommutes(table, Created(op, a, t), owner, t, u);
      BatchesAgree(op, a, t);
    } else if op == Upsert {
      UpsertMeaning(a, table, owner, t, u);
    } else {
      MutationMeaning(op, a, table, t, u);
    }
  }

  lemma ReadMeaning(op: Op, a: Args, table: seq<Row>, t: Id, u: Id)
    requires IsReadOp(op)
    ensures SameMeaning(op, a, table, t, u)
  {
    FiltersOf(op, a, t);
    SelectScoped(table, WhereOf(a), t);
    ExecRead(op, ScopedArgs(op, a, t), table);
    ExecRead(op, Intended(op, a, t), Sub(table, t));
  }

  lemma FiltersOf(op: Op, a: Args, t: Id)
    requires IsReadOp(op) || IsMutatingWithWhere(op)
    ensures WhereOf(ScopedArgs(op, a, t)) == ScopeWhere(WhereOf(a), t)
    ensures WhereOf(Intended(op, a, t)) == Unscoped(WhereOf(a))
    ensures ScopedArgs(op, a, t).shape == Intended(op, a, t).shape == a.shape
    ensures op != Upsert ==> ScopedArgs(op, a, t).data == Intended(op, a, t).data == a.data
    ensures ScopedArgs(op, a, t).update == Intended(op, a, t).update == a.update
  {
  }

  lemma ExecRead(op: Op, a: Args, table: seq<Row>)
    requires IsReadOp(op)
    ensures Exec(op, a, table) == (Answer(op, Select(table, WhereOf(a)), a.shape), table)
  {
  }

  lemma ExecMutation(op: Op, a: Args, table: seq<Row>)
    requires IsMutatingWithWhere(op)
    requires op == Upsert ==> Select(table, WhereOf(a)) != []
    ensures Exec(op, a, table) == Mutate(op, table, WhereOf(a), Changes(op, a))
  {
  }

  lemma ScopedMutation(op: Op, a: Args, table: seq<Row>, t: Id)
    requires IsMutatingWithWhere(op)
    requires op == Upsert ==> Select(table, ScopeWhere(WhereOf(a), t)) != []
    ensures Exec(op, ScopedArgs(op, a, t), table) == Mutate(op, table, ScopeWhere(WhereOf(a), t), Changes(op, a))
  {
    FiltersOf(op, a, t);
    ExecMutation(op, ScopedArgs(op, a, t), table);
  }

  lemma IntendedMutation(op: Op, a: Args, table: seq<Row>, t: Id)
    requires IsMutatingWithWhere(op)
    requires op == Upsert ==> Select(table, Unscoped(WhereOf(a))) != []
    ensures Exec(op, Intended(op, a, t), table) == Mutate(op, table, Unscoped(WhereOf(a)), Changes(op, a))
  {
    FiltersOf(op, a, t);
    ExecMutation(op, Intended(op, a, t), table);
  }

  lemma MutationMeaning(op: Op, a: Args, table: seq<Row>, t: Id, u: Id)
    requires IsMutatingWithWhere(op) && KeepsTenant(Changes(op, a), t)
    requires op == Upsert ==> Select(table, ScopeWhere(WhereOf(a), t)) != []
    ensures SameMeaning(op, a, table, t, u)
  {
    SelectScoped(table, WhereOf(a), t);
    MutateScoped(op, table, WhereOf(a), Changes(op, a), t, u);
    ScopedMutation(op, a, table, t);
    IntendedMutation(op, a, Sub(table, t), t);
    MeaningOf(op, a, table, t, u, Exec(op, ScopedArgs(op, a, t), table), Exec(op, Intended(op, a, t), Sub(table, t)));
  }

  lemma MeaningOf(op: Op, a: Args, table: seq<Row>, t: Id, u: Id, x: (Outcome, seq<Row>), y: (Outcome, seq<Row>))
    requires x == Exec(op, ScopedArgs(op, a, t), table) && y == Exec(op, Intended(op, a, t), Sub(table, t))
    requires x.0 == y.0 && Sub(x.1, u) == if u == t then y.1 else Sub(table, u)
    ensures SameMeaning(op, a, table, t, u)
  {
  }

  lemma MutateScoped(op: Op, table: seq<Row>, w: Where, data: Row, t: Id, u: Id)
    requires KeepsTenant(data, t)
    ensures var (out, after) := Mutate(op, table, ScopeWhere(w, t), data);
            var (intended, intendedAfter) := Mutate(op, Sub(table, t), Unscoped(w), data);
            out == intended && Sub(after, u) == if u == t then intendedAfter else Sub(table, u)
  {
    SelectScoped(table, w, t);
    SetFirstScoped(table, w, data, t, u);
    SetAllScoped(table, w, data, t, u);
    RemoveFirstScoped(table, w, t, u);
    RemoveAllScoped(table, w, t, u);
  }

  lemma UpsertMeaning(a: Args, table: seq<Row>, owner: Value -> Id, t: Id, u: Id)
    requires Owned(table, owner) && InDomain(Upsert, a, owner, t)
    ensures SameMeaning(Upsert, a, table, t, u)
  {
    if Select(table, ScopeWhere(WhereOf(a), t)) != [] {
      MutationMeaning(Upsert, a, table, t, u);
    } else {
      CreatedOwned(Upsert, a, owner, t);
      UpsertMissMeaning(a, table, owner, t, u);
    }
  }

  lemma UpsertMissMeaning(a: Args, table: seq<Row>, owner: Value -> Id, t: Id, u: Id)
    requires Owned(table, owner) && OwnedBy(Created(Upsert, a, t), owner, t)
    requires Select(table, ScopeWhere(WhereOf(a), t)) == []
    ensures SameMeaning(Upsert, a, table, t, u)
  {
    UpsertMisses(a, table, t);
    ExecUpsertMiss(ScopedArgs(Upsert, a, t), table);
    ExecUpsertMiss(Intended(Upsert, a, t), Sub(table, t));
    InsertMeaning(table, ScopedArgs(Upsert, a, t).create.value, owner, t, u);
  }

  lemma UpsertMisses(a: Args, table: seq<Row>, t: Id)
    requires Select(table, ScopeWhere(WhereOf(a), t)) == []
    ensures Select(table, WhereOf(ScopedArgs(Upsert, a, t))) == []
    ensures Select(Sub(table, t), WhereOf(Intended(Upsert, a, t))) == []
  {
    FiltersOf(Upsert, a, t);
    SelectScoped(table, WhereOf(a), t);
  }

  lemma InsertMeaning(table: seq<Row>, row: Row, owner: Value -> Id, t: Id, u: Id)
    requires Owned(table, owner) && OwnedBy([row], owner, t)
    ensures var (out, after) := Insert(table, [row], OneRow(Some(row)));
            var (intended, intendedAfter) := Insert(Sub(table, t), [row], OneRow(Some(row)));
            out == intended && Sub(after, u) == if u == t then intendedAfter else Sub(table, u)
  {
    InsertCommutes(table, [row], owner, t, u);
  }

  lemma ExecUpsertMiss(a: Args, table: seq<Row>)
    requires a.create.Some? && Select(table, WhereOf(a)) == []
    ensures Exec(Upsert, a, table) == Insert(table, [a.create.value], OneRow(a.create))
  {
  }

  lemma InsertCommutes(table: seq<Row>, rows: seq<Row>, owner: Value -> Id, t: Id, u: Id)
    requires Owned(table, owner) && OwnedBy(rows, owner, t)
    ensures Insertable(table, rows) <==> Insertable(Sub(table, t), rows)
    ensures Sub(table + rows, u) == if u == t then Sub(table, t) + rows else Sub(table, u)
  {
    InsertableInSub(table, rows, owner, t);
    SubConcat(table, rows, u);
    SubOfStamped(rows, owner, t, u);
  }

  /** A top-level tenantId supplied by the caller never matters. */
  lemma CallerTenantOverridden(op: Op, a: Args, t: Id, supplied: Filter)
    requires IsReadOp(op) || IsMutatingWithWhere(op)
    ensures var w := WhereOf(a);
            ScopedArgs(op, a, t) ==
            ScopedArgs(op, a.(filter := Some(w.(fields := w.fields[TenantField := supplied]))), t)
  {
    var w := WhereOf(a);
    assert w.fields[TenantField := supplied][TenantField := Equals(Str(t))] == w.fields[TenantField := Equals(Str(t))];
  }

  // ------------------------------------------------ where scoping stops short

  predicate SendsPayload(op: Op) {
    op == Update || op == UpdateMany || op == Upsert
  }

  predicate NamesOtherTenant(data: Row, t: Id) {
    TenantField in data && data[TenantField].Str? && data[TenantField] != Str(t)
  }

  /**
    The rewrite does not look at update payloads. Each operation that sends one
    keeps out of every other tenant's rows, whatever its filter, its other
    arguments and the table, exactly when the payload does not name another tenant.
  */
  lemma UpdateConfinedIff(op: Op, t: Id, data: Row)
    requires op.Update? || op.UpdateMany? || op.Upsert?
    ensures (forall a: Args, table: seq<Row>, u: Id | u != t && Changes(op, a) == data ::
               Sub(Exec(op, ScopedArgs(op, a, t), table).1, u) == Sub(table, u))
            <==> !(TenantField in data && data[TenantField].Str? && data[TenantField] != Str(t))
  {
    if NamesOtherTenant(data, t) {
      PayloadMovesRow(op, t, data);
    } else {
      forall a: Args, table: seq<Row>, u: Id | u != t && Changes(op, a) == data
        ensures Sub(Exec(op, ScopedArgs(op, a, t), table).1, u) == Sub(table, u)
      {
        PayloadConfined(op, a, table, t, u);
      }
    }
  }

  /** One row of the tenant's, any filter that matches it: the payload hands it over. */
  lemma PayloadMovesRow(op: Op, t: Id, data: Row)
    requires SendsPayload(op) && NamesOtherTenant(data, t)
    ensures exists a: Args, table: seq<Row>, u: Id ::
              u != t && Changes(op, a) == data && Sub(Exec(op, ScopedArgs(op, a, t), table).1, u) != Sub(table, u)
  {
    var u := data[TenantField].s;
    var row: Row := map[TenantField := Str(t)];
    var a := Args(None, One(data), None, data, Shape(IdField, false, 0, None, IdField));
    ScopedMatch(WhereOf(a), t, row);
    OnlyRow(op, row, ScopeWhere(WhereOf(a), t), data);
    ScopedMutation(op, a, [row], t);
    SubCons(row + data, [], u);
    SubCons(row, [], u);
    assert u != t && Changes(op, a) == data;
    assert Sub([row + data], u) != Sub([row], u);
  }

  lemma OnlyRow(op: Op, row: Row, w: Where, data: Row)
    requires SendsPayload(op) && Matches(w, row)
    ensures Select([row], w) == [row]
    ensures Change(op, [row], w, data) == [row + data]
  {
    assert [row][1..] == [];
    assert [row + data] + [row][1..] == [row + data];
    assert Select([row][1..], w) == [] && SetAll([row][1..], w, data) == [];
  }

  lemma PayloadConfined(op: Op, a: Args, table: seq<Row>, t: Id, u: Id)
    requires SendsPayload(op) && u != t && !NamesOtherTenant(Changes(op, a), t)
    ensures Sub(Exec(op, ScopedArgs(op, a, t), table).1, u) == Sub(table, u)
  {
    if op == Upsert && Select(table, ScopeWhere(WhereOf(a), t)) == [] {
      var row := Stamp(if a.create.Some? then a.create.value else map[], t);
      SubConcat(table, [row], u);
      SubCons(row, [], u);
    } else {
      OtherRowsKept(table, WhereOf(a), Changes(op, a), t, u);
      FirstKeepsOthers(table, WhereOf(a), Changes(op, a), t, u);
      ScopedMutation(op, a, table, t);
    }
  }

  lemma {:induction false} FirstKeepsOthers(table: seq<Row>, w: Where, data: Row, t: Id, u: Id)
    requires u != t && (TenantField in data ==> data[TenantField] != Str(u))
    ensures Sub(SetFirst(table, ScopeWhere(w, t), data), u) == Sub(table, u)
  {
    if table != [] {
      var head, rest := table[0], table[1..];
      ScopedMatch(w, t, head);
      FirstKeepsOthers(rest, w, data, t, u);
      SubCons(head, rest, u);
      SubCons(head, SetFirst(rest, ScopeWhere(w, t), data), u);
      SubCons(head + data, rest, u);
    }
  }

  lemma {:induction false} OtherRowsKept(table: seq<Row>, w: Where, data: Row, t: Id, u: Id)
    requires u != t && (TenantField in data ==> data[TenantField] != Str(u))
    ensures Sub(SetAll(table, ScopeWhere(w, t), data), u) == Sub(table, u)
  {
    if table != [] {
      var head, rest := table[0], table[1..];
      ScopedMatch(w, t, head);
      OtherRowsKept(rest, w, data, t, u);
      SubCons(head, SetAll(rest, ScopeWhere(w, t), data), u);
      SubCons(head + data, SetAll(rest, ScopeWhere(w, t), data), u);
    }
  }

  /** A read of any kind answers from the caller's own rows only. */
  ghost predicate AnswersFromOwnRows(op: Op, t: Id) {
    forall a: Args, table: seq<Row> ::
      Exec(op, ScopedArgs(op, a, t), table).0 == Exec(op, ScopedArgs(op, a, t), Sub(table, t)).0
  }

  /**
    Among the read operations the client offers, those confined to the caller's
    tenant are exactly the ones the extension lists: the two OrThrow variants run
    unscoped.
  */
  lemma ReadConfinedIff(op: Op, t: Id)
    requires || op.FindMany? || op.FindFirst? || op.FindUnique? || op.Count? || op.Aggregate? || op.GroupBy?
             || op.FindFirstOrThrow? || op.FindUniqueOrThrow?
    ensures AnswersFromOwnRows(op, t) <==>
            || op.FindMany? || op.FindFirst? || op.FindUnique? || op.Count? || op.Aggregate? || op.GroupBy?
  {
    if IsReadOp(op) {
      forall a: Args, table: seq<Row>
        ensures Exec(op, ScopedArgs(op, a, t), table).0 == Exec(op, ScopedArgs(op, a, t), Sub(table, t)).0
      {
        FiltersOf(op, a, t);
        SelectScoped(table, WhereOf(a), t);
        SelectScoped(Sub(table, t), WhereOf(a), t);
        SubIdempotent(table, t);
        ExecRead(op, ScopedArgs(op, a, t), table);
        ExecRead(op, ScopedArgs(op, a, t), Sub(table, t));
      }
    } else {
      var foreign: Row := map[TenantField := Str(t + "x")];
      var a := Args(None, NoData, None, map[], Shape(IdField, false, 0, None, IdField));
      assert t != t + "x";
      assert Sub([foreign], t) == [];
      assert Select([foreign], Everything) == [foreign];
      assert Exec(op, ScopedArgs(op, a, t), []).0 == NotFound;
      assert Sorted([foreign], a.shape) == [foreign];
      assert Exec(op, ScopedArgs(op, a, t), [foreign]).0 == OneRow(Some(foreign));
    }
  }

  lemma {:induction false} SubIdempotent(table: seq<Row>, t: Id)
    ensures Sub(Sub(table, t), t) == Sub(table, t)
  {
    if table != [] {
      SubIdempotent(table[1..], t);
      SubCons(table[0], Sub(table[1..], t), t);
    }
  }

  /**
    Likewise for inserts: exactly the listed operations can only ever add rows to
    the caller's own tenant.
  */
  lemma InsertConfinedIff(op: Op, t: Id)
    requires op.Create? || op.CreateMany? || op.CreateManyAndReturn?
    ensures (forall a: Args, table: seq<Row>, u: Id | u != t ::
               Sub(Exec(op, ScopedArgs(op, a, t), table).1, u) == Sub(table, u))
            <==> op.Create? || op.CreateMany?
  {
    if IsCreateOp(op) {
      forall a: Args, table: seq<Row>, u: Id | u != t
        ensures Sub(Exec(op, ScopedArgs(op, a, t), table).1, u) == Sub(table, u)
      {
        InsertConfined(op, a, table, t, u);
      }
    } else {
      UnlistedInsertEscapes(op, t);
    }
  }

  lemma InsertConfined(op: Op, a: Args, table: seq<Row>, t: Id, u: Id)
    requires IsCreateOp(op) && u != t
    ensures Sub(Exec(op, ScopedArgs(op, a, t), table).1, u) == Sub(table, u)
  {
    var rows := Created(op, a, t);
    SubConcat(table, rows, u);
    NoForeignRows(rows, t, u);
  }

  lemma UnlistedInsertEscapes(op: Op, t: Id)
    requires op.CreateManyAndReturn?
    ensures exists a: Args, table: seq<Row>, u: Id ::
              u != t && Sub(Exec(op, ScopedArgs(op, a, t), table).1, u) != Sub(table, u)
  {
    var u := t + "x";
    assert t != u;
    var foreign: Row := map[TenantField := Str(u)];
    var a := Args(None, One(foreign), None, map[], Shape(IdField, false, 0, None, IdField));
    SubCons(foreign, [], u);
    assert Batch(a.data) == [foreign];
    assert Insertable([], [foreign]);
    assert Exec(op, ScopedArgs(op, a, t), []).1 == [] + [foreign] == [foreign];
    assert Sub([foreign], u) != Sub([], u);
  }

  lemma {:induction false} NoForeignRows(rows: seq<Row>, t: Id, u: Id)
    requires u != t && forall r | r in rows :: Get(r, TenantField) == Str(t)
    ensures Sub(rows, u) == []
  {
    if rows != [] {
      NoForeignRows(rows[1..], t, u);
    }
  }
}
