/** Whole runs of interleaved tenants through the scoping extension. */
module TenantRuns {
  import opened Common
  import opened QueryEngine
  import opened TenantScoping
  import opened NonInterference

  /** Whose call it is, by its context. */
  function TenantOf(c: Call): Option<Id> {
    if c.ctx.Some? && c.ctx.value.tenantId != "" then Some(c.ctx.value.tenantId) else None
  }

  function Run(db: Tables, calls: seq<Call>): (seq<Outcome>, Tables)
    decreases |calls|
  {
    if calls == [] then ([], db)
    else
      var (out, next) := Perform(db, calls[0]);
      var (outs, last) := Run(next, calls[1..]);
      ([out] + outs, last)
  }

  /** The run with every other tenant's calls struck out. */
  function Purge(calls: seq<Call>, t: Id): seq<Call> {
    if calls == [] then []
    else
      var rest := Purge(calls[1..], t);
      if TenantOf(calls[0]) == Some(t) then [calls[0]] + rest else rest
  }

  /** What tenant `t` gets to see of a run: the outcomes of its own calls. */
  function Seen(calls: seq<Call>, outs: seq<Outcome>, t: Id): seq<Outcome>
    requires |calls| == |outs|
  {
    if calls == [] then []
    else
      var rest := Seen(calls[1..], outs[1..], t);
      if TenantOf(calls[0]) == Some(t) then [outs[0]] + rest else rest
  }

  ghost predicate OwnedDb(db: Tables, owner: Value -> Id) {
    forall m :: Owned(TableOf(db, m), owner)
  }

  /** Tenant `t` cannot tell the two databases apart. */
  ghost predicate SameFor(a: Tables, b: Tables, t: Id) {
    forall m :: Sub(TableOf(a, m), t) == Sub(TableOf(b, m), t)
  }

  /** A call on any model but the two whose rows belong to no one tenant. */
  ghost predicate CallInDomain(c: Call, owner: Value -> Id) {
    && c.model != SharedResource && c.model != Tenant
    && (TenantOf(c).Some? ==> InDomain(c.op, c.args, owner, TenantOf(c).value))
  }

  /** A call touches its own model's table and no other. */
  lemma PerformTables(db: Tables, c: Call, m: Model)
    requires c.model != SharedResource && c.model != Tenant
    ensures TableOf(Perform(db, c).1, m) ==
            if Admitted(c) && m == c.model
            then Exec(c.op, ScopedArgs(c.op, c.args, TenantOf(c).value), TableOf(db, m)).1
            else TableOf(db, m)
  {
  }

  // ------------------------------------------------------- ownership is kept

  lemma {:induction false} OwnedAfterChange(op: Op, table: seq<Row>, w: Where, data: Row, t: Id, owner: Value -> Id)
    requires Owned(table, owner) && KeepsTenant(data, t) && IdField !in data
    ensures Owned(Change(op, table, ScopeWhere(w, t), data), owner)
  {
    if table != [] {
      var head, rest := table[0], table[1..];
      ScopedMatch(w, t, head);
      assert table == [head] + rest;
      assert Owned(rest, owner) && Owned([head], owner);
      OwnedAfterChange(op, rest, w, data, t, owner);
      assert Matches(ScopeWhere(w, t), head) ==> Owned([head + data], owner);
    }
  }

  lemma OwnedAfterExec(c: Call, table: seq<Row>, owner: Value -> Id)
    requires CallInDomain(c, owner) && TenantOf(c).Some? && Owned(table, owner)
    ensures Owned(Exec(c.op, ScopedArgs(c.op, c.args, TenantOf(c).value), table).1, owner)
  {
    var t := TenantOf(c).value;
    var a := ScopedArgs(c.op, c.args, t);
    if IsReadOp(c.op) {
      ExecRead(c.op, a, table);
    } else if IsCreateOp(c.op) {
      CreatedOwned(c.op, c.args, owner, t);
      assert Owned(table + Created(c.op, c.args, t), owner);
    } else {
      FiltersOf(c.op, c.args, t);
      if c.op == Upsert && Select(table, WhereOf(a)) == [] {
        ExecUpsertMiss(a, table);
        CreatedOwned(c.op, c.args, owner, t);
        assert Owned(table + Created(c.op, c.args, t), owner);
      } else {
        ExecMutation(c.op, a, table);
        OwnedAfterChange(c.op, table, WhereOf(c.args), Changes(c.op, c.args), t, owner);
      }
    }
  }

  lemma OwnedAfterPerform(db: Tables, c: Call, owner: Value -> Id)
    requires CallInDomain(c, owner) && OwnedDb(db, owner)
    ensures OwnedDb(Perform(db, c).1, owner)
  {
    forall m ensures Owned(TableOf(Perform(db, c).1, m), owner) {
      PerformTables(db, c, m);
      if Admitted(c) && m == c.model {
        OwnedAfterExec(c, TableOf(db, m), owner);
      }
    }
  }

  // ----------------------------------------------------------- the unwinding

  /** A call is invisible to every tenant but its own. */
  lemma OthersUnaffected(db: Tables, c: Call, owner: Value -> Id, u: Id)
    requires CallInDomain(c, owner) && OwnedDb(db, owner) && TenantOf(c) != Some(u)
    ensures SameFor(Perform(db, c).1, db, u)
  {
    forall m ensures Sub(TableOf(Perform(db, c).1, m), u) == Sub(TableOf(db, m), u) {
      PerformTables(db, c, m);
      if Admitted(c) && m == c.model {
        ScopingPreservesMeaning(c.op, c.args, TableOf(db, m), owner, TenantOf(c).value, u);
      }
    }
  }

  /** A tenant's call depends on, and changes, only what that tenant can see. */
  lemma OwnCallDetermined(a: Tables, b: Tables, c: Call, owner: Value -> Id, t: Id)
    requires CallInDomain(c, owner) && OwnedDb(a, owner) && OwnedDb(b, owner)
    requires TenantOf(c) == Some(t) && SameFor(a, b, t)
    ensures Perform(a, c).0 == Perform(b, c).0
    ensures SameFor(Perform(a, c).1, Perform(b, c).1, t)
  {
    if Admitted(c) {
      ScopingPreservesMeaning(c.op, c.args, TableOf(a, c.model), owner, t, t);
      ScopingPreservesMeaning(c.op, c.args, TableOf(b, c.model), owner, t, t);
    }
    forall m ensures Sub(TableOf(Perform(a, c).1, m), t) == Sub(TableOf(Perform(b, c).1, m), t) {
      PerformTables(a, c, m);
      PerformTables(b, c, m);
    }
  }

  /**
    Non-interference: whatever the other tenants do in between, tenant `t` ends
    with the same rows and has seen the same outcomes as in the run where they
    did nothing at all.
  */
  lemma {:induction false} RunNonInterference(db: Tables, calls: seq<Call>, owner: Value -> Id, t: Id)
    requires OwnedDb(db, owner) && forall c | c in calls :: CallInDomain(c, owner)
    ensures |Run(db, calls).0| == |calls|
    ensures Seen(calls, Run(db, calls).0, t) == Run(db, Purge(calls, t)).0
    ensures SameFor(Run(db, calls).1, Run(db, Purge(calls, t)).1, t)
  {
    PurgedRun(db, db, calls, owner, t);
  }

  lemma {:induction false} PurgedRun(a: Tables, b: Tables, calls: seq<Call>, owner: Value -> Id, t: Id)
    requires OwnedDb(a, owner) && OwnedDb(b, owner) && SameFor(a, b, t)
    requires forall c | c in calls :: CallInDomain(c, owner)
    ensures |Run(a, calls).0| == |calls|
    ensures Seen(calls, Run(a, calls).0, t) == Run(b, Purge(calls, t)).0
    ensures SameFor(Run(a, calls).1, Run(b, Purge(calls, t)).1, t)
    decreases |calls|
  {
    if calls != [] {
      var c, rest := calls[0], calls[1..];
      var next := Perform(a, c).1;
      OwnedAfterPerform(a, c, owner);
      if TenantOf(c) == Some(t) {
        OwnCallDetermined(a, b, c, owner, t);
        OwnedAfterPerform(b, c, owner);
        PurgedRun(next, Perform(b, c).1, rest, owner, t);
        assert ([c] + Purge(rest, t))[1..] == Purge(rest, t);
      } else {
        OthersUnaffected(a, c, owner, t);
        PurgedRun(next, b, rest, owner, t);
      }
      assert Run(a, calls).0[1..] == Run(next, rest).0;
    }
  }

  /** Append-only tables only grow, in every run of any calls on any models. */
  lemma {:induction false} AppendOnlyTablesGrow(db: Tables, calls: seq<Call>, m: Model)
    requires m == AuditLog || m == StatusTransition || m == EventRevision
    ensures TableOf(db, m) <= TableOf(Run(db, calls).1, m)
    decreases |calls|
  {
    if calls != [] {
      var c := calls[0];
      OneCallAppends(db, c, m);
      AppendOnlyTablesGrow(Perform(db, c).1, calls[1..], m);
    }
  }

  /**
    A call in a tenant's name is served: the query runs once, on the rewritten
    arguments, unless it would update or delete an append-only model. SharedResource,
    whose tenantId names the grantee, and Tenant run as written, for anyone.
  */
  lemma TenantServed(db: Tables, c: Call)
    ensures c.model != SharedResource && c.model != Tenant && c.ctx.Some? && c.ctx.value.tenantId != ""
            && !((c.model == AuditLog || c.model == StatusTransition || c.model == EventRevision)
                 && (c.op == Update || c.op == UpdateMany || c.op == Delete || c.op == DeleteMany ||
                     c.op == Upsert)) ==>
              var r := Exec(c.op, ScopedArgs(c.op, c.args, c.ctx.value.tenantId), TableOf(db, c.model));
              Perform(db, c) == (r.0, db[c.model := r.1])
    ensures c.model == SharedResource || c.model == Tenant ==>
              var r := Exec(c.op, c.args, TableOf(db, c.model));
              Perform(db, c) == (r.0, db[c.model := r.1])
  {
  }

  lemma OneCallAppends(db: Tables, c: Call, m: Model)
    requires m == AuditLog || m == StatusTransition || m == EventRevision
    ensures TableOf(db, m) <= TableOf(Perform(db, c).1, m)
  {
  }

  /**
    With no tenant in the context nothing is read and nothing is written; an update
    or delete of an append-only model is refused as such, with or without one.
  */
  lemma NoTenantRefused(db: Tables, c: Call)
    requires c.model != SharedResource && c.model != Tenant
    requires c.ctx.None? || c.ctx.value.tenantId == ""
    ensures Perform(db, c).1 == db
    ensures Perform(db, c).0 ==
            if (c.model == AuditLog || c.model == StatusTransition || c.model == EventRevision)
               && (c.op == Update || c.op == UpdateMany || c.op == Delete || c.op == DeleteMany || c.op == Upsert)
            then Forbidden else NoTenantContext
  {
  }
}
