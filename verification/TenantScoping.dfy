/**
  The mandatory tenant scoping extension: every call on a tenant-scoped model
  is rewritten in place before it runs, and refused when there is no tenant.
*/
module TenantScoping {
  import opened Common
  import opened QueryEngine

  datatype Model =
    | User | ContentItem | AuditLog | ContentRelation | StatusTransition | AiPrediction
    | PendingMergeSuggestion | EventType | NavSection | Task | EventRevision | ActiveSession
    | DashboardSnapshot | SavedSearch | DocumentFile | RetentionPolicy | MediaFile
    | ResearcherAccount | AccessRequest | WatermarkJob | Character | Brand
    | SharedResource | Tenant

  /** SharedResource is left out on purpose: its tenantId names the grantee. */
  predicate IsScoped(m: Model) {
    !m.SharedResource? && !m.Tenant?
  }

  predicate IsAppendOnly(m: Model) {
    m.AuditLog? || m.StatusTransition? || m.EventRevision?
  }

  predicate IsMutatingWithWhere(op: Op) {
    op.Update? || op.UpdateMany? || op.Delete? || op.DeleteMany? || op.Upsert?
  }

  predicate IsReadOp(op: Op) {
    op.FindMany? || op.FindFirst? || op.FindUnique? || op.Count? || op.Aggregate? || op.GroupBy?
  }

  predicate IsCreateOp(op: Op) {
    op.Create? || op.CreateMany?
  }

  /** The ambient request context; an empty tenant id counts as none. */
  datatype RequestContext = RequestContext(tenantId: Id, userId: Id, role: string)

  function RequireTenantId(ctx: Option<RequestContext>): Option<Id> {
    if ctx.None? || ctx.value.tenantId == "" then None else Some(ctx.value.tenantId)
  }

  function ScopeWhere(w: Where, t: Id): Where {
    w.(fields := w.fields[TenantField := Equals(Str(t))])
  }

  function Stamp(row: Row, t: Id): Row {
    row[TenantField := Str(t)]
  }

  function StampAll(rows: seq<Row>, t: Id): seq<Row> {
    seq(|rows|, i requires 0 <= i < |rows| => Stamp(rows[i], t))
  }

  /** The arguments the rewritten call runs with. */
  function ScopedArgs(op: Op, a: Args, t: Id): Args {
    if IsReadOp(op) then
      a.(filter := Some(ScopeWhere(WhereOf(a), t)))
    else if IsCreateOp(op) then
      if op == CreateMany && a.data.Many? then a.(data := Many(StampAll(a.data.rows, t)))
      else a.(data := One(Stamp(Single(a.data), t)))
    else if op == Upsert then
      a.(filter := Some(ScopeWhere(WhereOf(a), t)),
         create := Some(Stamp(if a.create.Some? then a.create.value else map[], t)))
    else if IsMutatingWithWhere(op) then
      a.(filter := Some(ScopeWhere(WhereOf(a), t)))
    else a
  }

  datatype Call = Call(ctx: Option<RequestContext>, model: Model, op: Op, args: Args)

  type Tables = map<Model, seq<Row>>

  function TableOf(db: Tables, m: Model): seq<Row> {
    if m in db then db[m] else []
  }

  /** One call through the extension: its outcome and the tables afterwards. */
  function Perform(db: Tables, c: Call): (Outcome, Tables) {
    if !IsScoped(c.model) then Executed(db, c.model, c.op, c.args)
    else if IsAppendOnly(c.model) && IsMutatingWithWhere(c.op) then (Forbidden, db)
    else
      match RequireTenantId(c.ctx)
      case None => (NoTenantContext, db)
      case Some(t) => Executed(db, c.model, c.op, ScopedArgs(c.op, c.args, t))
  }

  /** The extension lets the call through to the tables. */
  predicate Admitted(c: Call) {
    RequireTenantId(c.ctx).Some? && !(IsAppendOnly(c.model) && IsMutatingWithWhere(c.op))
  }

  /** The argument object as the call leaves it. */
  function FinalArgs(c: Call): Args {
    if IsScoped(c.model) && Admitted(c) then ScopedArgs(c.op, c.args, RequireTenantId(c.ctx).value) else c.args
  }

  /** The call's own query, on the arguments it is given. */
  function Executed(db: Tables, m: Model, op: Op, a: Args): (Outcome, Tables) {
    var (out, table) := Exec(op, a, TableOf(db, m));
    (out, db[m := table])
  }

  lemma PerformScoped(db: Tables, c: Call, t: Id)
    requires IsScoped(c.model) && Admitted(c) && RequireTenantId(c.ctx) == Some(t)
    ensures Perform(db, c) == Executed(db, c.model, c.op, ScopedArgs(c.op, c.args, t))
    ensures FinalArgs(c) == ScopedArgs(c.op, c.args, t)
  {
  }

  lemma PerformUnscoped(db: Tables, c: Call)
    requires !IsScoped(c.model)
    ensures Perform(db, c) == Executed(db, c.model, c.op, c.args) && FinalArgs(c) == c.args
  {
  }

  // ------------------------------------------------------------ the service

  /** The argument object of a call; the extension assigns to it in place. */
  class QueryArgs {
    var filter: Option<Where>
    var data: Data
    var create: Option<Row>
    var update: Row
    var shape: Shape

    constructor (a: Args)
      ensures Snapshot() == a
    {
      filter, data, create, update, shape := a.filter, a.data, a.create, a.update, a.shape;
    }

    ghost function Snapshot(): Args
      reads this
    {
      Args(filter, data, create, update, shape)
    }
  }

  class PrismaService {
    var tables: Tables

    constructor (db: Tables)
      ensures tables == db
    {
      tables := db;
    }

    /** The `$allOperations` hook followed by the query it lets through. */
    method AllOperations(ctx: Option<RequestContext>, model: Model, op: Op, a: QueryArgs) returns (out: Outcome)
      modifies this`tables, a
      ensures (out, tables) == Perform(old(tables), Call(ctx, model, op, old(a.Snapshot())))
      ensures a.Snapshot() == FinalArgs(Call(ctx, model, op, old(a.Snapshot())))
    {
      ghost var c := Call(ctx, model, op, a.Snapshot());
      if !IsScoped(model) {
        PerformUnscoped(tables, c);
        out := Query(model, op, a);
        return;
      }
      if IsAppendOnly(model) && IsMutatingWithWhere(op) {
        return Forbidden;
      }
      var tenantId := RequireTenantId(ctx);
      if tenantId.None? {
        return NoTenantContext;
      }
      PerformScoped(tables, c, tenantId.value);
      out := RewriteAndQuery(model, op, a, tenantId.value);
    }

    method RewriteAndQuery(model: Model, op: Op, a: QueryArgs, tenantId: Id) returns (out: Outcome)
      modifies this`tables, a
      ensures (out, tables) == Executed(old(tables), model, op, ScopedArgs(op, old(a.Snapshot()), tenantId))
      ensures a.Snapshot() == ScopedArgs(op, old(a.Snapshot()), tenantId)
    {
      Rewrite(op, a, tenantId);
      out := Query(model, op, a);
    }

    method Rewrite(op: Op, a: QueryArgs, tenantId: Id)
      modifies a
      ensures a.Snapshot() == ScopedArgs(op, old(a.Snapshot()), tenantId)
    {
      var given := if a.filter.Some? then a.filter.value else Everything;
      if IsReadOp(op) {
        a.filter := Some(given.(fields := given.fields[TenantField := Equals(Str(tenantId))]));
      } else if IsCreateOp(op) {
        if op == CreateMany && a.data.Many? {
          a.data := Many(StampAll(a.data.rows, tenantId));
        } else {
          a.data := One(Single(a.data)[TenantField := Str(tenantId)]);
        }
      } else if IsMutatingWithWhere(op) {
        a.filter := Some(given.(fields := given.fields[TenantField := Equals(Str(tenantId))]));
        if op == Upsert {
          var row := if a.create.Some? then a.create.value else map[];
          a.create := Some(row[TenantField := Str(tenantId)]);
        }
      }
    }

    method Query(model: Model, op: Op, a: QueryArgs) returns (out: Outcome)
      modifies this`tables
      ensures (out, tables) == Executed(old(tables), model, op, a.Snapshot())
    {
      var table := if model in tables then tables[model] else [];
      var args := Args(a.filter, a.data, a.create, a.update, a.shape);
      var r := Exec(op, args, table);
      tables := tables[model := r.1];
      out := r.0;
    }
  }
}
