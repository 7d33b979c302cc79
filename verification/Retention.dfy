/**
  Retention: the expiry snapshotted onto an item at creation, and what one daily
  pass over a tenant does to each item. Times are milliseconds.
*/
module Retention {
  import opened Common
  import opened Lifecycle

  const DAY: int := 24 * 60 * 60 * 1000
  const GRACE: int := 7 * DAY

  /** The unique key (tenantId, contentType) is the key of the policy table. */
  datatype PolicyRow = PolicyRow(id: Id, periodDays: int, action: RetentionAction, isActive: bool)

  type Policies = map<(Id, ContentType), PolicyRow>

  /** An update leaves the row's id and its active flag as they were. */
  function UpsertPolicy(ps: Policies, tenant: Id, newId: Id, contentType: ContentType, days: int,
                        action: RetentionAction): Policies
  {
    var key := (tenant, contentType);
    if key in ps then ps[key := ps[key].(periodDays := days, action := action)]
    else ps[key := PolicyRow(newId, days, action, true)]
  }

  function ComputeForNewItem(ps: Policies, tenant: Id, contentType: ContentType, now: int)
    : (Option<int>, Option<PolicySnapshot>)
  {
    var key := (tenant, contentType);
    if key !in ps || !ps[key].isActive then (None, None)
    else
      var p := ps[key];
      (Some(now + p.periodDays * DAY), Some(PolicySnapshot(p.id, p.periodDays, p.action, now)))
  }

  // ------------------------------------------------------------ one daily pass

  /**
    What a pass meets: the instants it reads the clock (for the expiry query, for
    each soft delete, for the grace cutoff) and which items' updates or audit
    writes fail.
  */
  datatype PassEnv = PassEnv(
    queryAt: int, stamps: map<Id, int>, graceAt: int,
    actFailed: set<Id>, scrubFailed: set<Id>, auditFailed: set<Id>)

  function StampOf(env: PassEnv, id: Id): int {
    if id in env.stamps then env.stamps[id] else env.queryAt
  }

  /** The clock does not run backwards during a pass. */
  ghost predicate Monotone(env: PassEnv) {
    env.queryAt <= env.graceAt && forall id :: env.queryAt <= StampOf(env, id) <= env.graceAt
  }

  predicate Due(item: Item, t: Id, at: int) {
    item.tenant == t && item.expiry.Some? && item.expiry.value <= at && item.deletedAt.None?
  }

  function ActionOf(item: Item): RetentionAction {
    if item.policy.Some? then item.policy.value.action else NotifyOnly
  }

  function ActOn(item: Item, stamp: int): Item {
    match ActionOf(item)
    case Archive => item.(lifecycle := Archived)
    case DeleteIt => item.(deletedAt := Some(stamp), status := Deleted)
    case NotifyOnly => item
  }

  predicate ScrubDue(item: Item, t: Id, at: int) {
    item.tenant == t && item.deletedAt.Some? && item.deletedAt.value <= at - GRACE
  }

  function Tombstone(item: Item): Item {
    item.(title := "[deleted]", metadata := map[])
  }

  function Expire(item: Item, id: Id, t: Id, env: PassEnv): Item {
    if Due(item, t, env.queryAt) && id !in env.actFailed then ActOn(item, StampOf(env, id)) else item
  }

  function Scrub(item: Item, id: Id, t: Id, env: PassEnv): Item {
    if ScrubDue(item, t, env.graceAt) && id !in env.scrubFailed then Tombstone(item) else item
  }

  /** The fate of one item in one pass: nothing but the item, the clock and its own flags. */
  function PassItem(item: Item, id: Id, t: Id, env: PassEnv): Item {
    Scrub(Expire(item, id, t, env), id, t, env)
  }

  function ExpireAll(items: map<Id, Item>, t: Id, env: PassEnv): map<Id, Item> {
    map id | id in items :: Expire(items[id], id, t, env)
  }

  function ScrubAll(items: map<Id, Item>, t: Id, env: PassEnv): map<Id, Item> {
    map id | id in items :: Scrub(items[id], id, t, env)
  }

  function PassAll(items: map<Id, Item>, t: Id, env: PassEnv): map<Id, Item> {
    ScrubAll(ExpireAll(items, t, env), t, env)
  }

  // --------------------------------------------------------------- audit trail

  datatype AuditAction = RetentionAct(action: RetentionAction) | HardDelete

  datatype AuditEntry = AuditEntry(tenant: Id, action: AuditAction, item: Id)

  /** A query result: the ids of a set, each once, in whatever order the database chose. */
  ghost predicate IsListing(order: seq<Id>, ids: set<Id>) {
    && (forall i, j | 0 <= i < j < |order| :: order[i] != order[j])
    && (forall id :: id in order <==> id in ids)
  }

  function DueIds(items: map<Id, Item>, t: Id, at: int): set<Id> {
    set id | id in items && Due(items[id], t, at)
  }

  function ScrubIds(items: map<Id, Item>, t: Id, at: int): set<Id> {
    set id | id in items && ScrubDue(items[id], t, at)
  }

  /** One entry per item acted on, in query order; failed items and failed writes leave none. */
  function ExpiryAudit(items: map<Id, Item>, order: seq<Id>, t: Id, env: PassEnv): seq<AuditEntry> {
    if order == [] then []
    else
      var id, rest := order[|order| - 1], ExpiryAudit(items, order[..|order| - 1], t, env);
      if id in items && id !in env.actFailed && id !in env.auditFailed
      then rest + [AuditEntry(t, RetentionAct(ActionOf(items[id])), id)] else rest
  }

  /** The hard-delete entry is written before the scrub is attempted. */
  function ScrubAudit(order: seq<Id>, t: Id, env: PassEnv): seq<AuditEntry> {
    if order == [] then []
    else
      var id, rest := order[|order| - 1], ScrubAudit(order[..|order| - 1], t, env);
      if id !in env.auditFailed then rest + [AuditEntry(t, HardDelete, id)] else rest
  }

  // ---------------------------------------------------------------- one pass

  /** A failure-free pass repeated at the same instant finds the content table as it should be. */
  lemma PassIdempotent(items: map<Id, Item>, t: Id, env: PassEnv)
    requires Monotone(env) && env.graceAt - GRACE < env.queryAt
    requires env.actFailed == {} && env.scrubFailed == {}
    ensures PassAll(PassAll(items, t, env), t, env) == PassAll(items, t, env)
  {
    var once := PassAll(items, t, env);
    forall id | id in items
      ensures PassItem(once[id], id, t, env) == once[id]
    {
      assert env.queryAt <= StampOf(env, id);
    }
    assert PassAll(once, t, env) == once;
  }

  /**
    The first half of a pass: an item of the tenant that has expired and is not
    soft-deleted is archived or soft-deleted, as its own snapshotted policy says and
    unless its update fails; nothing else of it changes, and no other item does.
  */
  lemma ExpiryActs(items: map<Id, Item>, t: Id, env: PassEnv, id: Id)
    requires id in items
    ensures var item, after := items[id], ExpireAll(items, t, env)[id];
            if item.tenant == t && item.deletedAt.None? && item.expiry.Some? && item.expiry.value <= env.queryAt
               && id !in env.actFailed && item.policy.Some?
            then
              && (item.policy.value.action == Archive ==> after == item.(lifecycle := Archived))
              && (item.policy.value.action == DeleteIt ==>
                    && after.deletedAt == Some(if id in env.stamps then env.stamps[id] else env.queryAt)
                    && after.status == Deleted && after.(deletedAt := None, status := item.status) == item)
              && (item.policy.value.action == NotifyOnly ==> after == item)
            else after == item
  {
  }

  /**
    After a pass whose scrubs succeed, every item of the tenant that was
    soft-deleted seven days before the cutoff has lost its title and metadata,
    whatever was written to it since, and nothing else; every other item is as the
    first half left it.
  */
  lemma PassScrubsExactly(items: map<Id, Item>, t: Id, env: PassEnv, id: Id)
    requires id in items && id !in env.scrubFailed
    ensures var before, after := ExpireAll(items, t, env)[id], PassAll(items, t, env)[id];
            if before.tenant == t && before.deletedAt.Some? && before.deletedAt.value + 7 * 86_400_000 <= env.graceAt
            then after == before.(title := "[deleted]", metadata := map[])
            else after == before
    ensures var item, after := items[id], PassAll(items, t, env)[id];
            item.tenant == t && item.deletedAt.Some? && item.deletedAt.value + 7 * 86_400_000 <= env.graceAt ==>
              after == item.(title := "[deleted]", metadata := map[])
  {
  }

  // ------------------------------------------------------- what the audit says

  lemma {:induction false} ExpiryAudited(items: map<Id, Item>, order: seq<Id>, t: Id, env: PassEnv, e: AuditEntry)
    ensures e in ExpiryAudit(items, order, t, env) <==>
            && e.item in order && e.item in items && e.item !in env.actFailed && e.item !in env.auditFailed
            && e.tenant == t
            && e.action == RetentionAct(if items[e.item].policy.Some? then items[e.item].policy.value.action
                                        else NotifyOnly)
  {
    if order != [] {
      var earlier := order[..|order| - 1];
      assert order == earlier + [order[|order| - 1]];
      ExpiryAudited(items, earlier, t, env, e);
    }
  }

  lemma {:induction false} ScrubsAudited(order: seq<Id>, t: Id, env: PassEnv, e: AuditEntry)
    ensures e in ScrubAudit(order, t, env) <==>
            e.item in order && e.item !in env.auditFailed && e.tenant == t && e.action == HardDelete
  {
    if order != [] {
      var earlier := order[..|order| - 1];
      assert order == earlier + [order[|order| - 1]];
      ScrubsAudited(earlier, t, env, e);
    }
  }

  // ------------------------------------------------------------- terms of new items

  /** A policy upserted and active gives each item created under it its days and its action, to the millisecond. */
  lemma UpsertSetsTerms(ps: Policies, tenant: Id, newId: Id, contentType: ContentType, days: int,
                        action: RetentionAction, now: int)
    ensures var after := UpsertPolicy(ps, tenant, newId, contentType, days, action);
            var (expiry, policy) := ComputeForNewItem(after, tenant, contentType, now);
            var existing := (tenant, contentType) in ps;
            if existing && !ps[(tenant, contentType)].isActive then expiry == None && policy == None
            else
              && expiry == Some(now + days * 86_400_000)
              && policy == Some(PolicySnapshot(if existing then ps[(tenant, contentType)].id
                  else newId, days, action, now))
    ensures forall t, ct | (t, ct) != (tenant, contentType) ::
              ComputeForNewItem(UpsertPolicy(ps, tenant, newId, contentType, days, action), t, ct, now) ==
              ComputeForNewItem(ps, t, ct, now)
  {
  }

  /** Without an active policy a new item never expires; with one, it does after the policy's days. */
  lemma NewItemTerms(ps: Policies, tenant: Id, contentType: ContentType, now: int)
    ensures var (expiry, policy) := ComputeForNewItem(ps, tenant, contentType, now);
            && (expiry.Some? <==> policy.Some?)
            && (expiry.Some? <==> (tenant, contentType) in ps && ps[(tenant, contentType)].isActive)
            && (expiry.Some? ==>
                  && expiry.value == now + ps[(tenant, contentType)].periodDays * 24 * 60 * 60 * 1000
                  && policy.value.periodDays == ps[(tenant, contentType)].periodDays
                  && policy.value.action == ps[(tenant, contentType)].action
                  && policy.value.policyId == ps[(tenant, contentType)].id && policy.value.snapshotAt == now)
  {
  }
}
