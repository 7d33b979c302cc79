/**
  The services that write the content table and its histories, over tables held
  in memory: item creation, lifecycle transitions, the document worker's write,
  retention policies, and the nightly retention job with its loops.
*/
module ArchiveService {
  import opened Common
  import opened Policy
  import opened Lifecycle
  import opened Retention

  datatype World = World(h: History, policies: Policies, audit: seq<AuditEntry>)

  datatype NewItem = NewItem(contentType: ContentType, title: string, metadata: Option<Metadata>,
      confidentiality: Option<Confidentiality>)

  function MakeItem(c: Caller, dto: NewItem, retention: (Option<int>, Option<PolicySnapshot>), now: int): Item {
    Item(c.tenant, dto.contentType, dto.title,
         if dto.metadata.Some? then dto.metadata.value else map[],
         Active, Raw,
         if dto.confidentiality.Some? then dto.confidentiality.value else Internal,
         retention.0, retention.1, None, c.user, now)
  }

  /** The id is a fresh uuid; a clash would be refused by the primary key. */
  function CreateItem(w: World, c: Caller, id: Id, dto: NewItem, now: int): World {
    if id in w.h.items then w
    else
      var retention := ComputeForNewItem(w.policies, c.tenant, dto.contentType, now);
      w.(h := w.h.(items := w.h.items[id := MakeItem(c, dto, retention, now)]))
  }

  /**
    A new item belongs to its creator's tenant, starts RAW and undeleted, and takes
    its terms from the policy of the moment.
  */
  lemma CreatedAs(w: World, c: Caller, id: Id, dto: NewItem, now: int)
    requires id !in w.h.items
    ensures var v := CreateItem(w, c, id, dto, now);
            && v == w.(h := w.h.(items := v.h.items)) && v.h.items.Keys == w.h.items.Keys + {id}
            && (forall x | x in w.h.items :: v.h.items[x] == w.h.items[x])
            && var item := v.h.items[id];
               && item.tenant == c.tenant && item.createdBy == c.user && item.createdAt == now
               && item.contentType == dto.contentType && item.title == dto.title
               && item.metadata == (if dto.metadata.Some? then dto.metadata.value else map[])
               && item.confidentiality == (if dto.confidentiality.Some? then dto.confidentiality.value else Internal)
               && item.status == Active && item.lifecycle == Raw && item.deletedAt.None?
               && (item.expiry, item.policy) == ComputeForNewItem(w.policies, c.tenant, dto.contentType, now)
  {
  }

  /**
    The text becomes the one metadata value `extractedText`; the rest of the metadata
    is what the worker had read, and nothing else of this or any other item changes.
  */
  lemma TextWritten(w: World, tenant: Id, id: Id, metadataRead: Metadata, text: string)
    ensures id !in w.h.items || w.h.items[id].tenant != tenant ==>
              WriteExtractedText(w, tenant, id, metadataRead, text) == w
    ensures id in w.h.items && w.h.items[id].tenant == tenant ==>
            var v := WriteExtractedText(w, tenant, id, metadataRead, text);
            && v == w.(h := w.h.(items := v.h.items)) && v.h.items.Keys == w.h.items.Keys
            && (forall x | x in w.h.items && x != id :: v.h.items[x] == w.h.items[x])
            && var before, after := w.h.items[id], v.h.items[id];
               && after == before.(metadata := after.metadata)
               && after.metadata.Keys == metadataRead.Keys + {"extractedText"}
               && after.metadata["extractedText"] == text
               && forall k | k in metadataRead && k != "extractedText" :: after.metadata[k] == metadataRead[k]
  {
  }

  /** The document worker merges the text it extracted into the metadata it read some time before. */
  function WriteExtractedText(w: World, tenant: Id, id: Id, metadataRead: Metadata, text: string): World {
    if id !in w.h.items || w.h.items[id].tenant != tenant then w
    else w.(h := w.h.(items := w.h.items[id := w.h.items[id].(metadata := metadataRead["extractedText" := text])]))
  }

  datatype Plan = Plan(expiring: seq<Id>, dueForHardDelete: seq<Id>, env: PassEnv)

  /** The two query results of a pass list what is due when each query runs. */
  ghost predicate Lists(items: map<Id, Item>, t: Id, plan: Plan) {
    && IsListing(plan.expiring, DueIds(items, t, plan.env.queryAt))
    && IsListing(plan.dueForHardDelete, ScrubIds(ExpireAll(items, t, plan.env), t, plan.env.graceAt))
  }

  function EnforceForTenant(w: World, t: Id, plan: Plan): World {
    w.(h := w.h.(items := PassAll(w.h.items, t, plan.env)),
       audit := w.audit + ExpiryAudit(w.h.items, plan.expiring, t, plan.env) +
           ScrubAudit(plan.dueForHardDelete, t, plan.env))
  }

  /** The nightly job: one pass per active tenant, one after the other. */
  function RunTenants(w: World, tenants: seq<Id>, plans: map<Id, Plan>): World
    requires forall t | t in tenants :: t in plans
  {
    if tenants == [] then w
    else
      var t, earlier := tenants[|tenants| - 1], tenants[..|tenants| - 1];
      EnforceForTenant(RunTenants(w, earlier, plans), t, plans[t])
  }

  /**
    Each item ends the night as its own tenant's pass leaves it; no other tenant's
    pass, failure or processing order has any part in it.
  */
  lemma {:induction false} RunIsPointwise(w: World, tenants: seq<Id>, plans: map<Id, Plan>, id: Id)
    requires forall t | t in tenants :: t in plans
    requires forall i, j | 0 <= i < j < |tenants| :: tenants[i] != tenants[j]
    requires id in w.h.items
    ensures var item, after := w.h.items[id], RunTenants(w, tenants, plans).h.items;
            id in after &&
            after[id] == if item.tenant in tenants then PassItem(item, id, item.tenant, plans[item.tenant].env)
                else item
  {
    if tenants != [] {
      var t, earlier := tenants[|tenants| - 1], tenants[..|tenants| - 1];
      assert tenants == earlier + [t];
      RunIsPointwise(w, earlier, plans, id);
      EnforceItem(RunTenants(w, earlier, plans), t, plans[t], id);
      PassItemScope(w.h.items[id], id, w.h.items[id].tenant, plans);
    }
  }

  lemma EnforceItem(w: World, t: Id, plan: Plan, id: Id)
    requires id in w.h.items
    ensures var item, after := w.h.items[id], EnforceForTenant(w, t, plan).h.items;
            id in after && after[id] == if item.tenant == t then PassItem(item, id, t, plan.env) else item
  {
  }

  lemma PassItemScope(item: Item, id: Id, t: Id, plans: map<Id, Plan>)
    ensures t in plans ==> PassItem(item, id, t, plans[t].env).tenant == item.tenant
  {
  }

  lemma {:induction false} RunKeepsRest(w: World, tenants: seq<Id>, plans: map<Id, Plan>)
    requires forall t | t in tenants :: t in plans
    ensures var after := RunTenants(w, tenants, plans);
            && after.h.items.Keys == w.h.items.Keys && w.audit <= after.audit && after.policies == w.policies
            && after.h.revisions == w.h.revisions && after.h.transitions == w.h.transitions
  {
    if tenants != [] {
      RunKeepsRest(w, tenants[..|tenants| - 1], plans);
    }
  }

  /** A later tenant's listings are what they were when the night began. */
  lemma ListsAfterRun(w: World, tenants: seq<Id>, plans: map<Id, Plan>, t: Id, plan: Plan)
    requires forall u | u in tenants :: u in plans
    requires forall i, j | 0 <= i < j < |tenants| :: tenants[i] != tenants[j]
    requires t !in tenants && Lists(w.h.items, t, plan)
    ensures Lists(RunTenants(w, tenants, plans).h.items, t, plan)
  {
    var after := RunTenants(w, tenants, plans).h.items;
    RunKeepsRest(w, tenants, plans);
    forall id | id in w.h.items
      ensures after[id].tenant == w.h.items[id].tenant && (w.h.items[id].tenant == t ==> after[id] == w.h.items[id])
    {
      RunSparesOthers(w, tenants, plans, t, id);
    }
    SameListing(w.h.items, after, t, plan);
  }

  lemma RunSparesOthers(w: World, tenants: seq<Id>, plans: map<Id, Plan>, t: Id, id: Id)
    requires forall u | u in tenants :: u in plans
    requires forall i, j | 0 <= i < j < |tenants| :: tenants[i] != tenants[j]
    requires t !in tenants && id in w.h.items
    ensures var item, after := w.h.items[id], RunTenants(w, tenants, plans).h.items;
            id in after && after[id].tenant == item.tenant && (item.tenant == t ==> after[id] == item)
  {
    RunIsPointwise(w, tenants, plans, id);
  }

  // ---------------------------------------------- the loops, part of the way

  function Elements(order: seq<Id>): set<Id> {
    set id | id in order
  }

  function ExpireSome(items: map<Id, Item>, done: set<Id>, t: Id, env: PassEnv): map<Id, Item> {
    map id | id in items :: if id in done then Expire(items[id], id, t, env) else items[id]
  }

  function ScrubSome(items: map<Id, Item>, done: set<Id>, t: Id, env: PassEnv): map<Id, Item> {
    map id | id in items :: if id in done then Scrub(items[id], id, t, env) else items[id]
  }

  lemma ListingStep(order: seq<Id>, ids: set<Id>, i: nat)
    requires IsListing(order, ids) && i < |order|
    ensures order[i] in ids && order[i] !in Elements(order[..i])
    ensures Elements(order[..i + 1]) == Elements(order[..i]) + {order[i]}
    ensures order[..i + 1][|order[..i + 1]| - 1] == order[i] && order[..i + 1][..|order[..i + 1]| - 1] == order[..i]
  {
    assert order[i] in order;
    assert order[..i + 1] == order[..i] + [order[i]];
  }

  lemma ExpireOneMore(items: map<Id, Item>, done: set<Id>, id: Id, t: Id, env: PassEnv)
    requires id in items && id !in done
    ensures var before := ExpireSome(items, done, t, env);
            && id in before && before[id] == items[id]
            && before[id := Expire(items[id], id, t, env)] == ExpireSome(items, done + {id}, t, env)
            && (Expire(items[id], id, t, env) == items[id] ==> before == ExpireSome(items, done + {id}, t, env))
  {
  }

  lemma ScrubOneMore(items: map<Id, Item>, done: set<Id>, id: Id, t: Id, env: PassEnv)
    requires id in items && id !in done
    ensures var before := ScrubSome(items, done, t, env);
            && id in before && before[id] == items[id]
            && before[id := Scrub(items[id], id, t, env)] == ScrubSome(items, done + {id}, t, env)
            && (Scrub(items[id], id, t, env) == items[id] ==> before == ScrubSome(items, done + {id}, t, env))
  {
  }

  lemma AllExpired(items: map<Id, Item>, order: seq<Id>, t: Id, env: PassEnv)
    requires IsListing(order, DueIds(items, t, env.queryAt))
    ensures ExpireSome(items, Elements(order), t, env) == ExpireAll(items, t, env)
  {
    assert forall id :: id in Elements(order) <==> id in DueIds(items, t, env.queryAt);
  }

  lemma AllScrubbed(items: map<Id, Item>, order: seq<Id>, t: Id, env: PassEnv)
    requires IsListing(order, ScrubIds(items, t, env.graceAt))
    ensures ScrubSome(items, Elements(order), t, env) == ScrubAll(items, t, env)
  {
    assert forall id :: id in Elements(order) <==> id in ScrubIds(items, t, env.graceAt);
  }

  class Archive {
    var items: map<Id, Item>
    var revisions: seq<Revision>
    var transitions: seq<Transition>
    var policies: Policies
    var audit: seq<AuditEntry>

    constructor ()
      ensures Tables() == World(History(map[], [], []), map[], [])
    {
      items, revisions, transitions, policies, audit := map[], [], [], map[], [];
    }

    ghost function Tables(): World
      reads this
    {
      World(History(items, revisions, transitions), policies, audit)
    }

    method Create(c: Caller, id: Id, dto: NewItem, now: int)
      modifies this
      ensures Tables() == CreateItem(old(Tables()), c, id, dto, now)
    {
      var retention := ComputeForNewItem(policies, c.tenant, dto.contentType, now);
      if id !in items {
        items := items[id := MakeItem(c, dto, retention, now)];
      }
    }

    method TransitionLifecycle(c: Caller, id: Id, toStatus: LifecycleStatus)
        returns (result: Result<Item, TransitionError>)
      modifies this
      ensures (result, Tables().h) == Lifecycle.TransitionLifecycle(old(Tables()).h, c, id, toStatus)
      ensures policies == old(policies) && audit == old(audit)
    {
      if id !in items || items[id].tenant != c.tenant {
        return Err(ItemNotFound);
      }
      var item := items[id];
      var allowed := Decide(View, Subject(c.user, c.tenant, c.role),
          Resource(item.tenant, Some(item.confidentiality), map[]));
      if !allowed {
        return Err(NotPermitted);
      }
      var nextVersion := LatestVersion(revisions, c.tenant, id) + 1;
      if VersionUsed(revisions, id, nextVersion) {
        return Err(VersionTaken);
      }
      revisions := revisions + [Revision(c.tenant, id, nextVersion, item, c.user)];
      transitions := transitions + [Transition(c.tenant, id, item.lifecycle, toStatus, c.user)];
      items := items[id := items[id].(lifecycle := toStatus)];
      result := Ok(items[id]);
    }

    method Upsert(tenant: Id, newId: Id, contentType: ContentType, days: int, action: RetentionAction)
      modifies this
      ensures Tables() == old(Tables()).(policies :=
                UpsertPolicy(old(policies), tenant, newId, contentType, days, action))
    {
      var key := (tenant, contentType);
      if key in policies {
        policies := policies[key := policies[key].(periodDays := days, action := action)];
      } else {
        policies := policies[key := PolicyRow(newId, days, action, true)];
      }
    }

    method ApplyExpiryActions(t: Id, expiring: seq<Id>, env: PassEnv)
      requires IsListing(expiring, DueIds(items, t, env.queryAt))
      modifies this
      ensures items == ExpireAll(old(items), t, env)
      ensures audit == old(audit) + ExpiryAudit(old(items), expiring, t, env)
      ensures revisions == old(revisions) && transitions == old(transitions) && policies == old(policies)
    {
      var found := items;
      for i := 0 to |expiring|
        invariant items == ExpireSome(found, Elements(expiring[..i]), t, env)
        invariant audit == old(audit) + ExpiryAudit(found, expiring[..i], t, env)
        invariant revisions == old(revisions) && transitions == old(transitions) && policies == old(policies)
      {
        var id := expiring[i];
        ListingStep(expiring, DueIds(found, t, env.queryAt), i);
        ExpireOneMore(found, Elements(expiring[..i]), id, t, env);
        var item := found[id];
        if id !in env.actFailed {
          var action := ActionOf(item);
          if action == RetentionAction.Archive {
            items := items[id := items[id].(lifecycle := Archived)];
          } else if action == DeleteIt {
            items := items[id := items[id].(deletedAt := Some(StampOf(env, id)), status := Deleted)];
          }
          if id !in env.auditFailed {
            audit := audit + [AuditEntry(t, RetentionAct(action), id)];
          }
        }
      }
      assert expiring[..|expiring|] == expiring;
      AllExpired(found, expiring, t, env);
    }

    method HardDeleteExpiredSoftDeletes(t: Id, dueForHardDelete: seq<Id>, env: PassEnv)
      requires IsListing(dueForHardDelete, ScrubIds(items, t, env.graceAt))
      modifies this
      ensures items == ScrubAll(old(items), t, env)
      ensures audit == old(audit) + ScrubAudit(dueForHardDelete, t, env)
      ensures revisions == old(revisions) && transitions == old(transitions) && policies == old(policies)
    {
      var found := items;
      for i := 0 to |dueForHardDelete|
        invariant items == ScrubSome(found, Elements(dueForHardDelete[..i]), t, env)
        invariant audit == old(audit) + ScrubAudit(dueForHardDelete[..i], t, env)
        invariant revisions == old(revisions) && transitions == old(transitions) && policies == old(policies)
      {
        var id := dueForHardDelete[i];
        ListingStep(dueForHardDelete, ScrubIds(found, t, env.graceAt), i);
        ScrubOneMore(found, Elements(dueForHardDelete[..i]), id, t, env);
        if id !in env.auditFailed {
          audit := audit + [AuditEntry(t, HardDelete, id)];
        }
        if id !in env.scrubFailed {
          items := items[id := items[id].(title := "[deleted]", metadata := map[])];
        }
      }
      assert dueForHardDelete[..|dueForHardDelete|] == dueForHardDelete;
      AllScrubbed(found, dueForHardDelete, t, env);
    }

    method Enforce(t: Id, plan: Plan)
      requires Lists(items, t, plan)
      modifies this
      ensures Tables() == EnforceForTenant(old(Tables()), t, plan)
    {
      ApplyExpiryActions(t, plan.expiring, plan.env);
      HardDeleteExpiredSoftDeletes(t, plan.dueForHardDelete, plan.env);
    }

    method ProcessDocument(tenant: Id, id: Id, metadataRead: Metadata, text: string)
      modifies this
      ensures Tables() == WriteExtractedText(old(Tables()), tenant, id, metadataRead, text)
    {
      if id in items && items[id].tenant == tenant {
        items := items[id := items[id].(metadata := metadataRead["extractedText" := text])];
      }
    }

    /**
      The nightly job over the active tenants. A pass for one tenant does not change
      what another tenant's queries list, so the plans may be given up front.
    */
    method Run(activeTenants: seq<Id>, plans: map<Id, Plan>)
      requires forall t | t in activeTenants :: t in plans && Lists(items, t, plans[t])
      requires forall i, j | 0 <= i < j < |activeTenants| :: activeTenants[i] != activeTenants[j]
      modifies this
      ensures Tables() == RunTenants(old(Tables()), activeTenants, plans)
    {
      ghost var before := Tables();
      for i := 0 to |activeTenants|
        invariant Tables() == RunTenants(before, activeTenants[..i], plans)
      {
        var t := activeTenants[i];
        assert activeTenants[..i + 1][..i] == activeTenants[..i];
        ListsAfterRun(before, activeTenants[..i], plans, t, plans[t]);
        Enforce(t, plans[t]);
      }
      assert activeTenants[..|activeTenants|] == activeTenants;
    }
  }

  /** A tenant's listings depend on that tenant's items only. */
  lemma SameListing(before: map<Id, Item>, after: map<Id, Item>, t: Id, plan: Plan)
    requires Lists(before, t, plan) && before.Keys == after.Keys
    requires forall id | id in before :: after[id].tenant == before[id].tenant
    requires forall id | id in before && before[id].tenant == t :: after[id] == before[id]
    ensures Lists(after, t, plan)
  {
    var at, graceAt := plan.env.queryAt, plan.env.graceAt;
    assert DueIds(after, t, at) == DueIds(before, t, at);
    var x, y := ExpireAll(before, t, plan.env), ExpireAll(after, t, plan.env);
    forall id | id in before ensures ScrubDue(x[id], t, graceAt) <==> ScrubDue(y[id], t, graceAt) {
    }
    assert ScrubIds(y, t, graceAt) == ScrubIds(x, t, graceAt);
  }
}
