/**
  Whole runs of the archive: any sequence of item creations, transitions, policy
  changes, document-worker writes and retention passes with failures.
*/
module ArchiveRuns {
  import opened Common
  import opened Policy
  import opened Lifecycle
  import opened Retention
  import opened ArchiveService

  datatype Event =
    | Create(c: Caller, id: Id, dto: NewItem, now: int)
    | Advance(c: Caller, id: Id, to: LifecycleStatus)
    | Upsert(tenant: Id, newId: Id, contentType: ContentType, days: int, action: RetentionAction)
    | WriteText(tenant: Id, id: Id, metadataRead: Metadata, text: string)
    | Pass(tenant: Id, plan: Plan)

  const Init := World(History(map[], [], []), map[], [])

  function Apply(w: World, e: Event): World {
    match e
    case Create(c, id, dto, now) => CreateItem(w, c, id, dto, now)
    case Advance(c, id, to) => w.(h := TransitionLifecycle(w.h, c, id, to).1)
    case Upsert(tenant, newId, contentType, days, action) =>
      w.(policies := UpsertPolicy(w.policies, tenant, newId, contentType, days, action))
    case WriteText(tenant, id, metadataRead, text) => WriteExtractedText(w, tenant, id, metadataRead, text)
    case Pass(tenant, plan) => EnforceForTenant(w, tenant, plan)
  }

  function Run(w: World, events: seq<Event>): World
    decreases |events|
  {
    if events == [] then w else Run(Apply(w, events[0]), events[1..])
  }

  // ---------------------------------------------------- what never changes back

  /** Fixed at creation: owner, type, creator, expiry and policy snapshot; a soft delete is for good. */
  ghost predicate ItemEvolves(a: Item, b: Item) {
    && a.tenant == b.tenant && a.contentType == b.contentType && a.confidentiality == b.confidentiality
    && a.createdBy == b.createdBy && a.createdAt == b.createdAt
    && a.expiry == b.expiry && a.policy == b.policy
    && (a.deletedAt.Some? ==> b.deletedAt == a.deletedAt && b.status == a.status)
  }

  /** Items stay, and the audit log, the transitions and the revisions only grow. */
  ghost predicate Evolves(w: World, v: World) {
    && (forall id | id in w.h.items :: id in v.h.items && ItemEvolves(w.h.items[id], v.h.items[id]))
    && w.h.revisions <= v.h.revisions && w.h.transitions <= v.h.transitions && w.audit <= v.audit
  }

  lemma TransitionEvolves(w: World, c: Caller, id: Id, to: LifecycleStatus)
    ensures Evolves(w, w.(h := TransitionLifecycle(w.h, c, id, to).1))
  {
    TransitionShape(w.h, c, id, to);
  }

  lemma TransitionShape(h: History, c: Caller, id: Id, to: LifecycleStatus)
    ensures var (result, g) := TransitionLifecycle(h, c, id, to);
            if result.Err? then g == h
            else
              && id in h.items && g.items == h.items[id := h.items[id].(lifecycle := to)]
              && h.revisions <= g.revisions && h.transitions <= g.transitions
  {
  }

  lemma ApplyEvolves(w: World, e: Event)
    ensures Evolves(w, Apply(w, e))
  {
    match e {
      case Pass(t, plan) =>
        forall id | id in w.h.items ensures ItemEvolves(w.h.items[id], Apply(w, e).h.items[id]) {
          EnforceItem(w, t, plan, id);
          PassItemKeeps(w.h.items[id], id, t, plan.env);
        }
      case Advance(c, id, to) => TransitionEvolves(w, c, id, to);
      case _ =>
    }
  }

  /**
    Append-only integrity and frozen retention terms, over every run: whatever the
    events, policies changed or passes failed, earlier history entries stay as they
    are and an item's expiry and policy snapshot never change.
  */
  lemma {:induction false} RunEvolves(w: World, events: seq<Event>)
    ensures Evolves(w, Run(w, events))
    decreases |events|
  {
    if events != [] {
      var v := Apply(w, events[0]);
      ApplyEvolves(w, events[0]);
      RunEvolves(v, events[1..]);
      EvolvesTransitive(w, v, Run(v, events[1..]));
    }
  }

  lemma EvolvesTransitive(a: World, b: World, c: World)
    requires Evolves(a, b) && Evolves(b, c)
    ensures Evolves(a, c)
  {
    forall id | id in a.h.items ensures id in c.h.items && ItemEvolves(a.h.items[id], c.h.items[id]) {
      assert ItemEvolves(a.h.items[id], b.h.items[id]) && ItemEvolves(b.h.items[id], c.h.items[id]);
    }
  }

  // ------------------------------------------------------------- history replay

  predicate ArchivedByPolicy(item: Item) {
    item.policy.Some? && item.policy.value.action == Archive
  }

  /** Where an item's transitions have led after the first k of them. */
  function StatusAfter(ts: seq<Transition>, k: nat): LifecycleStatus
    requires k <= |ts|
  {
    if k == 0 then Raw else ts[k - 1].to
  }

  /** `now` is where the transitions led, or the retention job archived the item meanwhile. */
  ghost predicate Follows(item: Item, expected: LifecycleStatus, now: LifecycleStatus) {
    now == expected || (now == Archived && ArchivedByPolicy(item))
  }

  ghost predicate Replays(h: History, id: Id)
    requires id in h.items
  {
    var ts, item := TransitionsOf(h.transitions, id), h.items[id];
    && (forall k | 0 <= k < |ts| :: Follows(item, StatusAfter(ts, k), ts[k].from))
    && Follows(item, StatusAfter(ts, |ts|), item.lifecycle)
    && Snapshots(h.revisions, id) == Froms(ts)
  }

  ghost predicate NoHistory(h: History, id: Id) {
    TransitionsOf(h.transitions, id) == [] && VersionsOf(h.revisions, id) == [] && Snapshots(h.revisions, id) == []
  }

  // --------------------------------------------------------------- soft deletes

  /** A soft-deleted item had a DELETE policy and had expired when it was deleted. */
  ghost predicate DeletedRightly(item: Item) {
    item.deletedAt.Some? ==>
      && item.policy.Some? && item.policy.value.action == DeleteIt
      && item.expiry.Some? && item.expiry.value <= item.deletedAt.value
      && item.status == Deleted
  }

  ghost predicate Inv(w: World) {
    && References(w.h)
    && (forall id :: Contiguous(w.h, id))
    && (forall id | id in w.h.items :: Replays(w.h, id) && DeletedRightly(w.h.items[id]))
    && (forall id | id !in w.h.items :: NoHistory(w.h, id))
  }

  ghost predicate Timely(e: Event) {
    e.Pass? ==> Monotone(e.plan.env)
  }

  lemma InitSound()
    ensures Inv(Init)
  {
  }

  /** Events that write items but no history. */
  lemma ItemWritesKeep(w: World, v: World)
    requires Inv(w) && v.h.revisions == w.h.revisions && v.h.transitions == w.h.transitions
    requires forall id | id in w.h.items :: id in v.h.items && ItemEvolves(w.h.items[id], v.h.items[id])
    requires forall id | id in w.h.items ::
               v.h.items[id].lifecycle == w.h.items[id].lifecycle ||
               (v.h.items[id].lifecycle == Archived && ArchivedByPolicy(w.h.items[id]))
    requires forall id | id in v.h.items :: DeletedRightly(v.h.items[id])
    requires forall id | id in v.h.items && id !in w.h.items :: v.h.items[id].lifecycle == Raw
    ensures Inv(v)
  {
    forall id ensures Contiguous(v.h, id) {
      assert Contiguous(w.h, id);
    }
    forall id | id in v.h.items ensures Replays(v.h, id) {
      if id in w.h.items {
        StillReplays(w.h, v.h, id);
      } else {
        assert NoHistory(w.h, id);
        assert Froms([]) == [];
      }
    }
  }

  lemma StillReplays(h: History, g: History, id: Id)
    requires id in h.items && id in g.items && Replays(h, id)
    requires g.revisions == h.revisions && g.transitions == h.transitions
    requires g.items[id].policy == h.items[id].policy
    requires g.items[id].lifecycle == h.items[id].lifecycle ||
             (g.items[id].lifecycle == Archived && ArchivedByPolicy(h.items[id]))
    ensures Replays(g, id)
  {
    var ts := TransitionsOf(h.transitions, id);
    forall k | 0 <= k < |ts| ensures Follows(g.items[id], StatusAfter(ts, k), ts[k].from) {
      assert Follows(h.items[id], StatusAfter(ts, k), ts[k].from);
    }
  }

  function RevisionRow(h: History, c: Caller, id: Id): Revision
    requires id in h.items
  {
    Revision(c.tenant, id, |VersionsOf(h.revisions, id)| + 1, h.items[id], c.user)
  }

  function TransitionRow(h: History, c: Caller, id: Id, to: LifecycleStatus): Transition
    requires id in h.items
  {
    Transition(c.tenant, id, h.items[id].lifecycle, to, c.user)
  }

  /** A transition either fails and writes nothing, or writes these two rows and the new status. */
  lemma TransitionEffect(h: History, c: Caller, id: Id, to: LifecycleStatus)
    requires References(h) && Contiguous(h, id)
    ensures var (result, g) := TransitionLifecycle(h, c, id, to);
            if result.Err? then g == h
            else
              && Visible(h, c, id)
              && g == History(h.items[id := h.items[id].(lifecycle := to)],
                              h.revisions + [RevisionRow(h, c, id)], h.transitions + [TransitionRow(h, c, id, to)])
  {
    if Visible(h, c, id) {
      NextVersion(h, c.tenant, id);
    }
  }

  lemma TransitionKeeps(w: World, c: Caller, id: Id, to: LifecycleStatus)
    requires Inv(w)
    ensures Inv(w.(h := TransitionLifecycle(w.h, c, id, to).1))
  {
    assert Contiguous(w.h, id);
    TransitionEffect(w.h, c, id, to);
    if TransitionLifecycle(w.h, c, id, to).0.Ok? {
      RowsAdded(w, c, id, to);
    }
  }

  lemma RowsAdded(w: World, c: Caller, id: Id, to: LifecycleStatus)
    requires Inv(w) && Visible(w.h, c, id)
    ensures Inv(w.(h := History(w.h.items[id := w.h.items[id].(lifecycle := to)],
                                w.h.revisions + [RevisionRow(w.h, c, id)],
                                w.h.transitions + [TransitionRow(w.h, c, id, to)])))
  {
    var rev, tr := RevisionRow(w.h, c, id), TransitionRow(w.h, c, id, to);
    var g := History(w.h.items[id := w.h.items[id].(lifecycle := to)], w.h.revisions + [rev], w.h.transitions + [tr]);
    forall i ensures Contiguous(g, i) {
      assert Contiguous(w.h, i);
      RevisionNumbered(w.h, rev, i);
    }
    forall i ensures i in g.items ==> Replays(g, i)
             ensures i !in g.items ==> NoHistory(g, i)
    {
      RowsSeen(w.h, g, rev, tr, i);
    }
    assert forall i | i in g.items :: DeletedRightly(w.h.items[i]) ==> DeletedRightly(g.items[i]);
    ReferencesKept(w.h, g, rev, tr);
  }

  lemma RevisionNumbered(h: History, rev: Revision, i: Id)
    requires Contiguous(h, i) && rev.version == |VersionsOf(h.revisions, rev.item)| + 1
    ensures VersionsOf(h.revisions + [rev], i) == UpTo(|VersionsOf(h.revisions + [rev], i)|)
  {
    RevisionAppended(h.revisions, rev, i);
    assert UpTo(rev.version) == UpTo(rev.version - 1) + [rev.version];
  }

  lemma RowsSeen(h: History, g: History, rev: Revision, tr: Transition, i: Id)
    requires rev.item == tr.item && tr.item in h.items
    requires tr.from == h.items[tr.item].lifecycle && rev.snapshot == h.items[tr.item]
    requires g == History(h.items[tr.item := h.items[tr.item].(lifecycle := tr.to)],
                          h.revisions + [rev], h.transitions + [tr])
    requires (i in h.items ==> Replays(h, i)) && (i !in h.items ==> NoHistory(h, i))
    ensures (i in g.items ==> Replays(g, i)) && (i !in g.items ==> NoHistory(g, i))
  {
    RevisionAppended(h.revisions, rev, i);
    TransitionAppended(h.transitions, tr, i);
    if i == tr.item {
      ReplayExtended(h, g, i, tr, rev);
    }
  }

  lemma ReferencesKept(h: History, g: History, rev: Revision, tr: Transition)
    requires References(h) && rev.item == tr.item && tr.item in h.items
    requires rev.tenant == tr.tenant == h.items[tr.item].tenant
    requires g == History(h.items[tr.item := h.items[tr.item].(lifecycle := tr.to)],
                          h.revisions + [rev], h.transitions + [tr])
    ensures References(g)
  {
  }

  lemma ReplayExtended(h: History, g: History, id: Id, tr: Transition, rev: Revision)
    requires id in h.items && id in g.items && Replays(h, id)
    requires tr.from == h.items[id].lifecycle && rev.snapshot == h.items[id]
    requires g.items[id] == h.items[id].(lifecycle := tr.to)
    requires TransitionsOf(g.transitions, id) == TransitionsOf(h.transitions, id) + [tr]
    requires Snapshots(g.revisions, id) == Snapshots(h.revisions, id) + [rev.snapshot.lifecycle]
    ensures Replays(g, id)
  {
    var ts := TransitionsOf(h.transitions, id);
    var us := ts + [tr];
    forall k | 0 <= k < |us| ensures Follows(g.items[id], StatusAfter(us, k), us[k].from) {
      assert StatusAfter(us, k) == StatusAfter(ts, k);
      if k < |ts| {
        assert Follows(h.items[id], StatusAfter(ts, k), ts[k].from);
      }
    }
    assert Froms(us) == Froms(ts) + [tr.from];
  }

  /** One item through one pass. */
  lemma PassItemKeeps(item: Item, id: Id, t: Id, env: PassEnv)
    ensures var after := PassItem(item, id, t, env);
            && ItemEvolves(item, after)
            && (after.lifecycle == item.lifecycle || (after.lifecycle == Archived && ArchivedByPolicy(item)))
            && (Monotone(env) && DeletedRightly(item) ==> DeletedRightly(after))
  {
    if Monotone(env) {
      assert env.queryAt <= StampOf(env, id);
    }
  }

  lemma PassKeeps(w: World, t: Id, plan: Plan)
    requires Inv(w) && Monotone(plan.env)
    ensures Inv(EnforceForTenant(w, t, plan))
  {
    var v := EnforceForTenant(w, t, plan);
    forall id | id in w.h.items
      ensures id in v.h.items && ItemEvolves(w.h.items[id], v.h.items[id]) && DeletedRightly(v.h.items[id])
      ensures v.h.items[id].lifecycle == w.h.items[id].lifecycle ||
              (v.h.items[id].lifecycle == Archived && ArchivedByPolicy(w.h.items[id]))
    {
      PassOutcome(w, t, plan, id);
    }
    ItemWritesKeep(w, v);
  }

  lemma PassOutcome(w: World, t: Id, plan: Plan, id: Id)
    requires id in w.h.items && DeletedRightly(w.h.items[id]) && Monotone(plan.env)
    ensures var item, after := w.h.items[id], EnforceForTenant(w, t, plan).h.items;
            && id in after && ItemEvolves(item, after[id]) && DeletedRightly(after[id])
            && (after[id].lifecycle == item.lifecycle || (after[id].lifecycle == Archived && ArchivedByPolicy(item)))
  {
    EnforceItem(w, t, plan, id);
    PassItemKeeps(w.h.items[id], id, t, plan.env);
  }

  lemma CreateKeeps(w: World, c: Caller, id: Id, dto: NewItem, now: int)
    requires Inv(w)
    ensures Inv(CreateItem(w, c, id, dto, now))
  {
    ItemWritesKeep(w, CreateItem(w, c, id, dto, now));
  }

  lemma WriteTextKeeps(w: World, tenant: Id, id: Id, metadataRead: Metadata, text: string)
    requires Inv(w)
    ensures Inv(WriteExtractedText(w, tenant, id, metadataRead, text))
  {
    ItemWritesKeep(w, WriteExtractedText(w, tenant, id, metadataRead, text));
  }

  lemma ApplyKeeps(w: World, e: Event)
    requires Inv(w) && Timely(e)
    ensures Inv(Apply(w, e))
  {
    match e {
      case Create(c, id, dto, now) => CreateKeeps(w, c, id, dto, now);
      case Advance(c, id, to) => TransitionKeeps(w, c, id, to);
      case Upsert(_, _, _, _, _) => ItemWritesKeep(w, Apply(w, e));
      case WriteText(tenant, id, read, text) => WriteTextKeeps(w, tenant, id, read, text);
      case Pass(t, plan) => PassKeeps(w, t, plan);
    }
  }

  lemma {:induction false} RunKeeps(w: World, events: seq<Event>)
    requires Inv(w) && forall e | e in events :: Timely(e)
    ensures Inv(Run(w, events))
    decreases |events|
  {
    if events != [] {
      ApplyKeeps(w, events[0]);
      RunKeeps(Apply(w, events[0]), events[1..]);
    }
  }

  /**
    In a reachable state, a permitted caller's transition moves the item and adds one
    row to each history; a policy upserted sets the terms of the item created next; a
    worker's text and a pass's actions reach the items they are about.
  */
  lemma EventsTakeEffect(events: seq<Event>, c: Caller, id: Id, to: LifecycleStatus)
    requires forall e | e in events :: Timely(e)
    requires var w := Run(Init, events); id in w.h.items && w.h.items[id].tenant == c.tenant && c.role == Owner
    ensures var w := Run(Init, events);
            var v := Apply(w, Advance(c, id, to));
            && v.h.items == w.h.items[id := w.h.items[id].(lifecycle := to)]
            && |v.h.revisions| == |w.h.revisions| + 1 && |v.h.transitions| == |w.h.transitions| + 1
            && v.policies == w.policies && v.audit == w.audit
  {
    InitSound();
    RunKeeps(Init, events);
    assert Contiguous(Run(Init, events).h, id);
    TransitionMeans(Run(Init, events).h, c, id, to);
  }

  lemma UpsertTakesEffect(w: World, c: Caller, newId: Id, id: Id, dto: NewItem, days: int, action: RetentionAction,
      now: int)
    requires (c.tenant, dto.contentType) !in w.policies && id !in w.h.items
    ensures var v := Apply(Apply(w, Upsert(c.tenant, newId, dto.contentType, days, action)),
                           Event.Create(c, id, dto, now));
            && id in v.h.items && v.h.items[id].expiry == Some(now + days * 24 * 60 * 60 * 1000)
            && v.h.items[id].policy == Some(PolicySnapshot(newId, days, action, now))
  {
  }

  lemma PassTakesEffect(w: World, t: Id, plan: Plan, id: Id)
    requires id in w.h.items
    ensures id in Apply(w, Pass(t, plan)).h.items
    ensures Apply(w, Pass(t, plan)).h.items[id] == PassAll(w.h.items, t, plan.env)[id]
    ensures |Apply(w, Pass(t, plan)).audit| ==
            |w.audit| + |ExpiryAudit(w.h.items, plan.expiring, t, plan.env)| +
                |ScrubAudit(plan.dueForHardDelete, t, plan.env)|
  {
  }

  lemma TextTakesEffect(w: World, tenant: Id, id: Id, read: Metadata, text: string)
    requires id in w.h.items && w.h.items[id].tenant == tenant
    ensures var v := Apply(w, WriteText(tenant, id, read, text));
            id in v.h.items && "extractedText" in v.h.items[id].metadata &&
                v.h.items[id].metadata["extractedText"] == text
  {
  }

  // ------------------------------------------------------------- main results

  /**
    Replay, for every run and item: the transitions start at RAW and chain to the
    current status, except that the status they find may be ARCHIVED on an item whose
    snapshotted policy archives; and the k-th revision shows the status the k-th
    transition left.
  */
  lemma HistoryReplays(events: seq<Event>, id: Id)
    requires forall e | e in events :: Timely(e)
    requires id in Run(Init, events).h.items
    ensures var h := Run(Init, events).h;
            var ts, item := TransitionsOf(h.transitions, id), h.items[id];
            var archives := item.policy.Some? && item.policy.value.action == Archive;
            && (forall k | 0 <= k < |ts| ::
                  ts[k].from == StatusAfter(ts, k) || (ts[k].from == Archived && archives))
            && (item.lifecycle == StatusAfter(ts, |ts|) || (item.lifecycle == Archived && archives))
            && Snapshots(h.revisions, id) == Froms(ts)
            && VersionsOf(h.revisions, id) == UpTo(|ts|)
            && References(h)
  {
    InitSound();
    RunKeeps(Init, events);
    var h := Run(Init, events).h;
    var ts := TransitionsOf(h.transitions, id);
    assert Replays(h, id) && Contiguous(h, id);
    assert forall k | 0 <= k < |ts| :: Follows(h.items[id], StatusAfter(ts, k), ts[k].from);
    SameLength(h.revisions, id);
  }

  lemma ExpireRightly(item: Item, id: Id, t: Id, env: PassEnv)
    requires DeletedRightly(item) && Monotone(env)
    ensures DeletedRightly(Expire(item, id, t, env))
    ensures Expire(item, id, t, env).policy == item.policy && Expire(item, id, t, env).expiry == item.expiry
  {
    assert env.queryAt <= StampOf(env, id);
  }

  /** In every run an item is soft-deleted at most once, under a DELETE policy, and never before it expires. */
  lemma DeletedOnceExpired(events: seq<Event>, more: seq<Event>, id: Id)
    requires forall e | e in events :: Timely(e)
    requires id in Run(Init, events).h.items && Run(Init, events).h.items[id].deletedAt.Some?
    ensures var item, later := Run(Init, events).h.items[id], Run(Run(Init, events), more).h.items;
            && item.policy.Some? && item.policy.value.action == DeleteIt && item.status == Deleted
            && item.expiry.Some? && item.expiry.value <= item.deletedAt.value
            && id in later && later[id].deletedAt == item.deletedAt && later[id].status == Deleted
            && later[id].expiry == item.expiry && later[id].policy == item.policy
  {
    InitSound();
    RunKeeps(Init, events);
    assert DeletedRightly(Run(Init, events).h.items[id]);
    RunEvolves(Run(Init, events), more);
  }

  /** A pass changes the title or metadata only of items under a DELETE policy that expired seven days before. */
  lemma OnlyExpiredDeletesScrubbed(events: seq<Event>, t: Id, plan: Plan, id: Id)
    requires forall e | e in events :: Timely(e)
    requires Monotone(plan.env) && id in Run(Init, events).h.items
    ensures var w := Run(Init, events);
            var item := w.h.items[id];
            var after := EnforceForTenant(w, t, plan).h.items[id];
            after.title != item.title || after.metadata != item.metadata ==>
              && item.policy.Some? && item.policy.value.action == DeleteIt
              && item.expiry.Some? && item.expiry.value + 7 * 86_400_000 <= plan.env.graceAt
  {
    InitSound();
    RunKeeps(Init, events);
    var item := Run(Init, events).h.items[id];
    assert DeletedRightly(item);
    ExpireRightly(item, id, t, plan.env);
  }
}
