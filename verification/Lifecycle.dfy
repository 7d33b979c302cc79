/**
  Content items and their append-only history, and what one undisturbed
  `transitionLifecycle` call does to them.
*/
module Lifecycle {
  import opened Common
  import opened Policy

  datatype ContentType = Video | Image | Document | Audio

  datatype ContentStatus = Active | PendingReview | ArchivedStatus | Deleted

  datatype LifecycleStatus = Raw | InProduction | ReadyForReview | Published | Archived

  datatype RetentionAction = Archive | DeleteIt | NotifyOnly

  type Metadata = map<string, string>

  /** The policy values snapshotted onto an item when it is created. */
  datatype PolicySnapshot = PolicySnapshot(policyId: Id, periodDays: int, action: RetentionAction, snapshotAt: int)

  datatype Item = Item(
    tenant: Id, contentType: ContentType, title: string, metadata: Metadata,
    status: ContentStatus, lifecycle: LifecycleStatus, confidentiality: Confidentiality,
    expiry: Option<int>, policy: Option<PolicySnapshot>, deletedAt: Option<int>,
    createdBy: Id, createdAt: int)

  datatype Revision = Revision(tenant: Id, item: Id, version: nat, snapshot: Item, changedBy: Id)

  datatype Transition = Transition(tenant: Id, item: Id, from: LifecycleStatus, to: LifecycleStatus, changedBy: Id)

  /** The content table and the two history tables, in insertion order. */
  datatype History = History(items: map<Id, Item>, revisions: seq<Revision>, transitions: seq<Transition>)

  datatype Caller = Caller(tenant: Id, user: Id, role: Role)

  datatype TransitionError = ItemNotFound | NotPermitted | VersionTaken

  function MayView(c: Caller, item: Item): bool {
    Can(View, Subject(c.user, c.tenant, c.role), Resource(item.tenant, Some(item.confidentiality), map[]))
  }

  predicate Visible(h: History, c: Caller, id: Id) {
    id in h.items && h.items[id].tenant == c.tenant
  }

  function Max(a: nat, b: nat): nat {
    if a < b then b else a
  }

  /** Highest version number of the item's revisions in the caller's tenant; 0 if none. */
  function LatestVersion(revisions: seq<Revision>, tenant: Id, id: Id): nat {
    if revisions == [] then 0
    else
      var r := revisions[|revisions| - 1];
      var earlier := LatestVersion(revisions[..|revisions| - 1], tenant, id);
      if r.item == id && r.tenant == tenant then Max(earlier, r.version) else earlier
  }

  /** The database's unique key on (resourceId, versionNumber), over all tenants. */
  predicate VersionUsed(revisions: seq<Revision>, id: Id, version: nat) {
    exists r | r in revisions :: r.item == id && r.version == version
  }

  function AddRevision(h: History, c: Caller, id: Id, version: nat, snapshot: Item): History {
    h.(revisions := h.revisions + [Revision(c.tenant, id, version, snapshot, c.user)])
  }

  function AddTransition(h: History, c: Caller, id: Id, from: LifecycleStatus, to: LifecycleStatus): History {
    h.(transitions := h.transitions + [Transition(c.tenant, id, from, to, c.user)])
  }

  function SetLifecycle(h: History, id: Id, to: LifecycleStatus): History
    requires id in h.items
  {
    h.(items := h.items[id := h.items[id].(lifecycle := to)])
  }

  /** A whole call with nobody else in between. */
  function TransitionLifecycle(h: History, c: Caller, id: Id, to: LifecycleStatus)
    : (Result<Item, TransitionError>, History)
  {
    if !Visible(h, c, id) then (Err(ItemNotFound), h)
    else if !MayView(c, h.items[id]) then (Err(NotPermitted), h)
    else
      var item := h.items[id];
      var version := LatestVersion(h.revisions, c.tenant, id) + 1;
      if VersionUsed(h.revisions, id, version) then (Err(VersionTaken), h)
      else
        var h1 := AddRevision(h, c, id, version, item);
        var h2 := AddTransition(h1, c, id, item.lifecycle, to);
        var h3 := SetLifecycle(h2, id, to);
        (Ok(h3.items[id]), h3)
  }

  /** Who may move an item of the caller's own tenant. */
  lemma MayViewMeans(c: Caller, item: Item)
    requires item.tenant == c.tenant
    ensures MayView(c, item) <==>
            && c.role != UnknownRole
            && (item.confidentiality == Restricted ==> c.role == Owner || c.role == SuperAdmin)
            && (item.confidentiality == Confidential ==> c.role != Researcher)
  {
    CanMeans(View, Subject(c.user, c.tenant, c.role), Resource(item.tenant, Some(item.confidentiality), map[]));
  }

  // ------------------------------------------------- per-item views of history

  function VersionsOf(revisions: seq<Revision>, id: Id): seq<nat> {
    if revisions == [] then []
    else
      var r, earlier := revisions[|revisions| - 1], VersionsOf(revisions[..|revisions| - 1], id);
      if r.item == id then earlier + [r.version] else earlier
  }

  function Snapshots(revisions: seq<Revision>, id: Id): seq<LifecycleStatus> {
    if revisions == [] then []
    else
      var r, earlier := revisions[|revisions| - 1], Snapshots(revisions[..|revisions| - 1], id);
      if r.item == id then earlier + [r.snapshot.lifecycle] else earlier
  }

  function TransitionsOf(transitions: seq<Transition>, id: Id): seq<Transition> {
    if transitions == [] then []
    else
      var t, earlier := transitions[|transitions| - 1], TransitionsOf(transitions[..|transitions| - 1], id);
      if t.item == id then earlier + [t] else earlier
  }

  function Froms(transitions: seq<Transition>): seq<LifecycleStatus> {
    seq(|transitions|, i requires 0 <= i < |transitions| => transitions[i].from)
  }

  /** 1, 2, ..., n. */
  function UpTo(n: nat): seq<nat> {
    seq(n, i => i + 1)
  }

  lemma InUpTo(v: nat, n: nat)
    ensures v in UpTo(n) <==> 1 <= v <= n
  {
    if 1 <= v <= n {
      assert UpTo(n)[v - 1] == v;
    }
  }

  lemma RevisionAppended(revisions: seq<Revision>, r: Revision, id: Id)
    ensures VersionsOf(revisions + [r], id) == VersionsOf(revisions, id) + if r.item == id then [r.version] else []
    ensures Snapshots(revisions + [r], id) == Snapshots(revisions, id) + if r.item == id then [r.snapshot.lifecycle]
              else []
  {
    assert (revisions + [r])[..|revisions|] == revisions;
  }

  lemma TransitionAppended(transitions: seq<Transition>, t: Transition, id: Id)
    ensures TransitionsOf(transitions + [t], id) == TransitionsOf(transitions, id) + if t.item == id then [t] else []
  {
    assert (transitions + [t])[..|transitions|] == transitions;
  }

  /** Every history row belongs to an existing item of its own tenant. */
  ghost predicate References(h: History) {
    && (forall r | r in h.revisions :: r.item in h.items && h.items[r.item].tenant == r.tenant)
    && (forall t | t in h.transitions :: t.item in h.items && h.items[t.item].tenant == t.tenant)
  }

  /** The item's revisions were numbered 1, 2, 3, ... in the order they were written. */
  ghost predicate Contiguous(h: History, id: Id) {
    VersionsOf(h.revisions, id) == UpTo(|VersionsOf(h.revisions, id)|)
  }

  lemma {:induction false} VersionUsedIff(revisions: seq<Revision>, id: Id, version: nat)
    ensures VersionUsed(revisions, id, version) <==> version in VersionsOf(revisions, id)
  {
    if revisions != [] {
      var r, earlier := revisions[|revisions| - 1], revisions[..|revisions| - 1];
      assert revisions == earlier + [r];
      VersionUsedIff(earlier, id, version);
    }
  }

  /** The latest version is the greatest the item has among the tenant's revisions, in whatever order they stand. */
  lemma {:induction false} LatestIsGreatest(revisions: seq<Revision>, tenant: Id, id: Id)
    ensures var latest := LatestVersion(revisions, tenant, id);
            && (forall r | r in revisions && r.item == id && r.tenant == tenant :: r.version <= latest)
            && (latest > 0 ==> exists r :: r in revisions && r.item == id && r.tenant == tenant && r.version == latest)
  {
    if revisions != [] {
      var r, earlier := revisions[|revisions| - 1], revisions[..|revisions| - 1];
      assert revisions == earlier + [r];
      LatestIsGreatest(earlier, tenant, id);
    }
  }

  lemma {:induction false} LatestIsCount(revisions: seq<Revision>, tenant: Id, id: Id)
    requires forall r | r in revisions && r.item == id :: r.tenant == tenant
    requires VersionsOf(revisions, id) == UpTo(|VersionsOf(revisions, id)|)
    ensures LatestVersion(revisions, tenant, id) == |VersionsOf(revisions, id)|
  {
    if revisions != [] {
      var r, earlier := revisions[|revisions| - 1], revisions[..|revisions| - 1];
      assert revisions == earlier + [r];
      var versions, before := VersionsOf(revisions, id), VersionsOf(earlier, id);
      assert before == versions[..|before|] == UpTo(|before|);
      LatestIsCount(earlier, tenant, id);
      if r.item == id {
        assert versions[|before|] == |before| + 1;
      }
    }
  }

  lemma {:induction false} SameLength(revisions: seq<Revision>, id: Id)
    ensures |Snapshots(revisions, id)| == |VersionsOf(revisions, id)|
  {
    if revisions != [] {
      SameLength(revisions[..|revisions| - 1], id);
    }
  }

  /** The number the next call computes: one past the revisions there are, and free. */
  lemma NextVersion(h: History, tenant: Id, id: Id)
    requires References(h) && Contiguous(h, id) && id in h.items && h.items[id].tenant == tenant
    ensures LatestVersion(h.revisions, tenant, id) == |VersionsOf(h.revisions, id)|
    ensures !VersionUsed(h.revisions, id, |VersionsOf(h.revisions, id)| + 1)
  {
    LatestIsCount(h.revisions, tenant, id);
    VersionUsedIff(h.revisions, id, |VersionsOf(h.revisions, id)| + 1);
  }

  /**
    When a call succeeds, and what it does. Over a sound history it succeeds exactly
    when the item is the caller's, the role is known, RESTRICTED meets only an owner
    or super admin and CONFIDENTIAL no researcher. It then appends one revision, the
    next number with the item as it was, and one transition, and sets the status.
    Otherwise it says which of the two failed and writes nothing.
  */
  lemma TransitionMeans(h: History, c: Caller, id: Id, to: LifecycleStatus)
    requires References(h) && Contiguous(h, id)
    ensures var (result, g) := TransitionLifecycle(h, c, id, to);
            if id !in h.items || h.items[id].tenant != c.tenant then result == Err(ItemNotFound) && g == h
            else
              var item := h.items[id];
              if && c.role != UnknownRole
                 && (item.confidentiality == Restricted ==> c.role == Owner || c.role == SuperAdmin)
                 && (item.confidentiality == Confidential ==> c.role != Researcher)
              then
                && result == Ok(item.(lifecycle := to))
                && g.revisions == h.revisions +
                    [Revision(c.tenant, id, |VersionsOf(h.revisions, id)| + 1, item, c.user)]
                && g.transitions == h.transitions + [Transition(c.tenant, id, item.lifecycle, to, c.user)]
                && g.items == h.items[id := item.(lifecycle := to)]
              else result == Err(NotPermitted) && g == h
  {
    if id in h.items && h.items[id].tenant == c.tenant {
      MayViewMeans(c, h.items[id]);
      NextVersion(h, c.tenant, id);
    }
  }
}
