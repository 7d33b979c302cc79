/**
  The external researcher portal: access requests, their approval, and the check
  made on every view and download. The check reads the item and then the request
  row, and others may write in between.
*/
module ResearcherAccess {
  import opened Common
  import opened Policy
  import opened Lifecycle

  const DAY: int := 24 * 60 * 60 * 1000
  const DEFAULT_VALIDITY_DAYS: int := 30
  const WATERMARK_TTL: int := 30 * 60 * 1000

  datatype PortalItem = PortalItem(tenant: Id, contentType: ContentType, confidentiality: Confidentiality,
                                   lifecycle: LifecycleStatus, deleted: bool)

  datatype RequestStatus = Pending | Approved | Rejected

  datatype RequestRow = RequestRow(id: Id, tenant: Id, status: RequestStatus, expiry: Option<int>)

  /** A researcher and an item: the table's unique key (researcherId, resourceId). */
  type Key = (Id, Id)

  datatype Visitor = Visitor(researcher: Id, tenant: Id)

  datatype Record =
    | Decided(key: Key, tenant: Id, approved: bool, expiry: int)
    | Entered(who: Visitor, item: Id, seen: PortalItem, download: bool, at: int)

  /** A view or download call that has read its item. */
  datatype Visit = Visit(who: Visitor, item: Id, seen: PortalItem, download: bool)

  datatype Job = Job(who: Visitor, item: Id, expiresAt: int)

  /** A request for access that has found no row yet. */
  datatype Asking = Asking(who: Visitor, item: Id)

  datatype State = State(items: map<Id, PortalItem>, requests: map<Key, RequestRow>, askings: seq<Asking>,
                         visits: seq<Visit>, jobs: seq<Job>, now: int, log: seq<Record>)

  datatype Step =
    | LookUpRequest(who: Visitor, item: Id)
    | InsertRequest(k: nat, newId: Id)
    | Approve(tenant: Id, id: Id, found: Key, days: int)
    | Reject(tenant: Id, id: Id, found: Key)
    | ReadItem(who: Visitor, item: Id, download: bool)
    | CheckApproval(k: nat)
    | PutItem(item: Id, row: PortalItem)
    | Wait(ms: nat)

  const Init := State(map[], map[], [], [], [], 0, [])

  function OpenToAll(item: PortalItem): bool {
    item.confidentiality == Public && item.lifecycle == Published
  }

  predicate InPortal(items: map<Id, PortalItem>, who: Visitor, item: Id) {
    item in items && items[item].tenant == who.tenant
  }

  /** Asking again changes nothing, whatever became of the first request. */
  function AskFor(requests: map<Key, RequestRow>, who: Visitor, item: Id, newId: Id): map<Key, RequestRow> {
    if (who.researcher, item) in requests then requests
    else requests[(who.researcher, item) := RequestRow(newId, who.tenant, Pending, None)]
  }

  /** The row the scoped client finds for a decision: this id, in the decider's tenant. */
  predicate Decidable(requests: map<Key, RequestRow>, tenant: Id, id: Id, found: Key) {
    found in requests && requests[found].id == id && requests[found].tenant == tenant
  }

  /** An approved row of this tenant that has not expired; a row without expiry would never expire. */
  predicate StillValid(requests: map<Key, RequestRow>, who: Visitor, item: Id, now: int) {
    var key := (who.researcher, item);
    && key in requests && requests[key].tenant == who.tenant && requests[key].status == Approved
    && (requests[key].expiry.None? || requests[key].expiry.value > now)
  }

  predicate Watermarkable(item: PortalItem) {
    item.contentType == Video || item.contentType == Image
  }

  function Next(s: State, step: Step): State {
    match step
    case LookUpRequest(who, item) =>
      if !InPortal(s.items, who, item) || (who.researcher, item) in s.requests then s
      else s.(askings := s.askings + [Asking(who, item)])
    case InsertRequest(k, newId) =>
      if k >= |s.askings| || (s.askings[k].who.researcher, s.askings[k].item) in s.requests then s
      else s.(requests := AskFor(s.requests, s.askings[k].who, s.askings[k].item, newId))
    case Approve(tenant, id, found, days) =>
      if !Decidable(s.requests, tenant, id, found) then s
      else
        var expiry := s.now + days * DAY;
        s.(requests := s.requests[found := s.requests[found].(status := Approved, expiry := Some(expiry))],
           log := s.log + [Decided(found, tenant, true, expiry)])
    case Reject(tenant, id, found) =>
      if !Decidable(s.requests, tenant, id, found) then s
      else s.(requests := s.requests[found := s.requests[found].(status := Rejected)],
              log := s.log + [Decided(found, tenant, false, s.now)])
    case ReadItem(who, item, download) =>
      if !InPortal(s.items, who, item) || s.items[item].deleted then s
      else s.(visits := s.visits + [Visit(who, item, s.items[item], download)])
    case CheckApproval(k) =>
      if k >= |s.visits| then s
      else
        var v := s.visits[k];
        if !OpenToAll(v.seen) && !StillValid(s.requests, v.who, v.item, s.now) then s
        else if v.download && !Watermarkable(v.seen) then s
        else s.(log := s.log + [Entered(v.who, v.item, v.seen, v.download, s.now)],
                jobs := if v.download then s.jobs + [Job(v.who, v.item, s.now + WATERMARK_TTL)] else s.jobs)
    case PutItem(item, row) =>
      if item in s.items && s.items[item].tenant != row.tenant then s else s.(items := s.items[item := row])
    case Wait(ms) => s.(now := s.now + ms)
  }

  function Run(s: State, steps: seq<Step>): State
    decreases |steps|
  {
    if steps == [] then s else Run(Next(s, steps[0]), steps[1..])
  }

  // ------------------------------------------------------- what the run decided

  /** The latest decision on a researcher and an item. */
  function Latest(log: seq<Record>, key: Key): Option<Record> {
    if log == [] then None
    else
      var r := log[|log| - 1];
      if r.Decided? && r.key == key then Some(r) else Latest(log[..|log| - 1], key)
  }

  lemma LatestAppended(log: seq<Record>, r: Record, key: Key)
    ensures Latest(log + [r], key) == if r.Decided? && r.key == key then Some(r) else Latest(log, key)
  {
    assert (log + [r])[..|log|] == log;
  }

  ghost predicate RowSound(s: State, key: Key)
    requires key in s.requests
  {
    var row, last := s.requests[key], Latest(s.log, key);
    && key.1 in s.items && s.items[key.1].tenant == row.tenant
    && match row.status
       case Pending => last == None
       case Approved => row.expiry.Some? && last == Some(Decided(key, row.tenant, true, row.expiry.value))
       case Rejected => last.Some? && last.value.Decided? && !last.value.approved
  }

  /** The visitor's latest decision, when let in, was an approval by the item's tenant that had not expired. */
  ghost predicate Explained(before: seq<Record>, r: Record)
    requires r.Entered?
  {
    (r.seen.confidentiality == Public && r.seen.lifecycle == Published) ||
    exists expiry ::
      Latest(before, (r.who.researcher, r.item)) ==
          Some(Decided((r.who.researcher, r.item), r.seen.tenant, true, expiry)) && r.at < expiry
  }

  ghost predicate Inv(s: State) {
    && (forall key | key in s.requests :: RowSound(s, key))
    && (forall key | key !in s.requests :: Latest(s.log, key) == None)
    && (forall k | 0 <= k < |s.askings| :: InPortal(s.items, s.askings[k].who, s.askings[k].item))
    && (forall k | 0 <= k < |s.visits| ::
        s.visits[k].seen.tenant == s.visits[k].who.tenant && !s.visits[k].seen.deleted)
    && (forall i | 0 <= i < |s.log| && s.log[i].Entered? ::
          && Explained(s.log[..i], s.log[i]) && !s.log[i].seen.deleted && s.log[i].seen.tenant == s.log[i].who.tenant
          && (s.log[i].download ==> s.log[i].seen.contentType == Video || s.log[i].seen.contentType == Image))
  }

  lemma InitSound()
    ensures Inv(Init)
  {
  }

  lemma OldEntriesKept(s: State, r: Record)
    requires Inv(s)
    ensures forall i | 0 <= i < |s.log| && s.log[i].Entered? ::
              Explained((s.log + [r])[..i], s.log[i]) && !s.log[i].seen.deleted &&
                  s.log[i].seen.tenant == s.log[i].who.tenant
  {
    forall i | 0 <= i < |s.log| && s.log[i].Entered?
      ensures Explained((s.log + [r])[..i], s.log[i])
    {
      assert (s.log + [r])[..i] == s.log[..i];
    }
  }

  lemma DecisionKeeps(s: State, step: Step)
    requires Inv(s) && (step.Approve? || step.Reject?)
    ensures Inv(Next(s, step))
  {
    var t := Next(s, step);
    if t != s {
      var r := t.log[|s.log|];
      assert t.log == s.log + [r];
      OldEntriesKept(s, r);
      forall key | key in t.requests ensures RowSound(t, key) {
        LatestAppended(s.log, r, key);
        assert RowSound(s, key);
      }
      forall key | key !in t.requests ensures Latest(t.log, key) == None {
        LatestAppended(s.log, r, key);
      }
    }
  }

  lemma CheckApprovalKeeps(s: State, k: nat)
    requires Inv(s)
    ensures Inv(Next(s, CheckApproval(k)))
  {
    var t := Next(s, CheckApproval(k));
    if t != s {
      var v := s.visits[k];
      var r := Entered(v.who, v.item, v.seen, v.download, s.now);
      assert t.log == s.log + [r];
      OldEntriesKept(s, r);
      forall key | key in t.requests ensures RowSound(t, key) {
        LatestAppended(s.log, r, key);
        assert RowSound(s, key);
      }
      forall key | key !in t.requests ensures Latest(t.log, key) == None {
        LatestAppended(s.log, r, key);
      }
      assert t.log[..|s.log|] == s.log;
      if !OpenToAll(v.seen) {
        assert RowSound(s, (v.who.researcher, v.item));
      }
      assert Explained(t.log[..|s.log|], r);
    }
  }

  lemma QuietKeeps(s: State, step: Step)
    requires Inv(s) && (step.LookUpRequest? || step.InsertRequest? || step.ReadItem? || step.PutItem? || step.Wait?)
    ensures Inv(Next(s, step))
  {
    var t := Next(s, step);
    forall key | key in t.requests ensures RowSound(t, key) {
      if key in s.requests {
        assert RowSound(s, key);
      }
    }
  }

  lemma {:induction false} RunKeeps(s: State, steps: seq<Step>)
    requires Inv(s)
    ensures Inv(Run(s, steps))
    decreases |steps|
  {
    if steps != [] {
      match steps[0] {
        case Approve(_, _, _, _) => DecisionKeeps(s, steps[0]);
        case Reject(_, _, _) => DecisionKeeps(s, steps[0]);
        case CheckApproval(k) => CheckApprovalKeeps(s, k);
        case _ => QuietKeeps(s, steps[0]);
      }
      RunKeeps(Next(s, steps[0]), steps[1..]);
    }
  }

  /**
    Every view or download of an item that is not PUBLIC and PUBLISHED is explained
    by the latest decision on that researcher and item when it was let in: an
    approval, in the item's own tenant, still strictly unexpired. The item was not
    soft-deleted when read.
  */
  lemma EntriesExplained(steps: seq<Step>, i: nat)
    requires i < |Run(Init, steps).log| && Run(Init, steps).log[i].Entered?
    ensures var log := Run(Init, steps).log;
            var r := log[i];
            var key := (r.who.researcher, r.item);
            && !r.seen.deleted && r.seen.tenant == r.who.tenant
            && (r.download ==> r.seen.contentType == Video || r.seen.contentType == Image)
            && ((r.seen.confidentiality == Public && r.seen.lifecycle == Published) ||
                exists expiry :: Latest(log[..i], key) == Some(Decided(key, r.seen.tenant, true, expiry)) &&
                    r.at < expiry)
  {
    InitSound();
    RunKeeps(Init, steps);
    var log := Run(Init, steps).log;
    assert Explained(log[..i], log[i]);
  }

  /** No request row is approved without an expiry, so the check's "no expiry" branch never admits anyone. */
  lemma ApprovedHasExpiry(steps: seq<Step>, key: Key)
    requires key in Run(Init, steps).requests && Run(Init, steps).requests[key].status == Approved
    ensures Run(Init, steps).requests[key].expiry.Some?
    ensures key.1 in Run(Init, steps).items
    ensures Run(Init, steps).requests[key].tenant == Run(Init, steps).items[key.1].tenant
  {
    InitSound();
    RunKeeps(Init, steps);
    assert RowSound(Run(Init, steps), key);
  }

  lemma {:induction false} RequestsStay(s: State, steps: seq<Step>, key: Key)
    requires key in s.requests
    ensures key in Run(s, steps).requests && Run(s, steps).requests[key].id == s.requests[key].id
    ensures s.askings <= Run(s, steps).askings
    decreases |steps|
  {
    if steps != [] {
      RequestsStay(Next(s, steps[0]), steps[1..], key);
    }
  }

  /**
    Of several calls that found no row for a researcher and an item, only the first
    inserts one, whatever comes between.
  */
  lemma OneRequestPerPair(s: State, j: nat, k: nat, newId: Id, between: seq<Step>, other: Id)
    requires j < |s.askings| && k < |s.askings| && s.askings[j] == s.askings[k]
    ensures var key := (s.askings[j].who.researcher, s.askings[j].item);
            var first := Next(s, InsertRequest(j, newId));
            var later := Run(first, between);
            && key in first.requests && (key !in s.requests ==> first.requests[key].id == newId)
            && key in later.requests && later.requests[key].id == first.requests[key].id
            && Next(later, InsertRequest(k, other)) == later
  {
    var key := (s.askings[j].who.researcher, s.askings[j].item);
    RequestsStay(Next(s, InsertRequest(j, newId)), between, key);
  }

  /** An approval lasts the days it was given for, from its own moment. */
  lemma ApprovalLasts(s: State, tenant: Id, id: Id, found: Key, days: int)
    ensures var t := Next(s, Step.Approve(tenant, id, found, days));
            if found in s.requests && s.requests[found].id == id && s.requests[found].tenant == tenant
            then
              && t.requests == s.requests[found :=
                   RequestRow(id, tenant, Approved, Some(s.now + days * 24 * 60 * 60 * 1000))]
              && t.log == s.log + [Decided(found, tenant, true, s.now + days * 24 * 60 * 60 * 1000)]
            else t == s
    ensures var t := Next(s, Reject(tenant, id, found));
            if found in s.requests && s.requests[found].id == id && s.requests[found].tenant == tenant
            then
              && t.requests == s.requests[found := s.requests[found].(status := Rejected)]
              && t.log == s.log + [Decided(found, tenant, false, s.now)]
            else t == s
  {
  }

  /** A request for access left alone adds one pending row, unless the item is not there or was asked for before. */
  lemma UndisturbedAsk(s: State, who: Visitor, item: Id, newId: Id)
    ensures var key := (who.researcher, item);
            var t := Next(Next(s, LookUpRequest(who, item)), InsertRequest(|s.askings|, newId));
            t.requests == if item in s.items && s.items[item].tenant == who.tenant && key !in s.requests
                          then s.requests[key := RequestRow(newId, who.tenant, Pending, None)] else s.requests
  {
    var m := Next(s, LookUpRequest(who, item));
    assert m != s ==> m.askings[|s.askings|] == Asking(who, item);
  }

  /** Items are edited meanwhile, within their tenant, and time passes. */
  lemma OtherStepsDo(s: State, item: Id, row: PortalItem, ms: nat)
    ensures Next(s, PutItem(item, row)) ==
            if item in s.items && s.items[item].tenant != row.tenant then s else s.(items := s.items[item := row])
    ensures Next(s, Wait(ms)) == s.(now := s.now + ms)
  {
  }

  lemma {:induction false} RunOneMore(s: State, steps: seq<Step>, a: Step)
    ensures Run(s, steps + [a]) == Next(Run(s, steps), a)
    decreases |steps|
  {
    if steps == [] {
      assert steps + [a] == [a] && [a][1..] == [];
      assert Run(s, [a]) == Run(Next(s, a), []);
    } else {
      assert (steps + [a])[1..] == steps[1..] + [a];
      RunOneMore(Next(s, steps[0]), steps[1..], a);
    }
  }

  // ------------------------------------------------------------- the services

  /**
    A view or download left alone lets in exactly who may enter, a download of a video
    or an image only, with its job.
  */
  lemma UndisturbedVisit(s: State, who: Visitor, item: Id, download: bool)
    ensures var t := Next(Next(s, ReadItem(who, item, download)), CheckApproval(|s.visits|));
            if MayEnter(s.items, s.requests, who, item, s.now)
               && (download ==> s.items[item].contentType == Video || s.items[item].contentType == Image)
            then
              && t.log == s.log + [Entered(who, item, s.items[item], download, s.now)]
              && t.jobs == s.jobs + if download then [Job(who, item, s.now + 30 * 60 * 1000)] else []
            else t.log == s.log && t.jobs == s.jobs
  {
    var m := Next(s, ReadItem(who, item, download));
    assert m != s ==> m.visits[|s.visits|] == Visit(who, item, s.items[item], download);
  }

  /**
    The item is the visitor's tenant's, not deleted, and either public and published
    or under an approval of the same tenant that has not expired.
  */
  predicate MayEnter(items: map<Id, PortalItem>, requests: map<Key, RequestRow>, who: Visitor, item: Id, now: int) {
    && item in items && items[item].tenant == who.tenant && !items[item].deleted
    && (|| (items[item].confidentiality == Public && items[item].lifecycle == Published)
        || ((who.researcher, item) in requests
            && var row := requests[(who.researcher, item)];
               row.tenant == who.tenant && row.status == Approved && (row.expiry.Some? ==> now < row.expiry.value)))
  }

  datatype PortalError = NotFound | Forbidden | NotWatermarkable

  class ResearcherPortal {
    var items: map<Id, PortalItem>
    var requests: map<Key, RequestRow>
    var jobs: seq<Job>

    constructor (items: map<Id, PortalItem>)
      ensures this.items == items && requests == map[] && jobs == []
    {
      this.items, requests, jobs := items, map[], [];
    }

    method Ask(who: Visitor, item: Id, newId: Id) returns (r: Result<RequestRow, PortalError>)
      modifies this
      ensures items == old(items) && jobs == old(jobs)
      ensures var key := (who.researcher, item);
              if item !in items || items[item].tenant != who.tenant then requests == old(requests) && r == Err(NotFound)
              else
                && r == Ok(if key in old(requests) then old(requests)[key]
                    else RequestRow(newId, who.tenant, Pending, None))
                && requests == old(requests)[key := r.value] && requests == AskFor(old(requests), who, item, newId)
    {
      if item !in items || items[item].tenant != who.tenant {
        return Err(NotFound);
      }
      var key := (who.researcher, item);
      if key in requests {
        return Ok(requests[key]);
      }
      requests := requests[key := RequestRow(newId, who.tenant, Pending, None)];
      return Ok(requests[key]);
    }

    method ApproveRequest(tenant: Id, id: Id, found: Key, validityDays: int := DEFAULT_VALIDITY_DAYS, now: int)
        returns (ok: bool)
      modifies this
      ensures items == old(items) && jobs == old(jobs)
      ensures ok == (found in old(requests) && old(requests)[found].id == id && old(requests)[found].tenant == tenant)
      ensures requests == if ok then old(requests)[found :=
                RequestRow(id, tenant, Approved, Some(now + validityDays * 24 * 60 * 60 * 1000))]
                          else old(requests)
    {
      if found !in requests || requests[found].id != id || requests[found].tenant != tenant {
        return false;
      }
      requests := requests[found := requests[found].(status := Approved, expiry := Some(now + validityDays * DAY))];
      ok := true;
    }

    /** Without a number of days, thirty. */
    method ApproveForDefault(tenant: Id, id: Id, found: Key, now: int) returns (ok: bool)
      modifies this
      ensures ok ==> requests == old(requests)[found :=
                       RequestRow(id, tenant, Approved, Some(now + 30 * 24 * 60 * 60 * 1000))]
      ensures !ok ==> requests == old(requests)
    {
      ok := ApproveRequest(tenant, id, found, now := now);
    }

    method RejectRequest(tenant: Id, id: Id, found: Key) returns (ok: bool)
      modifies this
      ensures items == old(items) && jobs == old(jobs)
      ensures ok == (found in old(requests) && old(requests)[found].id == id && old(requests)[found].tenant == tenant)
      ensures requests == if ok then old(requests)[found := old(requests)[found].(status := Rejected)]
                else old(requests)
    {
      if found !in requests || requests[found].id != id || requests[found].tenant != tenant {
        return false;
      }
      requests := requests[found := requests[found].(status := Rejected)];
      ok := true;
    }

    method AssertViewable(who: Visitor, item: Id, now: int) returns (r: Result<PortalItem, PortalError>)
      ensures r == if item !in items || items[item].tenant != who.tenant || items[item].deleted then Err(NotFound)
                   else if MayEnter(items, requests, who, item, now) then Ok(items[item])
                   else Err(Forbidden)
      ensures item in items ==>
                (r.Ok? <==> InPortal(items, who, item) && !items[item].deleted
                            && (OpenToAll(items[item]) || StillValid(requests, who, item, now)))
    {
      if item !in items || items[item].tenant != who.tenant || items[item].deleted {
        return Err(NotFound);
      }
      var found := items[item];
      if found.confidentiality == Public && found.lifecycle == Published {
        return Ok(found);
      }
      var key := (who.researcher, item);
      if key !in requests || requests[key].tenant != who.tenant || requests[key].status != Approved {
        return Err(Forbidden);
      }
      var approval := requests[key];
      if approval.expiry.Some? && approval.expiry.value <= now {
        return Err(Forbidden);
      }
      return Ok(found);
    }

    method RequestDownload(who: Visitor, item: Id, now: int) returns (r: Result<Job, PortalError>)
      modifies this`jobs
      ensures r.Ok? <==> MayEnter(items, requests, who, item, now)
                         && (items[item].contentType == Video || items[item].contentType == Image)
      ensures r.Ok? ==> r.value == Job(who, item, now + 30 * 60 * 1000) && jobs == old(jobs) + [r.value]
      ensures r.Err? ==> jobs == old(jobs)
    {
      var viewable := AssertViewable(who, item, now);
      if viewable.Err? {
        return Err(viewable.error);
      }
      if viewable.value.contentType != Video && viewable.value.contentType != Image {
        return Err(NotWatermarkable);
      }
      var job := Job(who, item, now + WATERMARK_TTL);
      jobs := jobs + [job];
      return Ok(job);
    }
  }
}
