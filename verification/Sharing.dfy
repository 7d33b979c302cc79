/**
  Cross-tenant sharing: the one path by which a tenant reads another's item, with
  the share row and the item read in two steps that others' writes may separate.
*/
module Sharing {
  import opened Common
  import opened Policy

  datatype SharedItem = SharedItem(tenant: Id, confidentiality: Confidentiality)

  datatype ShareRow = ShareRow(id: Id, level: Permission, sharedBy: Id)

  /** An item and the tenant it is shared with: the table's unique key. */
  type Key = (Id, Id)

  type Shares = map<Key, ShareRow>

  datatype Grant = Grant(owner: Id, level: Permission)

  datatype Record =
    | Shared(key: Key, grant: Grant)
    | Unshared(key: Key, revoker: Id)
    | Returned(reader: Subject, item: Id, row: SharedItem, level: Permission, readAt: nat)

  /** A `getSharedItem` call between its two reads; `readAt` is how long the log was at the first. */
  datatype Reading = Reading(reader: Subject, item: Id, level: Permission, readAt: nat)

  /** A `share` call that has looked for its row; `existing` is the row's id, if there was one. */
  datatype Sharing = Sharing(owner: Subject, key: Key, level: Permission, existing: Option<Id>)

  datatype State = State(items: map<Id, SharedItem>, shares: Shares, sharings: seq<Sharing>, readings: seq<Reading>,
                         log: seq<Record>)

  datatype Step =
    | LookUpShare(owner: Subject, item: Id, grantee: Id, level: Permission)
    | WriteShare(k: nat, newId: Id)
    | Revoke(owner: Subject, id: Id, found: Key)
    | ReadShare(reader: Subject, item: Id)
    | ReadItem(k: nat)
    | PutItem(item: Id, row: SharedItem)

  const Init := State(map[], map[], [], [], [])

  function Owns(items: map<Id, SharedItem>, who: Subject, item: Id): bool {
    item in items && items[item].tenant == who.tenantId
  }

  function ShareItem(shares: Shares, owner: Subject, key: Key, level: Permission, newId: Id): Shares {
    if key in shares then shares[key := shares[key].(level := level, sharedBy := owner.userId)]
    else shares[key := ShareRow(newId, level, owner.userId)]
  }

  /** The row found earlier is updated by its id; a new one is refused by the unique key if another came first. */
  function RowId(shares: Shares, key: Key): Option<Id> {
    if key in shares then Some(shares[key].id) else None
  }

  /** The row the database finds for a revoke: this id, on an item of the caller's tenant. */
  predicate Revocable(items: map<Id, SharedItem>, shares: Shares, owner: Subject, id: Id, found: Key) {
    found in shares && shares[found].id == id && Owns(items, owner, found.0)
  }

  function MayReturn(reader: Subject, row: SharedItem, level: Permission): bool {
    Can(View, reader, Resource(row.tenant, Some(row.confidentiality), map[reader.tenantId := level]))
  }

  function Next(s: State, step: Step): State {
    match step
    case LookUpShare(owner, item, grantee, level) =>
      if !Owns(s.items, owner, item) then s
      else s.(sharings := s.sharings + [Sharing(owner, (item, grantee), level, RowId(s.shares, (item, grantee)))])
    case WriteShare(k, newId) =>
      if k >= |s.sharings| || RowId(s.shares, s.sharings[k].key) != s.sharings[k].existing then s
      else
        var c := s.sharings[k];
        s.(shares := ShareItem(s.shares, c.owner, c.key, c.level, newId),
           log := s.log + [Shared(c.key, Grant(c.owner.tenantId, c.level))])
    case Revoke(owner, id, found) =>
      if !Revocable(s.items, s.shares, owner, id, found) then s
      else s.(shares := s.shares - {found}, log := s.log + [Unshared(found, owner.tenantId)])
    case ReadShare(reader, item) =>
      if (item, reader.tenantId) !in s.shares then s
      else s.(readings := s.readings + [Reading(reader, item, s.shares[(item, reader.tenantId)].level, |s.log|)])
    case ReadItem(k) =>
      if k >= |s.readings| then s
      else
        var r := s.readings[k];
        if r.item !in s.items || !MayReturn(r.reader, s.items[r.item], r.level) then s
        else s.(log := s.log + [Returned(r.reader, r.item, s.items[r.item], r.level, r.readAt)])
    case PutItem(item, row) =>
      if item in s.items && s.items[item].tenant != row.tenant then s else s.(items := s.items[item := row])
  }

  function Run(s: State, steps: seq<Step>): State
    decreases |steps|
  {
    if steps == [] then s else Run(Next(s, steps[0]), steps[1..])
  }

  // ------------------------------------------------------- what the run decided

  /** The standing decision on a pair: the last share after any revoke, if one stands. */
  function Standing(log: seq<Record>, key: Key): Option<Grant> {
    if log == [] then None
    else
      var r, earlier := log[|log| - 1], Standing(log[..|log| - 1], key);
      if r.Shared? && r.key == key then Some(r.grant)
      else if r.Unshared? && r.key == key then None
      else earlier
  }

  lemma StandingAppended(log: seq<Record>, r: Record, key: Key)
    ensures Standing(log + [r], key) ==
            if r.Shared? && r.key == key then Some(r.grant)
            else if r.Unshared? && r.key == key then None
            else Standing(log, key)
  {
    assert (log + [r])[..|log|] == log;
  }

  /** The item read belonged to the granter, and the level read was the standing one at the first read. */
  ghost predicate Backed(s: State, item: Id, reader: Subject, level: Permission, readAt: nat) {
    && readAt <= |s.log| && item in s.items
    && Standing(s.log[..readAt], (item, reader.tenantId)) == Some(Grant(s.items[item].tenant, level))
  }

  ghost predicate Explained(s: State, r: Record)
    requires r.Returned?
  {
    && r.item in s.items && s.items[r.item].tenant == r.row.tenant
    && Backed(s, r.item, r.reader, r.level, r.readAt) && MayReturn(r.reader, r.row, r.level)
  }

  ghost predicate InStep(s: State, key: Key) {
    && (key in s.shares <==> Standing(s.log, key).Some?)
    && (key in s.shares ==>
          key.0 in s.items && Standing(s.log, key) == Some(Grant(s.items[key.0].tenant, s.shares[key].level)))
  }

  /** Shares and revocations are the owning tenant's. */
  ghost predicate ByOwner(s: State, r: Record) {
    match r
    case Shared(key, grant) => key.0 in s.items && s.items[key.0].tenant == grant.owner
    case Unshared(key, revoker) => key.0 in s.items && s.items[key.0].tenant == revoker
    case _ => true
  }

  ghost predicate Inv(s: State) {
    && (forall i | 0 <= i < |s.log| :: ByOwner(s, s.log[i]))
    && (forall key :: InStep(s, key))
    && (forall k | 0 <= k < |s.sharings| :: Owns(s.items, s.sharings[k].owner, s.sharings[k].key.0))
    && (forall k | 0 <= k < |s.readings| ::
          var r := s.readings[k]; Backed(s, r.item, r.reader, r.level, r.readAt))
    && (forall i | 0 <= i < |s.log| && s.log[i].Returned? :: s.log[i].readAt <= i && Explained(s, s.log[i]))
  }

  /** The log grows and items keep their owners, so what was backed stays backed. */
  ghost predicate Extends(s: State, t: State) {
    && s.log <= t.log
    && (forall item | item in s.items :: item in t.items && t.items[item].tenant == s.items[item].tenant)
  }

  lemma BackedKept(s: State, t: State, item: Id, reader: Subject, level: Permission, readAt: nat)
    requires Extends(s, t) && Backed(s, item, reader, level, readAt)
    ensures Backed(t, item, reader, level, readAt)
  {
    assert t.log[..readAt] == s.log[..readAt];
  }

  lemma ExplainedKept(s: State, t: State, r: Record)
    requires Extends(s, t) && r.Returned? && Explained(s, r)
    ensures Explained(t, r)
  {
    BackedKept(s, t, r.item, r.reader, r.level, r.readAt);
  }

  lemma RestKept(s: State, t: State)
    requires Inv(s) && Extends(s, t) && t.readings == s.readings
    ensures forall k | 0 <= k < |t.readings| :: var r := t.readings[k]; Backed(t, r.item, r.reader, r.level, r.readAt)
    ensures forall i | 0 <= i < |s.log| && s.log[i].Returned? :: s.log[i].readAt <= i && Explained(t, s.log[i])
  {
    forall k | 0 <= k < |t.readings|
      ensures var r := t.readings[k]; Backed(t, r.item, r.reader, r.level, r.readAt)
    {
      var r := s.readings[k];
      BackedKept(s, t, r.item, r.reader, r.level, r.readAt);
    }
    forall i | 0 <= i < |s.log| && s.log[i].Returned? ensures s.log[i].readAt <= i && Explained(t, s.log[i]) {
      ExplainedKept(s, t, s.log[i]);
    }
  }

  lemma DecisionKeeps(s: State, step: Step)
    requires Inv(s) && (step.WriteShare? || step.Revoke?)
    ensures Inv(Next(s, step))
  {
    var t := Next(s, step);
    if t != s {
      RestKept(s, t);
      forall key ensures InStep(t, key) {
        StandingAppended(s.log, t.log[|s.log|], key);
        assert t.log == s.log + [t.log[|s.log|]];
        assert InStep(s, key);
      }
    }
  }

  lemma LookUpKeeps(s: State, step: Step)
    requires Inv(s) && step.LookUpShare?
    ensures Inv(Next(s, step))
  {
    var t := Next(s, step);
    RestKept(s, t);
    forall key ensures InStep(t, key) {
      assert InStep(s, key);
    }
  }

  lemma ReadShareKeeps(s: State, reader: Subject, item: Id)
    requires Inv(s)
    ensures Inv(Next(s, ReadShare(reader, item)))
  {
    var t := Next(s, ReadShare(reader, item));
    assert InStep(s, (item, reader.tenantId));
    assert s.log[..|s.log|] == s.log;
    forall key ensures InStep(t, key) {
      assert InStep(s, key);
    }
    RestKept(s, t.(readings := s.readings));
    forall i | 0 <= i < |t.log| && t.log[i].Returned? ensures t.log[i].readAt <= i && Explained(t, t.log[i]) {
      ExplainedKept(s, t, s.log[i]);
    }
    forall k | 0 <= k < |t.readings| ensures var r := t.readings[k]; Backed(t, r.item, r.reader, r.level, r.readAt) {
      if k < |s.readings| {
        var r := s.readings[k];
        BackedKept(s, t, r.item, r.reader, r.level, r.readAt);
      }
    }
  }

  lemma ReadItemKeeps(s: State, k: nat)
    requires Inv(s)
    ensures Inv(Next(s, ReadItem(k)))
  {
    var t := Next(s, ReadItem(k));
    if t != s {
      var r := s.readings[k];
      RestKept(s, t);
      forall key ensures InStep(t, key) {
        StandingAppended(s.log, t.log[|s.log|], key);
        assert t.log == s.log + [t.log[|s.log|]];
        assert InStep(s, key);
      }
      assert Backed(t, r.item, r.reader, r.level, r.readAt);
      assert Explained(t, t.log[|s.log|]);
    }
  }

  lemma PutItemKeeps(s: State, item: Id, row: SharedItem)
    requires Inv(s)
    ensures Inv(Next(s, PutItem(item, row)))
  {
    var t := Next(s, PutItem(item, row));
    RestKept(s, t);
    forall key ensures InStep(t, key) {
      assert InStep(s, key);
    }
  }

  lemma {:induction false} RunKeeps(s: State, steps: seq<Step>)
    requires Inv(s)
    ensures Inv(Run(s, steps))
    decreases |steps|
  {
    if steps != [] {
      match steps[0] {
        case LookUpShare(_, _, _, _) => LookUpKeeps(s, steps[0]);
        case ReadShare(reader, item) => ReadShareKeeps(s, reader, item);
        case ReadItem(k) => ReadItemKeeps(s, k);
        case PutItem(item, row) => PutItemKeeps(s, item, row);
        case _ => DecisionKeeps(s, steps[0]);
      }
      RunKeeps(Next(s, steps[0]), steps[1..]);
    }
  }

  /**
    Who is shown a shared item: VIEW or EDIT alike, everyone but a researcher of a
    CONFIDENTIAL one; no one a RESTRICTED one.
  */
  lemma MayReturnMeans(reader: Subject, row: SharedItem, level: Permission)
    requires row.tenant != reader.tenantId
    ensures MayReturn(reader, row, level) <==>
            && reader.role != UnknownRole && row.confidentiality != Restricted
            && (row.confidentiality == Confidential ==> reader.role != Researcher)
  {
    CanMeans(View, reader, Resource(row.tenant, Some(row.confidentiality), map[reader.tenantId := level]));
  }

  /**
    Every item handed to another tenant is explained by the run: when its share was
    read, the owner's last word on that tenant was a share, at the level the policy was
    asked about, and the row handed over is not RESTRICTED, nor CONFIDENTIAL to a
    researcher.
  */
  lemma CrossTenantReadsExplained(steps: seq<Step>, i: nat)
    requires i < |Run(Init, steps).log| && Run(Init, steps).log[i].Returned?
    requires var r := Run(Init, steps).log[i]; r.row.tenant != r.reader.tenantId
    ensures var log := Run(Init, steps).log;
            var r := log[i];
            && r.readAt <= i
            && Standing(log[..r.readAt], (r.item, r.reader.tenantId)) == Some(Grant(r.row.tenant, r.level))
            && r.reader.role != UnknownRole && r.row.confidentiality != Restricted
            && (r.row.confidentiality == Confidential ==> r.reader.role != Researcher)
  {
    InitSound();
    RunKeeps(Init, steps);
    var s := Run(Init, steps);
    var r := s.log[i];
    assert Explained(s, r);
    MayReturnMeans(r.reader, r.row, r.level);
  }

  /** Only the tenant that owns an item ever shares it or takes a share back. */
  lemma DecidedByOwner(steps: seq<Step>, i: nat)
    requires i < |Run(Init, steps).log|
    ensures var s := Run(Init, steps);
            match s.log[i]
            case Shared(key, grant) => key.0 in s.items && s.items[key.0].tenant == grant.owner
            case Unshared(key, revoker) => key.0 in s.items && s.items[key.0].tenant == revoker
            case Returned(_, _, _, _, _) => true
  {
    InitSound();
    RunKeeps(Init, steps);
    assert ByOwner(Run(Init, steps), Run(Init, steps).log[i]);
  }

  lemma InitSound()
    ensures Inv(Init)
  {
  }

  /** A share call left alone is the service's. */
  lemma UndisturbedShare(s: State, owner: Subject, item: Id, grantee: Id, level: Permission, newId: Id)
    ensures var t := Next(Next(s, LookUpShare(owner, item, grantee, level)), WriteShare(|s.sharings|, newId));
            t.shares == if Owns(s.items, owner, item) then ShareItem(s.shares, owner, (item, grantee), level, newId)
                else s.shares
  {
  }

  /**
    A read left alone hands the item over exactly when it is shared with the reader's
    tenant and the policy allows it.
  */
  lemma UndisturbedRead(s: State, reader: Subject, item: Id)
    ensures var key := (item, reader.tenantId);
            var t := Next(Next(s, ReadShare(reader, item)), ReadItem(|s.readings|));
            t.log == if key in s.shares && item in s.items && MayReturn(reader, s.items[item], s.shares[key].level)
                     then s.log + [Returned(reader, item, s.items[item], s.shares[key].level, |s.log|)] else s.log
  {
    var m := Next(s, ReadShare(reader, item));
    assert m != s ==>
             m.readings[|s.readings|] == Reading(reader, item, s.shares[(item, reader.tenantId)].level, |s.log|);
  }

  /** A revocation takes effect exactly for a row of this id on an item the caller's tenant owns. */
  lemma RevocationDoes(s: State, owner: Subject, id: Id, found: Key)
    ensures var t := Next(s, Revoke(owner, id, found));
            if found in s.shares && s.shares[found].id == id
               && found.0 in s.items && s.items[found.0].tenant == owner.tenantId
            then t.shares == s.shares - {found} && t.log == s.log + [Unshared(found, owner.tenantId)] &&
                t.items == s.items
            else t == s
  {
  }

  /** Items are edited meanwhile, within their tenant. */
  lemma PutItemDoes(s: State, item: Id, row: SharedItem)
    ensures Next(s, PutItem(item, row)) ==
            if item in s.items && s.items[item].tenant != row.tenant then s else s.(items := s.items[item := row])
  {
  }

  lemma {:induction false} RunOneMore(s: State, steps: seq<Step>, a: Step)
    ensures Run(s, steps + [a]) == Next(Run(s, steps), a)
    decreases |steps|
  {
    if steps == [] {
      assert steps + [a] == [a] && [a][1..] == [];
      assert Run(s, [a]) == Run(Next(s, a), []);
    } else {
      assert (steps + [a])[1..] == steps[1..] + [a];
      RunOneMore(Next(s, steps[0]), steps[1..], a);
    }
  }

  /** Two share calls that both found no row, and no revoke between: the second write is refused. */
  lemma SecondShareRefused(s: State, j: nat, k: nat, newId: Id, other: Id)
    requires j < |s.sharings| && k < |s.sharings| && s.sharings[j].key == s.sharings[k].key
    requires s.sharings[j].existing.None? && s.sharings[k].existing.None? && s.sharings[j].key !in s.shares
    ensures var t := Next(s, WriteShare(j, newId));
            t.shares == s.shares[s.sharings[j].key := ShareRow(newId, s.sharings[j].level, s.sharings[j].owner.userId)]
            && Next(t, WriteShare(k, other)) == t
  {
  }

  // ------------------------------------------------------------- the service

  datatype ShareError = NotFound | Forbidden

  class SharedResourcesService {
    var items: map<Id, SharedItem>
    var shares: Shares

    constructor (items: map<Id, SharedItem>)
      ensures this.items == items && shares == map[]
    {
      this.items, shares := items, map[];
    }

    method ShareOut(owner: Subject, item: Id, grantee: Id, level: Permission, newId: Id) returns (ok: bool)
      modifies this
      ensures ok == (item in items && items[item].tenant == owner.tenantId) && items == old(items)
      ensures !ok ==> shares == old(shares)
      ensures ok ==>
                var key := (item, grantee);
                shares == old(shares)[key := ShareRow(if key in old(shares) then old(shares)[key].id else newId,
                                                      level, owner.userId)]
      ensures ok ==> shares == ShareItem(old(shares), owner, (item, grantee), level, newId)
    {
      if item !in items || items[item].tenant != owner.tenantId {
        return false;
      }
      var key := (item, grantee);
      if key in shares {
        shares := shares[key := shares[key].(level := level, sharedBy := owner.userId)];
      } else {
        shares := shares[key := ShareRow(newId, level, owner.userId)];
      }
      ok := true;
    }

    method RevokeShare(owner: Subject, id: Id, found: Key) returns (ok: bool)
      modifies this
      ensures ok == (found in old(shares) && old(shares)[found].id == id
                     && found.0 in items && items[found.0].tenant == owner.tenantId)
      ensures items == old(items) && ok == Revocable(items, old(shares), owner, id, found)
      ensures shares == if ok then old(shares) - {found} else old(shares)
    {
      if found !in shares || shares[found].id != id || found.0 !in items || items[found.0].tenant != owner.tenantId {
        return false;
      }
      shares := shares - {found};
      ok := true;
    }

    method GetSharedItem(reader: Subject, item: Id) returns (r: Result<SharedItem, ShareError>)
      ensures r == if (item, reader.tenantId) !in shares || item !in items then Err(NotFound)
                   else if MayReturn(reader, items[item], shares[(item, reader.tenantId)].level) then Ok(items[item])
                   else Err(Forbidden)
      ensures r.Ok? && r.value.tenant != reader.tenantId ==>
                && reader.role != UnknownRole && r.value.confidentiality != Restricted
                && (r.value.confidentiality == Confidential ==> reader.role != Researcher)
    {
      var key := (item, reader.tenantId);
      if key !in shares || item !in items {
        return Err(NotFound);
      }
      var row := items[item];
      var allowed := Decide(View, reader,
          Resource(row.tenant, Some(row.confidentiality), map[reader.tenantId := shares[key].level]));
      if !allowed {
        return Err(Forbidden);
      }
      if row.tenant != reader.tenantId {
        MayReturnMeans(reader, row, shares[key].level);
      }
      return Ok(row);
    }

    /** What my tenant has shared out, and what has been shared with it. */
    method Listings(me: Subject) returns (outgoing: set<Key>, incoming: set<Key>)
      ensures forall key :: key in outgoing <==>
                key in shares && key.0 in items && items[key.0].tenant == me.tenantId
      ensures forall key :: key in incoming <==> key in shares && key.1 == me.tenantId
    {
      outgoing := set key | key in shares && key.0 in items && items[key.0].tenant == me.tenantId;
      incoming := set key | key in shares && key.1 == me.tenantId;
    }
  }
}
