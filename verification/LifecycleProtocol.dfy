/**
  `transitionLifecycle` as it really runs: five database steps with no
  transaction around them, interleaved with other such calls, with item writes
  of every other service, and with failures. A call that crashes is one that is
  never scheduled again.
*/
module LifecycleProtocol {
  import opened Common
  import opened Policy
  import opened Lifecycle

  /** How far a call has come, with the values it carries in memory. */
  datatype Pc =
    | Start
    | HasItem(snap: Item)
    | HasNumber(snap: Item, next: nat)
    | Revised(snap: Item)
    | Moved(snap: Item)
    | Finished

  datatype Request = Request(caller: Caller, item: Id, to: LifecycleStatus, pc: Pc, failed: bool)

  datatype State = State(h: History, requests: seq<Request>)

  datatype Step =
    | Open(caller: Caller, item: Id, to: LifecycleStatus)
    | ReadItem(k: nat)
    | ReadLatest(k: nat)
    | InsertRevision(k: nat)
    | InsertTransition(k: nat)
    | UpdateItem(k: nat)
    | Fail(k: nat)
    | CreateItem(id: Id, row: Item)
    | EditItem(id: Id, row: Item)

  const Init := State(History(map[], [], []), [])

  function Advance(s: State, k: nat, pc: Pc): State
    requires k < |s.requests|
  {
    s.(requests := s.requests[k := s.requests[k].(pc := pc)])
  }

  function Abort(s: State, k: nat): State
    requires k < |s.requests|
  {
    s.(requests := s.requests[k := s.requests[k].(failed := true)])
  }

  predicate Running(s: State, k: nat) {
    k < |s.requests| && !s.requests[k].failed
  }

  /** One step; a step that is not enabled changes nothing. */
  function Next(s: State, step: Step): State {
    match step
    case Open(c, id, to) => s.(requests := s.requests + [Request(c, id, to, Start, false)])
    case ReadItem(k) =>
      if !Running(s, k) || !s.requests[k].pc.Start? then s
      else
        var r := s.requests[k];
        if !Visible(s.h, r.caller, r.item) || !MayView(r.caller, s.h.items[r.item]) then Abort(s, k)
        else Advance(s, k, HasItem(s.h.items[r.item]))
    case ReadLatest(k) =>
      if !Running(s, k) || !s.requests[k].pc.HasItem? then s
      else
        var r := s.requests[k];
        Advance(s, k, HasNumber(r.pc.snap, LatestVersion(s.h.revisions, r.caller.tenant, r.item) + 1))
    case InsertRevision(k) =>
      if !Running(s, k) || !s.requests[k].pc.HasNumber? then s
      else
        var r := s.requests[k];
        if VersionUsed(s.h.revisions, r.item, r.pc.next) then Abort(s, k)
        else Advance(s.(h := AddRevision(s.h, r.caller, r.item, r.pc.next, r.pc.snap)), k, Revised(r.pc.snap))
    case InsertTransition(k) =>
      if !Running(s, k) || !s.requests[k].pc.Revised? then s
      else
        var r := s.requests[k];
        Advance(s.(h := AddTransition(s.h, r.caller, r.item, r.pc.snap.lifecycle, r.to)), k, Moved(r.pc.snap))
    case UpdateItem(k) =>
      if !Running(s, k) || !s.requests[k].pc.Moved? then s
      else
        var r := s.requests[k];
        if !Visible(s.h, r.caller, r.item) then Abort(s, k)
        else Advance(s.(h := SetLifecycle(s.h, r.item, r.to)), k, Finished)
    case Fail(k) => if !Running(s, k) then s else Abort(s, k)
    case CreateItem(id, item) =>
      if id in s.h.items then s else s.(h := s.h.(items := s.h.items[id := item]))
    case EditItem(id, item) =>
      if id !in s.h.items || s.h.items[id].tenant != item.tenant then s
      else s.(h := s.h.(items := s.h.items[id := item]))
  }

  function Run(s: State, steps: seq<Step>): State
    decreases |steps|
  {
    if steps == [] then s else Run(Next(s, steps[0]), steps[1..])
  }

  // ---------------------------------------------------------------- invariant

  /** Calls stuck (or still on their way) between the two history inserts, by the status they saw. */
  function Pending(requests: seq<Request>, id: Id): multiset<LifecycleStatus> {
    if requests == [] then multiset{}
    else Pending(requests[..|requests| - 1], id) + Weight(requests[|requests| - 1], id)
  }

  function Weight(r: Request, id: Id): multiset<LifecycleStatus> {
    if r.item == id && r.pc.Revised? then multiset{r.pc.snap.lifecycle} else multiset{}
  }

  ghost predicate Sound(s: State, r: Request) {
    && (r.pc.HasItem? || r.pc.HasNumber? || r.pc.Revised? || r.pc.Moved? ==> Visible(s.h, r.caller, r.item))
    && (r.pc.HasNumber? ==> 1 <= r.pc.next <= |VersionsOf(s.h.revisions, r.item)| + 1)
  }

  /** Nothing is lost between the two history tables but what is pending. */
  ghost predicate Balanced(s: State, id: Id) {
    forall x :: Recorded(s, id, x) == Carried(s, id, x) + Pending(s.requests, id)[x]
  }

  function Recorded(s: State, id: Id, x: LifecycleStatus): nat {
    multiset(Snapshots(s.h.revisions, id))[x]
  }

  function Carried(s: State, id: Id, x: LifecycleStatus): nat {
    multiset(Froms(TransitionsOf(s.h.transitions, id)))[x]
  }

  ghost predicate Inv(s: State) {
    && References(s.h)
    && (forall id :: Contiguous(s.h, id))
    && (forall id :: Balanced(s, id))
    && (forall k | 0 <= k < |s.requests| :: Sound(s, s.requests[k]))
  }

  lemma PendingAppended(requests: seq<Request>, r: Request, id: Id, x: LifecycleStatus)
    ensures Pending(requests + [r], id)[x] == Pending(requests, id)[x] + Weight(r, id)[x]
  {
    assert (requests + [r])[..|requests|] == requests;
  }

  lemma {:induction false} PendingUpdated(requests: seq<Request>, k: nat, r: Request, id: Id, x: LifecycleStatus)
    requires k < |requests|
    ensures Pending(requests[k := r], id)[x] + Weight(requests[k], id)[x] == Pending(requests, id)[x] + Weight(r, id)[x]
  {
    var n := |requests| - 1;
    var init, last := requests[..n], requests[n];
    assert requests == init + [last];
    PendingAppended(init, last, id, x);
    if k == n {
      assert requests[k := r] == init + [r];
      PendingAppended(init, r, id, x);
    } else {
      assert requests[k := r] == init[k := r] + [last];
      PendingAppended(init[k := r], last, id, x);
      PendingUpdated(init, k, r, id, x);
    }
  }

  lemma RecordedAppended(revisions: seq<Revision>, r: Revision, id: Id, x: LifecycleStatus)
    ensures multiset(Snapshots(revisions + [r], id))[x] ==
            multiset(Snapshots(revisions, id))[x] + if r.item == id && r.snapshot.lifecycle == x then 1 else 0
  {
    RevisionAppended(revisions, r, id);
  }

  lemma CarriedAppended(transitions: seq<Transition>, t: Transition, id: Id, x: LifecycleStatus)
    ensures multiset(Froms(TransitionsOf(transitions + [t], id)))[x] ==
            multiset(Froms(TransitionsOf(transitions, id)))[x] + if t.item == id && t.from == x then 1 else 0
  {
    TransitionAppended(transitions, t, id);
    var before := TransitionsOf(transitions, id);
    assert Froms(before + [t]) == Froms(before) + [t.from];
  }

  // -------------------------------------------------------------- preservation

  lemma OpenKeeps(s: State, step: Step)
    requires Inv(s) && step.Open?
    ensures Inv(Next(s, step))
  {
    var t := Next(s, step);
    forall id ensures Balanced(t, id) {
      assert t.requests[..|s.requests|] == s.requests;
      assert Balanced(s, id);
    }
    assert forall id :: Contiguous(s.h, id) ==> Contiguous(t.h, id);
    assert forall k | 0 <= k < |s.requests| :: Sound(s, s.requests[k]) ==> Sound(t, t.requests[k]);
  }

  /** Steps that only move one call along, or abort it. */
  lemma BookkeepingKeeps(s: State, k: nat, r: Request)
    requires Inv(s) && k < |s.requests|
    requires r.item == s.requests[k].item && r.caller == s.requests[k].caller
    requires Sound(s, r) && forall id :: Weight(r, id) == Weight(s.requests[k], id)
    ensures Inv(s.(requests := s.requests[k := r]))
  {
    var t := s.(requests := s.requests[k := r]);
    forall id ensures Balanced(t, id) && Contiguous(t.h, id) {
      assert Balanced(s, id) && Contiguous(s.h, id);
      forall x ensures Recorded(t, id, x) == Carried(t, id, x) + Pending(t.requests, id)[x] {
        PendingUpdated(s.requests, k, r, id, x);
        assert Recorded(s, id, x) == Carried(s, id, x) + Pending(s.requests, id)[x];
      }
    }
    assert forall j | 0 <= j < |s.requests| :: Sound(s, s.requests[j]) ==> j == k || Sound(t, t.requests[j]);
  }

  lemma ReadsKeep(s: State, step: Step)
    requires Inv(s) && (step.ReadItem? || step.ReadLatest? || step.Fail?)
    ensures Inv(Next(s, step))
  {
    var t := Next(s, step);
    if t != s {
      var k := step.k;
      assert Sound(s, s.requests[k]);
      if step.ReadLatest? {
        var r := s.requests[k];
        assert Contiguous(s.h, r.item);
        NextVersion(s.h, r.caller.tenant, r.item);
      }
      BookkeepingKeeps(s, k, t.requests[k]);
    }
  }

  lemma InsertRevisionKeeps(s: State, k: nat)
    requires Inv(s)
    ensures Inv(Next(s, InsertRevision(k)))
  {
    var t := Next(s, InsertRevision(k));
    if t != s {
      var r := s.requests[k];
      assert Sound(s, r) && Contiguous(s.h, r.item);
      if VersionUsed(s.h.revisions, r.item, r.pc.next) {
        BookkeepingKeeps(s, k, t.requests[k]);
      } else {
        RevisionInserted(s, k, t);
      }
    }
  }

  lemma BalanceAfterRevision(s: State, k: nat, row: Revision, id: Id, x: LifecycleStatus)
    requires k < |s.requests| && s.requests[k].pc.HasNumber? && Balanced(s, id)
    requires row.item == s.requests[k].item && row.snapshot == s.requests[k].pc.snap
    ensures var r := s.requests[k].(pc := Revised(s.requests[k].pc.snap));
            multiset(Snapshots(s.h.revisions + [row], id))[x] ==
            Carried(s, id, x) + Pending(s.requests[k := r], id)[x]
  {
    var r := s.requests[k].(pc := Revised(s.requests[k].pc.snap));
    RecordedAppended(s.h.revisions, row, id, x);
    PendingUpdated(s.requests, k, r, id, x);
    assert Recorded(s, id, x) == Carried(s, id, x) + Pending(s.requests, id)[x];
  }

  lemma BalanceAfterTransition(s: State, k: nat, row: Transition, id: Id, x: LifecycleStatus)
    requires k < |s.requests| && s.requests[k].pc.Revised? && Balanced(s, id)
    requires row.item == s.requests[k].item && row.from == s.requests[k].pc.snap.lifecycle
    ensures var r := s.requests[k].(pc := Moved(s.requests[k].pc.snap));
            Recorded(s, id, x) ==
            multiset(Froms(TransitionsOf(s.h.transitions + [row], id)))[x] + Pending(s.requests[k := r], id)[x]
  {
    var r := s.requests[k].(pc := Moved(s.requests[k].pc.snap));
    CarriedAppended(s.h.transitions, row, id, x);
    PendingUpdated(s.requests, k, r, id, x);
    assert Recorded(s, id, x) == Carried(s, id, x) + Pending(s.requests, id)[x];
  }

  lemma RevisionInserted(s: State, k: nat, t: State)
    requires Inv(s) && Running(s, k) && s.requests[k].pc.HasNumber?
    requires !VersionUsed(s.h.revisions, s.requests[k].item, s.requests[k].pc.next)
    requires t == Next(s, InsertRevision(k))
    ensures Inv(t)
  {
    var r := s.requests[k];
    var row := Revision(r.caller.tenant, r.item, r.pc.next, r.pc.snap, r.caller.user);
    assert Sound(s, r) && Contiguous(s.h, r.item);
    var n := |VersionsOf(s.h.revisions, r.item)|;
    VersionUsedIff(s.h.revisions, r.item, r.pc.next);
    InUpTo(r.pc.next, n);
    assert r.pc.next == n + 1;
    forall id ensures Contiguous(t.h, id) {
      RevisionAppended(s.h.revisions, row, id);
      assert Contiguous(s.h, id);
      if id == r.item {
        assert UpTo(n + 1) == UpTo(n) + [n + 1];
      }
    }
    forall id, x: LifecycleStatus ensures Recorded(t, id, x) == Carried(t, id, x) + Pending(t.requests, id)[x] {
      BalanceAfterRevision(s, k, row, id, x);
    }
    forall j | 0 <= j < |t.requests| ensures Sound(t, t.requests[j]) {
      assert Sound(s, s.requests[j]);
      RevisionAppended(s.h.revisions, row, s.requests[j].item);
    }
  }

  lemma InsertTransitionKeeps(s: State, k: nat)
    requires Inv(s)
    ensures Inv(Next(s, InsertTransition(k)))
  {
    var t := Next(s, InsertTransition(k));
    if t != s {
      var r := s.requests[k];
      var row := Transition(r.caller.tenant, r.item, r.pc.snap.lifecycle, r.to, r.caller.user);
      assert Sound(s, r);
      forall id, x: LifecycleStatus ensures Recorded(t, id, x) == Carried(t, id, x) + Pending(t.requests, id)[x] {
        BalanceAfterTransition(s, k, row, id, x);
      }
      assert forall id :: Contiguous(s.h, id) ==> Contiguous(t.h, id);
      forall j | 0 <= j < |t.requests| ensures Sound(t, t.requests[j]) {
        assert Sound(s, s.requests[j]);
      }
    }
  }

  /** Item writes of any service: they never change who owns an item. */
  lemma ItemWritesKeep(s: State, t: State)
    requires Inv(s)
    requires t.h.revisions == s.h.revisions && t.h.transitions == s.h.transitions && t.requests == s.requests
    requires forall id | id in s.h.items :: id in t.h.items && t.h.items[id].tenant == s.h.items[id].tenant
    ensures Inv(t)
  {
    forall id ensures Contiguous(t.h, id) && Balanced(t, id) {
      assert Contiguous(s.h, id) && Balanced(s, id);
    }
    forall j | 0 <= j < |t.requests| ensures Sound(t, t.requests[j]) {
      assert Sound(s, s.requests[j]);
    }
  }

  lemma UpdateItemKeeps(s: State, k: nat)
    requires Inv(s)
    ensures Inv(Next(s, UpdateItem(k)))
  {
    var t := Next(s, UpdateItem(k));
    if t != s {
      assert Sound(s, s.requests[k]);
      var mid := s.(h := t.h);
      ItemWritesKeep(s, mid);
      BookkeepingKeeps(mid, k, t.requests[k]);
    }
  }

  lemma NextKeeps(s: State, step: Step)
    requires Inv(s)
    ensures Inv(Next(s, step))
  {
    match step {
      case Open(_, _, _) => OpenKeeps(s, step);
      case InsertRevision(k) => InsertRevisionKeeps(s, k);
      case InsertTransition(k) => InsertTransitionKeeps(s, k);
      case UpdateItem(k) => UpdateItemKeeps(s, k);
      case CreateItem(_, _) => ItemWritesKeep(s, Next(s, step));
      case EditItem(_, _) => ItemWritesKeep(s, Next(s, step));
      case _ => ReadsKeep(s, step);
    }
  }

  lemma {:induction false} RunKeeps(s: State, steps: seq<Step>)
    requires Inv(s)
    ensures Inv(Run(s, steps))
    decreases |steps|
  {
    if steps != [] {
      NextKeeps(s, steps[0]);
      RunKeeps(Next(s, steps[0]), steps[1..]);
    }
  }

  // ------------------------------------------------------------- main results

  /**
    In every interleaving with failures at any point, each item's revisions are
    numbered 1..n in insertion order, and every history row points to an existing
    item of its own tenant.
  */
  lemma VersionsContiguousInEveryRun(steps: seq<Step>, id: Id)
    ensures var h := Run(Init, steps).h;
            VersionsOf(h.revisions, id) == UpTo(|VersionsOf(h.revisions, id)|) && References(h)
  {
    InitSound();
    RunKeeps(Init, steps);
    assert Contiguous(Run(Init, steps).h, id);
  }

  lemma InitSound()
    ensures Inv(Init)
  {
  }

  /** Number of calls on an item between the two inserts, whether running or abandoned there. */
  function Between(requests: seq<Request>, id: Id): nat {
    if requests == [] then 0
    else
      var r, earlier := requests[|requests| - 1], Between(requests[..|requests| - 1], id);
      if r.item == id && r.pc.Revised? then earlier + 1 else earlier
  }

  lemma {:induction false} PendingSize(requests: seq<Request>, id: Id)
    ensures |Pending(requests, id)| == Between(requests, id)
  {
    if requests != [] {
      PendingSize(requests[..|requests| - 1], id);
    }
  }

  /**
    Conservation: the statuses snapshotted in an item's revisions are, with
    multiplicities, the `from` statuses of its transitions plus those of the calls
    between the two inserts; so the difference in number is exactly those calls.
  */
  lemma HistoryBalancedInEveryRun(steps: seq<Step>, id: Id)
    ensures var s := Run(Init, steps);
            && multiset(Snapshots(s.h.revisions, id)) ==
               multiset(Froms(TransitionsOf(s.h.transitions, id))) + Pending(s.requests, id)
            && |VersionsOf(s.h.revisions, id)| - |TransitionsOf(s.h.transitions, id)| == Between(s.requests, id)
  {
    InitSound();
    RunKeeps(Init, steps);
    var s := Run(Init, steps);
    assert Balanced(s, id);
    assert multiset(Snapshots(s.h.revisions, id)) ==
           multiset(Froms(TransitionsOf(s.h.transitions, id))) + Pending(s.requests, id) by {
      assert forall x :: Recorded(s, id, x) == Carried(s, id, x) + Pending(s.requests, id)[x];
    }
    PendingSize(s.requests, id);
    SameLength(s.h.revisions, id);
    var froms := Froms(TransitionsOf(s.h.transitions, id));
    assert |multiset(Snapshots(s.h.revisions, id))| == |multiset(froms)| + |Pending(s.requests, id)|;
  }

  /** Of several calls that computed the same number, at most one gets it: the rest fail and write nothing. */
  lemma OneWinnerPerVersion(s: State, j: nat, k: nat, between: seq<Step>)
    requires Inv(s) && j != k && j < |s.requests| && !s.requests[j].failed && s.requests[j].pc.HasNumber?
    requires k < |s.requests| && !s.requests[k].failed && s.requests[k].pc.HasNumber?
    requires s.requests[j].item == s.requests[k].item && s.requests[j].pc.next == s.requests[k].pc.next
    requires Next(s, InsertRevision(j)).h != s.h
    ensures var later := Run(Next(s, InsertRevision(j)), between);
            k < |later.requests| && later.requests[k] == s.requests[k] ==>
              Next(later, InsertRevision(k)).h == later.h && Next(later, InsertRevision(k)).requests[k].failed
  {
    var won := Next(s, InsertRevision(j));
    var r := s.requests[j];
    assert won.h.revisions[|s.h.revisions|] in won.h.revisions;
    assert VersionUsed(won.h.revisions, r.item, r.pc.next);
    RunGrows(won, between);
    var later := Run(won, between);
    assert forall row :: row in won.h.revisions ==> row in later.h.revisions;
  }

  /** Histories only grow; items are never removed and never change hands. */
  lemma {:induction false} RunGrows(s: State, steps: seq<Step>)
    ensures var t := Run(s, steps);
            && s.h.revisions <= t.h.revisions && s.h.transitions <= t.h.transitions
            && (forall id | id in s.h.items :: id in t.h.items && t.h.items[id].tenant == s.h.items[id].tenant)
    decreases |steps|
  {
    if steps != [] {
      RunGrows(Next(s, steps[0]), steps[1..]);
    }
  }

  /** A call that has numbered its revision, left alone, completes or loses the number. */
  lemma UndisturbedWrites(s: State, k: nat)
    requires Running(s, k) && s.requests[k].pc.HasNumber? && Visible(s.h, s.requests[k].caller, s.requests[k].item)
    ensures var r := s.requests[k];
            var t := Next(Next(Next(s, InsertRevision(k)), InsertTransition(k)), UpdateItem(k));
            && |t.requests| == |s.requests|
            && if VersionUsed(s.h.revisions, r.item, r.pc.next) then t.h == s.h && t.requests[k].failed
               else
                 && Running(t, k) && t.requests[k].pc.Finished?
                 && t.h == SetLifecycle(
                             AddTransition(AddRevision(s.h, r.caller, r.item, r.pc.next, r.pc.snap),
                                           r.caller, r.item, r.pc.snap.lifecycle, r.to), r.item, r.to)
  {
    var s1 := Next(s, InsertRevision(k));
    var s2 := Next(s1, InsertTransition(k));
    assert s1.requests[k].item == s.requests[k].item && s1.requests[k].caller == s.requests[k].caller;
    if !VersionUsed(s.h.revisions, s.requests[k].item, s.requests[k].pc.next) {
      assert s2.requests[k].pc == Moved(s.requests[k].pc.snap) && Running(s2, k);
    }
  }

  /** Left alone, a call's five steps are the atomic transition. */
  lemma UndisturbedCallIsAtomic(s: State, k: nat)
    requires k < |s.requests| && !s.requests[k].failed && s.requests[k].pc.Start?
    ensures var r := s.requests[k];
            var t := Run(s, [ReadItem(k), ReadLatest(k), InsertRevision(k), InsertTransition(k), UpdateItem(k)]);
            var (result, h) := TransitionLifecycle(s.h, r.caller, r.item, r.to);
            t.h == h && |t.requests| == |s.requests| &&
            (result.Ok? <==> t.requests[k].pc.Finished? && !t.requests[k].failed)
  {
    FiveSteps(s, ReadItem(k), ReadLatest(k), InsertRevision(k), InsertTransition(k), UpdateItem(k));
    var r := s.requests[k];
    var s1 := Next(s, ReadItem(k));
    var s2 := Next(s1, ReadLatest(k));
    if s1.requests[k].failed {
      assert s2 == s1 && !Running(s1, k);
    } else {
      assert s2.h == s.h && s2.requests[k].pc ==
          HasNumber(s.h.items[r.item], LatestVersion(s.h.revisions, r.caller.tenant, r.item) + 1);
      UndisturbedWrites(s2, k);
    }
  }

  /** The steps around a call's own: it arrives, it fails and stays so, and items are created and edited meanwhile. */
  lemma OtherStepsDo(s: State, c: Caller, id: Id, to: LifecycleStatus, k: nat, row: Item)
    ensures Next(s, Open(c, id, to)) == s.(requests := s.requests + [Request(c, id, to, Start, false)])
    ensures k < |s.requests| ==>
              Next(s, Fail(k)) == s.(requests := s.requests[k := s.requests[k].(failed := true)])
    ensures Next(s, CreateItem(id, row)).h.items == if id in s.h.items then s.h.items else s.h.items[id := row]
    ensures id in s.h.items && row.tenant == s.h.items[id].tenant ==>
              Next(s, EditItem(id, row)) == s.(h := s.h.(items := s.h.items[id := row]))
  {
  }

  lemma FiveSteps(s: State, a: Step, b: Step, c: Step, d: Step, e: Step)
    ensures Run(s, [a, b, c, d, e]) == Next(Next(Next(Next(Next(s, a), b), c), d), e)
  {
    var s1 := Next(s, a);
    var s2 := Next(s1, b);
    var s3 := Next(s2, c);
    var s4 := Next(s3, d);
    assert [a, b, c, d, e][1..] == [b, c, d, e] && [b, c, d, e][1..] == [c, d, e];
    assert [c, d, e][1..] == [d, e] && [d, e][1..] == [e] && [e][1..] == [];
    assert Run(s4, [e]) == Run(Next(s4, e), []);
    assert Run(s3, [d, e]) == Run(s4, [e]);
    assert Run(s2, [c, d, e]) == Run(s3, [d, e]);
    assert Run(s1, [b, c, d, e]) == Run(s2, [c, d, e]);
  }
}
