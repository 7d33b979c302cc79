/**
  Who history rows were written for: in every interleaving of `transitionLifecycle`
  calls, each row traces back to a call's own read of the item, which allowed it.
*/
module LifecycleRights {
  import opened Common
  import opened Policy
  import opened Lifecycle
  import opened LifecycleProtocol

  /** The state in which step `n` is taken. */
  function At(steps: seq<Step>, n: nat): State
    requires n <= |steps|
  {
    Run(Init, steps[..n])
  }

  lemma {:induction false} RunOneMore(s: State, steps: seq<Step>, a: Step)
    ensures Run(s, steps + [a]) == Next(Run(s, steps), a)
    decreases |steps|
  {
    if steps == [] {
      assert steps + [a] == [a] && [a][1..] == [];
      assert Run(s, [a]) == Run(Next(s, a), []);
    } else {
      assert (steps + [a])[1..] == steps[1..] + [a];
      RunOneMore(Next(s, steps[0]), steps[1..], a);
    }
  }

  lemma AtNext(steps: seq<Step>, n: nat)
    requires n < |steps|
    ensures At(steps, n + 1) == Next(At(steps, n), steps[n])
  {
    assert steps[..n + 1] == steps[..n] + [steps[n]];
    RunOneMore(Init, steps[..n], steps[n]);
  }

  /** The role may see an item of this confidentiality, in its own tenant. */
  predicate Permitted(c: Caller, item: Item) {
    && item.tenant == c.tenant && c.role != UnknownRole
    && (item.confidentiality == Restricted ==> c.role == Owner || c.role == SuperAdmin)
    && (item.confidentiality == Confidential ==> c.role != Researcher)
  }

  /** Before step `n`, call `k` read the item and found it like this. */
  ghost predicate ReadAs(steps: seq<Step>, n: nat, k: nat, id: Id, snap: Item)
    requires n <= |steps|
  {
    exists m | 0 <= m < n ::
      steps[m] == ReadItem(k) && id in At(steps, m).h.items && At(steps, m).h.items[id] == snap
  }

  predicate Carries(pc: Pc) {
    pc.HasItem? || pc.HasNumber? || pc.Revised? || pc.Moved?
  }

  ghost predicate CallSound(steps: seq<Step>, n: nat, k: nat, r: Request)
    requires n <= |steps|
  {
    Carries(r.pc) ==> Permitted(r.caller, r.pc.snap) && ReadAs(steps, n, k, r.item, r.pc.snap)
  }

  ghost predicate RevisionBy(steps: seq<Step>, n: nat, row: Revision, k: nat, r: Request)
    requires n <= |steps|
  {
    && r.caller.tenant == row.tenant && r.caller.user == row.changedBy && r.item == row.item
    && Permitted(r.caller, row.snapshot) && ReadAs(steps, n, k, row.item, row.snapshot)
  }

  ghost predicate TransitionBy(steps: seq<Step>, n: nat, s: State, row: Transition, k: nat, snap: Item)
    requires n <= |steps| && k < |s.requests|
  {
    var r := s.requests[k];
    && r.caller.tenant == row.tenant && r.caller.user == row.changedBy && r.item == row.item && r.to == row.to
    && row.from == snap.lifecycle
    && Permitted(r.caller, snap) && ReadAs(steps, n, k, row.item, snap)
  }

  ghost predicate Rights(steps: seq<Step>, n: nat)
    requires n <= |steps|
  {
    var s := At(steps, n);
    && (forall k | 0 <= k < |s.requests| :: CallSound(steps, n, k, s.requests[k]))
    && (forall i | 0 <= i < |s.h.revisions| :: RevisionTraced(steps, n, s, s.h.revisions[i]))
    && (forall i | 0 <= i < |s.h.transitions| :: TransitionTraced(steps, n, s, s.h.transitions[i]))
  }

  ghost predicate RevisionTraced(steps: seq<Step>, n: nat, s: State, row: Revision)
    requires n <= |steps|
  {
    exists k | 0 <= k < |s.requests| :: RevisionBy(steps, n, row, k, s.requests[k])
  }

  ghost predicate TransitionTraced(steps: seq<Step>, n: nat, s: State, row: Transition)
    requires n <= |steps|
  {
    exists k, snap :: 0 <= k < |s.requests| && TransitionBy(steps, n, s, row, k, snap)
  }

  /** Calls keep what they are about; what one carries is what it read. */
  lemma CallMoves(s: State, step: Step, k: nat)
    requires k < |s.requests|
    ensures var t := Next(s, step);
            && |s.requests| <= |t.requests| && k < |t.requests|
            && t.requests[k].caller == s.requests[k].caller && t.requests[k].item == s.requests[k].item
            && t.requests[k].to == s.requests[k].to
            && (Carries(t.requests[k].pc) ==>
                  || (Carries(s.requests[k].pc) && t.requests[k].pc.snap == s.requests[k].pc.snap)
                  || (step == ReadItem(k) && Visible(s.h, s.requests[k].caller, s.requests[k].item)
                      && MayView(s.requests[k].caller, s.h.items[s.requests[k].item])
                      && t.requests[k].pc.snap == s.h.items[s.requests[k].item]))
  {
  }

  lemma NewCallsStart(s: State, step: Step, k: nat)
    requires |s.requests| <= k < |Next(s, step).requests|
    ensures !Carries(Next(s, step).requests[k].pc)
  {
  }

  lemma HistoryMoves(s: State, step: Step)
    ensures var t := Next(s, step);
            && (t.h.revisions == s.h.revisions ||
                (step.InsertRevision? && step.k < |s.requests| && s.requests[step.k].pc.HasNumber? &&
                 var r := s.requests[step.k];
                 t.h.revisions == s.h.revisions +
                   [Revision(r.caller.tenant, r.item, r.pc.next, r.pc.snap, r.caller.user)]))
            && (t.h.transitions == s.h.transitions ||
                (step.InsertTransition? && step.k < |s.requests| && s.requests[step.k].pc.Revised? &&
                 var r := s.requests[step.k];
                 t.h.transitions == s.h.transitions +
                   [Transition(r.caller.tenant, r.item, r.pc.snap.lifecycle, r.to, r.caller.user)]))
  {
  }

  lemma ReadStays(steps: seq<Step>, n: nat, k: nat, id: Id, snap: Item)
    requires n < |steps|
    requires ReadAs(steps, n, k, id, snap) ||
             (steps[n] == ReadItem(k) && id in At(steps, n).h.items && At(steps, n).h.items[id] == snap)
    ensures ReadAs(steps, n + 1, k, id, snap)
  {
  }

  lemma CallStaysSound(steps: seq<Step>, n: nat, k: nat)
    requires n < |steps| && Rights(steps, n) && k < |At(steps, n + 1).requests|
    ensures CallSound(steps, n + 1, k, At(steps, n + 1).requests[k])
  {
    var s := At(steps, n);
    AtNext(steps, n);
    if k < |s.requests| {
      CallMoves(s, steps[n], k);
      assert CallSound(steps, n, k, s.requests[k]);
      var r := At(steps, n + 1).requests[k];
      if Carries(r.pc) {
        if !(Carries(s.requests[k].pc) && r.pc.snap == s.requests[k].pc.snap) {
          MayViewMeans(r.caller, r.pc.snap);
        }
        ReadStays(steps, n, k, r.item, r.pc.snap);
      }
    } else {
      NewCallsStart(s, steps[n], k);
    }
  }

  lemma RevisionsTraced(steps: seq<Step>, n: nat, i: nat)
    requires n < |steps| && Rights(steps, n) && i < |At(steps, n + 1).h.revisions|
    ensures RevisionTraced(steps, n + 1, At(steps, n + 1), At(steps, n + 1).h.revisions[i])
  {
    var s, t := At(steps, n), At(steps, n + 1);
    AtNext(steps, n);
    HistoryMoves(s, steps[n]);
    var k: nat;
    if i < |s.h.revisions| {
      assert RevisionTraced(steps, n, s, s.h.revisions[i]);
      k :| 0 <= k < |s.requests| && RevisionBy(steps, n, s.h.revisions[i], k, s.requests[k]);
      assert t.h.revisions[i] == s.h.revisions[i];
    } else {
      k := steps[n].k;
      assert CallSound(steps, n, k, s.requests[k]);
    }
    CallMoves(s, steps[n], k);
    ReadStays(steps, n, k, t.h.revisions[i].item, t.h.revisions[i].snapshot);
    assert RevisionBy(steps, n + 1, t.h.revisions[i], k, t.requests[k]);
  }

  lemma TransitionsTraced(steps: seq<Step>, n: nat, i: nat)
    requires n < |steps| && Rights(steps, n) && i < |At(steps, n + 1).h.transitions|
    ensures TransitionTraced(steps, n + 1, At(steps, n + 1), At(steps, n + 1).h.transitions[i])
  {
    var s, t := At(steps, n), At(steps, n + 1);
    AtNext(steps, n);
    HistoryMoves(s, steps[n]);
    var k: nat;
    var snap: Item;
    if i < |s.h.transitions| {
      assert TransitionTraced(steps, n, s, s.h.transitions[i]);
      k, snap :| 0 <= k < |s.requests| && TransitionBy(steps, n, s, s.h.transitions[i], k, snap);
      assert t.h.transitions[i] == s.h.transitions[i];
    } else {
      k := steps[n].k;
      snap := s.requests[k].pc.snap;
      assert CallSound(steps, n, k, s.requests[k]);
    }
    CallMoves(s, steps[n], k);
    ReadStays(steps, n, k, t.h.transitions[i].item, snap);
    assert TransitionBy(steps, n + 1, t, t.h.transitions[i], k, snap);
  }

  lemma {:induction false} RunRights(steps: seq<Step>, n: nat)
    requires n <= |steps|
    ensures Rights(steps, n)
  {
    if n > 0 {
      RunRights(steps, n - 1);
      var s := At(steps, n);
      forall k | 0 <= k < |s.requests| ensures CallSound(steps, n, k, s.requests[k]) {
        CallStaysSound(steps, n - 1, k);
      }
      forall i | 0 <= i < |s.h.revisions|
        ensures RevisionTraced(steps, n, s, s.h.revisions[i])
      {
        RevisionsTraced(steps, n - 1, i);
      }
      forall i | 0 <= i < |s.h.transitions|
        ensures TransitionTraced(steps, n, s, s.h.transitions[i])
      {
        TransitionsTraced(steps, n - 1, i);
      }
    }
  }

  /**
    In every interleaving: every revision holds the item as one call read it at an
    earlier step, and was written in that call's name, for a caller of the item's
    tenant whose role may see an item of the confidentiality it was read with.
  */
  lemma RevisionsPermitted(steps: seq<Step>, i: nat)
    requires i < |Run(Init, steps).h.revisions|
    ensures var s := Run(Init, steps);
            var row := s.h.revisions[i];
            exists k, m | 0 <= k < |s.requests| && 0 <= m < |steps| ::
              && steps[m] == ReadItem(k)
              && row.item in At(steps, m).h.items && At(steps, m).h.items[row.item] == row.snapshot
              && var c := s.requests[k].caller;
                 && c.tenant == row.tenant == row.snapshot.tenant && c.user == row.changedBy && c.role != UnknownRole
                 && (row.snapshot.confidentiality == Restricted ==> c.role == Owner || c.role == SuperAdmin)
                 && (row.snapshot.confidentiality == Confidential ==> c.role != Researcher)
  {
    assert steps[..|steps|] == steps;
    RunRights(steps, |steps|);
    var s := At(steps, |steps|);
    assert s == Run(Init, steps);
    var row := s.h.revisions[i];
    assert RevisionTraced(steps, |steps|, s, row);
    var k :| 0 <= k < |s.requests| && RevisionBy(steps, |steps|, row, k, s.requests[k]);
    var m :| 0 <= m < |steps| && steps[m] == ReadItem(k) && row.item in At(steps, m).h.items
             && At(steps, m).h.items[row.item] == row.snapshot;
    assert steps[m] == ReadItem(k);
  }

  /** And every transition leads from the status so read to the one that call asked for. */
  lemma TransitionsPermitted(steps: seq<Step>, i: nat)
    requires i < |Run(Init, steps).h.transitions|
    ensures var s := Run(Init, steps);
            var row := s.h.transitions[i];
            exists k, m | 0 <= k < |s.requests| && 0 <= m < |steps| ::
              && steps[m] == ReadItem(k) && row.item in At(steps, m).h.items
              && var read, c := At(steps, m).h.items[row.item], s.requests[k].caller;
                 && row.from == read.lifecycle && row.to == s.requests[k].to
                 && c.tenant == row.tenant == read.tenant && c.user == row.changedBy && c.role != UnknownRole
                 && (read.confidentiality == Restricted ==> c.role == Owner || c.role == SuperAdmin)
                 && (read.confidentiality == Confidential ==> c.role != Researcher)
  {
    assert steps[..|steps|] == steps;
    RunRights(steps, |steps|);
    var s := At(steps, |steps|);
    assert s == Run(Init, steps);
    var row := s.h.transitions[i];
    assert TransitionTraced(steps, |steps|, s, row);
    var k, snap :| 0 <= k < |s.requests| && TransitionBy(steps, |steps|, s, row, k, snap);
    var m :| 0 <= m < |steps| && steps[m] == ReadItem(k) && row.item in At(steps, m).h.items
             && At(steps, m).h.items[row.item] == snap;
    assert steps[m] == ReadItem(k);
  }
}
