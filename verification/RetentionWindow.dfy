/**
  When an item under a DELETE policy is really erased: a bound from both sides on
  its first scrub, over any run in which the nightly passes keep their schedule.
*/
module RetentionWindow {
  import opened Common
  import opened Lifecycle
  import opened Retention
  import opened ArchiveService
  import opened ArchiveRuns

  /** The event erases the item's content. */
  predicate Scrubs(item: Item, id: Id, e: Event) {
    e.Pass? && id !in e.plan.env.scrubFailed &&
    ScrubDue(Expire(item, id, e.tenant, e.plan.env), e.tenant, e.plan.env.graceAt)
  }

  /** The cutoff instant of the first event of the run that erases the item. */
  function FirstScrub(w: World, events: seq<Event>, id: Id): Option<int>
    decreases |events|
  {
    if events == [] then None
    else if id in w.h.items && Scrubs(w.h.items[id], id, events[0]) then Some(events[0].plan.env.graceAt)
    else FirstScrub(Apply(w, events[0]), events[1..], id)
  }

  /**
    From the last pass on (query at `lastQuery`, cutoff at `lastCutoff`), tenant `t`
    gets a pass at most `period` after the one before, no pass takes longer than
    `duration`, none fails for the item, and passes go on until `horizon`.
    Everything else may happen in between.
  */
  ghost predicate Scheduled(events: seq<Event>, t: Id, id: Id, lastQuery: int, lastCutoff: int,
                            period: int, duration: int, horizon: int)
    decreases |events|
  {
    if events == [] then lastCutoff >= horizon
    else if events[0].Pass? && events[0].tenant == t then
      var env := events[0].plan.env;
      && Monotone(env)
      && env.queryAt <= lastQuery + period && env.graceAt <= env.queryAt + duration
      && id !in env.actFailed && id !in env.scrubFailed
      && Scheduled(events[1..], t, id, env.queryAt, env.graceAt, period, duration, horizon)
    else Scheduled(events[1..], t, id, lastQuery, lastCutoff, period, duration, horizon)
  }

  /** Between passes nothing touches an item's expiry, policy or soft-delete mark. */
  lemma OtherEventsKeep(w: World, e: Event, id: Id)
    requires id in w.h.items && !(e.Pass? && e.tenant == w.h.items[id].tenant)
    ensures id in Apply(w, e).h.items
    ensures var a, b := w.h.items[id], Apply(w, e).h.items[id];
            a.tenant == b.tenant && a.expiry == b.expiry && a.policy == b.policy && a.deletedAt == b.deletedAt
    ensures !Scrubs(w.h.items[id], id, e)
  {
    match e {
      case Advance(c, i, to) => TransitionShape(w.h, c, i, to);
      case Pass(t, plan) => EnforceItem(w, t, plan, id);
      case _ =>
    }
  }

  lemma {:induction false} FirstScrubWindow(w: World, events: seq<Event>, id: Id, e: int,
                                       lastQuery: int, lastCutoff: int, period: int, duration: int)
    requires id in w.h.items && w.h.items[id].expiry == Some(e) && w.h.items[id].deletedAt.None?
    requires ActionOf(w.h.items[id]) == DeleteIt
    requires 0 < period && 0 <= duration < GRACE
    requires lastQuery < e && lastQuery <= lastCutoff <= lastQuery + duration
    requires Scheduled(events, w.h.items[id].tenant, id, lastQuery, lastCutoff, period, duration,
                       e + GRACE + 2 * period + 2 * duration)
    ensures var first := FirstScrub(w, events, id);
            first.Some? && e + GRACE <= first.value < e + GRACE + 2 * period + 2 * duration
    decreases |events|
  {
    if events != [] {
      var item, next, ev := w.h.items[id], Apply(w, events[0]), events[0];
      if ev.Pass? && ev.tenant == item.tenant {
        var env := ev.plan.env;
        EnforceItem(w, item.tenant, ev.plan, id);
        assert env.queryAt <= StampOf(env, id) <= env.graceAt;
        if env.queryAt < e {
          FirstScrubWindow(next, events[1..], id, e, env.queryAt, env.graceAt, period, duration);
        } else {
          ScrubAfterGrace(next, events[1..], id, e, StampOf(env, id), env.queryAt, env.graceAt, period, duration);
        }
      } else {
        OtherEventsKeep(w, ev, id);
        FirstScrubWindow(next, events[1..], id, e, lastQuery, lastCutoff, period, duration);
      }
    }
  }

  lemma {:induction false} ScrubAfterGrace(w: World, events: seq<Event>, id: Id, e: int, d: int,
                                           lastQuery: int, lastCutoff: int, period: int, duration: int)
    requires id in w.h.items && w.h.items[id].deletedAt == Some(d)
    requires 0 < period && 0 <= duration < GRACE
    requires e <= d < e + period + duration
    requires lastQuery <= lastCutoff <= lastQuery + duration && lastCutoff < d + GRACE
    requires Scheduled(events, w.h.items[id].tenant, id, lastQuery, lastCutoff, period, duration,
                       e + GRACE + 2 * period + 2 * duration)
    ensures var first := FirstScrub(w, events, id);
            first.Some? && e + GRACE <= first.value < e + GRACE + 2 * period + 2 * duration
    decreases |events|
  {
    if events != [] {
      var item, next, ev := w.h.items[id], Apply(w, events[0]), events[0];
      if ev.Pass? && ev.tenant == item.tenant {
        var env := ev.plan.env;
        EnforceItem(w, item.tenant, ev.plan, id);
        if env.graceAt < d + GRACE {
          ScrubAfterGrace(next, events[1..], id, e, d, env.queryAt, env.graceAt, period, duration);
        }
      } else {
        OtherEventsKeep(w, ev, id);
        ScrubAfterGrace(next, events[1..], id, e, d, lastQuery, lastCutoff, period, duration);
      }
    }
  }

  lemma {:induction false} NoFirstScrub(w: World, events: seq<Event>, id: Id)
    requires id in w.h.items && ActionOf(w.h.items[id]) != DeleteIt && w.h.items[id].deletedAt.None?
    ensures FirstScrub(w, events, id).None?
    decreases |events|
  {
    if events != [] {
      var item, ev := w.h.items[id], events[0];
      if ev.Pass? && ev.tenant == item.tenant {
        EnforceItem(w, item.tenant, ev.plan, id);
      } else {
        OtherEventsKeep(w, ev, id);
      }
      NoFirstScrub(Apply(w, ev), events[1..], id);
    }
  }

  // ----------------------------------------------- what becomes of the content

  /** Title and metadata of the item after the first `j` events. */
  function ContentAfter(w: World, events: seq<Event>, j: nat, id: Id): Option<(string, Metadata)>
    requires j <= |events|
  {
    var items := Run(w, events[..j]).h.items;
    if id in items then Some((items[id].title, items[id].metadata)) else None
  }

  lemma ContentLater(w: World, events: seq<Event>, j: nat, id: Id)
    requires j < |events|
    ensures ContentAfter(w, events, j + 1, id) == ContentAfter(Apply(w, events[0]), events[1..], j, id)
  {
    assert events[..j + 1] == [events[0]] + events[1..][..j];
  }

  /** No pass among the first `j` events changed the content. */
  ghost predicate Untouched(w: World, events: seq<Event>, j: nat, id: Id)
    requires j <= |events|
  {
    forall i | 0 <= i < j && events[i].Pass? :: ContentAfter(w, events, i + 1, id) == ContentAfter(w, events, i, id)
  }

  /** Event `j` is a pass after which the content is gone, and no pass before it changed any. */
  ghost predicate FirstErasedBy(w: World, events: seq<Event>, j: nat, id: Id)
    requires j < |events|
  {
    events[j].Pass? && ContentAfter(w, events, j + 1, id) == Some(("[deleted]", map[])) && Untouched(w, events, j, id)
  }

  /** A pass that does not scrub the item leaves its content. */
  lemma PassSpares(w: World, e: Event, id: Id)
    requires id in w.h.items && e.Pass? && !Scrubs(w.h.items[id], id, e)
    ensures var a, b := w.h.items[id], Apply(w, e).h.items;
            id in b && b[id].title == a.title && b[id].metadata == a.metadata
  {
    EnforceItem(w, e.tenant, e.plan, id);
  }

  lemma ScrubErases(w: World, e: Event, id: Id)
    requires id in w.h.items && Scrubs(w.h.items[id], id, e)
    ensures var b := Apply(w, e).h.items;
            id in b && b[id].title == "[deleted]" && b[id].metadata == map[]
  {
    EnforceItem(w, e.tenant, e.plan, id);
  }

  lemma UntouchedFrom(w: World, events: seq<Event>, j: nat, id: Id)
    requires 0 < j <= |events|
    requires events[0].Pass? ==> ContentAfter(w, events, 1, id) == ContentAfter(w, events, 0, id)
    requires Untouched(Apply(w, events[0]), events[1..], j - 1, id)
    ensures Untouched(w, events, j, id)
  {
    forall i | 0 <= i < j && events[i].Pass?
      ensures ContentAfter(w, events, i + 1, id) == ContentAfter(w, events, i, id)
    {
      if i > 0 {
        ContentLater(w, events, i, id);
        ContentLater(w, events, i - 1, id);
        assert events[1..][i - 1] == events[i];
      }
    }
  }

  lemma FirstStep(w: World, events: seq<Event>, id: Id)
    requires events != []
    ensures Run(w, events[..0]) == w && Run(w, events[..1]) == Apply(w, events[0])
  {
    assert events[..1] == [events[0]] && [events[0]][1..] == [];
    assert Run(w, [events[0]]) == Run(Apply(w, events[0]), []);
  }

  lemma {:induction false} ScrubIsErasure(w: World, events: seq<Event>, id: Id)
    requires id in w.h.items && FirstScrub(w, events, id).Some?
    ensures exists j | 0 <= j < |events| ::
              FirstErasedBy(w, events, j, id) && events[j].plan.env.graceAt == FirstScrub(w, events, id).value
    decreases |events|
  {
    FirstStep(w, events, id);
    if Scrubs(w.h.items[id], id, events[0]) {
      ScrubErases(w, events[0], id);
      assert FirstErasedBy(w, events, 0, id);
    } else {
      var next, rest := Apply(w, events[0]), events[1..];
      RunKeepsItem(w, events[0], id);
      ScrubIsErasure(next, rest, id);
      var j :| 0 <= j < |rest| && FirstErasedBy(next, rest, j, id)
               && rest[j].plan.env.graceAt == FirstScrub(next, rest, id).value;
      if events[0].Pass? {
        PassSpares(w, events[0], id);
      }
      ContentLater(w, events, j + 1, id);
      UntouchedFrom(w, events, j + 1, id);
      assert FirstErasedBy(w, events, j + 1, id);
    }
  }

  lemma RunKeepsItem(w: World, e: Event, id: Id)
    requires id in w.h.items
    ensures id in Apply(w, e).h.items
  {
    ApplyEvolves(w, e);
  }

  lemma {:induction false} NoScrubUntouched(w: World, events: seq<Event>, id: Id)
    requires id in w.h.items && FirstScrub(w, events, id).None?
    ensures Untouched(w, events, |events|, id)
    decreases |events|
  {
    if events != [] {
      FirstStep(w, events, id);
      RunKeepsItem(w, events[0], id);
      NoScrubUntouched(Apply(w, events[0]), events[1..], id);
      if events[0].Pass? {
        PassSpares(w, events[0], id);
      }
      UntouchedFrom(w, events, |events|, id);
    }
  }

  /**
    An item expiring at `e` under a DELETE policy loses its title and metadata in a
    pass whose cutoff is no earlier than e + 7 days and before e + 7 days + 2 periods
    (plus twice the length of a pass), and no earlier pass touches them.
  */
  lemma ScrubWindow(w: World, events: seq<Event>, id: Id, e: int,
                    lastQuery: int, lastCutoff: int, period: int, duration: int)
    requires id in w.h.items && w.h.items[id].expiry == Some(e) && w.h.items[id].deletedAt.None?
    requires w.h.items[id].policy.Some? && w.h.items[id].policy.value.action == DeleteIt
    requires 0 < period && 0 <= duration < 7 * 86_400_000
    requires lastQuery < e && lastQuery <= lastCutoff <= lastQuery + duration
    requires Scheduled(events, w.h.items[id].tenant, id, lastQuery, lastCutoff, period, duration,
                       e + 7 * 86_400_000 + 2 * period + 2 * duration)
    ensures exists j | 0 <= j < |events| ::
              && FirstErasedBy(w, events, j, id)
              && e + 7 * 86_400_000 <= events[j].plan.env.graceAt < e + 7 * 86_400_000 + 2 * period + 2 * duration
  {
    FirstScrubWindow(w, events, id, e, lastQuery, lastCutoff, period, duration);
    ScrubIsErasure(w, events, id);
  }

  /** The content of an item under any other action, not soft-deleted, is changed by no pass of any run. */
  lemma NeverScrubbed(w: World, events: seq<Event>, id: Id)
    requires id in w.h.items && w.h.items[id].deletedAt.None?
    requires w.h.items[id].policy.Some? ==> w.h.items[id].policy.value.action != DeleteIt
    ensures forall j | 0 <= j < |events| && events[j].Pass? ::
              ContentAfter(w, events, j + 1, id) == ContentAfter(w, events, j, id)
  {
    NoFirstScrub(w, events, id);
    NoScrubUntouched(w, events, id);
  }
}
