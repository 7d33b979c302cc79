/**
  What the steps of a whole run say about a token or a session: which earlier steps,
  of the same login, it rests on.
*/
module AuthRuns {
  import opened Common
  import opened Policy
  import opened Auth
  import opened Middleware
  import opened AuthProtocol

  /** The state in which step `n` is taken. */
  function At(steps: seq<Step>, n: nat): State
    requires n <= |steps|
  {
    Run(Init, steps[..n])
  }

  lemma {:induction false} RunOneMore(s: State, steps: seq<Step>, a: Step)
    ensures Run(s, steps + [a]) == Next(Run(s, steps), a)
    decreases |steps|
  {
    if steps == [] {
      assert steps + [a] == [a] && [a][1..] == [];
      assert Run(s, [a]) == Run(Next(s, a), []);
    } else {
      assert (steps + [a])[1..] == steps[1..] + [a];
      RunOneMore(Next(s, steps[0]), steps[1..], a);
    }
  }

  lemma AtNext(steps: seq<Step>, n: nat)
    requires n < |steps|
    ensures At(steps, n + 1) == Next(At(steps, n), steps[n])
  {
    assert steps[..n + 1] == steps[..n] + [steps[n]];
    RunOneMore(Init, steps[..n], steps[n]);
  }

  // --------------------------------------------- what a login may rest its token on

  /** The three grounds on which a login is let go on to a session. */
  datatype Basis = Unenforced | Device | Code

  function BasisOf(g: Ground): Basis {
    match g
    case NotEnforced(_) => Unenforced
    case Trusted(_) => Device
    case CodeEntered(_) => Code
  }

  /** The step accepts a code for this user, on a session of this id. */
  predicate AcceptsCode(s: State, step: Step, user: Id, sid: Id) {
    && step.VerifyCode? && step.codeOk && step.route.verify && Gate(s.v, step.route, Some(step.bearer), s.now).As?
    && step.bearer.sub in s.v.users && s.v.users[step.bearer.sub].secret.Some? && step.sid !in s.v.usedSids
    && step.bearer.sub == user && step.sid == sid
  }

  /** The step is login `k`'s own read of the tenant, and finds the role of `u` not enforced. */
  predicate FindsUnenforced(s: State, step: Step, k: nat) {
    && step == ReadEnforcement(k) && k < |s.flights| && s.flights[k].Matched?
    && s.flights[k].u.tenant in s.v.enforced && s.flights[k].u.role !in s.v.enforced[s.flights[k].u.tenant]
  }

  /** The step is login `k`'s own device check, and finds a live trusted session. */
  predicate TrustsDevice(s: State, step: Step, k: nat) {
    && step == CheckDevice(k) && k < |s.flights| && s.flights[k].NeedsDevice?
    && TrustedSession(s.v, s.flights[k].device, s.flights[k].user, s.now).Some?
  }

  /** The step lays this basis for flight `k`. */
  predicate Lays(s: State, step: Step, k: nat, basis: Basis) {
    match basis
    case Unenforced => FindsUnenforced(s, step, k)
    case Device => TrustsDevice(s, step, k)
    case Code => step.VerifyCode? && k == |s.flights| && AcceptsCode(s, step, step.bearer.sub, step.sid)
  }

  predicate LaysNone(s: State, step: Step, k: nat) {
    !Lays(s, step, k, Unenforced) && !Lays(s, step, k, Device) && !Lays(s, step, k, Code)
  }

  /** And for this user, as read, and this session. */
  predicate LaysFor(s: State, step: Step, k: nat, basis: Basis, user: Id, u: User, sid: Id) {
    && Lays(s, step, k, basis)
    && match basis
       case Unenforced => s.flights[k].user == user && s.flights[k].u == u
       case Device =>
         && s.flights[k].user == user && s.flights[k].u == u
         && TrustedSession(s.v, s.flights[k].device, user, s.now) == Some(sid)
       case Code => step.bearer.sub == user && s.v.users[user] == u && step.sid == sid
  }

  ghost predicate LaidBy(steps: seq<Step>, n: nat, k: nat, basis: Basis)
    requires n <= |steps|
  {
    exists m | 0 <= m < n :: Lays(At(steps, m), steps[m], k, basis)
  }

  ghost predicate LaidFor(steps: seq<Step>, n: nat, k: nat, basis: Basis, user: Id, u: User, sid: Id)
    requires n <= |steps|
  {
    exists m | 0 <= m < n :: LaysFor(At(steps, m), steps[m], k, basis, user, u, sid)
  }

  /** The step matches flight `k`'s password with this user. */
  predicate MatchesUser(s: State, step: Step, k: nat, user: Id, u: User) {
    && step.MatchPassword? && step.k == k && k < |s.flights| && s.flights[k].Submitted?
    && FirstMatch(s.v.users, step.order, s.flights[k].email, s.flights[k].password) == Some(user)
    && user in s.v.users && s.v.users[user] == u
  }

  ghost predicate MatchedBefore(steps: seq<Step>, n: nat, k: nat, user: Id, u: User)
    requires n <= |steps|
  {
    exists m | 0 <= m < n :: MatchesUser(At(steps, m), steps[m], k, user, u)
  }

  // --------------------------------------------------------------- one step's effect

  /** A flight moves on without a basis being laid. */
  predicate Progress(s: State, step: Step, f: Flight, g: Flight, k: nat) {
    || (f.Submitted? && g.Matched? && MatchesUser(s, step, k, g.user, g.u))
    || (f.Matched? && g.NeedsDevice? && g.user == f.user && g.u == f.u)
    || (f.Free? && g.Granted? && g.ground.NotEnforced? && g.user == f.user && g.u == f.u)
    || g.Ended?
  }

  lemma StepEffect(s: State, step: Step, k: nat)
    ensures var t := Next(s, step);
            && |s.flights| <= |t.flights| <= |s.flights| + 1
            && (Lays(s, step, k, Unenforced) ==>
                  k < |s.flights| && t.flights[k] == Free(s.flights[k].user, s.flights[k].u, s.now))
            && (Lays(s, step, k, Device) ==>
                  var f := s.flights[k];
                  var sid := TrustedSession(s.v, f.device, f.user, s.now).value;
                  k < |s.flights| && t.flights[k] == Granted(f.user, f.u, sid, Trusted(s.now)))
            && (Lays(s, step, k, Code) ==>
                  var user := step.bearer.sub;
                  k < |t.flights| && t.flights[k] == Granted(user, s.v.users[user], step.sid, CodeEntered(s.now)))
            && (k < |t.flights| && LaysNone(s, step, k) ==>
                  if k == |s.flights| then t.flights[k].Submitted? || t.flights[k].Resetting?
                  else t.flights[k] == s.flights[k] || Progress(s, step, s.flights[k], t.flights[k], k))
  {
  }

  // ------------------------------------------------------ every flight is traced

  ghost predicate OnlyLaid(steps: seq<Step>, n: nat, k: nat, basis: Basis)
    requires n <= |steps|
  {
    && (basis != Unenforced ==> !LaidBy(steps, n, k, Unenforced))
    && (basis != Device ==> !LaidBy(steps, n, k, Device))
    && (basis != Code ==> !LaidBy(steps, n, k, Code))
  }

  ghost predicate NoneLaid(steps: seq<Step>, n: nat, k: nat)
    requires n <= |steps|
  {
    !LaidBy(steps, n, k, Unenforced) && !LaidBy(steps, n, k, Device) && !LaidBy(steps, n, k, Code)
  }

  ghost predicate Traced(steps: seq<Step>, n: nat, k: nat, f: Flight)
    requires n <= |steps|
  {
    match f
    case Submitted(_, _, _) => NoneLaid(steps, n, k)
    case Matched(user, u, _) => NoneLaid(steps, n, k) && MatchedBefore(steps, n, k, user, u)
    case NeedsDevice(user, u, _) => NoneLaid(steps, n, k) && MatchedBefore(steps, n, k, user, u)
    case Free(user, u, _) =>
      && OnlyLaid(steps, n, k, Unenforced) && MatchedBefore(steps, n, k, user, u)
      && LaidFor(steps, n, k, Unenforced, user, u, "")
    case Granted(user, u, sid, g) =>
      OnlyLaid(steps, n, k, BasisOf(g)) && LaidFor(steps, n, k, BasisOf(g), user, u, if g.NotEnforced? then "" else sid)
    case _ => true
  }

  ghost predicate AllTraced(steps: seq<Step>, n: nat)
    requires n <= |steps|
  {
    && (forall k | 0 <= k < |At(steps, n).flights| :: Traced(steps, n, k, At(steps, n).flights[k]))
    && (forall k: nat | k >= |At(steps, n).flights| :: NoneLaid(steps, n, k))
  }

  lemma LaidNext(steps: seq<Step>, n: nat, k: nat, b: Basis)
    requires n < |steps|
    ensures LaidBy(steps, n + 1, k, b) <==> LaidBy(steps, n, k, b) || Lays(At(steps, n), steps[n], k, b)
  {
  }

  lemma NoneNext(steps: seq<Step>, n: nat, k: nat)
    requires n < |steps| && LaysNone(At(steps, n), steps[n], k)
    ensures forall b :: LaidBy(steps, n + 1, k, b) <==> LaidBy(steps, n, k, b)
  {
    forall b ensures LaidBy(steps, n + 1, k, b) <==> LaidBy(steps, n, k, b) {
      LaidNext(steps, n, k, b);
      match b {
        case Unenforced =>
        case Device =>
        case Code =>
      }
    }
  }

  lemma LaidForStays(steps: seq<Step>, n: nat, k: nat, b: Basis, user: Id, u: User, sid: Id)
    requires n < |steps|
    requires LaidFor(steps, n, k, b, user, u, sid) || LaysFor(At(steps, n), steps[n], k, b, user, u, sid)
    ensures LaidFor(steps, n + 1, k, b, user, u, sid)
  {
  }

  lemma MatchedStays(steps: seq<Step>, n: nat, k: nat, user: Id, u: User)
    requires n < |steps|
    requires MatchedBefore(steps, n, k, user, u) || MatchesUser(At(steps, n), steps[n], k, user, u)
    ensures MatchedBefore(steps, n + 1, k, user, u)
  {
  }

  lemma AfterUnenforced(steps: seq<Step>, n: nat, k: nat)
    requires n < |steps| && AllTraced(steps, n) && Lays(At(steps, n), steps[n], k, Unenforced)
    ensures k < |At(steps, n + 1).flights| && Traced(steps, n + 1, k, At(steps, n + 1).flights[k])
  {
    var s := At(steps, n);
    AtNext(steps, n);
    StepEffect(s, steps[n], k);
    assert Traced(steps, n, k, s.flights[k]);
    LaidNext(steps, n, k, Device);
    LaidNext(steps, n, k, Code);
    LaidForStays(steps, n, k, Unenforced, s.flights[k].user, s.flights[k].u, "");
    MatchedStays(steps, n, k, s.flights[k].user, s.flights[k].u);
  }

  lemma AfterDevice(steps: seq<Step>, n: nat, k: nat)
    requires n < |steps| && AllTraced(steps, n) && Lays(At(steps, n), steps[n], k, Device)
    ensures k < |At(steps, n + 1).flights| && Traced(steps, n + 1, k, At(steps, n + 1).flights[k])
  {
    var s := At(steps, n);
    AtNext(steps, n);
    StepEffect(s, steps[n], k);
    assert Traced(steps, n, k, s.flights[k]);
    var sid := TrustedSession(s.v, s.flights[k].device, s.flights[k].user, s.now).value;
    LaidNext(steps, n, k, Unenforced);
    LaidNext(steps, n, k, Code);
    LaidForStays(steps, n, k, Device, s.flights[k].user, s.flights[k].u, sid);
  }

  lemma AfterCode(steps: seq<Step>, n: nat, k: nat)
    requires n < |steps| && AllTraced(steps, n) && Lays(At(steps, n), steps[n], k, Code)
    ensures k < |At(steps, n + 1).flights| && Traced(steps, n + 1, k, At(steps, n + 1).flights[k])
  {
    var s := At(steps, n);
    AtNext(steps, n);
    StepEffect(s, steps[n], k);
    var user := steps[n].bearer.sub;
    assert NoneLaid(steps, n, k);
    LaidNext(steps, n, k, Unenforced);
    LaidNext(steps, n, k, Device);
    LaidForStays(steps, n, k, Code, user, s.v.users[user], steps[n].sid);
  }

  lemma TracedOnward(steps: seq<Step>, n: nat, k: nat, f: Flight, g: Flight)
    requires n < |steps| && Traced(steps, n, k, f) && LaysNone(At(steps, n), steps[n], k)
    requires g == f || Progress(At(steps, n), steps[n], f, g, k)
    ensures Traced(steps, n + 1, k, g)
  {
    NoneNext(steps, n, k);
    match g {
      case Matched(user, u, _) => MatchedStays(steps, n, k, user, u);
      case NeedsDevice(user, u, _) => MatchedStays(steps, n, k, user, u);
      case Free(user, u, _) =>
        MatchedStays(steps, n, k, user, u);
        LaidForStays(steps, n, k, Unenforced, user, u, "");
      case Granted(user, u, sid, ground) =>
        LaidForStays(steps, n, k, BasisOf(ground), user, u, if ground.NotEnforced? then "" else sid);
      case _ =>
    }
  }

  lemma TracedNext(steps: seq<Step>, n: nat, k: nat)
    requires n < |steps| && AllTraced(steps, n) && k < |At(steps, n + 1).flights|
    ensures Traced(steps, n + 1, k, At(steps, n + 1).flights[k])
  {
    var s := At(steps, n);
    if Lays(s, steps[n], k, Unenforced) {
      AfterUnenforced(steps, n, k);
    } else if Lays(s, steps[n], k, Device) {
      AfterDevice(steps, n, k);
    } else if Lays(s, steps[n], k, Code) {
      AfterCode(steps, n, k);
    } else {
      AtNext(steps, n);
      StepEffect(s, steps[n], k);
      if k < |s.flights| {
        TracedOnward(steps, n, k, s.flights[k], At(steps, n + 1).flights[k]);
      } else {
        assert NoneLaid(steps, n, k);
        NoneNext(steps, n, k);
      }
    }
  }

  lemma NothingYet(steps: seq<Step>, n: nat, k: nat)
    requires n < |steps| && AllTraced(steps, n) && k >= |At(steps, n + 1).flights|
    ensures NoneLaid(steps, n + 1, k)
  {
    AtNext(steps, n);
    StepEffect(At(steps, n), steps[n], k);
    assert NoneLaid(steps, n, k);
    NoneNext(steps, n, k);
  }

  lemma {:induction false} RunTraced(steps: seq<Step>, n: nat)
    requires n <= |steps|
    ensures AllTraced(steps, n)
  {
    if n > 0 {
      RunTraced(steps, n - 1);
      forall k | 0 <= k < |At(steps, n).flights| ensures Traced(steps, n, k, At(steps, n).flights[k]) {
        TracedNext(steps, n - 1, k);
      }
      forall k: nat | k >= |At(steps, n).flights| ensures NoneLaid(steps, n, k) {
        NothingYet(steps, n - 1, k);
      }
    }
  }
}
