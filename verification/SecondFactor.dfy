/**
  What the second factor guarantees over whole runs: which tokens rest on one, when
  enforcement comes too late, and when a code shows an earlier enrolled secret.
*/
module SecondFactor {
  import opened Common
  import opened Policy
  import opened Auth
  import opened Middleware
  import opened AuthProtocol
  import opened AuthRuns

  /** The step signs a staff access token for flight `step.k`. */
  predicate Issues(s: State, step: Step) {
    step.SignAccess? && step.k < |s.flights| && s.flights[step.k].Granted?
  }

  // --------------------------------------------------------- codes on the record

  lemma CodeRecordedNow(s: State, step: Step, user: Id, sid: Id, at: int)
    requires HasCode(Next(s, step).log, user, sid, at)
    ensures HasCode(s.log, user, sid, at) || (AcceptsCode(s, step, user, sid) && at == s.now)
  {
  }

  lemma {:induction false} CodeTraced(steps: seq<Step>, n: nat, user: Id, sid: Id, at: int)
    requires n <= |steps| && HasCode(At(steps, n).log, user, sid, at)
    ensures exists c | 0 <= c < n :: AcceptsCode(At(steps, c), steps[c], user, sid) && At(steps, c).now == at
  {
    if n > 0 {
      AtNext(steps, n - 1);
      CodeRecordedNow(At(steps, n - 1), steps[n - 1], user, sid, at);
      if HasCode(At(steps, n - 1).log, user, sid, at) {
        CodeTraced(steps, n - 1, user, sid, at);
      }
    }
  }

  /** Step `m` is login `k`'s device check, on a live session for which a code was accepted at most 30 days before. */
  ghost predicate DeviceBacked(steps: seq<Step>, m: nat, k: nat, user: Id, u: User, sid: Id)
    requires m < |steps|
  {
    && LaysFor(At(steps, m), steps[m], k, Device, user, u, sid)
    && exists c | 0 <= c < m ::
         && AcceptsCode(At(steps, c), steps[c], user, sid)
         && At(steps, c).now <= At(steps, m).now <= At(steps, c).now + 30 * 24 * 60 * 60 * 1000
  }

  lemma DeviceIsBacked(steps: seq<Step>, m: nat, k: nat, user: Id, u: User, sid: Id)
    requires m < |steps| && LaysFor(At(steps, m), steps[m], k, Device, user, u, sid)
    ensures DeviceBacked(steps, m, k, user, u, sid)
  {
    InitSound();
    RunKeeps(Init, steps[..m]);
    var s := At(steps, m);
    TrustIsBacked(s, s.flights[k].device, user);
    var t :| HasCode(s.log, user, sid, t) && t <= s.now <= t + DEVICE_TRUST;
    CodeTraced(steps, m, user, sid, t);
  }

  // --------------------------------------------------------------- access tokens

  /** What the token signed at step `n` rests on, among the earlier steps of its own login. */
  ghost predicate RestsOn(steps: seq<Step>, n: nat, k: nat, user: Id, u: User, sid: Id)
    requires n <= |steps|
  {
    || (exists m | 0 <= m < n :: LaysFor(At(steps, m), steps[m], k, Unenforced, user, u, ""))
    || (exists m | 0 <= m < n :: LaysFor(At(steps, m), steps[m], k, Code, user, u, sid))
    || (exists m | 0 <= m < n :: DeviceBacked(steps, m, k, user, u, sid))
  }

  /**
    Every staff token signed in any run rests on an earlier step of its own login:
    that login's read of the tenant, which did not enforce the role; or the
    acceptance of a code for this user and session; or its device check, which found
    the session live and a code accepted for it at most 30 days before.
  */
  lemma AccessRestsOnLogin(steps: seq<Step>, n: nat)
    requires n < |steps| && Issues(At(steps, n), steps[n])
    ensures var k := steps[n].k;
            var f := At(steps, n).flights[k];
            RestsOn(steps, n, k, f.user, f.u, f.sid)
  {
    var k := steps[n].k;
    var f := At(steps, n).flights[k];
    RunTraced(steps, n);
    assert Traced(steps, n, k, f);
    if f.ground.Trusted? {
      var m :| 0 <= m < n && LaysFor(At(steps, m), steps[m], k, Device, f.user, f.u, f.sid);
      DeviceIsBacked(steps, m, k, f.user, f.u, f.sid);
    }
  }

  /**
    Enforcement is read once, before the session is opened. A token is signed without
    a second factor for a role that is enforced at that moment exactly when the role
    was not enforced at the login's own earlier read, and is now.
  */
  lemma EnforcedWithoutSecondFactorIff(steps: seq<Step>, n: nat)
    requires n < |steps| && Issues(At(steps, n), steps[n])
    ensures var s, k := At(steps, n), steps[n].k;
            var f := s.flights[k];
            && f.u.tenant in s.v.enforced && f.u.role in s.v.enforced[f.u.tenant]
            && !(exists m | 0 <= m < n :: Lays(At(steps, m), steps[m], k, Code))
            && !(exists m | 0 <= m < n :: Lays(At(steps, m), steps[m], k, Device))
            <==>
            && f.u.tenant in s.v.enforced && f.u.role in s.v.enforced[f.u.tenant]
            && exists m | 0 <= m < n ::
                 && steps[m] == ReadEnforcement(k) && k < |At(steps, m).flights|
                 && At(steps, m).flights[k].Matched? && At(steps, m).flights[k].u == f.u
                 && f.u.tenant in At(steps, m).v.enforced && f.u.role !in At(steps, m).v.enforced[f.u.tenant]
  {
    var s, k := At(steps, n), steps[n].k;
    var f := s.flights[k];
    RunTraced(steps, n);
    assert Traced(steps, n, k, f);
    assert LaidBy(steps, n, k, Code) <==> exists m | 0 <= m < n :: Lays(At(steps, m), steps[m], k, Code);
    assert LaidBy(steps, n, k, Device) <==> exists m | 0 <= m < n :: Lays(At(steps, m), steps[m], k, Device);
    if f.ground.NotEnforced? {
      var m :| 0 <= m < n && LaysFor(At(steps, m), steps[m], k, Unenforced, f.user, f.u, "");
      assert f.u.role !in At(steps, m).v.enforced[f.u.tenant];
    } else {
      var sid := f.sid;
      assert LaidFor(steps, n, k, BasisOf(f.ground), f.user, f.u, sid);
      assert !LaidBy(steps, n, k, Unenforced);
      assert forall m | 0 <= m < n :: !Lays(At(steps, m), steps[m], k, Unenforced);
    }
  }

  /**
    And it does happen: from any state in which a login has read its tenant and found
    the role free, an administrator may enforce it before the token is signed.
  */
  lemma EnforcedMeanwhile(s: State, k: nat, enforced: map<Id, set<Role>>, sid: Id, exp: int)
    requires k < |s.flights| && s.flights[k].Free? && sid !in s.v.usedSids
    requires s.flights[k].u.tenant in enforced && s.flights[k].u.role in enforced[s.flights[k].u.tenant]
    ensures var f := s.flights[k];
            var t := Next(Next(s, AdminChange(s.v.users, enforced)), OpenSession(k, sid));
            && t.v.enforced == enforced && Issues(t, SignAccess(k, exp)) && t.log == s.log
            && Next(t, SignAccess(k, exp)).log == s.log + [AccessIssued(f.user, sid, NotEnforced(f.readAt), s.now)]
            && AccessClaims(f.user, f.u, sid, exp) in Next(t, SignAccess(k, exp)).v.issued
  {
  }

  /** A login up to its read of the tenant. */
  lemma LoginFoundFree(u: User)
    requires u.email == "e" && u.active && u.password == HashOf("p")
    ensures var free, users := map[u.tenant := {}], map["id" := u];
            Next(Next(Next(Next(Init, AdminChange(users, free)), SubmitLogin("e", "p", None)),
                MatchPassword(0, ["id"])),
                 ReadEnforcement(0))
            == State(AuthDb(users, free, map[], {}, {}), [Free("id", u, 0)], 0, [PolicyRead("id", false, 0)])
  {
    var free, users := map[u.tenant := {}], map["id" := u];
    var v := AuthDb(users, free, map[], {}, {});
    var s1 := Next(Init, AdminChange(users, free));
    assert s1 == State(v, [], 0, []);
    var s2 := Next(s1, SubmitLogin("e", "p", None));
    assert s2 == State(v, [Submitted("e", "p", None)], 0, []);
    assert FirstMatch(users, ["id"], "e", "p") == Some("id");
    var s3 := Next(s2, MatchPassword(0, ["id"]));
    assert s3 == State(v, [Matched("id", u, None)], 0, []);
    var s4 := Next(s3, ReadEnforcement(0));
    assert s4.flights == [Free("id", u, 0)];
  }

  /** A whole run of it from the start: signed for an enforced role, with no code and no device check on record. */
  lemma EnforcedMeanwhileRun(u: User, exp: int)
    requires u.email == "e" && u.active && u.password == HashOf("p")
    ensures var users := map["id" := u];
            var s := Next(Next(Next(Next(Init, AdminChange(users, map[u.tenant := {}])), SubmitLogin("e", "p", None)),
                               MatchPassword(0, ["id"])), ReadEnforcement(0));
            var t := Next(Next(s, AdminChange(users, map[u.tenant := {u.role}])), OpenSession(0, "sid"));
            && u.tenant in t.v.enforced && u.role in t.v.enforced[u.tenant] && Issues(t, SignAccess(0, exp)) &&
                t.flights[0].u == u
            && Next(t, SignAccess(0, exp)).log ==
               [PolicyRead("id", false, 0), AccessIssued("id", "sid", NotEnforced(0), 0)]
  {
    var users := map["id" := u];
    LoginFoundFree(u);
    var s := State(AuthDb(users, map[u.tenant := {}], map[], {}, {}), [Free("id", u, 0)], 0,
        [PolicyRead("id", false, 0)]);
    EnforcedMeanwhile(s, 0, map[u.tenant := {u.role}], "sid", exp);
  }

  // ------------------------------------------------------ where tokens come from

  predicate Signs(s: State, step: Step, c: Claims) {
    c !in s.v.issued && c in Next(s, step).v.issued
  }

  lemma {:induction false} TokenSigned(steps: seq<Step>, n: nat, c: Claims)
    requires n <= |steps| && c in At(steps, n).v.issued
    ensures exists d | 0 <= d < n :: Signs(At(steps, d), steps[d], c)
  {
    if n > 0 {
      AtNext(steps, n - 1);
      if c in At(steps, n - 1).v.issued {
        TokenSigned(steps, n - 1, c);
      } else {
        assert Signs(At(steps, n - 1), steps[n - 1], c);
      }
    }
  }

  lemma SignsWhat(s: State, step: Step, c: Claims)
    requires Signs(s, step, c)
    ensures c.typ == DeviceTrust ==> c.sid.Some? && AcceptsCode(s, step, c.sub, c.sid.value)
    ensures c.typ == AccessToken && !c.researcher ==>
              Issues(s, step) && var f := s.flights[step.k]; c == AccessClaims(f.user, f.u, f.sid, step.exp)
    ensures c.typ == PendingTwoFactor ==>
              && step.CheckDevice? && step.k < |s.flights| && s.flights[step.k].NeedsDevice?
              && var f := s.flights[step.k]; c == PendingClaims(f.user, f.u, s.now)
  {
  }

  /** The token was signed at step `d`, for a session and a basis as told by RestsOn. */
  ghost predicate SignedAt(steps: seq<Step>, d: nat, c: Claims)
    requires d < |steps| && c.sid.Some?
  {
    && Issues(At(steps, d), steps[d])
    && var f := At(steps, d).flights[steps[d].k];
       f.user == c.sub && f.sid == c.sid.value && RestsOn(steps, d, steps[d].k, f.user, f.u, f.sid)
  }

  /**
    Every bearer the gate lets in on a staff route other than the two-factor
    endpoints, in any state of any run, is a device token for whose session a code
    was accepted, or an access token signed on one of the three bases.
  */
  lemma StaffAdmissionBacked(steps: seq<Step>, n: nat, route: Route, c: Claims)
    requires n <= |steps| && Gate(At(steps, n).v, route, Some(c), At(steps, n).now).As?
    requires !route.open && !route.researcher && !route.TwoFactor()
    ensures c.sid.Some?
    ensures match c.typ
            case DeviceTrust => exists d | 0 <= d < n :: AcceptsCode(At(steps, d), steps[d], c.sub, c.sid.value)
            case AccessToken => exists d | 0 <= d < n :: SignedAt(steps, d, c)
            case PendingTwoFactor => false
  {
    TokenSigned(steps, n, c);
    var d :| 0 <= d < n && Signs(At(steps, d), steps[d], c);
    SignsWhat(At(steps, d), steps[d], c);
    if c.typ == AccessToken {
      AccessRestsOnLogin(steps, d);
      assert SignedAt(steps, d, c);
    }
  }

  // --------------------------------------------------- whose secret a code is for

  function SecretOf(s: State, user: Id): Option<Option<string>> {
    if user in s.v.users then Some(s.v.users[user].secret) else None
  }

  /** The step sets a new secret for this user. */
  predicate Reenrols(s: State, step: Step, user: Id) {
    && step.SetupSecret? && step.bearer.sub == user && user in s.v.users
    && step.route.setup && Gate(s.v, step.route, Some(step.bearer), s.now).As?
  }

  lemma SecretMoves(s: State, step: Step, user: Id)
    ensures Reenrols(s, step, user) ==> SecretOf(Next(s, step), user) == Some(Some(step.secret))
    ensures !Reenrols(s, step, user) && !step.AdminChange? ==> SecretOf(Next(s, step), user) == SecretOf(s, user)
  {
  }

  /** Secrets are drawn at random, so none repeats the one of step `e`; and administrators leave secrets alone. */
  ghost predicate FreshSecrets(steps: seq<Step>, e: nat, n: nat, user: Id)
    requires e <= n <= |steps|
  {
    forall i | e <= i < n ::
      && (steps[i].SetupSecret? ==> SecretOf(At(steps, e), user) != Some(Some(steps[i].secret)))
      && (steps[i].AdminChange? ==> SecretOf(At(steps, i + 1), user) == SecretOf(At(steps, i), user))
  }

  ghost predicate NoneReenrols(steps: seq<Step>, e: nat, n: nat, user: Id)
    requires e <= n <= |steps|
  {
    forall i | e <= i < n :: !Reenrols(At(steps, i), steps[i], user)
  }

  lemma {:induction false} SecretStandsIff(steps: seq<Step>, e: nat, n: nat, user: Id)
    requires e <= n <= |steps| && FreshSecrets(steps, e, n, user)
    ensures SecretOf(At(steps, n), user) == SecretOf(At(steps, e), user) <==> NoneReenrols(steps, e, n, user)
    ensures NoneReenrols(steps, e, n, user) ||
            exists i | e <= i < n :: steps[i].SetupSecret? &&
                SecretOf(At(steps, n), user) == Some(Some(steps[i].secret))
    decreases n
  {
    if e < n {
      var i := n - 1;
      SecretStandsIff(steps, e, i, user);
      AtNext(steps, i);
      SecretMoves(At(steps, i), steps[i], user);
      assert i + 1 == n;
      if !Reenrols(At(steps, i), steps[i], user) {
        assert NoneReenrols(steps, e, n, user) == NoneReenrols(steps, e, i, user);
      } else {
        assert !NoneReenrols(steps, e, n, user);
      }
    }
  }

  /** Only bearers of these three kinds are let in to set a secret; none is asked for the old one. */
  ghost predicate ReenrolledBy(steps: seq<Step>, e: nat, n: nat, user: Id, typ: TokenType)
    requires e <= n <= |steps|
  {
    exists i | e <= i < n :: Reenrols(At(steps, i), steps[i], user) && steps[i].bearer.typ == typ
  }

  /**
    The secret a code accepted at step `n` is checked against is the one the user had
    at an earlier step `e`, say when this login began, exactly when nobody re-enrolled
    the user since; and, unless a full session did, exactly when no pending and no
    device bearer did.
  */
  lemma CodeShowsEarlierSecretIff(steps: seq<Step>, e: nat, n: nat)
    requires e <= n < |steps| && steps[n].VerifyCode? &&
              AcceptsCode(At(steps, n), steps[n], steps[n].bearer.sub, steps[n].sid)
    requires FreshSecrets(steps, e, n, steps[n].bearer.sub)
    ensures var user := steps[n].bearer.sub;
            && SecretOf(At(steps, n), user).Some? && SecretOf(At(steps, n), user).value.Some?
            && (SecretOf(At(steps, n), user) == SecretOf(At(steps, e), user) <==> NoneReenrols(steps, e, n, user))
            && (!ReenrolledBy(steps, e, n, user, AccessToken) ==>
                  (SecretOf(At(steps, n), user) == SecretOf(At(steps, e), user) <==>
                   !ReenrolledBy(steps, e, n, user, PendingTwoFactor) && !ReenrolledBy(steps, e, n, user, DeviceTrust)))
  {
    var user := steps[n].bearer.sub;
    SecretStandsIff(steps, e, n, user);
    if !NoneReenrols(steps, e, n, user) {
      var i :| e <= i < n && Reenrols(At(steps, i), steps[i], user);
      assert ReenrolledBy(steps, e, n, user, steps[i].bearer.typ);
    }
  }

  /** The step ends login `k`, whose password matched, with this pending token. */
  ghost predicate EndsWithPending(steps: seq<Step>, d: nat, c: Claims)
    requires d < |steps|
  {
    && Signs(At(steps, d), steps[d], c) && steps[d].CheckDevice? && steps[d].k < |At(steps, d).flights|
    && var f := At(steps, d).flights[steps[d].k];
       f.NeedsDevice? && f.user == c.sub && MatchedBefore(steps, d, steps[d].k, f.user, f.u)
  }

  /** In particular since the login that gave out the pending token the code was sent with. */
  lemma CodeShowsLoginSecretIff(steps: seq<Step>, n: nat)
    requires n < |steps| && steps[n].VerifyCode? &&
              AcceptsCode(At(steps, n), steps[n], steps[n].bearer.sub, steps[n].sid)
    requires steps[n].bearer.typ == PendingTwoFactor
    ensures var c := steps[n].bearer;
            exists d | 0 <= d < n ::
              && EndsWithPending(steps, d, c)
              && (FreshSecrets(steps, d, n, c.sub) ==>
                    (SecretOf(At(steps, n), c.sub) == SecretOf(At(steps, d), c.sub) <==>
                        NoneReenrols(steps, d, n, c.sub)))
  {
    var c := steps[n].bearer;
    TokenSigned(steps, n, c);
    var d :| 0 <= d < n && Signs(At(steps, d), steps[d], c);
    SignsWhat(At(steps, d), steps[d], c);
    RunTraced(steps, d);
    assert Traced(steps, d, steps[d].k, At(steps, d).flights[steps[d].k]);
    assert EndsWithPending(steps, d, c);
    if FreshSecrets(steps, d, n, c.sub) {
      SecretStandsIff(steps, d, n, c.sub);
    }
  }

  /**
    Where it fails: whatever secret a user has enrolled, a pending token, which the
    password alone obtains, or a device token sets another, has a code of that one
    accepted, and is given an access token of the user's tenant, good on every staff
    route.
  */
  lemma HalfAuthenticatedReenrols(s: State, c: Claims, setup: Route, verify: Route, secret: string, sid: Id, exp: int)
    requires c in s.v.issued && s.now < c.exp && !c.researcher
    requires || c.typ == PendingTwoFactor
             || (c.typ == DeviceTrust && c.tenant.None? && c.sid.Some? && c.sid.value in s.v.sessions)
    requires c.sub in s.v.users && sid !in s.v.usedSids && s.now < exp
    requires !setup.open && !setup.researcher && setup.setup
    requires !verify.open && !verify.researcher && verify.verify
    ensures var u, k := s.v.users[c.sub], |s.flights|;
            var t := Next(s, SetupSecret(c, setup, secret));
            var w := Next(Next(t, VerifyCode(c, verify, true, false, sid)), SignAccess(k, exp));
            var token := AccessClaims(c.sub, u, sid, exp);
            && SecretOf(t, c.sub) == Some(Some(secret)) && CodeAccepted(t, c, verify, true)
            && w.log == s.log + [CodeVerified(c.sub, sid, s.now), AccessIssued(c.sub, sid, CodeEntered(s.now), s.now)]
            && token in w.v.issued && token.tenant == Some(u.tenant)
            && forall route: Route | !route.open && !route.researcher ::
                 Gate(w.v, route, Some(token), w.now) == As(Context(Some(u.tenant), c.sub, Some(u.role), false))
  {
    HalfAuthenticatedAdmitted(s.v, setup, c, s.now);
    var t := Next(s, SetupSecret(c, setup, secret));
    assert t.v.issued == s.v.issued && t.v.sessions == s.v.sessions;
    HalfAuthenticatedAdmitted(t.v, verify, c, t.now);
    var x := Next(t, VerifyCode(c, verify, true, false, sid));
    assert x == Verified(t, c.sub, false, sid);
    assert x.flights[|s.flights|].Granted?;
    assert sid in x.v.sessions && x.v.sessions[sid].tenant == s.v.users[c.sub].tenant;
  }
}
