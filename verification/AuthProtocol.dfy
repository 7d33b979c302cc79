/**
  The authentication protocol over whole runs: logins, two-factor verifications,
  resets and revocations as separate database steps, interleaved at will, with
  administrators changing users and enforcement at any time. A call that crashes
  is one that is never scheduled again.
*/
module AuthProtocol {
  import opened Common
  import opened Policy
  import opened Auth
  import opened Middleware

  /** Why a session may be signed for. */
  datatype Ground =
    | NotEnforced(at: int)
    | Trusted(at: int)
    | CodeEntered(at: int)

  datatype Flight =
    | Submitted(email: string, password: string, device: Option<Claims>)
    | Matched(user: Id, u: User, device: Option<Claims>)
    | NeedsDevice(user: Id, u: User, device: Option<Claims>)
    | Free(user: Id, u: User, readAt: int)
    | Granted(user: Id, u: User, sid: Id, ground: Ground)
    | Resetting(user: Id)
    | Ended

  /** What happened, in order. */
  datatype Record =
    | PolicyRead(user: Id, enforced: bool, at: int)
    | CodeVerified(user: Id, sid: Id, at: int)
    | DeviceTrusted(user: Id, sid: Id, at: int)
    | AccessIssued(user: Id, sid: Id, ground: Ground, at: int)
    | SessionsRevoked(sids: set<Id>)
    | Admitted(claims: Claims, path: string, route: Route, at: int)

  datatype State = State(v: AuthDb, flights: seq<Flight>, now: int, log: seq<Record>)

  datatype Step =
    | SubmitLogin(email: string, password: string, device: Option<Claims>)
    | MatchPassword(k: nat, order: seq<Id>)
    | ReadEnforcement(k: nat)
    | CheckDevice(k: nat)
    | OpenSession(k: nat, sid: Id)
    | SignAccess(k: nat, exp: int)
    | SetupSecret(bearer: Claims, route: Route, secret: string)
    | VerifyCode(bearer: Claims, route: Route, codeOk: bool, remember: bool, sid: Id)
    | Request(bearer: Claims, url: string)
    | TouchSession(sid: Id)
    | RevokeSession(tenant: Id, user: Id, sid: Id)
    | ForgotPassword(user: Id, email: string, token: string)
    | ResetPassword(user: Id, token: string, password: string)
    | WipeSessions(k: nat)
    | IssueResearcherToken(account: Id, tenant: Id, exp: int)
    | AdminChange(users: map<Id, User>, enforced: map<Id, set<Role>>)
    | Wait(ms: nat)

  const Init := State(AuthDb(map[], map[], map[], {}, {}), [], 0, [])

  function Move(s: State, k: nat, f: Flight): State
    requires k < |s.flights|
  {
    s.(flights := s.flights[k := f])
  }

  function Note(s: State, r: Record): State {
    s.(log := s.log + [r])
  }

  function DropRecorded(s: State, sids: set<Id>): State {
    Note(s.(v := DropSessions(s.v, sids)), SessionsRevoked(sids))
  }

  /** The second factor: a stored secret and a code that fits it. */
  predicate CodeAccepted(s: State, bearer: Claims, route: Route, codeOk: bool) {
    && Gate(s.v, route, Some(bearer), s.now).As? && route.verify
    && bearer.sub in s.v.users && s.v.users[bearer.sub].secret.Some? && codeOk
  }

  /** Any admitted bearer may set a secret, whether or not the user has one. */
  predicate SetupAllowed(s: State, bearer: Claims, route: Route) {
    Gate(s.v, route, Some(bearer), s.now).As? && route.setup && bearer.sub in s.v.users
  }

  function Verified(s: State, user: Id, remember: bool, sid: Id): State
    requires user in s.v.users
  {
    var u := s.v.users[user];
    var v1 := s.v.(users := s.v.users[user := u.(twoFactorEnabled := true)]);
    var until := if remember then Some(s.now + DEVICE_TRUST) else None;
    var v2 := CreateSession(v1, sid, u.tenant, user, until, s.now);
    var v3 := if remember then Sign(v2, DeviceClaims(user, sid, s.now)) else v2;
    Note(s.(v := v3, flights := s.flights + [Granted(user, u, sid, CodeEntered(s.now))]),
        CodeVerified(user, sid, s.now))
  }

  function Requested(s: State, bearer: Claims, path: string, route: Route): State {
    if !Gate(s.v, route, Some(bearer), s.now).As? then s else Note(s, Admitted(bearer, path, route, s.now))
  }

  /** One step; a step that is not enabled changes nothing. */
  function Next(s: State, step: Step): State {
    match step
    case SubmitLogin(email, password, device) =>
      s.(flights := s.flights + [Submitted(email, password, device)])
    case MatchPassword(k, order) =>
      if k >= |s.flights| || !s.flights[k].Submitted? then s
      else
        var f := s.flights[k];
        var hit := FirstMatch(s.v.users, order, f.email, f.password);
        if hit.None? || hit.value !in s.v.users then Move(s, k, Ended)
        else Move(s, k, Matched(hit.value, s.v.users[hit.value], f.device))
    case ReadEnforcement(k) =>
      if k >= |s.flights| || !s.flights[k].Matched? then s
      else
        var f := s.flights[k];
        if f.u.tenant !in s.v.enforced then Move(s, k, Ended)
        else
          var enforced := Enforced(s.v, f.u);
          Note(Move(s, k, if enforced then NeedsDevice(f.user, f.u, f.device) else Free(f.user, f.u, s.now)),
               PolicyRead(f.user, enforced, s.now))
    case CheckDevice(k) =>
      if k >= |s.flights| || !s.flights[k].NeedsDevice? then s
      else
        var f := s.flights[k];
        var sid := TrustedSession(s.v, f.device, f.user, s.now);
        if sid.None? then Move(s.(v := Sign(s.v, PendingClaims(f.user, f.u, s.now))), k, Ended)
        else Note(Move(s, k, Granted(f.user, f.u, sid.value, Trusted(s.now))), DeviceTrusted(f.user, sid.value, s.now))
    case OpenSession(k, sid) =>
      if k >= |s.flights| || !s.flights[k].Free? || sid in s.v.usedSids then s
      else
        var f := s.flights[k];
        Move(s.(v := CreateSession(s.v, sid, f.u.tenant, f.user, None, s.now)), k,
            Granted(f.user, f.u, sid, NotEnforced(f.readAt)))
    case SignAccess(k, exp) =>
      if k >= |s.flights| || !s.flights[k].Granted? then s
      else
        var f := s.flights[k];
        Note(Move(s.(v := Sign(s.v, AccessClaims(f.user, f.u, f.sid, exp))), k, Ended),
             AccessIssued(f.user, f.sid, f.ground, s.now))
    case SetupSecret(bearer, route, secret) =>
      if !SetupAllowed(s, bearer, route) then s
      else s.(v := s.v.(users := s.v.users[bearer.sub := s.v.users[bearer.sub].(secret := Some(secret))]))
    case VerifyCode(bearer, route, codeOk, remember, sid) =>
      if !CodeAccepted(s, bearer, route, codeOk) || sid in s.v.usedSids then s
      else Verified(s, bearer.sub, remember, sid)
    case Request(bearer, url) =>
      Requested(s, bearer, RequestPath(url), Classify(RequestPath(url)))
    case TouchSession(sid) =>
      if sid !in s.v.sessions then s
      else s.(v := s.v.(sessions := s.v.sessions[sid := s.v.sessions[sid].(lastActive := s.now)]))
    case RevokeSession(tenant, user, sid) =>
      if sid !in s.v.sessions || s.v.sessions[sid].tenant != tenant || s.v.sessions[sid].user != user then s
      else DropRecorded(s, {sid})
    case ForgotPassword(user, email, token) =>
      if user !in s.v.users || !s.v.users[user].active || s.v.users[user].email != email then s
      else
        var u := s.v.users[user].(resetHash := Some(HashOf(token)), resetExpiresAt := s.now + RESET_LIFETIME);
        s.(v := s.v.(users := s.v.users[user := u]))
    case ResetPassword(user, token, password) =>
      if !ResetTokenMatches(s.v.users, user, token, s.now) then s
      else
        var u := s.v.users[user].(password := HashOf(password), resetHash := None);
        s.(v := s.v.(users := s.v.users[user := u]), flights := s.flights + [Resetting(user)])
    case WipeSessions(k) =>
      if k >= |s.flights| || !s.flights[k].Resetting? then s
      else DropRecorded(Move(s, k, Ended), SessionsOf(s.v, s.flights[k].user))
    case IssueResearcherToken(account, tenant, exp) => s.(v := Sign(s.v, ResearcherClaims(account, tenant, exp)))
    case AdminChange(users, enforced) => s.(v := s.v.(users := users, enforced := enforced))
    case Wait(ms) => s.(now := s.now + ms)
  }

  function Run(s: State, steps: seq<Step>): State
    decreases |steps|
  {
    if steps == [] then s else Run(Next(s, steps[0]), steps[1..])
  }

  // ---------------------------------------------------------------- invariant

  /** A code was verified for this user and session at `at`. */
  ghost predicate HasCode(log: seq<Record>, user: Id, sid: Id, at: int) {
    CodeVerified(user, sid, at) in log
  }

  /** What must already be in the log for a session to be signed on this ground. */
  ghost predicate Grounded(log: seq<Record>, user: Id, sid: Id, ground: Ground) {
    match ground
    case NotEnforced(at) => PolicyRead(user, false, at) in log
    case Trusted(at) => DeviceTrusted(user, sid, at) in log
    case CodeEntered(at) => HasCode(log, user, sid, at)
  }

  /** Trust follows from a code verified at most the trust period before. */
  ghost predicate TrustBacked(log: seq<Record>, user: Id, sid: Id, at: int) {
    exists t :: HasCode(log, user, sid, t) && t <= at <= t + DEVICE_TRUST
  }

  predicate Revoked(log: seq<Record>, sid: Id) {
    exists r | r in log :: r.SessionsRevoked? && sid in r.sids
  }

  /** Why record `r` may follow the records before it. */
  ghost predicate Explained(before: seq<Record>, r: Record) {
    match r
    case DeviceTrusted(user, sid, at) => TrustBacked(before, user, sid, at) && !Revoked(before, sid)
    case AccessIssued(user, sid, ground, at) => Grounded(before, user, sid, ground)
    case Admitted(c, path, route, at) =>
      && TokenBacked(before, c) && (c.sid.Some? ==> !Revoked(before, c.sid.value))
      && route.researcher == c.researcher && (c.typ == PendingTwoFactor && !c.researcher ==> route.TwoFactor())
    case _ => true
  }

  /** Every staff token with a session comes from a login, a verification or both. */
  ghost predicate TokenBacked(log: seq<Record>, c: Claims) {
    match c.typ
    case PendingTwoFactor => c.sid.None? && c.tenant.Some?
    case DeviceTrust => !c.researcher && c.tenant.None? && c.sid.Some? && exists at ::
      HasCode(log, c.sub, c.sid.value, at)
    case AccessToken =>
      && c.tenant.Some?
      && (c.researcher <==> c.sid.None?)
      && (!c.researcher ==> exists g, at :: AccessIssued(c.sub, c.sid.value, g, at) in log)
  }

  ghost predicate FlightSound(s: State, f: Flight) {
    match f
    case Free(user, _, at) => PolicyRead(user, false, at) in s.log
    case Granted(user, _, sid, ground) => Grounded(s.log, user, sid, ground) && sid in s.v.usedSids
    case _ => true
  }

  ghost predicate SessionSound(s: State, sid: Id)
    requires sid in s.v.sessions
  {
    var x := s.v.sessions[sid];
    && sid in s.v.usedSids && !Revoked(s.log, sid)
    && (x.trustedUntil.Some? ==>
          var t := x.trustedUntil.value - DEVICE_TRUST;
          t <= s.now && HasCode(s.log, x.user, sid, t))
  }

  ghost predicate Inv(s: State) {
    && (forall sid | sid in s.v.sessions :: SessionSound(s, sid))
    && (forall sid :: Revoked(s.log, sid) ==> sid in s.v.usedSids)
    && (forall k | 0 <= k < |s.flights| :: FlightSound(s, s.flights[k]))
    && (forall c | c in s.v.issued :: TokenBacked(s.log, c))
    && (forall i | 0 <= i < |s.log| :: Explained(s.log[..i], s.log[i]))
  }

  lemma InitSound()
    ensures Inv(Init)
  {
  }

  // -------------------------------------------------------------- preservation

  /** Evidence is never lost as the log grows; only a revocation revokes. */
  lemma LogGrows(log: seq<Record>, r: Record)
    ensures forall x :: x in log ==> x in log + [r]
    ensures forall u, sid, g :: Grounded(log, u, sid, g) ==> Grounded(log + [r], u, sid, g)
    ensures forall c :: TokenBacked(log, c) ==> TokenBacked(log + [r], c)
    ensures forall sid :: Revoked(log + [r], sid) <==> Revoked(log, sid) || (r.SessionsRevoked? && sid in r.sids)
  {
    forall u, sid, g | Grounded(log, u, sid, g) ensures Grounded(log + [r], u, sid, g) {
      GroundedGrows(log, r, u, sid, g);
    }
    forall c | TokenBacked(log, c) ensures TokenBacked(log + [r], c) {
      BackedGrows(log, r, c);
    }
  }

  lemma GroundedGrows(log: seq<Record>, r: Record, u: Id, sid: Id, g: Ground)
    requires Grounded(log, u, sid, g)
    ensures Grounded(log + [r], u, sid, g)
  {
  }

  lemma BackedGrows(log: seq<Record>, r: Record, c: Claims)
    requires TokenBacked(log, c)
    ensures TokenBacked(log + [r], c)
  {
    if c.typ == DeviceTrust {
      var at :| HasCode(log, c.sub, c.sid.value, at);
      assert HasCode(log + [r], c.sub, c.sid.value, at);
    } else if c.typ == AccessToken && !c.researcher {
      var g, at :| AccessIssued(c.sub, c.sid.value, g, at) in log;
      assert AccessIssued(c.sub, c.sid.value, g, at) in log + [r];
    }
  }

  lemma FlightsGrow(s: State, t: State, r: Record, f: Flight)
    requires FlightSound(s, f) && t.log == s.log + [r] && s.v.usedSids <= t.v.usedSids
    ensures FlightSound(t, f)
  {
    match f {
      case Granted(user, _, sid, g) => GroundedGrows(s.log, r, user, sid, g);
      case _ =>
    }
  }

  /** A step that records nothing. */
  lemma Unrecorded(s: State, t: State)
    requires Inv(s) && t.log == s.log && s.v.usedSids <= t.v.usedSids
    requires forall sid | sid in t.v.sessions :: SessionSound(t, sid)
    requires forall k | 0 <= k < |t.flights| :: FlightSound(t, t.flights[k])
    requires forall c | c in t.v.issued :: TokenBacked(t.log, c)
    ensures Inv(t)
  {
  }

  /** A step that records `r`, whose parts hold up once it is recorded. */
  lemma Recorded(s: State, t: State, r: Record)
    requires Inv(s) && t.log == s.log + [r] && s.v.usedSids <= t.v.usedSids
    requires Explained(s.log, r) && (r.SessionsRevoked? ==> r.sids <= s.v.usedSids)
    requires forall sid | sid in t.v.sessions :: SessionSound(t, sid)
    requires forall k | 0 <= k < |t.flights| :: FlightSound(t, t.flights[k])
    requires forall c | c in t.v.issued :: TokenBacked(t.log, c)
    ensures Inv(t)
  {
    LogGrows(s.log, r);
    forall i | 0 <= i < |t.log| ensures Explained(t.log[..i], t.log[i]) {
      assert t.log[..i] == s.log[..i];
      if i < |s.log| {
        assert Explained(s.log[..i], s.log[i]);
      } else {
        assert s.log[..i] == s.log;
      }
    }
  }

  /** What a step leaves alone stays sound. */
  lemma SessionsKept(s: State, t: State, r: Option<Record>)
    requires Inv(s) && s.now <= t.now && s.v.usedSids <= t.v.usedSids
    requires t.log == s.log + if r.Some? then [r.value] else []
    requires forall sid | sid in t.v.sessions ::
               && sid in s.v.sessions && t.v.sessions[sid].user == s.v.sessions[sid].user
               && t.v.sessions[sid].trustedUntil == s.v.sessions[sid].trustedUntil
               && (r.Some? && r.value.SessionsRevoked? ==> sid !in r.value.sids)
    ensures forall sid | sid in t.v.sessions :: SessionSound(t, sid)
  {
    if r.Some? {
      LogGrows(s.log, r.value);
    }
    forall sid | sid in t.v.sessions ensures SessionSound(t, sid) {
      assert SessionSound(s, sid);
    }
  }

  lemma FlightsKept(s: State, t: State, r: Option<Record>)
    requires Inv(s) && s.v.usedSids <= t.v.usedSids
    requires t.log == s.log + if r.Some? then [r.value] else []
    requires |s.flights| <= |t.flights|
    requires forall k | 0 <= k < |s.flights| :: t.flights[k] == s.flights[k] || FlightSound(t, t.flights[k])
    requires forall k | |s.flights| <= k < |t.flights| :: FlightSound(t, t.flights[k])
    ensures forall k | 0 <= k < |t.flights| :: FlightSound(t, t.flights[k])
  {
    forall k | 0 <= k < |s.flights| ensures FlightSound(t, t.flights[k]) {
      assert FlightSound(s, s.flights[k]);
      if t.flights[k] == s.flights[k] {
        if r.Some? {
          FlightsGrow(s, t, r.value, s.flights[k]);
        } else {
          assert t.log == s.log;
        }
      }
    }
  }

  lemma TokensKept(s: State, t: State, r: Option<Record>)
    requires Inv(s) && t.log == s.log + if r.Some? then [r.value] else []
    requires forall c | c in t.v.issued :: c in s.v.issued || TokenBacked(t.log, c)
    ensures forall c | c in t.v.issued :: TokenBacked(t.log, c)
  {
    if r.Some? {
      LogGrows(s.log, r.value);
    } else {
      assert t.log == s.log;
    }
  }

  predicate SameButFlightsAndUsers(s: State, t: State) {
    t.v.sessions == s.v.sessions && t.v.usedSids == s.v.usedSids && t.v.issued == s.v.issued && t.log == s.log
    && s.now <= t.now
  }

  lemma PlainKeeps(s: State, t: State)
    requires Inv(s) && SameButFlightsAndUsers(s, t) && |s.flights| <= |t.flights|
    requires forall k | 0 <= k < |s.flights| :: t.flights[k] == s.flights[k] || FlightSound(t, t.flights[k])
    requires forall k | |s.flights| <= k < |t.flights| :: FlightSound(t, t.flights[k])
    ensures Inv(t)
  {
    assert t.log == s.log + [];
    SessionsKept(s, t, None);
    FlightsKept(s, t, None);
    TokensKept(s, t, None);
    Unrecorded(s, t);
  }

  lemma LoginReadsKeep(s: State, step: Step)
    requires Inv(s) && (step.SubmitLogin? || step.MatchPassword?)
    ensures Inv(Next(s, step))
  {
    PlainKeeps(s, Next(s, step));
  }

  lemma UserWritesKeep(s: State, step: Step)
    requires Inv(s)
    requires step.SetupSecret? || step.ForgotPassword? || step.ResetPassword? || step.AdminChange? || step.Wait?
    ensures Inv(Next(s, step))
  {
    var t := Next(s, step);
    assert SameButFlightsAndUsers(s, t);
    PlainKeeps(s, t);
  }

  lemma ReadEnforcementKeeps(s: State, k: nat)
    requires Inv(s)
    ensures Inv(Next(s, ReadEnforcement(k)))
  {
    var t := Next(s, ReadEnforcement(k));
    if t.log == s.log {
      if t != s {
        PlainKeeps(s, t);
      }
    } else {
      var f := s.flights[k];
      var r := PolicyRead(f.user, Enforced(s.v, f.u), s.now);
      assert r in t.log;
      SessionsKept(s, t, Some(r));
      FlightsKept(s, t, Some(r));
      TokensKept(s, t, Some(r));
      Recorded(s, t, r);
    }
  }

  /** A trusted device is backed by a code verified for that very session, not long ago. */
  lemma TrustIsBacked(s: State, device: Option<Claims>, user: Id)
    requires Inv(s) && TrustedSession(s.v, device, user, s.now).Some?
    ensures var sid := TrustedSession(s.v, device, user, s.now).value;
            TrustBacked(s.log, user, sid, s.now) && !Revoked(s.log, sid) && sid in s.v.usedSids
  {
    var sid := TrustedSession(s.v, device, user, s.now).value;
    assert SessionSound(s, sid);
    var x := s.v.sessions[sid];
    assert HasCode(s.log, user, sid, x.trustedUntil.value - DEVICE_TRUST);
  }

  lemma CheckDeviceKeeps(s: State, k: nat)
    requires Inv(s)
    ensures Inv(Next(s, CheckDevice(k)))
  {
    var t := Next(s, CheckDevice(k));
    if k < |s.flights| && s.flights[k].NeedsDevice? {
      var f := s.flights[k];
      var sid := TrustedSession(s.v, f.device, f.user, s.now);
      if sid.None? {
        assert t.log == s.log + [];
        SessionsKept(s, t, None);
        FlightsKept(s, t, None);
        TokensKept(s, t, None);
        Unrecorded(s, t);
      } else {
        var r := DeviceTrusted(f.user, sid.value, s.now);
        TrustIsBacked(s, f.device, f.user);
        assert r in t.log;
        SessionsKept(s, t, Some(r));
        FlightsKept(s, t, Some(r));
        TokensKept(s, t, Some(r));
        Recorded(s, t, r);
      }
    }
  }

  lemma OpenSessionKeeps(s: State, k: nat, sid: Id)
    requires Inv(s)
    ensures Inv(Next(s, OpenSession(k, sid)))
  {
    var t := Next(s, OpenSession(k, sid));
    if t != s {
      var f := s.flights[k];
      assert FlightSound(s, f);
      assert t.log == s.log + [];
      forall x | x in t.v.sessions ensures SessionSound(t, x) {
        if x != sid {
          assert SessionSound(s, x);
        }
      }
      FlightsKept(s, t, None);
      TokensKept(s, t, None);
      Unrecorded(s, t);
    }
  }

  lemma SignAccessKeeps(s: State, k: nat, exp: int)
    requires Inv(s)
    ensures Inv(Next(s, SignAccess(k, exp)))
  {
    var t := Next(s, SignAccess(k, exp));
    if t != s {
      var f := s.flights[k];
      assert FlightSound(s, f);
      var r := AccessIssued(f.user, f.sid, f.ground, s.now);
      assert r in t.log;
      SessionsKept(s, t, Some(r));
      FlightsKept(s, t, Some(r));
      TokensKept(s, t, Some(r));
      Recorded(s, t, r);
    }
  }

  lemma VerifyCodeKeeps(s: State, bearer: Claims, route: Route, codeOk: bool, remember: bool, sid: Id)
    requires Inv(s)
    ensures Inv(Next(s, VerifyCode(bearer, route, codeOk, remember, sid)))
  {
    if CodeAccepted(s, bearer, route, codeOk) && sid !in s.v.usedSids {
      CodeRecorded(s, bearer.sub, remember, sid);
    }
  }

  lemma CodeRecorded(s: State, user: Id, remember: bool, sid: Id)
    requires Inv(s) && user in s.v.users && sid !in s.v.usedSids
    ensures Inv(Verified(s, user, remember, sid))
  {
    var t := Verified(s, user, remember, sid);
    var r := CodeVerified(user, sid, s.now);
    assert HasCode(t.log, user, sid, s.now);
    LogGrows(s.log, r);
    forall x | x in t.v.sessions ensures SessionSound(t, x) {
      if x != sid {
        assert SessionSound(s, x);
      }
    }
    FlightsKept(s, t, Some(r));
    TokensKept(s, t, Some(r));
    Recorded(s, t, r);
  }

  lemma GateSession(v: AuthDb, route: Route, c: Claims, now: int)
    requires Gate(v, route, Some(c), now).As?
    ensures c in v.issued && now < c.exp && route.researcher == c.researcher
    ensures c.typ == PendingTwoFactor && !c.researcher ==> route.TwoFactor()
    ensures !c.researcher && c.typ != PendingTwoFactor && c.sid.Some? ==> c.sid.value in v.sessions
  {
  }

  /** A bearer that gets in with a session id finds that session, so it has not been revoked. */
  lemma RequestedKeeps(s: State, c: Claims, path: string, route: Route)
    requires Inv(s)
    ensures Inv(Requested(s, c, path, route))
  {
    var t := Requested(s, c, path, route);
    if t != s {
      var r := Admitted(c, path, route, s.now);
      GateSession(s.v, route, c, s.now);
      assert TokenBacked(s.log, c);
      if c.sid.Some? {
        assert SessionSound(s, c.sid.value);
      }
      SessionsKept(s, t, Some(r));
      FlightsKept(s, t, Some(r));
      TokensKept(s, t, Some(r));
      Recorded(s, t, r);
    }
  }

  lemma TouchKeeps(s: State, sid: Id)
    requires Inv(s)
    ensures Inv(Next(s, TouchSession(sid)))
  {
    var t := Next(s, TouchSession(sid));
    assert t.log == s.log + [];
    SessionsKept(s, t, None);
    FlightsKept(s, t, None);
    TokensKept(s, t, None);
    Unrecorded(s, t);
  }

  lemma RevocationKeeps(s: State, t: State, sids: set<Id>)
    requires Inv(s) && sids <= s.v.sessions.Keys
    requires t.v == DropSessions(s.v, sids) && t.now == s.now && t.log == s.log + [SessionsRevoked(sids)]
    requires |t.flights| == |s.flights| && forall k | 0 <= k < |s.flights| ::
              t.flights[k] == s.flights[k] || t.flights[k].Ended?
    ensures Inv(t)
  {
    var r := SessionsRevoked(sids);
    forall sid | sid in sids ensures sid in s.v.usedSids {
      assert SessionSound(s, sid);
    }
    SessionsKept(s, t, Some(r));
    FlightsKept(s, t, Some(r));
    TokensKept(s, t, Some(r));
    Recorded(s, t, r);
  }

  lemma ResearcherTokenKeeps(s: State, account: Id, tenant: Id, exp: int)
    requires Inv(s)
    ensures Inv(Next(s, IssueResearcherToken(account, tenant, exp)))
  {
    var t := Next(s, IssueResearcherToken(account, tenant, exp));
    assert t.log == s.log + [];
    SessionsKept(s, t, None);
    FlightsKept(s, t, None);
    TokensKept(s, t, None);
    Unrecorded(s, t);
  }

  lemma NextKeeps(s: State, step: Step)
    requires Inv(s)
    ensures Inv(Next(s, step))
  {
    match step {
      case SubmitLogin(_, _, _) => LoginReadsKeep(s, step);
      case MatchPassword(_, _) => LoginReadsKeep(s, step);
      case ReadEnforcement(k) => ReadEnforcementKeeps(s, k);
      case CheckDevice(k) => CheckDeviceKeeps(s, k);
      case OpenSession(k, sid) => OpenSessionKeeps(s, k, sid);
      case SignAccess(k, exp) => SignAccessKeeps(s, k, exp);
      case VerifyCode(b, p, ok, remember, sid) => VerifyCodeKeeps(s, b, p, ok, remember, sid);
      case Request(b, url) => RequestedKeeps(s, b, RequestPath(url), Classify(RequestPath(url)));
      case TouchSession(sid) => TouchKeeps(s, sid);
      case RevokeSession(tenant, user, sid) =>
        if Next(s, step) != s {
          RevocationKeeps(s, Next(s, step), {sid});
        }
      case WipeSessions(k) =>
        if Next(s, step) != s {
          RevocationKeeps(s, Next(s, step), SessionsOf(s.v, s.flights[k].user));
        }
      case IssueResearcherToken(account, tenant, exp) => ResearcherTokenKeeps(s, account, tenant, exp);
      case _ => UserWritesKeep(s, step);
    }
  }

  lemma {:induction false} RunKeeps(s: State, steps: seq<Step>)
    requires Inv(s)
    ensures Inv(Run(s, steps))
    decreases |steps|
  {
    if steps != [] {
      NextKeeps(s, steps[0]);
      RunKeeps(Next(s, steps[0]), steps[1..]);
    }
  }

  // ------------------------------------------------------------- main results

  /**
    Revocation is final: once a session is deleted, by its owner or by a password
    reset, no request bearing its id is admitted and no device is trusted on it, in
    any continuation and however the two were interleaved.
  */
  lemma RevocationIsFinal(steps: seq<Step>, i: nat, j: nat, sid: Id)
    requires i < j < |Run(Init, steps).log|
    requires var r := Run(Init, steps).log[i]; r.SessionsRevoked? && sid in r.sids
    ensures var r := Run(Init, steps).log[j];
            && !(r.Admitted? && r.claims.sid == Some(sid))
            && !(r.DeviceTrusted? && r.sid == sid)
  {
    InitSound();
    RunKeeps(Init, steps);
    var log := Run(Init, steps).log;
    assert Explained(log[..j], log[j]);
    assert log[..j][i] in log[..j];
    assert Revoked(log[..j], sid);
  }

  /**
    The gate does not ask for an access token: a device token is let in as a bearer
    too, with its session live. It is exactly these requests that go on without a
    tenant in their context.
  */
  lemma AdmittedWithoutTenantIff(steps: seq<Step>, j: nat)
    requires j < |Run(Init, steps).log| && Run(Init, steps).log[j].Admitted?
    ensures var c := Run(Init, steps).log[j].claims;
            c.tenant.None? <==> c.typ == DeviceTrust
  {
    InitSound();
    RunKeeps(Init, steps);
    var log := Run(Init, steps).log;
    assert Explained(log[..j], log[j]);
  }
}
