/** The authentication endpoints, each call run to its end. */
module AuthService {
  import opened Common
  import opened Policy
  import opened Auth
  import opened RateLimit
  import opened LoginThrottle
  import opened Middleware
  import Protocol = AuthProtocol

  datatype LoginDto = LoginDto(email: string, password: string, deviceToken: Option<Claims>)

  datatype LoginResult =
    | TooManyAttempts
    | BadCredentials
    | UnknownTenant
    | CodeRequired(setupRequired: bool, tempToken: Claims)
    | LoggedIn(accessToken: Claims)

  /** What a login does once the limiter let it pass. `order` is the candidates as the database lists them. */
  function LoginCall(v: AuthDb, dto: LoginDto, order: seq<Id>, sid: Id, exp: int, now: int): (LoginResult, AuthDb) {
    var hit := FirstMatch(v.users, order, dto.email, dto.password);
    if hit.None? || hit.value !in v.users then (BadCredentials, v)
    else
      var id, u := hit.value, v.users[hit.value];
      if u.tenant !in v.enforced then (UnknownTenant, v)
      else if Enforced(v, u) then
        var trusted := TrustedSession(v, dto.deviceToken, id, now);
        if trusted.None? then (CodeRequired(!u.twoFactorEnabled, PendingClaims(id, u, now)),
            Sign(v, PendingClaims(id, u, now)))
        else (LoggedIn(AccessClaims(id, u, trusted.value, exp)), Sign(v, AccessClaims(id, u, trusted.value, exp)))
      else
        (LoggedIn(AccessClaims(id, u, sid, exp)),
         Sign(CreateSession(v, sid, u.tenant, id, None, now), AccessClaims(id, u, sid, exp)))
  }

  datatype VerifyResult =
    | UnknownUser | NotSetUp | InvalidCode
    | Verified(accessToken: Claims, deviceToken: Option<Claims>)

  function VerifyCall(v: AuthDb, user: Id, codeOk: bool, remember: bool, sid: Id, exp: int, now: int)
    : (VerifyResult, AuthDb)
  {
    if user !in v.users then (UnknownUser, v)
    else if v.users[user].secret.None? then (NotSetUp, v)
    else if !codeOk then (InvalidCode, v)
    else
      var u := v.users[user];
      var v1 := v.(users := v.users[user := u.(twoFactorEnabled := true)]);
      var v2 := CreateSession(v1, sid, u.tenant, user, if remember then Some(now + DEVICE_TRUST) else None, now);
      var v3 := if remember then Sign(v2, DeviceClaims(user, sid, now)) else v2;
      (Verified(AccessClaims(user, u, sid, exp), if remember then Some(DeviceClaims(user, sid, now)) else None),
       Sign(v3, AccessClaims(user, u, sid, exp)))
  }

  const FORGOT_LIMIT: nat := 5
  const FORGOT_WINDOW: int := 15 * 60 * SECOND

  function ForgotKey(email: string): string {
    "forgot-password:" + email
  }

  /** The active users with this email, each once. */
  ghost predicate Candidates(users: map<Id, User>, email: string, candidates: seq<Id>) {
    && (forall id :: id in candidates <==> id in users && users[id].active && users[id].email == email)
    && forall i, j | 0 <= i < j < |candidates| :: candidates[i] != candidates[j]
  }

  function WithResetLink(u: User, token: string, now: int): User {
    u.(resetHash := Some(HashOf(token)), resetExpiresAt := now + RESET_LIFETIME)
  }

  function FirstReset(users: map<Id, User>, order: seq<Id>, token: string, now: int): Option<Id> {
    if order == [] then None
    else if ResetTokenMatches(users, order[0], token, now) then Some(order[0])
    else FirstReset(users, order[1..], token, now)
  }

  function ResetCall(v: AuthDb, order: seq<Id>, token: string, newPassword: string, now: int): (bool, AuthDb) {
    var hit := FirstReset(v.users, order, token, now);
    if hit.None? || hit.value !in v.users then (false, v)
    else
      var u := v.users[hit.value].(password := HashOf(newPassword), resetHash := None);
      (true, DropSessions(v.(users := v.users[hit.value := u]), SessionsOf(v, hit.value)))
  }

  class AuthService {
    var users: map<Id, User>
    var enforced: map<Id, set<Role>>
    var sessions: map<Id, Session>
    var issued: set<Claims>
    ghost var usedSids: set<Id>
    const limiter: RateLimitService

    constructor (limiter: RateLimitService)
      ensures Db() == AuthDb(map[], map[], map[], {}, {}) && this.limiter == limiter
    {
      users, enforced, sessions, issued, usedSids := map[], map[], map[], {}, {};
      this.limiter := limiter;
    }

    ghost function Db(): AuthDb
      reads this
    {
      AuthDb(users, enforced, sessions, usedSids, issued)
    }

    method CompareCandidates(candidates: seq<Id>, email: string, password: string) returns (matched: Option<Id>)
      ensures matched == FirstMatch(users, candidates, email, password)
      ensures matched.Some? ==> matched.value in users
    {
      matched := None;
      var i := 0;
      while i < |candidates|
        invariant 0 <= i <= |candidates|
        invariant FirstMatch(users, candidates, email, password) == FirstMatch(users, candidates[i..], email, password)
      {
        if PasswordMatches(users, candidates[i], email, password) {
          return Some(candidates[i]);
        }
        i := i + 1;
      }
    }

    method CheckTrustedDevice(device: Option<Claims>, expectedUser: Id, now: int) returns (sid: Option<Id>)
      ensures sid == TrustedSession(Db(), device, expectedUser, now)
    {
      if device.None? || device.value !in issued || device.value.exp <= now {
        return None;
      }
      var payload := device.value;
      if payload.typ != DeviceTrust || payload.sub != expectedUser || payload.sid.None? {
        return None;
      }
      if payload.sid.value !in sessions || sessions[payload.sid.value].user != expectedUser {
        return None;
      }
      var session := sessions[payload.sid.value];
      if session.trustedUntil.None? || session.trustedUntil.value < now {
        return None;
      }
      return payload.sid;
    }

    method OpenSession(sid: Id, tenant: Id, user: Id, trustedUntil: Option<int>, now: int)
      modifies this
      ensures Db() == CreateSession(old(Db()), sid, tenant, user, trustedUntil, now)
    {
      sessions := sessions[sid := Session(tenant, user, trustedUntil, now)];
      usedSids := usedSids + {sid};
    }

    method SignToken(c: Claims)
      modifies this`issued
      ensures Db() == Sign(old(Db()), c)
    {
      issued := issued + {c};
    }

    method Login(dto: LoginDto, ip: Option<string>, candidates: seq<Id>, sid: Id, exp: int, now: int)
        returns (result: LoginResult)
      modifies this, limiter
      ensures var matches := FirstMatch(old(users), candidates, dto.email, dto.password).Some?;
              var (allowed, redis) := AfterAttempt(old(limiter.redis), Attempt(dto.email, ip, now, matches));
              && limiter.redis == redis
              && (result, Db()) == if allowed then LoginCall(old(Db()), dto, candidates, sid, exp, now)
                  else (TooManyAttempts, old(Db()))
    {
      var emailOk := limiter.Consume(EmailKey(dto.email), LOGIN_LIMIT, LOGIN_WINDOW, now);
      var ipOk := true;
      if ip.Some? {
        ipOk := limiter.Consume(IpKey(ip.value), IP_LIMIT, LOGIN_WINDOW, now);
      }
      if !emailOk || !ipOk {
        return TooManyAttempts;
      }
      var matched := CompareCandidates(candidates, dto.email, dto.password);
      if matched.None? {
        return BadCredentials;
      }
      limiter.Reset(EmailKey(dto.email));
      assert limiter.redis == Exec(Guard(old(limiter.redis), Attempt(dto.email, ip, now, true)).1,
          Del(EmailKey(dto.email), now));
      result := Proceed(matched.value, dto, sid, exp, now);
    }

    /** After the password: the second factor, then the session. */
    method Proceed(id: Id, dto: LoginDto, sid: Id, exp: int, now: int) returns (result: LoginResult)
      requires id in users
      modifies this
      ensures forall order | FirstMatch(old(users), order, dto.email, dto.password) == Some(id) ::
                (result, Db()) == LoginCall(old(Db()), dto, order, sid, exp, now)
    {
      var u := users[id];
      if u.tenant !in enforced {
        return UnknownTenant;
      }
      if u.role in enforced[u.tenant] {
        var trusted := CheckTrustedDevice(dto.deviceToken, id, now);
        if trusted.None? {
          var temp := PendingClaims(id, u, now);
          SignToken(temp);
          return CodeRequired(!u.twoFactorEnabled, temp);
        }
        SignToken(AccessClaims(id, u, trusted.value, exp));
        return LoggedIn(AccessClaims(id, u, trusted.value, exp));
      }
      OpenSession(sid, u.tenant, id, None, now);
      SignToken(AccessClaims(id, u, sid, exp));
      return LoggedIn(AccessClaims(id, u, sid, exp));
    }

    method VerifyTwoFactor(user: Id, codeOk: bool, remember: bool, sid: Id, exp: int, now: int)
        returns (result: VerifyResult)
      modifies this
      ensures (result, Db()) == VerifyCall(old(Db()), user, codeOk, remember, sid, exp, now)
    {
      if user !in users {
        return UnknownUser;
      }
      var u := users[user];
      if u.secret.None? {
        return NotSetUp;
      }
      if !codeOk {
        return InvalidCode;
      }
      if !u.twoFactorEnabled {
        users := users[user := u.(twoFactorEnabled := true)];
      }
      assert users == old(users)[user := u.(twoFactorEnabled := true)];
      OpenSession(sid, u.tenant, user, if remember then Some(now + DEVICE_TRUST) else None, now);
      var deviceToken: Option<Claims> := None;
      if remember {
        deviceToken := Some(DeviceClaims(user, sid, now));
        SignToken(DeviceClaims(user, sid, now));
      }
      SignToken(AccessClaims(user, u, sid, exp));
      return Verified(AccessClaims(user, u, sid, exp), deviceToken);
    }

    /**
      Each candidate gets a link of its own. The caller gets the same answer whatever
      happened, so nothing is returned.
    */
    method ForgotPassword(email: string, candidates: seq<Id>, tokens: seq<string>, now: int)
      requires Candidates(users, email, candidates) && |tokens| == |candidates|
      modifies this`users, limiter
      ensures var (allowed, redis) :=
                AfterConsume(old(limiter.redis), ForgotKey(email), FORGOT_LIMIT, FORGOT_WINDOW, now);
              && limiter.redis == redis
              && users.Keys == old(users).Keys
              && (forall i | 0 <= i < |candidates| && allowed ::
                    users[candidates[i]] == WithResetLink(old(users)[candidates[i]], tokens[i], now))
              && (forall id | id in users && !(allowed && id in candidates) :: users[id] == old(users)[id])
    {
      var ok := limiter.Consume(ForgotKey(email), FORGOT_LIMIT, FORGOT_WINDOW, now);
      if !ok {
        return;
      }
      ghost var before := users;
      for i := 0 to |candidates|
        modifies this`users
        invariant users.Keys == before.Keys
        invariant forall j | 0 <= j < i :: users[candidates[j]] == WithResetLink(before[candidates[j]], tokens[j], now)
        invariant forall id | id in users && id !in candidates[..i] :: users[id] == before[id]
      {
        var id := candidates[i];
        assert id in candidates;
        assert id !in candidates[..i];
        users := users[id := WithResetLink(users[id], tokens[i], now)];
        assert candidates[..i + 1] == candidates[..i] + [id];
      }
      assert candidates[..|candidates|] == candidates;
    }

    method ResetPassword(order: seq<Id>, token: string, newPassword: string, now: int) returns (done: bool)
      modifies this
      ensures (done, Db()) == ResetCall(old(Db()), order, token, newPassword, now)
    {
      var i := 0;
      while i < |order| && !ResetTokenMatches(users, order[i], token, now)
        invariant 0 <= i <= |order|
        invariant FirstReset(users, order, token, now) == FirstReset(users, order[i..], token, now)
      {
        i := i + 1;
      }
      if i == |order| {
        return false;
      }
      var id := order[i];
      users := users[id := users[id].(password := HashOf(newPassword), resetHash := None)];
      sessions := sessions - (set sid | sid in sessions && sessions[sid].user == id);
      done := true;
    }

    /** Owners revoke their own sessions; the scoped client sees those of the caller's tenant only. */
    method Revoke(tenant: Id, user: Id, sid: Id) returns (revoked: bool)
      modifies this
      ensures revoked == (sid in old(sessions) && old(sessions)[sid].tenant == tenant &&
                old(sessions)[sid].user == user)
      ensures Db() == if revoked then DropSessions(old(Db()), {sid}) else old(Db())
    {
      if sid !in sessions || sessions[sid].tenant != tenant || sessions[sid].user != user {
        return false;
      }
      sessions := sessions - {sid};
      revoked := true;
    }
  }

  // ------------------------------------------------------------- reset links

  /** Five requests for links in fifteen minutes are heard, and no sixth; each email has a counter of its own. */
  lemma FiveLinksPerEmail(s: Store, email: string, other: string, times: seq<int>)
    requires times != [] && !Live(s, ForgotKey(email), times[0])
    requires forall t | t in times :: times[0] <= t < times[0] + 15 * 60 * 1000
    ensures var answers := Answers(s, ForgotKey(email), FORGOT_LIMIT, FORGOT_WINDOW, times);
            |answers| == |times| && forall i | 0 <= i < |times| :: answers[i] <==> i < 5
    ensures ForgotKey(email) == ForgotKey(other) <==> email == other
    ensures ForgotKey(email) != EmailKey(other) && ForgotKey(email) != IpKey(other)
  {
    WindowLetsLimitThrough(s, ForgotKey(email), FORGOT_LIMIT, FORGOT_WINDOW, times);
    assert ForgotKey(email)[16..] == email && ForgotKey(other)[16..] == other;
    assert ForgotKey(email)[0] == 'f' && EmailKey(other)[0] == 'l' && IpKey(other)[0] == 'l';
  }

  /** Whatever the interleaving, at most ten in any fifteen minutes, since nothing resets that counter. */
  lemma LinksBound(s: Store, run: seq<Command>, email: string, from: int)
    requires Chronological(run) && Uses(run, ForgotKey(email), FORGOT_LIMIT, FORGOT_WINDOW)
    requires forall c | c in run && c.key == ForgotKey(email) :: !c.Del?
    ensures AllowedIn(s, run, ForgotKey(email), from, from + 15 * 60 * 1000) <= 10
  {
    AllowedBound(s, run, ForgotKey(email), FORGOT_LIMIT, FORGOT_WINDOW, from);
    NoResets(run, ForgotKey(email), from, from + FORGOT_WINDOW);
  }

  lemma {:induction false} NoResets(run: seq<Command>, key: string, from: int, to: int)
    requires forall c | c in run && c.key == key :: !c.Del?
    ensures ResetsIn(run, key, from, to) == 0
  {
    if run != [] {
      assert run[0] in run;
      NoResets(run[1..], key, from, to);
    }
  }

  lemma {:induction false} FirstResetIs(users: map<Id, User>, order: seq<Id>, token: string, now: int)
    ensures FirstReset(users, order, token, now).None? <==>
              forall id | id in order :: !ResetTokenMatches(users, id, token, now)
    ensures FirstReset(users, order, token, now).Some? ==>
              var id := FirstReset(users, order, token, now).value;
              id in order && ResetTokenMatches(users, id, token, now)
  {
    if order != [] {
      FirstResetIs(users, order[1..], token, now);
    }
  }

  predicate LinkOutstanding(v: AuthDb, id: Id, token: string, now: int) {
    id in v.users && v.users[id].resetHash == Some(HashOf(token)) && now < v.users[id].resetExpiresAt
  }

  /**
    A link works once. A reset succeeds exactly when an unexpired
    link with this token is outstanding; it leaves its user without a session, and
    the same link, however it is tried again, does nothing more.
  */
  lemma ResetLinkWorksOnce(v: AuthDb, order: seq<Id>, token: string, password: string, now: int,
                           order': seq<Id>, password': string, now': int)
    requires forall id :: id in order <==> id in v.users
    requires forall x, y | x in v.users && y in v.users &&
              v.users[x].resetHash == v.users[y].resetHash == Some(HashOf(token)) :: x == y
    ensures var (done, w) := ResetCall(v, order, token, password, now);
            && (done <==> exists id :: LinkOutstanding(v, id, token, now))
            && (!done ==> w == v)
            && (done ==> ResetCall(w, order', token, password', now') == (false, w))
            && (done ==> exists id ::
                  && LinkOutstanding(v, id, token, now)
                  && w.users[id] == v.users[id].(password := HashOf(password), resetHash := None)
                  && (forall x | x in v.users && x != id :: x in w.users && w.users[x] == v.users[x])
                  && (forall sid :: sid in w.sessions <==> sid in v.sessions && v.sessions[sid].user != id)
                  && (forall sid | sid in w.sessions :: w.sessions[sid] == v.sessions[sid]))
  {
    FirstResetIs(v.users, order, token, now);
    var (done, w) := ResetCall(v, order, token, password, now);
    if done {
      FirstResetIs(w.users, order', token, now');
      var id := FirstReset(v.users, order, token, now).value;
      assert LinkOutstanding(v, id, token, now);
      assert forall x | x in w.users :: w.users[x].resetHash != Some(HashOf(token));
    } else {
      forall id | id in v.users && v.users[id].resetHash == Some(HashOf(token))
        ensures v.users[id].resetExpiresAt <= now
      {
        assert !ResetTokenMatches(v.users, id, token, now);
      }
    }
  }

  /**
    A link just sent resets its user's password for an hour and not a moment longer;
    the protocol's step leaves the same link.
  */
  lemma LinkWorksForAnHour(v: AuthDb, user: Id, token: string, sent: int, order: seq<Id>, password: string, at: int)
    requires user in v.users && forall id :: id in order <==> id in v.users
    requires forall x | x in v.users && x != user :: v.users[x].resetHash != Some(HashOf(token))
    ensures var w := v.(users := v.users[user := WithResetLink(v.users[user], token, sent)]);
            var (done, after) := ResetCall(w, order, token, password, at);
            && (done <==> at < sent + 60 * 60 * 1000)
            && (done ==> after.users == v.users[user :=
                w.users[user].(password := HashOf(password), resetHash := None)])
    ensures WithResetLink(v.users[user], token, sent).(resetHash := None, resetExpiresAt := 0) ==
            v.users[user].(resetHash := None, resetExpiresAt := 0)
  {
    var w := v.(users := v.users[user := WithResetLink(v.users[user], token, sent)]);
    FirstResetIs(w.users, order, token, at);
    if at < sent + 60 * 60 * 1000 {
      assert ResetTokenMatches(w.users, user, token, at);
    }
  }

  lemma LinkSentByProtocol(s: Protocol.State, user: Id, email: string, token: string)
    ensures Protocol.Next(s, Protocol.ForgotPassword(user, email, token)) ==
            if user in s.v.users && s.v.users[user].active && s.v.users[user].email == email
            then s.(v := s.v.(users := s.v.users[user := WithResetLink(s.v.users[user], token, s.now)]))
            else s
  {
  }

  /** A request is answered in a caller's name exactly when the gate lets its bearer in on the URL's path. */
  lemma RequestAdmittedIff(s: Protocol.State, bearer: Claims, url: string)
    ensures var path := RequestPath(url);
            var t := Protocol.Next(s, Protocol.Request(bearer, url));
            t == if Gate(s.v, Classify(path), Some(bearer), s.now).As?
                 then s.(log := s.log + [Protocol.Admitted(bearer, path, Classify(path), s.now)]) else s
  {
  }

  /** The freshness write, a researcher's login and the passing of time, each changing one thing. */
  lemma OtherStepsDo(s: Protocol.State, sid: Id, account: Id, tenant: Id, exp: int, ms: nat)
    ensures Protocol.Next(s, Protocol.TouchSession(sid)) ==
            if sid in s.v.sessions
            then s.(v := s.v.(sessions := s.v.sessions[sid := s.v.sessions[sid].(lastActive := s.now)])) else s
    ensures Protocol.Next(s, Protocol.IssueResearcherToken(account, tenant, exp)).v.issued ==
            s.v.issued + {Claims(account, Some(tenant), None, AccessToken, None, true, exp)}
    ensures Protocol.Next(s, Protocol.Wait(ms)) == s.(now := s.now + ms)
  {
  }

  /** In the protocol as in the call, a session is revoked by its user, within its tenant, and by nobody else. */
  lemma RevokedByItsUser(s: Protocol.State, tenant: Id, user: Id, sid: Id)
    ensures var t := Protocol.Next(s, Protocol.RevokeSession(tenant, user, sid));
            if sid in s.v.sessions && s.v.sessions[sid].tenant == tenant && s.v.sessions[sid].user == user
            then t.v == s.v.(sessions := s.v.sessions - {sid}) && t.log == s.log + [Protocol.SessionsRevoked({sid})]
            else t == s
  {
  }

  // ------------------------------------------------- what the calls answer

  /** A login, by what it finds: the user, the tenant's enforcement and the device. */
  lemma LoginAnswers(v: AuthDb, dto: LoginDto, order: seq<Id>, sid: Id, exp: int, now: int, id: Id)
    requires FirstMatch(v.users, order, dto.email, dto.password) == Some(id) && id in v.users
    ensures var u := v.users[id];
            var (result, w) := LoginCall(v, dto, order, sid, exp, now);
            var trusted := TrustedSession(v, dto.deviceToken, id, now);
            if u.tenant !in v.enforced then result == UnknownTenant && w == v
            else if u.role in v.enforced[u.tenant] && trusted.None? then
              && result.CodeRequired? && result.setupRequired == !u.twoFactorEnabled
              && result.tempToken ==
                 Claims(id, Some(u.tenant), Some(u.role), PendingTwoFactor, None, false, now + 10 * 60 * 1000)
              && w == v.(issued := v.issued + {result.tempToken})
            else
              var session := if u.role in v.enforced[u.tenant] then trusted.value else sid;
              && result == LoggedIn(Claims(id, Some(u.tenant), Some(u.role), AccessToken, Some(session), false, exp))
              && w.issued == v.issued + {result.accessToken} && w.users == v.users && w.enforced == v.enforced
              && w.sessions == if u.role in v.enforced[u.tenant] then v.sessions
                               else v.sessions[sid := Session(u.tenant, id, None, now)]
  {
  }

  lemma LoginRefused(v: AuthDb, dto: LoginDto, order: seq<Id>, sid: Id, exp: int, now: int)
    requires FirstMatch(v.users, order, dto.email, dto.password).None?
    ensures LoginCall(v, dto, order, sid, exp, now) == (BadCredentials, v)
  {
  }

  /**
    A device remembered at a verification spares its user the code for 30 days to
    the millisecond, as long as its session is not revoked; then, or without asking to
    be remembered, a code is required again.
  */
  lemma DeviceRemembered(v: AuthDb, user: Id, sid: Id, exp: int, now: int, email: string, password: string,
                         order: seq<Id>, newSid: Id, later: int)
    requires user in v.users && v.users[user].secret.Some?
    requires v.users[user].tenant in v.enforced && v.users[user].role in v.enforced[v.users[user].tenant]
    requires FirstMatch(v.users, order, email, password) == Some(user)
    ensures var r := VerifyCall(v, user, true, true, sid, exp, now).0;
            r.Verified? && r.deviceToken.Some?
    ensures var (r, w) := VerifyCall(v, user, true, true, sid, exp, now);
            var login := LoginCall(w, LoginDto(email, password, r.deviceToken), order, newSid, exp, later).0;
            if later < now + 30 * 24 * 60 * 60 * 1000 then login.LoggedIn? && login.accessToken.sid == Some(sid)
            else login.CodeRequired?
    ensures var (r, w) := VerifyCall(v, user, true, true, sid, exp, now);
            var dto := LoginDto(email, password, r.deviceToken);
            LoginCall(DropSessions(w, {sid}), dto, order, newSid, exp, later).0.CodeRequired?
    ensures var (r, w) := VerifyCall(v, user, true, false, sid, exp, now);
            r.Verified? && r.deviceToken.None? && w.sessions[sid].trustedUntil.None?
  {
    var w := VerifyCall(v, user, true, true, sid, exp, now).1;
    SameMatch(v.users, w.users, order, email, password);
  }

  lemma {:induction false} SameMatch(users: map<Id, User>, users': map<Id, User>, order: seq<Id>, email: string,
                                     password: string)
    requires users.Keys == users'.Keys
    requires forall id | id in users ::
               && users'[id].active == users[id].active && users'[id].email == users[id].email
               && users'[id].password == users[id].password
    ensures FirstMatch(users', order, email, password) == FirstMatch(users, order, email, password)
  {
    if order != [] {
      SameMatch(users, users', order[1..], email, password);
    }
  }

  /** A verification, by what it finds. */
  lemma VerifyAnswers(v: AuthDb, user: Id, codeOk: bool, remember: bool, sid: Id, exp: int, now: int)
    ensures var (result, w) := VerifyCall(v, user, codeOk, remember, sid, exp, now);
            if user !in v.users then result == UnknownUser && w == v
            else if v.users[user].secret.None? then result == NotSetUp && w == v
            else if !codeOk then result == InvalidCode && w == v
            else
              var u := v.users[user];
              && result.Verified?
              && result.accessToken == Claims(user, Some(u.tenant), Some(u.role), AccessToken, Some(sid), false, exp)
              && w.users == v.users[user := u.(twoFactorEnabled := true)]
              && w.sessions == v.sessions[sid := Session(u.tenant, user,
                                 if remember then Some(now + 30 * 24 * 60 * 60 * 1000) else None, now)]
              && result.deviceToken == (if remember
                   then Some(Claims(user, None, None, DeviceTrust, Some(sid), false, now + 30 * 24 * 60 * 60 * 1000))
                   else None)
              && w.issued == v.issued + {result.accessToken}
                             + (if remember then {result.deviceToken.value} else {})
  {
  }

  // ----------------------------------------------- calls are undisturbed flights

  lemma VerifiedLands(s: Protocol.State, user: Id, remember: bool, sid: Id, exp: int)
    requires user in s.v.users && s.v.users[user].secret.Some?
    ensures var (result, v) := VerifyCall(s.v, user, true, remember, sid, exp, s.now);
            var t := Protocol.Next(Protocol.Verified(s, user, remember, sid), Protocol.SignAccess(|s.flights|, exp));
            result.Verified? && v == t.v
  {
    assert Protocol.Verified(s, user, remember, sid).flights[|s.flights|].Granted?;
  }

  /** A verification whose bearer is admitted is the protocol's two steps, accepted or not. */
  lemma UndisturbedVerification(s: Protocol.State, bearer: Claims, route: Route, codeOk: bool, remember: bool,
                                sid: Id, exp: int)
    requires Gate(s.v, route, Some(bearer), s.now).As? && route.verify && sid !in s.v.usedSids
    ensures var (result, v) := VerifyCall(s.v, bearer.sub, codeOk, remember, sid, exp, s.now);
            var t := Protocol.Next(s, Protocol.VerifyCode(bearer, route, codeOk, remember, sid));
            && v == Protocol.Next(t, Protocol.SignAccess(|s.flights|, exp)).v
            && (result.Verified? <==> Protocol.CodeAccepted(s, bearer, route, codeOk))
  {
    var t := Protocol.Next(s, Protocol.VerifyCode(bearer, route, codeOk, remember, sid));
    if Protocol.CodeAccepted(s, bearer, route, codeOk) {
      VerifiedLands(s, bearer.sub, remember, sid, exp);
      assert t == Protocol.Verified(s, bearer.sub, remember, sid);
    } else {
      assert t == s;
    }
  }

  /** The protocol's reset and wipe, with nothing between, are the call. */
  lemma UndisturbedReset(s: Protocol.State, order: seq<Id>, token: string, password: string)
    ensures var hit := FirstReset(s.v.users, order, token, s.now);
            var (done, v) := ResetCall(s.v, order, token, password, s.now);
            if done then Protocol.Run(s, [Protocol.ResetPassword(hit.value, token, password),
                Protocol.WipeSessions(|s.flights|)]).v == v
            else v == s.v && forall user | user in order ::
                Protocol.Next(s, Protocol.ResetPassword(user, token, password)) == s
  {
    FirstResetIs(s.v.users, order, token, s.now);
    var hit := FirstReset(s.v.users, order, token, s.now);
    if ResetCall(s.v, order, token, password, s.now).0 {
      var a, b := Protocol.ResetPassword(hit.value, token, password), Protocol.WipeSessions(|s.flights|);
      assert [a, b][1..] == [b] && [b][1..] == [];
      var s1 := Protocol.Next(s, a);
      assert Protocol.Run(s1, [b]) == Protocol.Run(Protocol.Next(s1, b), []);
    }
  }

  lemma PasswordSteps(s: Protocol.State, dto: LoginDto, order: seq<Id>)
    ensures var k := |s.flights|;
            var t := Protocol.Next(Protocol.Next(s, Protocol.SubmitLogin(dto.email, dto.password, dto.deviceToken)),
                                   Protocol.MatchPassword(k, order));
            var hit := FirstMatch(s.v.users, order, dto.email, dto.password);
            && t.v == s.v && t.now == s.now && |t.flights| == k + 1
            && t.flights[k] == if hit.None? || hit.value !in s.v.users then Protocol.Ended
                               else Protocol.Matched(hit.value, s.v.users[hit.value], dto.deviceToken)
  {
    var s1 := Protocol.Next(s, Protocol.SubmitLogin(dto.email, dto.password, dto.deviceToken));
    assert s1.flights[|s.flights|] == Protocol.Submitted(dto.email, dto.password, dto.deviceToken);
  }

  function AfterPassword(s: Protocol.State, k: nat, sid: Id, exp: int): Protocol.State {
    Protocol.Next(Protocol.Next(Protocol.Next(Protocol.Next(s, Protocol.ReadEnforcement(k)), Protocol.CheckDevice(k)),
                                Protocol.OpenSession(k, sid)), Protocol.SignAccess(k, exp))
  }

  /** Left alone, the protocol's login steps are the call. */
  lemma UndisturbedLogin(s: Protocol.State, dto: LoginDto, order: seq<Id>, sid: Id, exp: int)
    requires sid !in s.v.usedSids
    ensures var k := |s.flights|;
            var (result, v) := LoginCall(s.v, dto, order, sid, exp, s.now);
            var submit := Protocol.SubmitLogin(dto.email, dto.password, dto.deviceToken);
            var t := Protocol.Run(s, [submit, Protocol.MatchPassword(k, order), Protocol.ReadEnforcement(k),
                                      Protocol.CheckDevice(k), Protocol.OpenSession(k, sid),
                                      Protocol.SignAccess(k, exp)]);
            t.v == v && t.now == s.now
  {
    var k := |s.flights|;
    PasswordSteps(s, dto, order);
    LoginSteps(s, dto, order, sid, exp);
    var s2 := Protocol.Next(Protocol.Next(s, Protocol.SubmitLogin(dto.email, dto.password, dto.deviceToken)),
        Protocol.MatchPassword(k, order));
    FlightLanded(s2, k, sid, exp);
  }

  lemma LoginSteps(s: Protocol.State, dto: LoginDto, order: seq<Id>, sid: Id, exp: int)
    ensures var k := |s.flights|;
            var a, b := Protocol.SubmitLogin(dto.email, dto.password, dto.deviceToken),
                Protocol.MatchPassword(k, order);
            Protocol.Run(s, [a, b, Protocol.ReadEnforcement(k), Protocol.CheckDevice(k), Protocol.OpenSession(k, sid),
                Protocol.SignAccess(k, exp)])
            == AfterPassword(Protocol.Next(Protocol.Next(s, a), b), k, sid, exp)
  {
    var k := |s.flights|;
    SixSteps(s, Protocol.SubmitLogin(dto.email, dto.password, dto.deviceToken), Protocol.MatchPassword(k, order),
             Protocol.ReadEnforcement(k), Protocol.CheckDevice(k), Protocol.OpenSession(k, sid),
                 Protocol.SignAccess(k, exp));
  }

  lemma FlightLanded(s: Protocol.State, k: nat, sid: Id, exp: int)
    requires k < |s.flights| && (s.flights[k].Ended? || s.flights[k].Matched?) && sid !in s.v.usedSids
    ensures AfterPassword(s, k, sid, exp).now == s.now
    ensures AfterPassword(s, k, sid, exp).v ==
            if s.flights[k].Ended? then s.v
                else Landed(s.v, s.flights[k].user, s.flights[k].u, s.flights[k].device, sid, exp, s.now)
  {
    if s.flights[k].Matched? {
      UndisturbedFlight(s, k, sid, exp);
    }
  }

  /** What a login that matched this user leaves behind. */
  function Landed(v: AuthDb, user: Id, u: User, device: Option<Claims>, sid: Id, exp: int, now: int): AuthDb {
    if u.tenant !in v.enforced then v
    else if Enforced(v, u) then
      var trusted := TrustedSession(v, device, user, now);
      if trusted.None? then Sign(v, PendingClaims(user, u, now)) else Sign(v, AccessClaims(user, u, trusted.value, exp))
    else Sign(CreateSession(v, sid, u.tenant, user, None, now), AccessClaims(user, u, sid, exp))
  }

  lemma UndisturbedFlight(s: Protocol.State, k: nat, sid: Id, exp: int)
    requires k < |s.flights| && s.flights[k].Matched? && sid !in s.v.usedSids
    ensures var f := s.flights[k];
            var t := AfterPassword(s, k, sid, exp);
            t.now == s.now && t.v == Landed(s.v, f.user, f.u, f.device, sid, exp, s.now)
  {
    var s1 := Protocol.Next(s, Protocol.ReadEnforcement(k));
    var s2 := Protocol.Next(s1, Protocol.CheckDevice(k));
    var s3 := Protocol.Next(s2, Protocol.OpenSession(k, sid));
    assert s1.flights[k].Ended? || s1.flights[k].NeedsDevice? || s1.flights[k].Free?;
    assert s2.flights[k].Ended? || s2.flights[k].Granted? || s2.flights[k].Free?;
    assert s3.flights[k].Ended? || s3.flights[k].Granted?;
  }

  lemma SixSteps(s: Protocol.State, a: Protocol.Step, b: Protocol.Step, c: Protocol.Step, d: Protocol.Step,
      e: Protocol.Step, f: Protocol.Step)
    ensures Protocol.Run(s, [a, b, c, d, e, f]) ==
            Protocol.Next(Protocol.Next(Protocol.Next(Protocol.Next(Protocol.Next(Protocol.Next(s, a), b), c), d), e),
                f)
  {
    var s3 := Protocol.Next(Protocol.Next(Protocol.Next(s, a), b), c);
    ThreeSteps(s3, d, e, f);
    assert [a, b, c, d, e, f][1..] == [b, c, d, e, f] && [b, c, d, e, f][1..] == [c, d, e, f] &&
        [c, d, e, f][1..] == [d, e, f];
    var s1 := Protocol.Next(s, a);
    assert Protocol.Run(s1, [b, c, d, e, f]) == Protocol.Run(Protocol.Next(s1, b), [c, d, e, f]);
  }

  lemma ThreeSteps(s: Protocol.State, a: Protocol.Step, b: Protocol.Step, c: Protocol.Step)
    ensures Protocol.Run(s, [a, b, c]) == Protocol.Next(Protocol.Next(Protocol.Next(s, a), b), c)
  {
    assert [a, b, c][1..] == [b, c] && [b, c][1..] == [c] && [c][1..] == [];
    var s1 := Protocol.Next(s, a);
    var s2 := Protocol.Next(s1, b);
    assert Protocol.Run(s2, [c]) == Protocol.Run(Protocol.Next(s2, c), []);
    assert Protocol.Run(s1, [b, c]) == Protocol.Run(s2, [c]);
  }
}
