/**
  Staff authentication: users, sessions, signed tokens, and the checks the login
  and two-factor endpoints make. Hashing is taken as an injective function and a
  signature as membership in the set of tokens the service has issued.
*/
module Auth {
  import opened Common
  import opened Policy

  const SECOND: int := 1000
  const DEVICE_TRUST: int := 30 * 24 * 60 * 60 * SECOND
  const PENDING_LIFETIME: int := 10 * 60 * SECOND
  const RESET_LIFETIME: int := 60 * 60 * SECOND

  datatype Hash = HashOf(text: string)

  datatype User = User(
    tenant: Id, email: string, password: Hash, role: Role, active: bool,
    secret: Option<string>, twoFactorEnabled: bool,
    resetHash: Option<Hash>, resetExpiresAt: int)

  datatype Session = Session(tenant: Id, user: Id, trustedUntil: Option<int>, lastActive: int)

  datatype TokenType = AccessToken | PendingTwoFactor | DeviceTrust

  /** The claims the service signs and the middleware looks at. */
  datatype Claims = Claims(sub: Id, tenant: Option<Id>, role: Option<Role>, typ: TokenType,
                           sid: Option<Id>, researcher: bool, exp: int)

  /** Tables and issued tokens. `usedSids` are all session ids ever drawn. */
  datatype AuthDb = AuthDb(users: map<Id, User>, enforced: map<Id, set<Role>>, sessions: map<Id, Session>,
                       usedSids: set<Id>, issued: set<Claims>)

  predicate ValidToken(v: AuthDb, c: Claims, now: int) {
    c in v.issued && now < c.exp
  }

  /** First active user, in the database's order, with this email and password. */
  function FirstMatch(users: map<Id, User>, order: seq<Id>, email: string, password: string): Option<Id> {
    if order == [] then None
    else if PasswordMatches(users, order[0], email, password) then Some(order[0])
    else FirstMatch(users, order[1..], email, password)
  }

  predicate PasswordMatches(users: map<Id, User>, id: Id, email: string, password: string) {
    id in users && users[id].active && users[id].email == email && users[id].password == HashOf(password)
  }

  predicate Enforced(v: AuthDb, u: User) {
    u.tenant in v.enforced && u.role in v.enforced[u.tenant]
  }

  /** The session that lets this device skip the code, if there is one. */
  function TrustedSession(v: AuthDb, device: Option<Claims>, user: Id, now: int): Option<Id> {
    if device.None? || !ValidToken(v, device.value, now) then None
    else
      var c := device.value;
      if c.typ != DeviceTrust || c.sub != user then None
      else if c.sid.None? || c.sid.value !in v.sessions || v.sessions[c.sid.value].user != user then None
      else
        var until := v.sessions[c.sid.value].trustedUntil;
        if until.None? || until.value < now then None else c.sid
  }

  /** Session ids are fresh uuids. */
  function CreateSession(v: AuthDb, sid: Id, tenant: Id, user: Id, trustedUntil: Option<int>, now: int): AuthDb {
    v.(sessions := v.sessions[sid := Session(tenant, user, trustedUntil, now)], usedSids := v.usedSids + {sid})
  }

  function Sign(v: AuthDb, c: Claims): AuthDb {
    v.(issued := v.issued + {c})
  }

  function AccessClaims(user: Id, u: User, sid: Id, exp: int): Claims {
    Claims(user, Some(u.tenant), Some(u.role), AccessToken, Some(sid), false, exp)
  }

  function PendingClaims(user: Id, u: User, now: int): Claims {
    Claims(user, Some(u.tenant), Some(u.role), PendingTwoFactor, None, false, now + PENDING_LIFETIME)
  }

  /** A device token carries neither tenant nor role. */
  function DeviceClaims(user: Id, sid: Id, now: int): Claims {
    Claims(user, None, None, DeviceTrust, Some(sid), false, now + DEVICE_TRUST)
  }

  function ResearcherClaims(account: Id, tenant: Id, exp: int): Claims {
    Claims(account, Some(tenant), None, AccessToken, None, true, exp)
  }

  predicate ResetTokenMatches(users: map<Id, User>, id: Id, token: string, now: int) {
    id in users && users[id].resetHash == Some(HashOf(token)) && users[id].resetExpiresAt > now
  }

  function SessionsOf(v: AuthDb, user: Id): set<Id> {
    set sid | sid in v.sessions && v.sessions[sid].user == user
  }

  function DropSessions(v: AuthDb, sids: set<Id>): AuthDb {
    v.(sessions := v.sessions - sids)
  }

  /**
    A match is an active user of this email with this password, the first such of the
    list; none means there is none.
  */
  lemma {:induction false} FirstMatchMeans(users: map<Id, User>, order: seq<Id>, email: string, password: string)
    ensures var hit := FirstMatch(users, order, email, password);
            if hit.None? then
              forall id | id in order && id in users ::
                !(users[id].active && users[id].email == email && users[id].password == HashOf(password))
            else
              exists i | 0 <= i < |order| ::
                && order[i] == hit.value && order[i] in users
                && users[order[i]].active && users[order[i]].email == email
                && users[order[i]].password == HashOf(password)
                && forall j | 0 <= j < i && order[j] in users ::
                     !(users[order[j]].active && users[order[j]].email == email
                       && users[order[j]].password == HashOf(password))
  {
    if order != [] && !PasswordMatches(users, order[0], email, password) {
      var rest := order[1..];
      FirstMatchMeans(users, rest, email, password);
      var hit := FirstMatch(users, rest, email, password);
      if hit.Some? {
        var i :| 0 <= i < |rest| && rest[i] == hit.value && rest[i] in users
                 && users[rest[i]].active && users[rest[i]].email == email &&
                     users[rest[i]].password == HashOf(password)
                 && forall j | 0 <= j < i && rest[j] in users ::
                      !(users[rest[j]].active && users[rest[j]].email == email
                        && users[rest[j]].password == HashOf(password));
        assert order[i + 1] == rest[i];
        assert forall j | 0 < j < i + 1 :: order[j] == rest[j - 1];
      }
    }
  }

  /**
    A device is trusted with a token signed for it, unexpired, whose session is there,
    this user's, and still trusted.
  */
  lemma TrustedSessionMeans(v: AuthDb, device: Option<Claims>, user: Id, now: int, sid: Id)
    ensures TrustedSession(v, device, user, now) == Some(sid) <==>
            && device.Some? && device.value in v.issued && now < device.value.exp
            && device.value.typ == DeviceTrust && device.value.sub == user && device.value.sid == Some(sid)
            && sid in v.sessions && v.sessions[sid].user == user
            && v.sessions[sid].trustedUntil.Some? && now <= v.sessions[sid].trustedUntil.value
  {
  }
}
