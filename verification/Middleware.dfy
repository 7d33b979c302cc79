/** The request gate: which requests get through, and in whose name. */
module Middleware {
  import opened Common
  import opened Policy
  import opened Auth
  import Scoping = TenantScoping
  import QueryEngine

  const PUBLIC_PATHS: seq<string> := [
    "/auth/login", "/auth/forgot-password", "/auth/reset-password", "/health",
    "/researcher-portal/register", "/researcher-portal/login"
  ]

  /** The URL up to its query string. */
  function RequestPath(url: string): string {
    if url == "" || url[0] == '?' then "" else [url[0]] + RequestPath(url[1..])
  }

  predicate StartsWithOneOf(path: string, prefixes: seq<string>) {
    exists p | p in prefixes :: p <= path
  }

  predicate EndsWith(path: string, suffix: string) {
    |suffix| <= |path| && path[|path| - |suffix|..] == suffix
  }

  predicate HasStaticExtension(path: string) {
    || EndsWith(path, ".html") || EndsWith(path, ".css") || EndsWith(path, ".js") || EndsWith(path, ".map")
    || EndsWith(path, ".png") || EndsWith(path, ".jpg") || EndsWith(path, ".jpeg") || EndsWith(path, ".svg")
    || EndsWith(path, ".ico") || EndsWith(path, ".webp") || EndsWith(path, ".woff") || EndsWith(path, ".woff2")
  }

  predicate IsStaticAsset(path: string) {
    path == "/" || "/css/" <= path || "/js/" <= path || "/images/" <= path || HasStaticExtension(path)
  }

  predicate IsOpen(path: string) {
    IsStaticAsset(path) || StartsWithOneOf(path, PUBLIC_PATHS)
  }

  predicate IsSetupPath(path: string) {
    "/auth/2fa/setup" <= path
  }

  predicate IsVerifyPath(path: string) {
    "/auth/2fa/verify" <= path
  }

  predicate IsResearcherRoute(path: string) {
    "/researcher-portal" <= path
  }

  /** All the gate and the two-factor endpoints need to know about a path. */
  datatype Route = Route(open: bool, researcher: bool, setup: bool, verify: bool) {
    /** The paths a pending token may use. */
    predicate TwoFactor() {
      setup || verify
    }
  }

  function Classify(path: string): Route {
    Route(IsOpen(path), IsResearcherRoute(path), IsSetupPath(path), IsVerifyPath(path))
  }

  datatype Context = Context(tenant: Option<Id>, user: Id, role: Option<Role>, researcher: bool)

  datatype Admission = Refused | Anonymous | As(ctx: Context)

  /** Prisma ignores a filter on an undefined tenant, so a token without one matches any session row. */
  predicate SessionFound(v: AuthDb, c: Claims) {
    c.sid.Some? && c.sid.value in v.sessions && (c.tenant.Some? ==> v.sessions[c.sid.value].tenant == c.tenant.value)
  }

  /** The decision, once the path is classified. */
  function Gate(v: AuthDb, route: Route, bearer: Option<Claims>, now: int): Admission {
    if route.open then Anonymous
    else if bearer.None? || !ValidToken(v, bearer.value, now) then Refused
    else
      var c := bearer.value;
      if route.researcher != c.researcher then Refused
      else if c.researcher then As(Context(c.tenant, c.sub, None, true))
      else if c.typ == PendingTwoFactor then
        if route.TwoFactor() then As(Context(c.tenant, c.sub, c.role, false)) else Refused
      else if c.sid.Some? && !SessionFound(v, c) then Refused
      else As(Context(c.tenant, c.sub, c.role, false))
  }

  function Admit(v: AuthDb, path: string, bearer: Option<Claims>, now: int): Admission {
    Gate(v, Classify(path), bearer, now)
  }

  /**
    The gate, bearer by bearer: off the open paths it lets in exactly an issued,
    unexpired token of the path's audience which is a researcher's, or a pending one on
    a two-factor path, or any other whose session, if it names one, is there for its
    tenant. It acts in the name, tenant and role the token carries, a researcher with
    no staff role.
  */
  lemma GateMeans(v: AuthDb, route: Route, bearer: Option<Claims>, now: int)
    ensures Gate(v, route, bearer, now) == Anonymous <==> route.open
    ensures !route.open ==>
              (Gate(v, route, bearer, now).As? <==>
               && bearer.Some? && bearer.value in v.issued && now < bearer.value.exp
               && bearer.value.researcher == route.researcher
               && (|| bearer.value.researcher
                   || (bearer.value.typ == PendingTwoFactor && (route.setup || route.verify))
                   || (bearer.value.typ != PendingTwoFactor &&
                       (bearer.value.sid.Some? ==>
                          && bearer.value.sid.value in v.sessions
                          && (bearer.value.tenant.Some? ==>
                                v.sessions[bearer.value.sid.value].tenant == bearer.value.tenant.value)))))
    ensures Gate(v, route, bearer, now).As? ==>
              var ctx := Gate(v, route, bearer, now).ctx;
              && ctx.user == bearer.value.sub && ctx.tenant == bearer.value.tenant
              && ctx.researcher == bearer.value.researcher
              && ctx.role == if bearer.value.researcher then None else bearer.value.role
  {
  }

  /** A researcher's token, while it lasts, acts in the portal for the tenant it was issued for, with no staff role. */
  lemma ResearcherAdmitted(v: AuthDb, route: Route, account: Id, tenant: Id, exp: int, now: int)
    requires !route.open && ResearcherClaims(account, tenant, exp) in v.issued
    ensures Gate(v, route, Some(ResearcherClaims(account, tenant, exp)), now) ==
            if route.researcher && now < exp then As(Context(Some(tenant), account, None, true)) else Refused
  {
  }

  lemma GateAudience(v: AuthDb, route: Route, c: Claims, now: int)
    requires Gate(v, route, Some(c), now).As?
    ensures route.researcher == c.researcher == Gate(v, route, Some(c), now).ctx.researcher
  {
  }

  /** One audience per token: no token ever acts on both sides of the portal boundary. */
  lemma AudiencesExclusive(v: AuthDb, w: AuthDb, p: string, q: string, c: Claims, now: int, later: int)
    requires "/researcher-portal" <= p && !("/researcher-portal" <= q)
    ensures !Admit(v, p, Some(c), now).As? || !Admit(w, q, Some(c), later).As?
  {
    if Admit(v, p, Some(c), now).As? && Admit(w, q, Some(c), later).As? {
      GateAudience(v, Classify(p), c, now);
      GateAudience(w, Classify(q), c, later);
    }
  }

  /** A half-authenticated token reaches nothing but the two-factor endpoints. */
  lemma PendingConfined(v: AuthDb, path: string, c: Claims, now: int)
    requires c.typ == PendingTwoFactor && !c.researcher
    ensures Admit(v, path, Some(c), now).As? ==> IsSetupPath(path) || IsVerifyPath(path)
  {
  }

  /**
    A pending token, or a device token whose session stands: what the two-factor
    endpoints let in besides access tokens.
  */
  predicate HalfAuthenticated(v: AuthDb, c: Claims, now: int) {
    && ValidToken(v, c, now) && !c.researcher
    && (c.typ == PendingTwoFactor || (c.typ == DeviceTrust && c.sid.Some? && SessionFound(v, c)))
  }

  lemma HalfAuthenticatedAdmitted(v: AuthDb, route: Route, c: Claims, now: int)
    requires HalfAuthenticated(v, c, now) && !route.open && !route.researcher && route.TwoFactor()
    ensures Gate(v, route, Some(c), now).As?
  {
  }

  lemma NoPrefix(path: string, p: string, i: nat)
    requires i < |p| && (i < |path| ==> path[i] != p[i])
    ensures !(p <= path)
  {
  }

  lemma NotPublic(path: string)
    requires |path| > 10 && path[..10] == "/auth/2fa/"
    ensures !StartsWithOneOf(path, PUBLIC_PATHS) && !IsResearcherRoute(path)
  {
    assert path[1] == 'a' && path[6] == '2';
    NoPrefix(path, "/auth/login", 6);
    NoPrefix(path, "/auth/forgot-password", 6);
    NoPrefix(path, "/auth/reset-password", 6);
    NoPrefix(path, "/health", 1);
    NoPrefix(path, "/researcher-portal/register", 1);
    NoPrefix(path, "/researcher-portal/login", 1);
    NoPrefix(path, "/researcher-portal", 1);
  }

  lemma NoSuffix(path: string, s: string, i: nat)
    requires i < |s| && (i < |path| ==> path[|path| - 1 - i] != s[|s| - 1 - i])
    ensures !EndsWith(path, s)
  {
    if |s| <= |path| {
      assert path[|path| - |s|..][|s| - 1 - i] == path[|path| - 1 - i];
    }
  }

  lemma NotStatic(path: string)
    requires |path| > 10 && path[..10] == "/auth/2fa/"
    requires path[|path| - 1] == 'y' || (path[|path| - 1] == 'p' && path[|path| - 2] == 'u')
    ensures !IsStaticAsset(path)
  {
    assert path[1] == 'a';
    NoPrefix(path, "/css/", 1);
    NoPrefix(path, "/js/", 1);
    NoPrefix(path, "/images/", 1);
    NoStaticSuffix(path);
  }

  lemma NoStaticSuffix(path: string)
    requires |path| > 10
    requires path[|path| - 1] == 'y' || (path[|path| - 1] == 'p' && path[|path| - 2] == 'u')
    ensures !HasStaticExtension(path)
  {
    NoSuffix(path, ".html", 0);
    NoSuffix(path, ".css", 0);
    NoSuffix(path, ".js", 0);
    NoSuffix(path, ".map", if path[|path| - 1] == 'y' then 0 else 1);
    NoSuffix(path, ".png", 0);
    NoSuffix(path, ".jpg", 0);
    NoSuffix(path, ".jpeg", 0);
    NoSuffix(path, ".svg", 0);
    NoSuffix(path, ".ico", 0);
    NoSuffix(path, ".webp", if path[|path| - 1] == 'y' then 0 else 1);
    NoSuffix(path, ".woff", 0);
    NoSuffix(path, ".woff2", 0);
  }

  lemma NotOpen(path: string)
    requires |path| > 10 && path[..10] == "/auth/2fa/"
    requires path[|path| - 1] == 'y' || (path[|path| - 1] == 'p' && path[|path| - 2] == 'u')
    ensures !IsOpen(path) && !IsResearcherRoute(path)
  {
    NotStatic(path);
    NotPublic(path);
  }

  /** The two endpoints themselves, as the gate sees them. */
  lemma TwoFactorRoutes(setup: string, verify: string)
    requires setup == "/auth/2fa/setup" && verify == "/auth/2fa/verify"
    ensures Classify(setup) == Route(false, false, true, false)
    ensures Classify(verify) == Route(false, false, false, true)
  {
    assert setup[10] == 's' && verify[10] == 'v';
    assert setup[..10] == "/auth/2fa/" && verify[..10] == "/auth/2fa/";
    NotOpen(setup);
    NotOpen(verify);
    NoPrefix(setup, verify, 10);
    NoPrefix(verify, setup, 10);
  }

  /** The query string plays no part in the decision. */
  lemma {:induction false} PathIgnoresQuery(path: string, query: string)
    requires '?' !in path
    ensures RequestPath(path + "?" + query) == path && RequestPath(path) == path
  {
    if path != "" {
      assert path == [path[0]] + path[1..];
      assert path + "?" + query == [path[0]] + (path[1..] + "?" + query);
      PathIgnoresQuery(path[1..], query);
    }
  }

  /** Whatever ends in one of the twelve extensions is open. */
  lemma StaticFilesOpen(stem: string, extension: string)
    requires || extension == ".html" || extension == ".css" || extension == ".js" || extension == ".map"
             || extension == ".png" || extension == ".jpg" || extension == ".jpeg" || extension == ".svg"
             || extension == ".ico" || extension == ".webp" || extension == ".woff" || extension == ".woff2"
    ensures IsOpen(stem + extension)
  {
    assert (stem + extension)[|stem|..] == extension;
  }

  lemma NoDotNoExtension(path: string)
    requires '.' !in path
    ensures !HasStaticExtension(path)
  {
    forall s: string | s != "" && s[0] == '.' ensures !EndsWith(path, s) {
      if |s| <= |path| {
        assert path[|path| - |s|..][0] == path[|path| - |s|];
      }
    }
  }

  /**
    Without a dot in it, a path is open only if it is the root, one of the three asset
    trees or one of the six public ones.
  */
  lemma OpenPathsAre(path: string)
    requires '.' !in path
    ensures IsOpen(path) <==>
            || path == "/" || "/css/" <= path || "/js/" <= path || "/images/" <= path
            || "/auth/login" <= path || "/auth/forgot-password" <= path || "/auth/reset-password" <= path
            || "/health" <= path
            || "/researcher-portal/register" <= path || "/researcher-portal/login" <= path
  {
    NoDotNoExtension(path);
    PublicPathsAre(path);
  }

  lemma PublicPathsAre(path: string)
    ensures StartsWithOneOf(path, PUBLIC_PATHS) <==>
            || "/auth/login" <= path || "/auth/forgot-password" <= path || "/auth/reset-password" <= path
            || "/health" <= path
            || "/researcher-portal/register" <= path || "/researcher-portal/login" <= path
  {
    var ps := PUBLIC_PATHS;
    assert ps[0] in ps && ps[1] in ps && ps[2] in ps && ps[3] in ps && ps[4] in ps && ps[5] in ps;
    assert ps[0] == "/auth/login" && ps[1] == "/auth/forgot-password" && ps[2] == "/auth/reset-password";
    assert ps[3] == "/health" && ps[4] == "/researcher-portal/register" && ps[5] == "/researcher-portal/login";
    assert |ps| == 6;
    if StartsWithOneOf(path, ps) {
      var p :| p in ps && p <= path;
      assert p == ps[0] || p == ps[1] || p == ps[2] || p == ps[3] || p == ps[4] || p == ps[5];
    }
  }

  // ------------------------------------------ what a context lets a caller query

  function ToRequestContext(a: Admission): Option<Scoping.RequestContext> {
    if a.As? && a.ctx.tenant.Some? then Some(Scoping.RequestContext(a.ctx.tenant.value, a.ctx.user, "")) else None
  }

  /** A caller let in with a tenant queries as that tenant; without one, with no context at all. */
  lemma ContextCarriesTenant(v: AuthDb, route: Route, c: Claims, now: int)
    requires Gate(v, route, Some(c), now).As?
    ensures var ctx := ToRequestContext(Gate(v, route, Some(c), now));
            && (ctx.Some? <==> c.tenant.Some?)
            && (ctx.Some? ==> ctx.value.tenantId == c.tenant.value && ctx.value.userId == c.sub)
  {
  }

  /** Without a tenant in the context, the scoping extension refuses every call and changes nothing. */
  lemma NoTenantNoData(v: AuthDb, path: string, bearer: Option<Claims>, now: int, db: Scoping.Tables, c: Scoping.Call)
    requires !Admit(v, path, bearer, now).As? || Admit(v, path, bearer, now).ctx.tenant.None?
    requires c.ctx == ToRequestContext(Admit(v, path, bearer, now))
    requires c.model != Scoping.SharedResource && c.model != Scoping.Tenant
    ensures Scoping.Perform(db, c).1 == db
    ensures Scoping.Perform(db, c).0 in {QueryEngine.Forbidden, QueryEngine.NoTenantContext}
  {
  }
}
