/**
  Logins as the limiter sees them, interleaved between any two of their commands,
  with any number in flight for one email. What that bounds: password comparisons.
*/
module LoginRuns {
  import opened Common
  import opened RateLimit
  import opened LoginThrottle

  /** How far a login is: a counter incremented first of its window is still to expire. */
  datatype Stage = Arrived | EmailToExpire | EmailConsumed | IpToExpire | IpConsumed | Refused | Matched | Done

  /** When its counters were incremented, and when it deleted the email's. */
  datatype Flight = Flight(email: string, ip: Option<string>, stage: Stage, countedAt: Option<int>,
      ipCountedAt: Option<int>,
                           emailOk: bool, ipOk: bool, compared: bool, resetAt: Option<int>)

  /** `commands`: what Redis has executed since the run began. */
  datatype State = State(redis: Store, flights: seq<Flight>, now: nat, commands: seq<Command>)

  datatype Step =
    | Arrive(email: string, ip: Option<string>)
    | CountEmail(k: nat)
    | ExpireEmail(k: nat)
    | CountIp(k: nat)
    | ExpireIp(k: nat)
    | Compare(k: nat, matches: bool)
    | Reset(k: nat)
    | Elsewhere(c: Command)
    | Wait(ms: nat)

  function Start(redis: Store): State {
    State(redis, [], 0, [])
  }

  function Execute(s: State, c: Command): State {
    s.(redis := Exec(s.redis, c), commands := s.commands + [c])
  }

  function Move(s: State, k: nat, f: Flight): State
    requires k < |s.flights|
  {
    s.(flights := s.flights[k := f])
  }

  predicate At(s: State, k: nat, stage: Stage) {
    k < |s.flights| && s.flights[k].stage == stage
  }

  /** Both counters have answered. */
  predicate Counted(s: State, k: nat) {
    At(s, k, IpConsumed) || (At(s, k, EmailConsumed) && s.flights[k].ip.None?)
  }

  predicate IsLoginKey(key: string) {
    "login-email:" <= key || "login-ip:" <= key
  }

  /**
    One step; a step that is not enabled changes nothing. A login that failed between
    two commands never steps again.
  */
  function Next(s: State, step: Step): State {
    match step
    case Arrive(email, ip) =>
      s.(flights := s.flights + [Flight(email, ip, Arrived, None, None, false, true, false, None)])
    case CountEmail(k) =>
      if !At(s, k, Arrived) then s else EmailCounted(s, k)
    case ExpireEmail(k) =>
      if !At(s, k, EmailToExpire) then s
      else
        var f := s.flights[k];
        Execute(Move(s, k, f.(stage := EmailConsumed)), Expire(EmailKey(f.email), LOGIN_WINDOW, s.now))
    case CountIp(k) =>
      if !At(s, k, EmailConsumed) || s.flights[k].ip.None? then s else IpCounted(s, k)
    case ExpireIp(k) =>
      if !At(s, k, IpToExpire) || s.flights[k].ip.None? then s
      else
        var f := s.flights[k];
        Execute(Move(s, k, f.(stage := IpConsumed)), Expire(IpKey(f.ip.value), LOGIN_WINDOW, s.now))
    case Compare(k, matches) =>
      if !Counted(s, k) then s
      else
        var f := s.flights[k];
        if !f.emailOk || !f.ipOk then Move(s, k, f.(stage := Refused))
        else Move(s, k, f.(stage := if matches then Matched else Done, compared := true))
    case Reset(k) =>
      if !At(s, k, Matched) then s
      else
        var f := s.flights[k];
        Execute(Move(s, k, f.(stage := Done, resetAt := Some(s.now))), Del(EmailKey(f.email), s.now))
    case Elsewhere(c) =>
      if c.at != s.now || IsLoginKey(c.key) then s else Execute(s, c)
    case Wait(ms) => s.(now := s.now + ms)
  }

  function EmailCounted(s: State, k: nat): State
    requires k < |s.flights|
  {
    var f := s.flights[k];
    var count := CountAt(s.redis, EmailKey(f.email), s.now) + 1;
    var stage := if count == 1 then EmailToExpire else EmailConsumed;
    Execute(Move(s, k, f.(stage := stage, countedAt := Some(s.now), emailOk := count <= LOGIN_LIMIT)),
            Incr(EmailKey(f.email), LOGIN_LIMIT, s.now))
  }

  function IpCounted(s: State, k: nat): State
    requires k < |s.flights| && s.flights[k].ip.Some?
  {
    var f := s.flights[k];
    var count := CountAt(s.redis, IpKey(f.ip.value), s.now) + 1;
    var stage := if count == 1 then IpToExpire else IpConsumed;
    Execute(Move(s, k, f.(stage := stage, ipCountedAt := Some(s.now), ipOk := count <= IP_LIMIT)),
        Incr(IpKey(f.ip.value), IP_LIMIT, s.now))
  }

  function Run(s: State, steps: seq<Step>): State
    decreases |steps|
  {
    if steps == [] then s else Run(Next(s, steps[0]), steps[1..])
  }

  // ------------------------------------------------------------ counting logins

  function Tally(flights: seq<Flight>, p: Flight -> bool): nat {
    if flights == [] then 0 else (if p(flights[0]) then 1 else 0) + Tally(flights[1..], p)
  }

  predicate Within(at: Option<int>, from: int, to: int) {
    at.Some? && In(at.value, from, to)
  }

  /** Logins for `email` that compared a password and whose attempt was counted in [from, to). */
  function Comparisons(flights: seq<Flight>, email: string, from: int, to: int): nat {
    Tally(flights, (f: Flight) => f.email == email && f.compared && Within(f.countedAt, from, to))
  }

  /** Logins for `email` that reset its counter in [from, to). */
  function Resets(flights: seq<Flight>, email: string, from: int, to: int): nat {
    Tally(flights, Resetting(Email(email), from, to))
  }

  /** Logins from `ip`, for whatever emails, that compared a password and were counted for it in [from, to). */
  function ComparisonsFrom(flights: seq<Flight>, ip: string, from: int, to: int): nat {
    Tally(flights, (f: Flight) => f.ip == Some(ip) && f.compared && Within(f.ipCountedAt, from, to))
  }

  /** A counter to watch. */
  datatype Watch = Email(email: string) | Ip(ip: string)

  function KeyOf(w: Watch): string {
    match w
    case Email(email) => EmailKey(email)
    case Ip(ip) => IpKey(ip)
  }

  function LimitOf(w: Watch): nat {
    if w.Email? then LOGIN_LIMIT else IP_LIMIT
  }

  function Resetting(w: Watch, from: int, to: int): Flight -> bool {
    (f: Flight) => w.Email? && f.email == w.email && Within(f.resetAt, from, to)
  }

  function LetThrough(w: Watch, from: int, to: int): Flight -> bool {
    (f: Flight) =>
      match w
      case Email(email) => f.email == email && f.emailOk && Within(f.countedAt, from, to)
      case Ip(ip) => f.ip == Some(ip) && f.ipOk && Within(f.ipCountedAt, from, to)
  }

  lemma {:induction false} TallyUpdated(flights: seq<Flight>, k: nat, f: Flight, p: Flight -> bool)
    requires k < |flights|
    ensures Tally(flights[k := f], p) + (if p(flights[k]) then 1 else 0) == Tally(flights, p) + (if p(f) then 1 else 0)
  {
    var after := flights[k := f];
    if k == 0 {
      assert after[1..] == flights[1..];
    } else {
      assert after[1..] == flights[1..][k - 1 := f];
      TallyUpdated(flights[1..], k - 1, f, p);
    }
  }

  lemma {:induction false} TallyAppended(flights: seq<Flight>, f: Flight, p: Flight -> bool)
    ensures Tally(flights + [f], p) == Tally(flights, p) + (if p(f) then 1 else 0)
  {
    if flights == [] {
      assert flights + [f] == [f] && [f][1..] == [];
    } else {
      assert (flights + [f])[1..] == flights[1..] + [f];
      TallyAppended(flights[1..], f, p);
    }
  }

  lemma {:induction false} TallyImplied(flights: seq<Flight>, p: Flight -> bool, q: Flight -> bool)
    requires forall f | f in flights && p(f) :: q(f)
    ensures Tally(flights, p) <= Tally(flights, q)
  {
    if flights != [] {
      TallyImplied(flights[1..], p, q);
    }
  }

  function ExecAll(s: Store, run: seq<Command>): Store
    decreases |run|
  {
    if run == [] then s else ExecAll(Exec(s, run[0]), run[1..])
  }

  lemma {:induction false} CommandAppended(s: Store, run: seq<Command>, c: Command, key: string, from: int, to: int)
    ensures ExecAll(s, run + [c]) == Exec(ExecAll(s, run), c)
    ensures AllowedIn(s, run + [c], key, from, to) ==
            AllowedIn(s, run, key, from, to) +
            (if Allowed(ExecAll(s, run), c) && c.key == key && In(c.at, from, to) then 1 else 0)
    ensures ResetsIn(run + [c], key, from, to) ==
            ResetsIn(run, key, from, to) + (if c.Del? && c.key == key && In(c.at, from, to) then 1 else 0)
    decreases |run|
  {
    if run == [] {
      assert run + [c] == [c] && [c][1..] == [];
    } else {
      assert (run + [c])[1..] == run[1..] + [c];
      CommandAppended(Exec(s, run[0]), run[1..], c, key, from, to);
    }
  }

  // --------------------------------------------------------------- the invariant

  /** Only an attempt allowed by both counters gets to compare. */
  predicate FlightSound(f: Flight) {
    && (f.countedAt.None? <==> f.stage == Arrived)
    && (f.countedAt.None? ==> !f.emailOk)
    && (f.ipCountedAt.Some? ==> f.ip.Some?)
    && (f.stage == Arrived || f.stage == EmailToExpire || f.stage == EmailConsumed ==> f.ipCountedAt.None?)
    && ((f.stage == IpToExpire || f.stage == IpConsumed) ==> f.ip.Some? && f.ipCountedAt.Some?)
    && (f.resetAt.Some? ==> f.stage == Done)
    && (f.compared ==> f.emailOk && f.ipOk && (f.ip.Some? ==> f.ipCountedAt.Some?))
  }

  predicate AsUsed(c: Command, w: Watch) {
    c.key == KeyOf(w) ==> (c.Incr? ==> c.limit == LimitOf(w)) && (c.Expire? ==> c.window >= LOGIN_WINDOW)
  }

  /** The commands so far, in order, as `login` issues them on its own keys. */
  ghost predicate Disciplined(s: State, w: Watch) {
    && Chronological(s.commands) && (forall c | c in s.commands :: c.at <= s.now)
    && Uses(s.commands, KeyOf(w), LimitOf(w), LOGIN_WINDOW)
  }

  ghost predicate Inv(start: Store, s: State, w: Watch, from: int, to: int) {
    && (forall f | f in s.flights :: FlightSound(f))
    && Disciplined(s, w)
    && s.redis == ExecAll(start, s.commands)
    && AllowedIn(start, s.commands, KeyOf(w), from, to) == Tally(s.flights, LetThrough(w, from, to))
    && ResetsIn(s.commands, KeyOf(w), from, to) == Tally(s.flights, Resetting(w, from, to))
  }

  /** Different emails and addresses have different counters, and no email shares one with an address. */
  lemma KeysDiffer(a: Watch, b: Watch)
    ensures KeyOf(a) == KeyOf(b) <==> a == b
  {
    match (a, b) {
      case (Email(x), Email(y)) => assert EmailKey(x)[12..] == x && EmailKey(y)[12..] == y;
      case (Ip(x), Ip(y)) => assert IpKey(x)[9..] == x && IpKey(y)[9..] == y;
      case (Email(x), Ip(y)) => assert EmailKey(x)[6] == 'e' && IpKey(y)[6] == 'i';
      case (Ip(x), Email(y)) => assert EmailKey(y)[6] == 'e' && IpKey(x)[6] == 'i';
    }
  }

  lemma DisciplineKept(s: State, c: Command, w: Watch)
    requires Disciplined(s, w) && c.at == s.now && AsUsed(c, w)
    ensures Disciplined(Execute(s, c), w)
  {
    var run := s.commands + [c];
    forall i, j | 0 <= i < j < |run| ensures run[i].at <= run[j].at {
      assert run[i] in s.commands;
    }
  }

  /** A command of one login, with that login moved on. */
  lemma FlightStepKeeps(start: Store, s: State, k: nat, f: Flight, c: Command, w: Watch, from: int, to: int)
    requires Inv(start, s, w, from, to) && k < |s.flights| && FlightSound(f) && c.at == s.now && AsUsed(c, w)
    requires (if LetThrough(w, from, to)(f) then 1 else 0) ==
             (if LetThrough(w, from, to)(s.flights[k]) then 1 else 0)
             + (if Allowed(s.redis, c) && c.key == KeyOf(w) && In(c.at, from, to) then 1 else 0)
    requires (if Resetting(w, from, to)(f) then 1 else 0) ==
             (if Resetting(w, from, to)(s.flights[k]) then 1 else 0)
             + (if c.Del? && c.key == KeyOf(w) && In(c.at, from, to) then 1 else 0)
    ensures Inv(start, Execute(Move(s, k, f), c), w, from, to)
  {
    TallyUpdated(s.flights, k, f, LetThrough(w, from, to));
    TallyUpdated(s.flights, k, f, Resetting(w, from, to));
    CommandAppended(start, s.commands, c, KeyOf(w), from, to);
    DisciplineKept(Move(s, k, f), c, w);
  }

  lemma CountEmailKeeps(start: Store, s: State, k: nat, w: Watch, from: int, to: int)
    requires Inv(start, s, w, from, to) && At(s, k, Arrived)
    ensures Inv(start, EmailCounted(s, k), w, from, to)
  {
    var f := s.flights[k];
    KeysDiffer(Email(f.email), w);
    assert FlightSound(f);
    var t := EmailCounted(s, k);
    FlightStepKeeps(start, s, k, t.flights[k], Incr(EmailKey(f.email), LOGIN_LIMIT, s.now), w, from, to);
  }

  lemma CountIpKeeps(start: Store, s: State, k: nat, w: Watch, from: int, to: int)
    requires Inv(start, s, w, from, to) && At(s, k, EmailConsumed) && s.flights[k].ip.Some?
    ensures Inv(start, IpCounted(s, k), w, from, to)
  {
    var f := s.flights[k];
    KeysDiffer(Ip(f.ip.value), w);
    assert FlightSound(f);
    var t := IpCounted(s, k);
    FlightStepKeeps(start, s, k, t.flights[k], Incr(IpKey(f.ip.value), IP_LIMIT, s.now), w, from, to);
  }

  lemma ExpireKeeps(start: Store, s: State, step: Step, w: Watch, from: int, to: int)
    requires Inv(start, s, w, from, to) && (step.ExpireEmail? || step.ExpireIp?)
    ensures Inv(start, Next(s, step), w, from, to)
  {
    var t := Next(s, step);
    if t != s {
      var f := s.flights[step.k];
      assert FlightSound(f);
      FlightStepKeeps(start, s, step.k, t.flights[step.k], t.commands[|s.commands|], w, from, to);
    }
  }

  lemma ResetKeeps(start: Store, s: State, k: nat, w: Watch, from: int, to: int)
    requires Inv(start, s, w, from, to)
    ensures Inv(start, Next(s, Reset(k)), w, from, to)
  {
    if At(s, k, Matched) {
      var f := s.flights[k];
      KeysDiffer(Email(f.email), w);
      assert FlightSound(f);
      var t := f.(stage := Done, resetAt := Some(s.now));
      FlightStepKeeps(start, s, k, t, Del(EmailKey(f.email), s.now), w, from, to);
    }
  }

  /** Steps in which Redis has no part. */
  lemma ArriveKeeps(start: Store, s: State, step: Step, w: Watch, from: int, to: int)
    requires Inv(start, s, w, from, to) && (step.Arrive? || step.Wait?)
    ensures Inv(start, Next(s, step), w, from, to)
  {
    if step.Arrive? {
      var f := Flight(step.email, step.ip, Arrived, None, None, false, true, false, None);
      TallyAppended(s.flights, f, LetThrough(w, from, to));
      TallyAppended(s.flights, f, Resetting(w, from, to));
    }
  }

  lemma MoveKeeps(start: Store, s: State, k: nat, f: Flight, w: Watch, from: int, to: int)
    requires Inv(start, s, w, from, to) && k < |s.flights| && FlightSound(f)
    requires LetThrough(w, from, to)(f) == LetThrough(w, from, to)(s.flights[k])
    requires Resetting(w, from, to)(f) == Resetting(w, from, to)(s.flights[k])
    ensures Inv(start, Move(s, k, f), w, from, to)
  {
    TallyUpdated(s.flights, k, f, LetThrough(w, from, to));
    TallyUpdated(s.flights, k, f, Resetting(w, from, to));
  }

  lemma CompareKeeps(start: Store, s: State, k: nat, matches: bool, w: Watch, from: int, to: int)
    requires Inv(start, s, w, from, to)
    ensures Inv(start, Next(s, Compare(k, matches)), w, from, to)
  {
    if Counted(s, k) {
      var f := s.flights[k];
      assert FlightSound(f);
      if !f.emailOk || !f.ipOk {
        MoveKeeps(start, s, k, f.(stage := Refused), w, from, to);
      } else {
        MoveKeeps(start, s, k, f.(stage := if matches then Matched else Done, compared := true), w, from, to);
      }
    }
  }

  lemma ElsewhereKeeps(start: Store, s: State, c: Command, w: Watch, from: int, to: int)
    requires Inv(start, s, w, from, to)
    ensures Inv(start, Next(s, Elsewhere(c)), w, from, to)
  {
    if c.at == s.now && !IsLoginKey(c.key) {
      assert c.key != KeyOf(w);
      CommandAppended(start, s.commands, c, KeyOf(w), from, to);
      DisciplineKept(s, c, w);
    }
  }

  lemma {:induction false} RunKeeps(start: Store, s: State, steps: seq<Step>, w: Watch, from: int, to: int)
    requires Inv(start, s, w, from, to)
    ensures Inv(start, Run(s, steps), w, from, to)
    decreases |steps|
  {
    if steps != [] {
      match steps[0] {
        case CountEmail(k) =>
          if At(s, k, Arrived) {
            CountEmailKeeps(start, s, k, w, from, to);
          }
        case CountIp(k) =>
          if At(s, k, EmailConsumed) && s.flights[k].ip.Some? {
            CountIpKeeps(start, s, k, w, from, to);
          }
        case ExpireEmail(_) => ExpireKeeps(start, s, steps[0], w, from, to);
        case ExpireIp(_) => ExpireKeeps(start, s, steps[0], w, from, to);
        case Reset(k) => ResetKeeps(start, s, k, w, from, to);
        case Elsewhere(c) => ElsewhereKeeps(start, s, c, w, from, to);
        case Compare(k, matches) => CompareKeeps(start, s, k, matches, w, from, to);
        case _ => ArriveKeeps(start, s, steps[0], w, from, to);
      }
      RunKeeps(start, Next(s, steps[0]), steps[1..], w, from, to);
    }
  }

  // ----------------------------------------------------------------- main result

  /**
    However many logins for one email are in flight at once, from whatever addresses
    and with whatever EXPIREs lost: of those counted in any fifteen minutes, at most
    8 * (2 + resets of that email's counter in them) compare a password.
  */
  lemma ComparisonsBound(start: Store, steps: seq<Step>, email: string, from: int)
    ensures var flights := Run(Start(start), steps).flights;
            Comparisons(flights, email, from, from + 15 * 60 * 1000) <=
            8 * (2 + Resets(flights, email, from, from + 15 * 60 * 1000))
  {
    var to := from + LOGIN_WINDOW;
    RunKeeps(start, Start(start), steps, Email(email), from, to);
    var s := Run(Start(start), steps);
    AllowedBound(start, s.commands, EmailKey(email), LOGIN_LIMIT, LOGIN_WINDOW, from);
    TallyImplied(s.flights, (f: Flight) => f.email == email && f.compared && Within(f.countedAt, from, to),
                 LetThrough(Email(email), from, to));
  }

  /** And of those from one address, for whatever emails, at most 48: its counter is never reset. */
  lemma ComparisonsFromBound(start: Store, steps: seq<Step>, ip: string, from: int)
    ensures ComparisonsFrom(Run(Start(start), steps).flights, ip, from, from + 15 * 60 * 1000) <= 2 * 24
  {
    var to := from + LOGIN_WINDOW;
    RunKeeps(start, Start(start), steps, Ip(ip), from, to);
    var s := Run(Start(start), steps);
    AllowedBound(start, s.commands, IpKey(ip), IP_LIMIT, LOGIN_WINDOW, from);
    NoneTallied(s.flights, Resetting(Ip(ip), from, to));
    TallyImplied(s.flights, (f: Flight) => f.ip == Some(ip) && f.compared && Within(f.ipCountedAt, from, to),
                 LetThrough(Ip(ip), from, to));
  }

  /** A login that compares a password was counted for its email, and for its address if it has one. */
  lemma ComparedAreCounted(start: Store, steps: seq<Step>, k: nat)
    requires k < |Run(Start(start), steps).flights|
    ensures var f := Run(Start(start), steps).flights[k];
            f.compared ==> f.countedAt.Some? && (f.ip.Some? ==> f.ipCountedAt.Some?)
  {
    RunKeeps(start, Start(start), steps, Email(""), 0, 0);
    assert FlightSound(Run(Start(start), steps).flights[k]);
  }

  lemma {:induction false} NoneTallied(flights: seq<Flight>, p: Flight -> bool)
    requires forall f | f in flights :: !p(f)
    ensures Tally(flights, p) == 0
  {
    if flights != [] {
      NoneTallied(flights[1..], p);
    }
  }

  lemma {:induction false} RunOneMore(s: State, steps: seq<Step>, a: Step)
    ensures Run(s, steps + [a]) == Next(Run(s, steps), a)
    decreases |steps|
  {
    if steps == [] {
      assert steps + [a] == [a] && [a][1..] == [];
      assert Run(s, [a]) == Run(Next(s, a), []);
    } else {
      assert (steps + [a])[1..] == steps[1..] + [a];
      RunOneMore(Next(s, steps[0]), steps[1..], a);
    }
  }

  /** Logins arrive, time passes, and other clients' commands on other keys are carried out. */
  lemma OtherStepsDo(s: State, email: string, ip: Option<string>, c: Command, ms: nat)
    ensures Next(s, Arrive(email, ip)) ==
            s.(flights := s.flights + [Flight(email, ip, Arrived, None, None, false, true, false, None)])
    ensures c.at == s.now && !("login-email:" <= c.key) && !("login-ip:" <= c.key) ==>
              Next(s, Elsewhere(c)) == s.(redis := Exec(s.redis, c), commands := s.commands + [c])
    ensures Next(s, Wait(ms)) == s.(now := s.now + ms)
  {
  }

  // ------------------------------------------- a call is an undisturbed flight

  lemma EmailUndisturbed(s: State, k: nat)
    requires At(s, k, Arrived)
    ensures var f := s.flights[k];
            var t := Next(Next(s, CountEmail(k)), ExpireEmail(k));
            var (ok, redis) := AfterConsume(s.redis, EmailKey(f.email), LOGIN_LIMIT, LOGIN_WINDOW, s.now);
            && t.redis == redis && t.now == s.now && |t.flights| == |s.flights|
            && t.flights[k] == f.(stage := EmailConsumed, countedAt := Some(s.now), emailOk := ok)
  {
  }

  lemma IpUndisturbed(s: State, k: nat)
    requires At(s, k, EmailConsumed) && s.flights[k].ipOk
    ensures var f := s.flights[k];
            var t := Next(Next(s, CountIp(k)), ExpireIp(k));
            && t.now == s.now && |t.flights| == |s.flights| && Counted(t, k)
            && if f.ip.None? then t == s
               else
                 var (ok, redis) := AfterConsume(s.redis, IpKey(f.ip.value), IP_LIMIT, LOGIN_WINDOW, s.now);
                 t.redis == redis && t.flights[k] == f.(stage := IpConsumed, ipCountedAt := Some(s.now), ipOk := ok)
  {
  }

  /** Left alone, a login's steps are the attempt: the same answer and the same counters. */
  lemma {:induction false} UndisturbedAttempt(s: State, k: nat, matches: bool)
    requires k < |s.flights| && s.flights[k].stage == Arrived && s.flights[k].ipOk && !s.flights[k].compared
    ensures var f := s.flights[k];
            var t := Next(Next(Next(Next(s, CountEmail(k)), ExpireEmail(k)), CountIp(k)), ExpireIp(k));
            var u := Next(Next(t, Compare(k, matches)), Reset(k));
            var (compared, redis) := AfterAttempt(s.redis, Attempt(f.email, f.ip, s.now, matches));
            && u.redis == redis && |u.flights| == |s.flights| && u.flights[k].compared == compared
            && u.flights[k].stage == if compared then Done else Refused
  {
    EmailUndisturbed(s, k);
    IpUndisturbed(Next(Next(s, CountEmail(k)), ExpireEmail(k)), k);
  }
}
