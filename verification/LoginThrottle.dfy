/** How one `login` uses the limiter. */
module LoginThrottle {
  import opened Common
  import opened RateLimit

  const LOGIN_LIMIT: nat := 8
  const IP_LIMIT: nat := LOGIN_LIMIT * 3
  const LOGIN_WINDOW: int := 15 * 60 * 1000

  /** One login call as the limiter sees it; `matches`: some candidate's password matches. */
  datatype Attempt = Attempt(email: string, ip: Option<string>, at: int, matches: bool)

  function EmailKey(email: string): string {
    "login-email:" + email
  }

  function IpKey(ip: string): string {
    "login-ip:" + ip
  }

  /** Both counters are consumed before either answer is looked at. */
  function Guard(s: Store, a: Attempt): (bool, Store) {
    var (emailOk, s1) := AfterConsume(s, EmailKey(a.email), LOGIN_LIMIT, LOGIN_WINDOW, a.at);
    var (ipOk, s2) :=
      if a.ip.Some? then AfterConsume(s1, IpKey(a.ip.value), IP_LIMIT, LOGIN_WINDOW, a.at) else (true, s1);
    (emailOk && ipOk, s2)
  }

  /** The whole attempt: a match resets the email's counter. */
  function AfterAttempt(s: Store, a: Attempt): (bool, Store) {
    var (compared, s1) := Guard(s, a);
    (compared, if compared && a.matches then Exec(s1, Del(EmailKey(a.email), a.at)) else s1)
  }

  method Login(limiter: RateLimitService, a: Attempt) returns (compared: bool)
    modifies limiter
    ensures (compared, limiter.redis) == AfterAttempt(old(limiter.redis), a)
  {
    var emailOk := limiter.Consume(EmailKey(a.email), LOGIN_LIMIT, LOGIN_WINDOW, a.at);
    var ipOk := true;
    if a.ip.Some? {
      ipOk := limiter.Consume(IpKey(a.ip.value), IP_LIMIT, LOGIN_WINDOW, a.at);
    }
    compared := emailOk && ipOk;
    if compared && a.matches {
      limiter.Reset(EmailKey(a.email));
      assert limiter.redis == Exec(Guard(old(limiter.redis), a).1, Del(EmailKey(a.email), a.at));
    }
  }

  /** With no counter standing, an email's first eight attempts of fifteen minutes are let through, and no ninth. */
  lemma EightPerEmail(s: Store, email: string, times: seq<int>)
    requires times != [] && !Live(s, EmailKey(email), times[0])
    requires forall t | t in times :: times[0] <= t < times[0] + 15 * 60 * 1000
    ensures var answers := Answers(s, EmailKey(email), LOGIN_LIMIT, LOGIN_WINDOW, times);
            |answers| == |times| && forall i | 0 <= i < |times| :: answers[i] <==> i < 8
    ensures !Live(AfterConsume(s, EmailKey(email), LOGIN_LIMIT, LOGIN_WINDOW, times[0]).1, EmailKey(email),
                  times[0] + 15 * 60 * 1000)
  {
    WindowLetsLimitThrough(s, EmailKey(email), LOGIN_LIMIT, LOGIN_WINDOW, times);
  }

  /** Likewise twenty-four from an address. */
  lemma TwentyFourPerAddress(s: Store, ip: string, times: seq<int>)
    requires times != [] && !Live(s, IpKey(ip), times[0])
    requires forall t | t in times :: times[0] <= t < times[0] + 15 * 60 * 1000
    ensures var answers := Answers(s, IpKey(ip), IP_LIMIT, LOGIN_WINDOW, times);
            |answers| == |times| && forall i | 0 <= i < |times| :: answers[i] <==> i < 24
  {
    WindowLetsLimitThrough(s, IpKey(ip), IP_LIMIT, LOGIN_WINDOW, times);
  }

  /**
    An attempt is let through exactly when both counters, as they stand, have room;
    both are counted either way, and only a match takes the email's away.
  */
  lemma AttemptMeans(s: Store, a: Attempt)
    requires a.ip.Some?
    ensures var (compared, after) := AfterAttempt(s, a);
            var email, ip := EmailKey(a.email), IpKey(a.ip.value);
            && (compared <==> CountAt(s, email, a.at) < 8 && CountAt(s, ip, a.at) < 24)
            && CountAt(after, ip, a.at) == CountAt(s, ip, a.at) + 1
            && CountAt(after, email, a.at) == (if compared && a.matches then 0 else CountAt(s, email, a.at) + 1)
            && forall key | key != email && key != ip ::
                (key in after <==> key in s) && (key in s ==> after[key] == s[key])
  {
    assert EmailKey(a.email)[6] == 'e' && IpKey(a.ip.value)[6] == 'i';
  }
}
