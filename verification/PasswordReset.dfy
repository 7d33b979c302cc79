/** What a password reset leaves standing: where a session alive after the wipe can have come from. */
module PasswordReset {
  import opened Common
  import opened Auth
  import opened AuthProtocol
  import opened AuthRuns

  predicate HasSession(s: State, sid: Id, user: Id) {
    sid in s.v.sessions && s.v.sessions[sid].user == user
  }

  /** The step opens session `sid` for `user`, after a password or after a code. */
  predicate Opens(s: State, step: Step, sid: Id, user: Id) {
    || AcceptsCode(s, step, user, sid)
    || (step.OpenSession? && step.sid == sid && step.k < |s.flights| && s.flights[step.k].Free?
        && s.flights[step.k].user == user)
  }

  lemma SessionMoves(s: State, step: Step, sid: Id, user: Id)
    requires HasSession(Next(s, step), sid, user)
    ensures HasSession(s, sid, user) || Opens(s, step, sid, user)
  {
  }

  lemma {:induction false} SessionOpened(steps: seq<Step>, q: nat, n: nat, sid: Id, user: Id)
    requires q <= n <= |steps| && HasSession(At(steps, n), sid, user) && !HasSession(At(steps, q), sid, user)
    ensures exists o | q <= o < n :: Opens(At(steps, o), steps[o], sid, user)
    decreases n
  {
    AtNext(steps, n - 1);
    SessionMoves(At(steps, n - 1), steps[n - 1], sid, user);
    if HasSession(At(steps, n - 1), sid, user) {
      SessionOpened(steps, q, n - 1, sid, user);
    }
  }

  // ------------------------------------------------------------------- passwords

  function PasswordOf(s: State, user: Id): Option<Hash> {
    if user in s.v.users then Some(s.v.users[user].password) else None
  }

  /** The step changes this user's password. */
  predicate Rekeys(s: State, step: Step, user: Id) {
    PasswordOf(Next(s, step), user) != PasswordOf(s, user)
  }

  /** Only a reset link of the user's, or an administrator, changes a password. */
  lemma RekeyedHow(s: State, step: Step, user: Id)
    requires Rekeys(s, step, user)
    ensures step.AdminChange?
         || (step.ResetPassword? && step.user == user && ResetTokenMatches(s.v.users, user, step.token, s.now))
  {
  }

  lemma {:induction false} PasswordStands(steps: seq<Step>, r: nat, n: nat, user: Id)
    requires r <= n <= |steps|
    ensures PasswordOf(At(steps, n), user) == PasswordOf(At(steps, r), user) ||
            exists i | r <= i < n :: Rekeys(At(steps, i), steps[i], user)
    decreases n
  {
    if r < n {
      PasswordStands(steps, r, n - 1, user);
      AtNext(steps, n - 1);
      assert !Rekeys(At(steps, n - 1), steps[n - 1], user) ==>
               PasswordOf(At(steps, n), user) == PasswordOf(At(steps, n - 1), user);
    }
  }

  // ----------------------------------------------------------------- the theorem

  /**
    Login `k`, for `user`, matched at step `p` a password which is the one of the
    reset, unless changed again since `r`.
  */
  ghost predicate MatchedNew(steps: seq<Step>, r: nat, p: nat, k: nat, user: Id, password: string)
    requires r <= p < |steps|
  {
    && k < |At(steps, p).flights| && At(steps, p).flights[k].Submitted?
    && (exists u :: MatchesUser(At(steps, p), steps[p], k, user, u))
    && (At(steps, p).flights[k].password == password ||
        exists i | r < i < p :: Rekeys(At(steps, i), steps[i], user))
  }

  /** Login `k` had matched `user`, with whatever password, before step `r`. */
  ghost predicate MatchedEarlier(steps: seq<Step>, r: nat, k: nat, user: Id)
    requires r <= |steps|
  {
    exists p, u | 0 <= p < r :: MatchesUser(At(steps, p), steps[p], k, user, u)
  }

  /** The wipe of the reset taken at step `r`. */
  predicate Wipes(steps: seq<Step>, r: nat, q: nat, user: Id)
    requires r < q < |steps|
  {
    && steps[r].ResetPassword? && steps[r].user == user
    && ResetTokenMatches(At(steps, r).v.users, user, steps[r].token, At(steps, r).now)
    && steps[q] == WipeSessions(|At(steps, r).flights|)
    && |At(steps, r).flights| < |At(steps, q).flights| &&
        At(steps, q).flights[|At(steps, r).flights|] == Resetting(user)
  }

  /**
    A session of the user found at any time after the wipe was opened after it: by a
    code accepted then, or by a login which had already matched its password at the
    reset, or by one which matched the new password (or one set later still).
  */
  lemma SessionAfterReset(steps: seq<Step>, r: nat, q: nat, n: nat, user: Id, sid: Id)
    requires r < q < n <= |steps| && Wipes(steps, r, q, user) && HasSession(At(steps, n), sid, user)
    ensures exists o | q < o < n ::
              || AcceptsCode(At(steps, o), steps[o], user, sid)
              || (steps[o].OpenSession? && steps[o].sid == sid &&
                  (MatchedEarlier(steps, r, steps[o].k, user) ||
                   exists p | r < p < o :: MatchedNew(steps, r, p, steps[o].k, user, steps[r].password)))
  {
    AtNext(steps, q);
    assert !HasSession(At(steps, q + 1), sid, user);
    SessionOpened(steps, q + 1, n, sid, user);
    var o :| q + 1 <= o < n && Opens(At(steps, o), steps[o], sid, user);
    if !AcceptsCode(At(steps, o), steps[o], user, sid) {
      LoginBehind(steps, r, o, user);
    }
  }

  lemma LoginBehind(steps: seq<Step>, r: nat, o: nat, user: Id)
    requires r < o < |steps| && steps[r].ResetPassword? && steps[r].user == user
    requires ResetTokenMatches(At(steps, r).v.users, user, steps[r].token, At(steps, r).now)
    requires steps[o].OpenSession? && steps[o].k < |At(steps, o).flights|
    requires At(steps, o).flights[steps[o].k].Free? && At(steps, o).flights[steps[o].k].user == user
    ensures MatchedEarlier(steps, r, steps[o].k, user) ||
            exists p | r < p < o :: MatchedNew(steps, r, p, steps[o].k, user, steps[r].password)
  {
    var k := steps[o].k;
    var f := At(steps, o).flights[k];
    RunTraced(steps, o);
    assert Traced(steps, o, k, f);
    var p :| 0 <= p < o && MatchesUser(At(steps, p), steps[p], k, user, f.u);
    if p > r {
      NewPasswordMatched(steps, r, p, k, user, f.u);
    } else {
      assert p != r;
    }
  }

  lemma NewPasswordMatched(steps: seq<Step>, r: nat, p: nat, k: nat, user: Id, u: User)
    requires r < p < |steps| && steps[r].ResetPassword? && steps[r].user == user
    requires ResetTokenMatches(At(steps, r).v.users, user, steps[r].token, At(steps, r).now)
    requires MatchesUser(At(steps, p), steps[p], k, user, u)
    ensures MatchedNew(steps, r, p, k, user, steps[r].password)
  {
    var s := At(steps, p);
    AtNext(steps, r);
    assert PasswordOf(At(steps, r + 1), user) == Some(HashOf(steps[r].password));
    PasswordStands(steps, r + 1, p, user);
    MatchIsMatch(s.v.users, steps[p].order, s.flights[k].email, s.flights[k].password);
    assert PasswordOf(s, user) == Some(HashOf(s.flights[k].password));
  }

  lemma {:induction false} MatchIsMatch(users: map<Id, User>, order: seq<Id>, email: string, password: string)
    ensures var hit := FirstMatch(users, order, email, password);
            hit.Some? ==> PasswordMatches(users, hit.value, email, password)
  {
    if order != [] && !PasswordMatches(users, order[0], email, password) {
      MatchIsMatch(users, order[1..], email, password);
    }
  }
}
