/**
 * That good links work: exactly when a confirmation and a reset are accepted, what they change, and a run in
 * which an account is registered, confirmed and given a new password.
 */
module MailWorks {
  import opened Text
  import opened Sequences
  import opened MailLinks

  /** An unused, unexpired token for the purpose, held by an active user still at the address it was sent to. */
  predicate GoodLink(s: State, token: nat, purpose: Purpose) {
    && token in s.tokens && s.tokens[token].purpose == purpose
    && s.tokens[token].usedAt.None? && s.now < s.tokens[token].expiresAt
    && s.tokens[token].user in s.users && s.users[s.tokens[token].user].active
    && s.users[s.tokens[token].user].email == Some(s.tokens[token].email)
  }

  /** Somebody else is verified at the address. */
  ghost predicate HeldByAnother(lower: Lower, s: State, user: nat, email: string) {
    exists v :: v in s.users && v != user && s.users[v].verified && s.users[v].email.Some?
                && lower(s.users[v].email.value) == lower(email)
  }

  /** Every token but this one, and every user but this one, stays as it was. */
  ghost predicate OnlyThese(s: State, t: State, user: nat, token: nat) {
    && t.users.Keys == s.users.Keys && (forall u :: u in s.users && u != user ==> t.users[u] == s.users[u])
    && t.tokens.Keys == s.tokens.Keys && (forall k :: k in s.tokens && k != token ==> t.tokens[k] == s.tokens[k])
    && t.now == s.now && t.issued == s.issued
  }

  /** A confirmation is accepted exactly for a good link to an address nobody else holds. */
  lemma ConfirmAccepts(lower: Lower, s: State, token: nat)
    ensures
      var r := ConfirmedEmail(lower, s, token);
      && (r.error == Some(TokenInvalid) <==> !GoodLink(s, token, EmailVerification))
      && (r.error == Some(EmailAlreadyUsed) <==>
            GoodLink(s, token, EmailVerification)
            && HeldByAnother(lower, s, s.tokens[token].user, s.tokens[token].email))
      && (r.error.None? <==>
            GoodLink(s, token, EmailVerification)
            && !HeldByAnother(lower, s, s.tokens[token].user, s.tokens[token].email))
      && (r.error.Some? ==> r.state == s)
  {
  }

  /** Then the user is verified at that address, the link is used up, and nothing else changes. */
  lemma ConfirmVerifies(lower: Lower, s: State, token: nat)
    requires ConfirmedEmail(lower, s, token).error.None?
    ensures
      var (t, user) := (Next(lower, s, Confirm(token)), s.tokens[token].user);
      && user in s.users && user in t.users && OnlyThese(s, t, user, token) && t.sessions == s.sessions
      && t.users[user].verified && t.users[user].email == Some(s.tokens[token].email)
      && t.users[user] == s.users[user].(verified := true)
      && t.tokens[token].usedAt == Some(s.now) && !GoodLink(t, token, EmailVerification)
      && t.log == s.log + [Confirmed(user, s.tokens[token].email, token, s.now)]
  {
    ConfirmAccepts(lower, s, token);
  }

  /** A reset is accepted exactly for a good link and a password long enough. */
  lemma ResetAccepts(s: State, token: nat, password: nat, length: nat)
    ensures
      var r := PasswordChanged(s, token, password, length);
      && (r.error == Some(TokenInvalid) <==> !GoodLink(s, token, PasswordReset))
      && (r.error == Some(PasswordTooShort) <==> GoodLink(s, token, PasswordReset) && length < 8)
      && (r.error.None? <==> GoodLink(s, token, PasswordReset) && length >= 8)
      && (r.error.Some? ==> r.state == s)
  {
  }

  /** Then the user has the new password and no session, the link is used up, and nothing else changes. */
  lemma ResetChangesPassword(lower: Lower, s: State, token: nat, password: nat, length: nat)
    requires PasswordChanged(s, token, password, length).error.None?
    ensures
      var (t, user) := (Next(lower, s, ConfirmReset(token, password, length)), s.tokens[token].user);
      && user in s.users && user in t.users && OnlyThese(s, t, user, token)
      && t.users[user] == s.users[user].(password := password)
      && t.tokens[token].usedAt == Some(s.now) && !GoodLink(t, token, PasswordReset)
      && (forall k :: k in t.sessions <==> k in s.sessions && s.sessions[k] != user)
      && (forall k :: k in t.sessions ==> t.sessions[k] == s.sessions[k])
      && t.log == s.log + [Reset(user, token, s.now)]
  {
    ResetAccepts(s, token, password, length);
  }

  // ---- sending ----

  /** Nothing was sent for this purpose in the last minute. */
  ghost predicate Quiet(s: State, user: nat, purpose: Purpose) {
    forall k :: k in s.tokens && s.tokens[k].user == user && s.tokens[k].purpose == purpose ==>
      s.tokens[k].createdAt <= s.now - 60
  }

  /** The token is the user's only one for the purpose, to this address, valid for so long, and mailed. */
  ghost predicate Sent(s: State, t: State, user: nat, purpose: Purpose, email: string, token: nat, ttl: int) {
    && token in t.tokens && t.tokens[token] == Token(user, purpose, email, s.now, s.now + ttl, None)
    && (forall k :: k in t.tokens && t.tokens[k].user == user && t.tokens[k].purpose == purpose ==> k == token)
    && (forall k :: k in s.tokens && !(s.tokens[k].user == user && s.tokens[k].purpose == purpose) && k != token ==>
          k in t.tokens && t.tokens[k] == s.tokens[k])
    && t.users == s.users && t.sessions == s.sessions && t.now == s.now
    && t.log == s.log + [Mailed(user, purpose, email, token, s.now)]
  }

  /** A link goes out exactly when mail is on, there is an unverified address, and none just went out. */
  lemma LinkGoesOut(s: State, user: nat, enabled: bool, token: nat)
    requires user in s.users && token !in s.tokens
    ensures
      var (u, t) := (s.users[user], LinkSent(s, user, enabled, token));
      if enabled && u.email.Some? && !u.verified && Quiet(s, user, EmailVerification)
      then Sent(s, t, user, EmailVerification, u.email.value, token, 48 * 3600)
      else t == s
  {
  }

  /** So does a reset link, to the verified user the address leads to. */
  lemma ResetLinkGoesOut(s: State, user: Option<nat>, token: nat)
    requires user.Some? ==> user.value in s.users && s.users[user.value].email.Some?
    requires token !in s.tokens
    ensures
      var t := ResetRequested(s, user, token);
      if user.Some? && Quiet(s, user.value, PasswordReset)
      then Sent(s, t, user.value, PasswordReset, s.users[user.value].email.value, token, 3600)
      else t == s
  {
  }

  /** An unused link to the address, good for two days. */
  predicate GoodAddress(s: State, token: nat, user: nat, email: string) {
    token in s.tokens && s.tokens[token] == Token(user, EmailVerification, email, s.now, s.now + 48 * 3600, None)
  }

  /** Changing the address: refused while another verified user holds it, else stored, unverified, and linked. */
  lemma AddressChanges(lower: Lower, s: State, user: nat, email: Option<string>, enabled: bool, token: nat)
    requires user in s.users && token !in s.tokens
    ensures
      var r := ChangedEmail(lower, s, user, email, enabled, token);
      && (r.error.Some? <==>
            email != s.users[user].email && email.Some? && HeldByAnother(lower, s, user, email.value))
      && (r.error.Some? ==> r.state == s)
      && (r.error.None? && email == s.users[user].email ==> r.state == s)
      && (r.error.None? && email != s.users[user].email ==>
            && user in r.state.users && r.state.users[user] == s.users[user].(email := email, verified := false)
            && (forall u :: u in s.users && u != user ==> u in r.state.users && r.state.users[u] == s.users[u])
            && (enabled && email.Some? && Quiet(s, user, EmailVerification) ==>
                  token in r.state.tokens && GoodAddress(r.state, token, user, email.value)))
  {
    if email.Some? { assert Taken(lower, s, email.value, Some(user)) <==> HeldByAnother(lower, s, user, email.value); }
    if email != s.users[user].email {
      LinkGoesOut(Rewritten(s, user, email), user, enabled, token);
      assert Quiet(Rewritten(s, user, email), user, EmailVerification) <==> Quiet(s, user, EmailVerification);
    }
  }

  lemma NewcomerIsNobodyElse(lower: Lower, s: State, t: State, user: nat, email: string)
    requires user !in s.users && t.users.Keys == s.users.Keys + {user}
    requires forall v :: v in s.users ==> t.users[v] == s.users[v]
    ensures HeldByAnother(lower, t, user, email) <==> HeldByAnother(lower, s, user, email)
  {
    if HeldByAnother(lower, t, user, email) {
      var v :| v in t.users && v != user && t.users[v].verified && t.users[v].email.Some?
               && lower(t.users[v].email.value) == lower(email);
      assert v in s.users;
    }
    if HeldByAnother(lower, s, user, email) {
      var v :| v in s.users && v != user && s.users[v].verified && s.users[v].email.Some?
               && lower(s.users[v].email.value) == lower(email);
      assert v in t.users;
    }
  }

  /** Registering: refused for a taken address or a short password; else an active, unverified account. */
  lemma RegisterCreates(lower: Lower, s: State, user: nat, email: Option<string>, password: nat, length: nat,
                        enabled: bool, token: nat)
    requires user !in s.users && token !in s.tokens
    ensures
      var r := Registered(lower, s, user, email, password, length, enabled, token);
      && (r.error == Some(EmailAlreadyUsed) <==> email.Some? && HeldByAnother(lower, s, user, email.value))
      && (r.error == Some(PasswordTooShort) <==>
            !(email.Some? && HeldByAnother(lower, s, user, email.value)) && length < 8)
      && (r.error.Some? ==> r.state == s)
      && (r.error.None? ==>
            && user in r.state.users && r.state.users[user] == User(email, false, true, password)
            && (forall u :: u in s.users ==> u in r.state.users && r.state.users[u] == s.users[u])
            && r.state.sessions == s.sessions
            && (enabled && email.Some? && Quiet(s, user, EmailVerification) ==>
                  GoodAddress(r.state, token, user, email.value)))
  {
    if email.Some? { assert Taken(lower, s, email.value, None) <==> HeldByAnother(lower, s, user, email.value); }
    var t := s.(users := s.users[user := User(None, false, true, password)]);
    if email.Some? {
      NewcomerIsNobodyElse(lower, s, t, user, email.value);
      assert Quiet(t, user, EmailVerification) <==> Quiet(s, user, EmailVerification);
      AddressChanges(lower, t, user, email, enabled, token);
    }
  }

  // ---- a run ----

  /** From nothing: an account is registered, confirmed, and its password reset by mail. */
  lemma AccountsWork(lower: Lower, now: int) returns (steps: seq<Step>)
    ensures Legal(lower, Empty(now), steps)
    ensures
      var t := Run(lower, Empty(now), steps);
      0 in t.users && t.users[0] == User(Some("a@x"), true, true, 2)
  {
    var email := "a@x";
    var (register, confirm) := (Register(0, Some(email), 1, 8, true, 10), Confirm(10));
    var (ask, reset) := (RequestReset(lower(email), Some(0), 11), ConfirmReset(11, 2, 8));
    var s1 := Registered1(lower, email, now);
    var s2 := Next(lower, s1, confirm);
    ConfirmAccepts(lower, s1, 10);
    ConfirmVerifies(lower, s1, 10);
    var s3 := Next(lower, s2, ask);
    ResetLinkGoesOut(s2, Some(0), 11);
    ResetAccepts(s3, 11, 2, 8);
    ResetChangesPassword(lower, s3, 11, 2, 8);
    var s4 := Next(lower, s3, reset);
    steps := [register, confirm, ask, reset];
    RunOfFour(lower, Empty(now), register, confirm, ask, reset);
  }

  lemma Registered1(lower: Lower, email: string, now: int) returns (s: State)
    ensures Enabled(lower, Empty(now), Register(0, Some(email), 1, 8, true, 10))
    ensures s == Next(lower, Empty(now), Register(0, Some(email), 1, 8, true, 10))
    ensures s.users == map[0 := User(Some(email), false, true, 1)] && s.now == Empty(now).now
    ensures s.tokens == map[10 := Token(0, EmailVerification, email, s.now, s.now + 48 * 3600, None)]
    ensures s.issued == {10}
  {
    s := Next(lower, Empty(now), Register(0, Some(email), 1, 8, true, 10));
  }

  lemma RunOfFour(lower: Lower, s: State, a: Step, b: Step, c: Step, d: Step)
    requires Enabled(lower, s, a) && Enabled(lower, Next(lower, s, a), b)
    requires Enabled(lower, Next(lower, Next(lower, s, a), b), c)
    requires Enabled(lower, Next(lower, Next(lower, Next(lower, s, a), b), c), d)
    ensures Legal(lower, s, [a, b, c, d])
    ensures Run(lower, s, [a, b, c, d]) == Next(lower, Next(lower, Next(lower, Next(lower, s, a), b), c), d)
  {
    var s1 := Next(lower, s, a);
    var s2 := Next(lower, s1, b);
    var s3 := Next(lower, s2, c);
    var s4 := Next(lower, s3, d);
    assert [a, b, c, d][1..] == [b, c, d] && [b, c, d][1..] == [c, d] && [c, d][1..] == [d] && [d][1..] == [];
    assert Legal(lower, s4, []) && Run(lower, s4, []) == s4;
    assert Legal(lower, s3, [d]) && Run(lower, s3, [d]) == s4;
    assert Legal(lower, s2, [c, d]) && Run(lower, s2, [c, d]) == s4;
    assert Legal(lower, s1, [b, c, d]) && Run(lower, s1, [b, c, d]) == s4;
  }
}
