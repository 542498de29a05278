/**
 * Mailed links: confirming an address and resetting a password, over whole runs with a clock.
 *
 * A token stands for itself and for the hash that is stored: hashing is taken to be injective, and a new
 * token to be one never issued before. The log is history, kept by the model and read by nobody.
 */
module MailLinks {
  import opened Text

  const RESEND_COOLDOWN := 60
  const VERIFY_TTL := 48 * 3600
  const RESET_TTL := 60 * 60
  const MIN_PASSWORD_LENGTH := 8

  datatype Purpose = PasswordReset | EmailVerification
  datatype User = User(email: Option<string>, verified: bool, active: bool, password: nat)
  datatype Token = Token(user: nat, purpose: Purpose, email: string, createdAt: int, expiresAt: int,
                         usedAt: Option<int>)

  datatype Event =
    | Changed(user: nat)
    | Mailed(user: nat, purpose: Purpose, address: string, token: nat, at: int)
    | Confirmed(user: nat, address: string, token: nat, at: int)
    | Reset(user: nat, token: nat, at: int)

  datatype State = State(
    users: map<nat, User>, tokens: map<nat, Token>, sessions: map<nat, nat>, now: int, issued: set<nat>,
      log: seq<Event>)

  datatype Error = EmailAlreadyUsed | TokenInvalid | PasswordTooShort
  datatype Reply = Reply(state: State, error: Option<Error>)

  type Lower = string -> string

  // ---- tokens ----

  predicate For(t: Token, user: nat, purpose: Purpose) {
    t.user == user && t.purpose == purpose
  }

  predicate IssuedRecently(s: State, user: nat, purpose: Purpose) {
    exists k :: k in s.tokens && For(s.tokens[k], user, purpose) && s.tokens[k].createdAt > s.now - RESEND_COOLDOWN
  }

  /** The older tokens for the purpose go, the new one takes their place, and its link is mailed. */
  function Issued(s: State, user: nat, purpose: Purpose, email: string, ttl: int, token: nat): (t: State) {
    var kept := map k | k in s.tokens && !For(s.tokens[k], user, purpose) :: s.tokens[k];
    s.(tokens := kept[token := Token(user, purpose, email, s.now, s.now + ttl, None)],
       issued := s.issued + {token}, log := s.log + [Mailed(user, purpose, email, token, s.now)])
  }

  predicate ActiveToken(s: State, token: nat, purpose: Purpose) {
    token in s.tokens && s.tokens[token].purpose == purpose && s.tokens[token].usedAt.None?
      && s.tokens[token].expiresAt > s.now
  }

  function Spent(s: State, token: nat): (tokens: map<nat, Token>)
    requires token in s.tokens
  {
    s.tokens[token := s.tokens[token].(usedAt := Some(s.now))]
  }

  // ---- addresses ----

  /** Only a verified address is taken. */
  predicate Taken(lower: Lower, s: State, email: string, except: Option<nat>) {
    exists v :: v in s.users && Some(v) != except && s.users[v].verified && s.users[v].email.Some?
                && lower(s.users[v].email.value) == lower(email)
  }

  /** Nothing is sent when mail is off, there is nothing to verify, or a link just went out. */
  function LinkSent(s: State, user: nat, enabled: bool, token: nat): (t: State)
    requires user in s.users
  {
    var u := s.users[user];
    if !enabled || u.email.None? || u.verified || IssuedRecently(s, user, EmailVerification) then s
    else Issued(s, user, EmailVerification, u.email.value, VERIFY_TTL, token)
  }

  function Rewritten(s: State, user: nat, email: Option<string>): (t: State)
    requires user in s.users
  {
    s.(users := s.users[user := s.users[user].(email := email, verified := false)], log := s.log + [Changed(user)])
  }

  function ChangedEmail(lower: Lower, s: State, user: nat, email: Option<string>, enabled: bool, token: nat): (r: Reply)
    requires user in s.users
  {
    if email == s.users[user].email then Reply(s, None)
    else if email.Some? && Taken(lower, s, email.value, Some(user)) then Reply(s, Some(EmailAlreadyUsed))
    else Reply(LinkSent(Rewritten(s, user, email), user, enabled, token), None)
  }

  function ConfirmedEmail(lower: Lower, s: State, token: nat): (r: Reply) {
    if !ActiveToken(s, token, EmailVerification) then Reply(s, Some(TokenInvalid))
    else
      var row := s.tokens[token];
      if row.user !in s.users || !s.users[row.user].active || s.users[row.user].email != Some(row.email)
        then Reply(s, Some(TokenInvalid))
      else if Taken(lower, s, row.email, Some(row.user)) then Reply(s, Some(EmailAlreadyUsed))
      else
        Reply(s.(users := s.users[row.user := s.users[row.user].(verified := true)], tokens := Spent(s, token),
                 log := s.log + [Confirmed(row.user, row.email, token, s.now)]), None)
  }

  // ---- passwords ----

  predicate Owns(lower: Lower, s: State, v: nat, email: string) {
    v in s.users && s.users[v].verified && s.users[v].active && s.users[v].email.Some?
      && lower(s.users[v].email.value) == email
  }

  /** Silent for an unknown or unverified address; `user` is the row the query finds, if any. */
  function ResetRequested(s: State, user: Option<nat>, token: nat): (t: State)
    requires user.Some? ==> user.value in s.users && s.users[user.value].email.Some?
  {
    if user.None? || IssuedRecently(s, user.value, PasswordReset) then s
    else Issued(s, user.value, PasswordReset, s.users[user.value].email.value, RESET_TTL, token)
  }

  function PasswordChanged(s: State, token: nat, password: nat, length: nat): (r: Reply) {
    if !ActiveToken(s, token, PasswordReset) then Reply(s, Some(TokenInvalid))
    else
      var row := s.tokens[token];
      if row.user !in s.users || !s.users[row.user].active || s.users[row.user].email != Some(row.email)
        then Reply(s, Some(TokenInvalid))
      else if length < MIN_PASSWORD_LENGTH then Reply(s, Some(PasswordTooShort))
      else
        Reply(s.(users := s.users[row.user := s.users[row.user].(password := password)], tokens := Spent(s, token),
                 sessions := map k | k in s.sessions && s.sessions[k] != row.user :: s.sessions[k],
                 log := s.log + [Reset(row.user, token, s.now)]), None)
  }

  // ---- accounts ----

  function Registered(lower: Lower, s: State, user: nat, email: Option<string>, password: nat, length: nat,
                      enabled: bool, token: nat): (r: Reply)
  {
    if email.Some? && Taken(lower, s, email.value, None) then Reply(s, Some(EmailAlreadyUsed))
    else if length < MIN_PASSWORD_LENGTH then Reply(s, Some(PasswordTooShort))
    else
      var t := s.(users := s.users[user := User(None, false, true, password)]);
      if email.None? then Reply(t, None) else ChangedEmail(lower, t, user, email, enabled, token)
  }

  // ---- runs ----

  datatype Step =
    | Tick(seconds: nat)
    | Register(user: nat, email: Option<string>, password: nat, length: nat, enabled: bool, token: nat)
    | Login(session: nat, user: nat)
    | ChangeEmail(user: nat, email: Option<string>, enabled: bool, token: nat)
    | Resend(user: nat, token: nat)
    | Confirm(token: nat)
    | RequestReset(address: string, found: Option<nat>, token: nat)
    | ConfirmReset(token: nat, password: nat, length: nat)

  /** New tokens and users are new, and the reset query finds a row exactly when there is one. */
  predicate Enabled(lower: Lower, s: State, step: Step) {
    match step
    case Tick(_) => true
    case Register(user, _, _, _, _, token) => user !in s.users && token !in s.issued
    case Login(session, user) => session !in s.sessions && user in s.users && s.users[user].active
    case ChangeEmail(user, _, _, token) => user in s.users && token !in s.issued
    case Resend(user, token) => user in s.users && token !in s.issued
    case Confirm(_) => true
    case RequestReset(email, user, token) =>
      token !in s.issued
        && (if user.Some? then Owns(lower, s, user.value, email)
            else forall v :: v in s.users ==> !Owns(lower, s, v, email))
    case ConfirmReset(_, _, _) => true
  }

  function Next(lower: Lower, s: State, step: Step): (t: State)
    requires Enabled(lower, s, step)
  {
    match step
    case Tick(seconds) => s.(now := s.now + seconds)
    case Register(user, email, password, length, enabled, token) =>
      Registered(lower, s, user, email, password, length, enabled, token).state
    case Login(session, user) => s.(sessions := s.sessions[session := user])
    case ChangeEmail(user, email, enabled, token) => ChangedEmail(lower, s, user, email, enabled, token).state
    case Resend(user, token) => LinkSent(s, user, true, token)
    case Confirm(token) => ConfirmedEmail(lower, s, token).state
    case RequestReset(_, user, token) => ResetRequested(s, user, token)
    case ConfirmReset(token, password, length) => PasswordChanged(s, token, password, length).state
  }

  ghost predicate Legal(lower: Lower, s: State, steps: seq<Step>)
    decreases |steps|
  {
    steps == [] || (Enabled(lower, s, steps[0]) && Legal(lower, Next(lower, s, steps[0]), steps[1..]))
  }

  ghost function Run(lower: Lower, s: State, steps: seq<Step>): (t: State)
    requires Legal(lower, s, steps)
    decreases |steps|
  {
    if steps == [] then s else Run(lower, Next(lower, s, steps[0]), steps[1..])
  }

  // ---- reading the log ----

  /** The confirmation of a user's address since their last change of address, if there was one. */
  function Proof(log: seq<Event>, user: nat): (e: Option<Event>)
    ensures e.Some? ==> e.value.Confirmed? && e.value.user == user
  {
    if log == [] then None
    else
      var last := log[|log| - 1];
      if last.Changed? && last.user == user then None
      else if last.Confirmed? && last.user == user then Some(last)
      else Proof(log[..|log| - 1], user)
  }

  /** The mail a token went out in. */
  function Origin(log: seq<Event>, token: nat): (e: Option<Event>)
    ensures e.Some? ==> e.value.Mailed? && e.value.token == token
  {
    if log == [] then None
    else if log[|log| - 1].Mailed? && log[|log| - 1].token == token then Some(log[|log| - 1])
    else Origin(log[..|log| - 1], token)
  }

  function LastMail(log: seq<Event>, user: nat, purpose: Purpose): (at: Option<int>) {
    if log == [] then None
    else
      var last := log[|log| - 1];
      if last.Mailed? && last.user == user && last.purpose == purpose then Some(last.at)
      else LastMail(log[..|log| - 1], user, purpose)
  }

  function SpentIn(log: seq<Event>): (r: set<nat>) {
    if log == [] then {}
    else
      var last := log[|log| - 1];
      SpentIn(log[..|log| - 1]) + (if last.Confirmed? || last.Reset? then {last.token} else {})
  }

  function Ttl(purpose: Purpose): (t: int) {
    if purpose == PasswordReset then RESET_TTL else VERIFY_TTL
  }

  /** What each event must find before it in the log. */
  predicate Sound(before: seq<Event>, e: Event) {
    match e
    case Changed(_) => true
    case Mailed(user, purpose, _, token, at) =>
      Origin(before, token).None? && token !in SpentIn(before)
      && var last := LastMail(before, user, purpose); last.Some? ==> at - last.value >= RESEND_COOLDOWN
    case Confirmed(user, address, token, at) => Used(before, user, EmailVerification, Some(address), token, at)
    case Reset(user, token, at) => Used(before, user, PasswordReset, None, token, at)
  }

  /** A token used once, in time, by the user it was mailed to, at the address it was mailed to. */
  predicate Used(before: seq<Event>, user: nat, purpose: Purpose, address: Option<string>, token: nat, at: int) {
    && token !in SpentIn(before)
    && var o := Origin(before, token);
       o.Some? && o.value.user == user && o.value.purpose == purpose && o.value.at <= at < o.value.at + Ttl(purpose)
       && (address.Some? ==> o.value.address == address.value)
  }

  predicate SoundLog(log: seq<Event>) {
    log == [] || (SoundLog(log[..|log| - 1]) && Sound(log[..|log| - 1], log[|log| - 1]))
  }

  // ---- the invariant ----

  /** At most one row per user and purpose. */
  ghost predicate OneTokenEach(tokens: map<nat, Token>) {
    forall a, b :: a in tokens && b in tokens && For(tokens[a], tokens[b].user, tokens[b].purpose) ==> a == b
  }

  /** No two verified users share an address. */
  ghost predicate VerifiedDistinct(lower: Lower, users: map<nat, User>) {
    && (forall u :: u in users && users[u].verified ==> users[u].email.Some?)
    && (forall u, v ::
          (u in users && v in users && users[u].verified && users[v].verified
           && lower(users[u].email.value) == lower(users[v].email.value)) ==> u == v)
  }

  /** A verified user's address is the one confirmed since it last changed. */
  ghost predicate VerifiedProven(users: map<nat, User>, log: seq<Event>) {
    forall u :: u in users && users[u].verified ==>
      Proof(log, u).Some? && users[u].email == Some(Proof(log, u).value.address)
  }

  /** A row's token is known, its mail is in the log, and it is spent in the log exactly when it is marked used. */
  ghost predicate Recorded(s: State, k: nat)
    requires k in s.tokens
  {
    var t := s.tokens[k];
    && Origin(s.log, k) == Some(Mailed(t.user, t.purpose, t.email, k, t.createdAt))
    && t.expiresAt == t.createdAt + Ttl(t.purpose) && t.createdAt <= s.now
    && (t.usedAt.None? <==> k !in SpentIn(s.log))
  }

  /** The last mail for a user and purpose still has its row. */
  ghost predicate MailHasRow(s: State, user: nat, purpose: Purpose) {
    var last := LastMail(s.log, user, purpose);
    last.Some? ==> exists k :: k in s.tokens && For(s.tokens[k], user, purpose) && s.tokens[k].createdAt == last.value
  }

  ghost predicate LogIssued(s: State) {
    && (forall k :: k in SpentIn(s.log) ==> k in s.issued)
    && (forall k :: Origin(s.log, k).Some? ==> k in s.issued)
  }

  ghost predicate TokensRecorded(s: State) {
    && OneTokenEach(s.tokens)
    && (forall k :: k in s.tokens ==> k in s.issued && Recorded(s, k))
    && (forall user, purpose :: MailHasRow(s, user, purpose))
    && LogIssued(s)
  }

  ghost predicate Inv(lower: Lower, s: State) {
    VerifiedDistinct(lower, s.users) && VerifiedProven(s.users, s.log) && TokensRecorded(s) && SoundLog(s.log)
  }

  /** One more event, as the readers of the log see it. */
  lemma LogMore(log: seq<Event>, e: Event)
    ensures (log + [e])[..|log|] == log
    ensures SoundLog(log + [e]) <==> SoundLog(log) && Sound(log, e)
    ensures forall u ::
      Proof(log + [e], u) == if e.Changed? && e.user == u then None else if e.Confirmed? && e.user == u then Some(e)
        else Proof(log, u)
    ensures forall k :: Origin(log + [e], k) == if e.Mailed? && e.token == k then Some(e) else Origin(log, k)
    ensures forall u, p :: LastMail(log + [e], u, p) == if e.Mailed? && e.user == u && e.purpose == p then Some(e.at)
         else LastMail(log, u, p)
    ensures SpentIn(log + [e]) == SpentIn(log) + (if e.Confirmed? || e.Reset? then {e.token} else {})
  {
    assert (log + [e])[..|log|] == log;
  }

  lemma IssueKeepsTokens(s: State, user: nat, purpose: Purpose, email: string, token: nat)
    requires TokensRecorded(s) && SoundLog(s.log) && token !in s.issued && !IssuedRecently(s, user, purpose)
    ensures
      var t := Issued(s, user, purpose, email, Ttl(purpose), token);
      TokensRecorded(t) && SoundLog(t.log)
  {
    var e := Mailed(user, purpose, email, token, s.now);
    var t := Issued(s, user, purpose, email, Ttl(purpose), token);
    LogMore(s.log, e);
    assert MailHasRow(s, user, purpose);
    assert Sound(s.log, e);
    forall k | k in t.tokens ensures k in t.issued && Recorded(t, k) {
      if k != token { assert Recorded(s, k); }
    }
    forall u, p ensures MailHasRow(t, u, p) {
      assert MailHasRow(s, u, p);
      if u == user && p == purpose {
        assert token in t.tokens;
      } else if LastMail(t.log, u, p).Some? {
        var k :| k in s.tokens && For(s.tokens[k], u, p) && s.tokens[k].createdAt == LastMail(s.log, u, p).value;
        assert k in t.tokens && t.tokens[k] == s.tokens[k];
      }
    }
  }

  /** Marking a live token used, with the event that used it. */
  lemma SpendKeepsTokens(s: State, token: nat, purpose: Purpose, e: Event)
    requires TokensRecorded(s) && SoundLog(s.log) && ActiveToken(s, token, purpose)
    requires
      var row := s.tokens[token];
      if purpose == EmailVerification then e == Confirmed(row.user, row.email, token, s.now)
      else e == Reset(row.user, token, s.now)
    ensures
      var t := s.(tokens := Spent(s, token), log := s.log + [e]);
      TokensRecorded(t) && SoundLog(t.log)
  {
    var t := s.(tokens := Spent(s, token), log := s.log + [e]);
    LogMore(s.log, e);
    assert Recorded(s, token);
    forall k | k in t.tokens ensures k in t.issued && Recorded(t, k) {
      assert Recorded(s, k);
    }
    forall u, p ensures MailHasRow(t, u, p) {
      assert MailHasRow(s, u, p);
      if LastMail(t.log, u, p).Some? {
        var k :| k in s.tokens && For(s.tokens[k], u, p) && s.tokens[k].createdAt == LastMail(s.log, u, p).value;
        assert k in t.tokens;
      }
    }
  }

  /** Events and users that leave the tokens alone. */
  lemma QuietKeepsTokens(s: State, t: State)
    requires TokensRecorded(s) && SoundLog(s.log)
    requires t.tokens == s.tokens && t.issued == s.issued && t.now >= s.now
    requires t.log == s.log || exists u :: t.log == s.log + [Changed(u)]
    ensures TokensRecorded(t) && SoundLog(t.log)
  {
    if t.log != s.log {
      var u :| t.log == s.log + [Changed(u)];
      LogMore(s.log, Changed(u));
    }
    forall k | k in t.tokens ensures k in t.issued && Recorded(t, k) { assert Recorded(s, k); }
    forall u, p ensures MailHasRow(t, u, p) { assert MailHasRow(s, u, p); }
  }

  lemma LinkKeepsInv(lower: Lower, s: State, user: nat, enabled: bool, token: nat)
    requires Inv(lower, s) && user in s.users && token !in s.issued
    ensures Inv(lower, LinkSent(s, user, enabled, token))
  {
    var t := LinkSent(s, user, enabled, token);
    if t != s {
      var email := s.users[user].email.value;
      IssueKeepsTokens(s, user, EmailVerification, email, token);
      LogMore(s.log, Mailed(user, EmailVerification, email, token, s.now));
    }
  }

  lemma RewriteKeepsInv(lower: Lower, s: State, user: nat, email: Option<string>)
    requires Inv(lower, s) && user in s.users
    ensures Inv(lower, Rewritten(s, user, email))
  {
    QuietKeepsTokens(s, Rewritten(s, user, email));
    LogMore(s.log, Changed(user));
  }

  lemma ChangeKeepsInv(lower: Lower, s: State, user: nat, email: Option<string>, enabled: bool, token: nat)
    requires Inv(lower, s) && user in s.users && token !in s.issued
    ensures Inv(lower, ChangedEmail(lower, s, user, email, enabled, token).state)
  {
    if email != s.users[user].email && !(email.Some? && Taken(lower, s, email.value, Some(user))) {
      RewriteKeepsInv(lower, s, user, email);
      LinkKeepsInv(lower, Rewritten(s, user, email), user, enabled, token);
    }
  }

  lemma ConfirmKeepsInv(lower: Lower, s: State, token: nat)
    requires Inv(lower, s)
    ensures Inv(lower, ConfirmedEmail(lower, s, token).state)
  {
    var r := ConfirmedEmail(lower, s, token);
    if r.error.None? {
      var row := s.tokens[token];
      var e := Confirmed(row.user, row.email, token, s.now);
      SpendKeepsTokens(s, token, EmailVerification, e);
      QuietKeepsTokens(s.(tokens := Spent(s, token), log := s.log + [e]), r.state);
      LogMore(s.log, e);
    }
  }

  lemma ResetKeepsInv(lower: Lower, s: State, token: nat, password: nat, length: nat)
    requires Inv(lower, s)
    ensures Inv(lower, PasswordChanged(s, token, password, length).state)
  {
    var r := PasswordChanged(s, token, password, length);
    if r.error.None? {
      var e := Reset(s.tokens[token].user, token, s.now);
      SpendKeepsTokens(s, token, PasswordReset, e);
      QuietKeepsTokens(s.(tokens := Spent(s, token), log := s.log + [e]), r.state);
      LogMore(s.log, e);
    }
  }

  lemma RequestKeepsInv(lower: Lower, s: State, user: Option<nat>, token: nat)
    requires Inv(lower, s) && token !in s.issued
    requires user.Some? ==> user.value in s.users && s.users[user.value].email.Some?
    ensures Inv(lower, ResetRequested(s, user, token))
  {
    if user.Some? && !IssuedRecently(s, user.value, PasswordReset) {
      var email := s.users[user.value].email.value;
      IssueKeepsTokens(s, user.value, PasswordReset, email, token);
      LogMore(s.log, Mailed(user.value, PasswordReset, email, token, s.now));
    }
  }

  lemma RegisterKeepsInv(lower: Lower, s: State, user: nat, email: Option<string>, password: nat, length: nat,
                         enabled: bool, token: nat)
    requires Inv(lower, s) && user !in s.users && token !in s.issued
    ensures Inv(lower, Registered(lower, s, user, email, password, length, enabled, token).state)
  {
    var t := s.(users := s.users[user := User(None, false, true, password)]);
    QuietKeepsTokens(s, t);
    assert Inv(lower, t);
    if email.Some? { ChangeKeepsInv(lower, t, user, email, enabled, token); }
  }

  lemma StepKeepsInv(lower: Lower, s: State, step: Step)
    requires Inv(lower, s) && Enabled(lower, s, step)
    ensures Inv(lower, Next(lower, s, step))
  {
    match step {
      case Tick(seconds) => QuietKeepsTokens(s, Next(lower, s, step));
      case Register(user, email, password, length, enabled, token) =>
        RegisterKeepsInv(lower, s, user, email, password, length, enabled, token);
      case Login(session, user) => QuietKeepsTokens(s, Next(lower, s, step));
      case ChangeEmail(user, email, enabled, token) => ChangeKeepsInv(lower, s, user, email, enabled, token);
      case Resend(user, token) => LinkKeepsInv(lower, s, user, true, token);
      case Confirm(token) => ConfirmKeepsInv(lower, s, token);
      case RequestReset(_, found, token) => RequestKeepsInv(lower, s, found, token);
      case ConfirmReset(token, password, length) => ResetKeepsInv(lower, s, token, password, length);
    }
  }

  lemma {:induction false} RunKeepsInv(lower: Lower, s: State, steps: seq<Step>)
    requires Inv(lower, s) && Legal(lower, s, steps)
    ensures Inv(lower, Run(lower, s, steps))
    decreases |steps|
  {
    if steps != [] {
      StepKeepsInv(lower, s, steps[0]);
      RunKeepsInv(lower, Next(lower, s, steps[0]), steps[1..]);
    }
  }

  function Empty(now: int): (s: State) { State(map[], map[], map[], now, {}, []) }

  lemma EmptyIsConsistent(lower: Lower, now: int)
    ensures Inv(lower, Empty(now))
  {
  }

  // ---- what that means ----

  lemma {:induction false} SoundAt(log: seq<Event>, i: nat)
    requires SoundLog(log) && i < |log|
    ensures SoundLog(log[..i]) && Sound(log[..i], log[i])
  {
    var n := |log| - 1;
    if i < n {
      SoundAt(log[..n], i);
      assert log[..n][..i] == log[..i];
    }
  }

  lemma {:induction false} ProofAt(log: seq<Event>, user: nat) returns (i: nat)
    requires Proof(log, user).Some?
    ensures i < |log| && Some(log[i]) == Proof(log, user)
    ensures forall j :: i < j < |log| ==> !(log[j].Changed? && log[j].user == user)
  {
    var n := |log| - 1;
    if log[n].Confirmed? && log[n].user == user {
      i := n;
    } else {
      i := ProofAt(log[..n], user);
      assert forall j :: i < j < n ==> log[j] == log[..n][j];
    }
  }

  lemma {:induction false} OriginAt(log: seq<Event>, token: nat) returns (i: nat)
    requires Origin(log, token).Some?
    ensures i < |log| && Some(log[i]) == Origin(log, token)
  {
    var n := |log| - 1;
    if log[n].Mailed? && log[n].token == token { i := n; } else { i := OriginAt(log[..n], token); }
  }

  /** Over every run, no two verified users share an address. */
  lemma NoSharedAddress(lower: Lower, now: int, steps: seq<Step>, u: nat, v: nat)
    requires Legal(lower, Empty(now), steps)
    requires
      var users := Run(lower, Empty(now), steps).users;
      u in users && v in users && u != v && users[u].verified && users[v].verified
    ensures
      var users := Run(lower, Empty(now), steps).users;
      users[u].email.Some? && users[v].email.Some? && lower(users[u].email.value) != lower(users[v].email.value)
  {
    EmptyIsConsistent(lower, now);
    RunKeepsInv(lower, Empty(now), steps);
  }

  /**
   * Over every run, a verified user's address was confirmed, after its last change, with a link mailed to
   * exactly that address, not used before and not expired.
   */
  lemma VerifiedWasConfirmed(lower: Lower, now: int, steps: seq<Step>, u: nat) returns (i: nat, j: nat)
    requires Legal(lower, Empty(now), steps)
    requires u in Run(lower, Empty(now), steps).users && Run(lower, Empty(now), steps).users[u].verified
    ensures
      var (log, user) := (Run(lower, Empty(now), steps).log, Run(lower, Empty(now), steps).users[u]);
      && i < |log| && log[i].Confirmed? && log[i].user == u && user.email == Some(log[i].address)
      && (forall k :: i < k < |log| ==> !(log[k].Changed? && log[k].user == u))
      && log[i].token !in SpentIn(log[..i])
      && j < i && log[j].Mailed? && log[j] == Mailed(u, EmailVerification, log[i].address, log[i].token, log[j].at)
      && log[j].at <= log[i].at < log[j].at + VERIFY_TTL
  {
    EmptyIsConsistent(lower, now);
    RunKeepsInv(lower, Empty(now), steps);
    var log := Run(lower, Empty(now), steps).log;
    i := ProofAt(log, u);
    SoundAt(log, i);
    j := OriginAt(log[..i], log[i].token);
  }

  lemma {:induction false} SpentBefore(log: seq<Event>, i: nat)
    requires i < |log| && (log[i].Confirmed? || log[i].Reset?)
    ensures log[i].token in SpentIn(log)
  {
    if i < |log| - 1 { SpentBefore(log[..|log| - 1], i); }
  }

  /** Over every run, each token is used at most once, for either purpose. */
  lemma TokenUsedOnce(lower: Lower, now: int, steps: seq<Step>, i: nat, j: nat)
    requires Legal(lower, Empty(now), steps)
    requires
      var log := Run(lower, Empty(now), steps).log;
      i < j < |log| && (log[i].Confirmed? || log[i].Reset?) && (log[j].Confirmed? || log[j].Reset?)
    ensures Run(lower, Empty(now), steps).log[i].token != Run(lower, Empty(now), steps).log[j].token
  {
    EmptyIsConsistent(lower, now);
    RunKeepsInv(lower, Empty(now), steps);
    var log := Run(lower, Empty(now), steps).log;
    SoundAt(log, j);
    SpentBefore(log[..j], i);
  }

  lemma {:induction false} LastMailIsLatest(log: seq<Event>, i: nat)
    requires SoundLog(log) && i < |log| && log[i].Mailed?
    ensures LastMail(log, log[i].user, log[i].purpose).Some?
    ensures LastMail(log, log[i].user, log[i].purpose).value >= log[i].at
  {
    var n := |log| - 1;
    if i < n {
      LastMailIsLatest(log[..n], i);
      assert Sound(log[..n], log[n]);
    }
  }

  /** Over every run, two mails to one account for one purpose are at least a minute apart. */
  lemma MailsAreSpaced(lower: Lower, now: int, steps: seq<Step>, i: nat, j: nat)
    requires Legal(lower, Empty(now), steps)
    requires
      var log := Run(lower, Empty(now), steps).log;
      i < j < |log| && log[i].Mailed? && log[j].Mailed? && log[i].user == log[j].user
        && log[i].purpose == log[j].purpose
    ensures Run(lower, Empty(now), steps).log[j].at - Run(lower, Empty(now), steps).log[i].at >= RESEND_COOLDOWN
  {
    EmptyIsConsistent(lower, now);
    RunKeepsInv(lower, Empty(now), steps);
    var log := Run(lower, Empty(now), steps).log;
    SoundAt(log, j);
    LastMailIsLatest(log[..j], i);
  }

  /** Over every run there is at most one token row per user and purpose. */
  lemma OneRowPerPurpose(lower: Lower, now: int, steps: seq<Step>, a: nat, b: nat)
    requires Legal(lower, Empty(now), steps)
    requires
      var tokens := Run(lower, Empty(now), steps).tokens;
      a in tokens && b in tokens && tokens[a].user == tokens[b].user && tokens[a].purpose == tokens[b].purpose
    ensures a == b
  {
    EmptyIsConsistent(lower, now);
    RunKeepsInv(lower, Empty(now), steps);
  }

  /** A successful reset leaves its user no session and everyone else theirs; a refused one leaves everything. */
  lemma ResetEndsSessions(s: State, token: nat, password: nat, length: nat)
    ensures
      var r := PasswordChanged(s, token, password, length);
      && (r.error.Some? ==> r.state == s)
      && (r.error.None? ==>
            var user := s.tokens[token].user;
            && user in s.users && r.state.users[user].password == password && length >= MIN_PASSWORD_LENGTH
            && (forall k :: k in r.state.sessions ==> r.state.sessions[k] != user)
            && (forall k :: k in s.sessions && s.sessions[k] != user ==>
              k in r.state.sessions && r.state.sessions[k] == s.sessions[k])
            && !ActiveToken(r.state, token, PasswordReset))
  {
  }

  /** A session a step leaves was there before, or is the one the step opened. */
  lemma StepOpensSessions(lower: Lower, s: State, step: Step, k: nat)
    requires Enabled(lower, s, step) && k in Next(lower, s, step).sessions
    ensures (k in s.sessions && s.sessions[k] == Next(lower, s, step).sessions[k])
         || step == Login(k, Next(lower, s, step).sessions[k])
  {
  }

  lemma {:induction false} SessionsWereOpened(lower: Lower, s: State, steps: seq<Step>, k: nat)
    requires Legal(lower, s, steps) && k in Run(lower, s, steps).sessions
    ensures (k in s.sessions && s.sessions[k] == Run(lower, s, steps).sessions[k])
         || Login(k, Run(lower, s, steps).sessions[k]) in steps
    decreases |steps|
  {
    if steps != [] {
      var t := Next(lower, s, steps[0]);
      SessionsWereOpened(lower, t, steps[1..], k);
      if k in t.sessions && t.sessions[k] == Run(lower, s, steps).sessions[k] {
        StepOpensSessions(lower, s, steps[0], k);
      }
    }
  }

  /** After a successful reset, however long the run, every session of the user was opened since. */
  lemma NoSessionSurvivesReset(lower: Lower, s: State, token: nat, password: nat, length: nat, steps: seq<Step>, k: nat)
    requires PasswordChanged(s, token, password, length).error.None?
    requires Legal(lower, PasswordChanged(s, token, password, length).state, steps)
    requires
      var t := Run(lower, PasswordChanged(s, token, password, length).state, steps);
      k in t.sessions && t.sessions[k] == s.tokens[token].user
    ensures Login(k, s.tokens[token].user) in steps
  {
    ResetEndsSessions(s, token, password, length);
    SessionsWereOpened(lower, PasswordChanged(s, token, password, length).state, steps, k);
  }

  /** The query for a reset finds at most one user, as no two verified users share an address. */
  lemma ResetFindsOne(lower: Lower, s: State, email: string, u: nat, v: nat)
    requires Inv(lower, s) && Owns(lower, s, u, email) && Owns(lower, s, v, email)
    ensures u == v
  {
  }

  // ---- the service over its tables ----

  class Accounts {
    var users: map<nat, User>
    var tokens: map<nat, Token>
    var sessions: map<nat, nat>
    var now: int
    ghost var issued: set<nat>
    ghost var log: seq<Event>

    ghost function View(): (s: State)
      reads this
    {
      State(users, tokens, sessions, now, issued, log)
    }

    constructor (start: int)
      ensures View() == Empty(start)
    {
      users, tokens, sessions, now, issued, log := map[], map[], map[], start, {}, [];
    }

    method RecentlyIssued(user: nat, purpose: Purpose) returns (recent: bool)
      ensures recent == IssuedRecently(View(), user, purpose)
    {
      recent := exists k :: k in tokens && For(tokens[k], user, purpose) && tokens[k].createdAt > now - RESEND_COOLDOWN;
    }

    method Issue(user: nat, purpose: Purpose, email: string, ttl: int, token: nat)
      modifies this
      ensures View() == Issued(old(View()), user, purpose, email, ttl, token)
    {
      tokens := map k | k in tokens && !For(tokens[k], user, purpose) :: tokens[k];
      tokens := tokens[token := Token(user, purpose, email, now, now + ttl, None)];
      issued, log := issued + {token}, log + [Mailed(user, purpose, email, token, now)];
    }

    method FindActive(token: nat, purpose: Purpose) returns (row: Option<Token>)
      ensures row == if ActiveToken(View(), token, purpose) then Some(tokens[token]) else None
    {
      if token !in tokens || tokens[token].purpose != purpose { return None; }
      var found := tokens[token];
      if found.usedAt.Some? || found.expiresAt <= now { return None; }
      return Some(found);
    }

    method MarkUsed(token: nat)
      requires token in tokens
      modifies this`tokens
      ensures tokens == Spent(old(View()), token)
    {
      tokens := tokens[token := tokens[token].(usedAt := Some(now))];
    }

    method IsTaken(lower: Lower, email: string, except: Option<nat>) returns (taken: bool)
      ensures taken == Taken(lower, View(), email, except)
    {
      taken := exists v :: v in users && Some(v) != except && users[v].verified && users[v].email.Some?
                           && lower(users[v].email.value) == lower(email);
    }

    method SendLink(user: nat, enabled: bool, token: nat)
      requires user in users
      modifies this
      ensures View() == LinkSent(old(View()), user, enabled, token)
    {
      var u := users[user];
      if !enabled || u.email.None? || u.verified { return; }
      var recent := RecentlyIssued(user, EmailVerification);
      if recent { return; }
      Issue(user, EmailVerification, u.email.value, VERIFY_TTL, token);
    }

    method ChangeEmail(lower: Lower, user: nat, email: Option<string>, enabled: bool, token: nat)
      returns (error: Option<Error>)
      requires user in users
      modifies this
      ensures Reply(View(), error) == ChangedEmail(lower, old(View()), user, email, enabled, token)
    {
      if email == users[user].email { return None; }
      if email.Some? {
        var taken := IsTaken(lower, email.value, Some(user));
        if taken { return Some(EmailAlreadyUsed); }
      }
      users := users[user := users[user].(email := email)];
      users := users[user := users[user].(verified := false)];
      log := log + [Changed(user)];
      SendLink(user, enabled, token);
      return None;
    }

    method ConfirmEmail(lower: Lower, token: nat) returns (error: Option<Error>)
      modifies this
      ensures Reply(View(), error) == ConfirmedEmail(lower, old(View()), token)
    {
      var found := FindActive(token, EmailVerification);
      if found.None? { return Some(TokenInvalid); }
      var row := found.value;
      if row.user !in users || !users[row.user].active || users[row.user].email != Some(row.email) {
        return Some(TokenInvalid);
      }
      var taken := IsTaken(lower, row.email, Some(row.user));
      if taken { return Some(EmailAlreadyUsed); }
      users := users[row.user := users[row.user].(verified := true)];
      MarkUsed(token);
      log := log + [Confirmed(row.user, row.email, token, now)];
      return None;
    }

    method RequestReset(user: Option<nat>, token: nat)
      requires user.Some? ==> user.value in users && users[user.value].email.Some?
      modifies this
      ensures View() == ResetRequested(old(View()), user, token)
    {
      if user.None? { return; }
      var recent := RecentlyIssued(user.value, PasswordReset);
      if recent { return; }
      Issue(user.value, PasswordReset, users[user.value].email.value, RESET_TTL, token);
    }

    method ConfirmReset(token: nat, password: nat, length: nat) returns (error: Option<Error>)
      modifies this
      ensures Reply(View(), error) == PasswordChanged(old(View()), token, password, length)
    {
      var found := FindActive(token, PasswordReset);
      if found.None? { return Some(TokenInvalid); }
      var row := found.value;
      if row.user !in users || !users[row.user].active || users[row.user].email != Some(row.email) {
        return Some(TokenInvalid);
      }
      if length < MIN_PASSWORD_LENGTH { return Some(PasswordTooShort); }
      users := users[row.user := users[row.user].(password := password)];
      MarkUsed(token);
      sessions := map k | k in sessions && sessions[k] != row.user :: sessions[k];
      log := log + [Reset(row.user, token, now)];
      return None;
    }
  }
}
