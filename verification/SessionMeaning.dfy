/** What the identity transactions come to for the people concerned: who can log in, what their tokens open and for how
    long, which password counts, and what a revocation records. */
module SessionMeaning {
  import opened Basics
  import opened Sessions
  import opened SessionTheorems

  // ----- Logging in -----

  predicate MayLogIn(t: Tables, userId: Id) {
    && userId in t.users && t.users[userId].status == Active
    && (t.users[userId].role == Cashier ==> t.users[userId].emailVerified)
  }

  ghost predicate Free(t: Tables, value: NewSession, drawn: Drawn) {
    && drawn.sessionId !in t.sessions
    && forall id :: id in t.sessions ==>
         t.sessions[id].accessHash != value.accessHash && t.sessions[id].refreshHash != value.refreshHash
  }

  /** What the bearer of the new session's tokens can do with them: until the access expiry be the user, afterwards be
      nobody; until the refresh expiry rotate. */
  ghost predicate TokensWork(t: Tables, userId: Id, value: NewSession, drawn: Drawn)
    requires userId in t.users
  {
    && (forall now: Instant :: AccessOf(t, value.accessHash, now) ==
          if now < value.accessExpires
          then Principal(userId, drawn.familyId, t.users[userId].role, t.users[userId].mustChangePassword)
          else Denied(Unauthenticated))
    && RotatesUntil(t, value.refreshHash, value.refreshExpires)
  }

  /** The new session is the only change of the sessions, and starts its own chain. */
  ghost predicate OnlyNewSession(a: map<Id, Session>, b: map<Id, Session>, userId: Id, value: NewSession, drawn: Drawn) {
    && drawn.sessionId !in a && drawn.sessionId in b && b == a[drawn.sessionId := b[drawn.sessionId]]
    && var s := b[drawn.sessionId];
       && s.userId == userId && s.familyId == drawn.familyId && s.parent == None && s.createdAt == drawn.createdAt
       && s.revoked == None && s.consumedAt == None
  }

  lemma NewSessionWorks(t: Tables, userId: Id, value: NewSession, drawn: Drawn)
    requires HashesUnique(t.sessions) && Insert(t, userId, drawn.familyId, None, value, drawn).1 == Inserted
    requires t.users[userId].status.Active?
    ensures var after := Insert(t, userId, drawn.familyId, None, value, drawn).0;
      && after == t.(sessions := after.sessions) && OnlyNewSession(t.sessions, after.sessions, userId, value, drawn)
      && TokensWork(after, userId, value, drawn)
  {
    var after := Insert(t, userId, drawn.familyId, None, value, drawn).0;
    LiveSessionIsUsable(after, drawn.sessionId);
    forall now: Instant
      ensures AccessOf(after, value.accessHash, now) ==
        if now < value.accessExpires
        then Principal(userId, drawn.familyId, t.users[userId].role, t.users[userId].mustChangePassword)
        else Denied(Unauthenticated)
    {
      assert Opens(after, drawn.sessionId, value.accessHash, now) <==> now < value.accessExpires;
    }
  }

  /** A login succeeds exactly for an active user who is not an unverified cashier, given free identifiers; its tokens
      then work until the expiries that were asked for, and nothing else has changed. A disabled account is told so, and
      a login that fails changes nothing. */
  lemma LoginOpensASession(t: Tables, userId: Id, value: NewSession, drawn: Drawn)
    requires HashesUnique(t.sessions)
    ensures var (after, outcome) := SessionCreated(t, userId, value, drawn);
      && (outcome == Done <==> MayLogIn(t, userId) && Free(t, value, drawn))
      && (outcome == AccountDisabled <==> userId in t.users && t.users[userId].status == Disabled)
      && (outcome != Done ==> after == t)
      && (outcome == Done ==>
            && after == t.(sessions := after.sessions) && OnlyNewSession(t.sessions, after.sessions, userId, value, drawn)
            && TokensWork(after, userId, value, drawn))
  {
    if SessionCreated(t, userId, value, drawn).1 == Done {
      NewSessionWorks(t, userId, value, drawn);
    }
  }

  /** Nobody gets into the account of an unverified cashier: no login, no access token and no refresh token. */
  lemma UnverifiedCashiersAreLockedOut(
    t: Tables, userId: Id, id: Id, hash: Id, value: NewSession, drawn: Drawn, now: Instant)
    requires userId in t.users && t.users[userId].role == Cashier && !t.users[userId].emailVerified
    requires HashesUnique(t.sessions) && id in t.sessions && t.sessions[id].userId == userId
    ensures SessionCreated(t, userId, value, drawn).1 != Done
    ensures !Opens(t, id, hash, now)
    ensures RefreshRotated(t, t.sessions[id].refreshHash, value, drawn, now).1 != Done
  {
    assert Presented(t, id, t.sessions[id].refreshHash);
    assert PresentedSession(t, t.sessions[id].refreshHash) == id;
  }

  // ----- OAuth -----

  /** An intent to log in with this provider that was neither used nor has expired. */
  predicate IntentStands(t: Tables, intentId: Id, provider: Provider, now: Instant) {
    && intentId in t.intents && t.intents[intentId].provider == provider && t.intents[intentId].purpose == ForLogin
    && t.intents[intentId].consumedAt == None && now < t.intents[intentId].expiresAt
  }

  /** The account the provider's subject belongs to. */
  predicate SubjectIs(t: Tables, verified: Verified, userId: Id) {
    && LoginKey(verified.provider, verified.subject) in t.logins
    && t.logins[LoginKey(verified.provider, verified.subject)].userId == userId && userId in t.users
  }

  ghost predicate SomebodyOwns(t: Tables, email: string) {
    exists u :: u in t.users && t.users[u].email == email
  }

  predicate IntentUsed(a: map<Id, Intent>, b: map<Id, Intent>, intentId: Id, now: Instant) {
    intentId in a && b == a[intentId := a[intentId].(consumedAt := Some(now))]
  }

  /** The account a completed OAuth login is for, and the users and logins with it: the subject's account, with nothing
      new; or a new active customer with the verified email, whose only login is this subject, without a password. */
  ghost predicate SignedInAs(t: Tables, after: Tables, verified: Verified, newUserId: Id, userId: Id) {
    if SubjectIs(t, verified, userId) then after.users == t.users && after.logins == t.logins
    else
      && !SomebodyOwns(t, verified.email) && userId == newUserId && newUserId !in t.users
      && after.users == t.users[newUserId := User(verified.email, Customer, Active, false, false)]
      && after.logins == t.logins[LoginKey(verified.provider, verified.subject) := Login(newUserId, None)]
  }

  /** A completed OAuth login needs a standing intent and uses it up; it logs in the subject's account, or the new
      customer's, whose tokens then work until the expiries that were asked for. An email that somebody else owns also
      uses the intent up, but opens nothing; every other failure changes nothing. */
  lemma OAuthOpensASession(
    t: Tables, intentId: Id, verified: Verified, newUserId: Id, value: NewSession, drawn: Drawn, now: Instant)
    requires HashesUnique(t.sessions)
    ensures var (after, outcome) := OAuthLoginCompleted(t, intentId, verified, newUserId, value, drawn, now);
      && (outcome == InvalidIntent <==> !IntentStands(t, intentId, verified.provider, now))
      && (outcome == LinkRequired <==>
            IntentStands(t, intentId, verified.provider, now) && SomebodyOwns(t, verified.email)
            && forall u :: !SubjectIs(t, verified, u))
      && (outcome == LinkRequired ==>
            after == t.(intents := after.intents) && IntentUsed(t.intents, after.intents, intentId, now))
      && (outcome == Done ==>
            && IntentUsed(t.intents, after.intents, intentId, now)
            && drawn.sessionId in after.sessions
            && var userId := after.sessions[drawn.sessionId].userId;
               && SignedInAs(t, after, verified, newUserId, userId) && MayLogIn(after, userId)
               && OnlyNewSession(t.sessions, after.sessions, userId, value, drawn)
               && TokensWork(after, userId, value, drawn))
      && (outcome != Done && outcome != LinkRequired ==> after == t)
  {
    var key := LoginKey(verified.provider, verified.subject);
    var outcome := OAuthLoginCompleted(t, intentId, verified, newUserId, value, drawn, now).1;
    if Known(t, key) {
      assert SubjectIs(t, verified, t.logins[key].userId);
    }
    if outcome == Done {
      if Known(t, key) {
        SignInOpensASession(t, intentId, t.logins[key].userId, value, drawn, now, t);
      } else {
        SignInOpensASession(
          t.(users := t.users[newUserId := NewCustomer(verified.email)], logins := t.logins[key := Login(newUserId, None)]),
          intentId, newUserId, value, drawn, now, t);
      }
    }
  }

  lemma SignInOpensASession(
    t: Tables, intentId: Id, userId: Id, value: NewSession, drawn: Drawn, now: Instant, original: Tables)
    requires HashesUnique(t.sessions) && userId in t.users && intentId in t.intents
    requires SignIn(t, intentId, userId, value, drawn, now, original).1 == Done
    ensures var after := SignIn(t, intentId, userId, value, drawn, now, original).0;
      && after.users == t.users && after.logins == t.logins && IntentUsed(t.intents, after.intents, intentId, now)
      && MayLogIn(after, userId) && OnlyNewSession(t.sessions, after.sessions, userId, value, drawn)
      && TokensWork(after, userId, value, drawn)
  {
    NewSessionWorks(t, userId, value, drawn);
    var before := Insert(t, userId, drawn.familyId, None, value, drawn).0;
    IntentsDoNotMatter(before, ConsumeIntent(before, intentId, now), userId, value, drawn);
  }

  lemma IntentsDoNotMatter(t: Tables, u: Tables, userId: Id, value: NewSession, drawn: Drawn)
    requires u == t.(intents := u.intents) && HashesUnique(t.sessions) && userId in t.users && TokensWork(t, userId, value, drawn)
    requires drawn.sessionId in t.sessions && t.sessions[drawn.sessionId].userId == userId
    requires t.sessions[drawn.sessionId] == Row(userId, drawn.familyId, None, value, drawn.createdAt) && Eligible(t.users[userId])
    ensures TokensWork(u, userId, value, drawn)
  {
    LiveSessionIsUsable(u, drawn.sessionId);
    forall now: Instant
      ensures AccessOf(u, value.accessHash, now) ==
        if now < value.accessExpires
        then Principal(userId, drawn.familyId, u.users[userId].role, u.users[userId].mustChangePassword)
        else Denied(Unauthenticated)
    {
      assert Opens(u, drawn.sessionId, value.accessHash, now) <==> now < value.accessExpires;
    }
  }

  // ----- Passwords -----

  /** The user has a password login with this hash. */
  ghost predicate PasswordCounts(t: Tables, userId: Id, hash: Id) {
    exists key :: key in t.logins && key.provider == Password && t.logins[key].userId == userId
      && t.logins[key].passwordHash == Some(hash)
  }

  ghost predicate HasPasswordLogin(t: Tables, userId: Id) {
    exists key :: key in t.logins && key.provider == Password && t.logins[key].userId == userId
  }

  /** The user's password is the new one and no other; every other login is as it was. */
  ghost predicate PasswordReplaced(t: Tables, after: Tables, userId: Id, hash: Id) {
    && after.logins.Keys == t.logins.Keys
    && (forall h: Id :: PasswordCounts(after, userId, h) <==> h == hash && HasPasswordLogin(t, userId))
    && (forall u, h: Id :: u != userId ==> (PasswordCounts(after, u, h) <==> PasswordCounts(t, u, h)))
    && forall key :: key in t.logins && (key.provider != Password || t.logins[key].userId != userId) ==>
         after.logins[key] == t.logins[key]
  }

  lemma SetPasswordReplaces(t: Tables, after: Tables, userId: Id, hash: Id)
    requires after.logins == SetPassword(t.logins, userId, hash)
    ensures PasswordReplaced(t, after, userId, hash)
  {
    forall h: Id
      ensures PasswordCounts(after, userId, h) <==> h == hash && HasPasswordLogin(t, userId)
    {
      if key :| key in t.logins && key.provider == Password && t.logins[key].userId == userId {
        assert after.logins[key] == Login(userId, Some(hash));
      }
    }
    forall u, h: Id | u != userId
      ensures PasswordCounts(after, u, h) <==> PasswordCounts(t, u, h)
    {
      if key :| key in t.logins && key.provider == Password && t.logins[key].userId == u
                && t.logins[key].passwordHash == Some(h) {
        assert after.logins[key] == t.logins[key];
      }
    }
  }

  /** Only the one account's row changes, as given. */
  predicate OnlyUser(a: map<Id, User>, b: map<Id, User>, userId: Id, user: User) {
    userId in a && b == a[userId := user]
  }

  /** A reset works exactly for a cashier with a password login. From then on only the new password counts, and the
      cashier has to change it. */
  lemma ResetReplacesThePassword(t: Tables, id: Id, hash: Id, now: Instant)
    ensures var (after, outcome) := CashierPasswordReset(t, id, hash, now);
      && (outcome == Done <==> id in t.users && t.users[id].role == Cashier && HasPasswordLogin(t, id))
      && (outcome != Done ==> after == t)
      && (outcome == Done ==>
            && PasswordReplaced(t, after, id, hash) && after.intents == t.intents
            && OnlyUser(t.users, after.users, id, t.users[id].(mustChangePassword := true)))
  {
    assert HasPassword(t, id) <==> HasPasswordLogin(t, id);
    if CashierPasswordReset(t, id, hash, now).1 == Done {
      SetPasswordReplaces(t, CashierPasswordReset(t, id, hash, now).0, id, hash);
    }
  }

  /** A change works exactly for an active user who presents the password that counts. From then on only the new one
      counts, and the user need not change it. */
  lemma ChangeReplacesThePassword(t: Tables, userId: Id, familyId: Id, oldHash: Id, newHash: Id, now: Instant)
    ensures var (after, outcome) := OwnPasswordChanged(t, userId, familyId, oldHash, newHash, now);
      && (outcome == Done <==>
            userId in t.users && t.users[userId].status == Active && PasswordCounts(t, userId, oldHash))
      && (outcome != Done ==> after == t)
      && (outcome == Done ==>
            && PasswordReplaced(t, after, userId, newHash) && HasPasswordLogin(t, userId) && after.intents == t.intents
            && OnlyUser(t.users, after.users, userId, t.users[userId].(mustChangePassword := false)))
  {
    PasswordIsCounts(t, userId, oldHash);
    if OwnPasswordChanged(t, userId, familyId, oldHash, newHash, now).1 == Done {
      SetPasswordReplaces(t, OwnPasswordChanged(t, userId, familyId, oldHash, newHash, now).0, userId, newHash);
    }
  }

  lemma PasswordIsCounts(t: Tables, userId: Id, hash: Id)
    ensures PasswordIs(t, userId, hash) <==> PasswordCounts(t, userId, hash)
    ensures PasswordCounts(t, userId, hash) ==> HasPasswordLogin(t, userId)
  {
    if key :| key in t.logins && key.provider == Password && t.logins[key].userId == userId
              && t.logins[key].passwordHash == Some(hash) {
      assert t.logins[key] == Login(userId, Some(hash));
    }
    if key :| key in t.logins && key.provider.Password? && t.logins[key] == Login(userId, Some(hash)) {
      assert t.logins[key].userId == userId;
    }
  }

  /** The password that a reset gave a cashier is the one with which the cashier can change it, and no other is. */
  lemma ResetPasswordIsTheOneToChange(
    t: Tables, id: Id, hash: Id, now: Instant, familyId: Id, presented: Id, newHash: Id, later: Instant)
    requires CashierPasswordReset(t, id, hash, now).1 == Done && t.users[id].status == Active
    ensures OwnPasswordChanged(CashierPasswordReset(t, id, hash, now).0, id, familyId, presented, newHash, later).1 ==
      if presented == hash then Done else InvalidCredentials
  {
    ResetReplacesThePassword(t, id, hash, now);
    ChangeReplacesThePassword(CashierPasswordReset(t, id, hash, now).0, id, familyId, presented, newHash, later);
  }

  // ----- New and verified accounts -----

  /** A new account: a row for the user, and one password login under the email with this password. */
  ghost predicate AccountAdded(t: Tables, after: Tables, userId: Id, user: User, hash: Id) {
    && userId !in t.users && after.users == t.users[userId := user]
    && LoginKey(Password, user.email) !in t.logins
    && after.logins == t.logins[LoginKey(Password, user.email) := Login(userId, Some(hash))]
    && after.sessions == t.sessions && after.intents == t.intents
  }

  /** A registration adds an active customer with the chosen password, who can log in at once, and works exactly if
      nobody owns the email and the identifiers are free. */
  lemma RegistrationAddsACustomer(t: Tables, email: string, hash: Id, newUserId: Id, value: NewSession, drawn: Drawn)
    requires HashesUnique(t.sessions)
    ensures var (after, outcome) := CustomerRegistered(t, email, hash, newUserId);
      && (outcome == Done <==>
            !SomebodyOwns(t, email) && newUserId !in t.users && LoginKey(Password, email) !in t.logins)
      && (outcome == InvalidInput <==> SomebodyOwns(t, email))
      && (outcome != Done ==> after == t)
      && (outcome == Done ==>
            && AccountAdded(t, after, newUserId, User(email, Customer, Active, false, false), hash)
            && (SessionCreated(after, newUserId, value, drawn).1 == Done <==> Free(t, value, drawn)))
  {
    if CustomerRegistered(t, email, hash, newUserId).1 == Done {
      LoginOpensASession(CustomerRegistered(t, email, hash, newUserId).0, newUserId, value, drawn);
    }
  }

  /** A verification adds a verified cashier with the chosen password if nobody owns the email, and otherwise verifies
      the unverified cashier who does, whose password it replaces; either must change the password. It fails for every
      other owner. */
  lemma VerificationOpensACashier(t: Tables, email: string, hash: Id, newUserId: Id, now: Instant, owner: Id)
    requires EmailsUnique(t.users) && (SomebodyOwns(t, email) ==> owner in t.users && t.users[owner].email == email)
    ensures var (after, outcome) := CashierVerified(t, email, hash, newUserId, now);
      && (outcome == Done <==>
            if SomebodyOwns(t, email) then t.users[owner].role == Cashier && !t.users[owner].emailVerified
            else newUserId !in t.users && LoginKey(Password, email) !in t.logins)
      && (outcome == InvalidInput <==>
            SomebodyOwns(t, email) && (t.users[owner].role != Cashier || t.users[owner].emailVerified))
      && (outcome != Done ==> after == t)
      && (outcome == Done && !SomebodyOwns(t, email) ==>
            AccountAdded(t, after, newUserId, User(email, Cashier, Active, true, true), hash))
      && (outcome == Done && SomebodyOwns(t, email) ==>
            && PasswordReplaced(t, after, owner, hash) && after.intents == t.intents
            && OnlyUser(t.users, after.users, owner,
                        t.users[owner].(emailVerified := true, mustChangePassword := true)))
  {
    if SomebodyOwns(t, email) {
      assert OwnerOf(t, email) == owner;
      var (after, outcome) := CashierVerified(t, email, hash, newUserId, now);
      if outcome == Done {
        SetPasswordReplaces(t, after, owner, hash);
      }
    }
  }

  // ----- Status -----

  /** A disabled account is told so at every login, and a restored one can log in again; only its status has changed. */
  lemma StatusDecidesLogin(t: Tables, id: Id, target: AccountStatus, now: Instant, value: NewSession, drawn: Drawn)
    requires HashesUnique(t.sessions)
    ensures var (after, outcome) := CashierStatusSet(t, id, target, now);
      && (outcome == Done <==> id in t.users && t.users[id].role == Cashier)
      && (outcome != Done ==> after == t)
      && (outcome == Done ==>
            && OnlyUser(t.users, after.users, id, t.users[id].(status := target)) && after.logins == t.logins
            && (target == Disabled ==> SessionCreated(after, id, value, drawn).1 == AccountDisabled)
            && (target == Active ==> after.sessions == t.sessions)
            && (target == Active && t.users[id].emailVerified && Free(t, value, drawn) ==>
                  SessionCreated(after, id, value, drawn).1 == Done))
  {
    if CashierStatusSet(t, id, target, now).1 == Done && target == Active {
      LoginOpensASession(CashierStatusSet(t, id, target, now).0, id, value, drawn);
    }
  }

  /** Disabling works for every account there is, changes only its status, and shuts the login. */
  lemma DisablingDecidesLogin(t: Tables, id: Id, now: Instant, value: NewSession, drawn: Drawn)
    ensures var (after, outcome) := UserDisabled(t, id, now);
      && (outcome == Done <==> id in t.users)
      && (outcome != Done ==> after == t)
      && (outcome == Done ==>
            && OnlyUser(t.users, after.users, id, t.users[id].(status := Disabled)) && after.logins == t.logins
            && SessionCreated(after, id, value, drawn).1 == AccountDisabled)
  {
  }

  // ----- What a revocation records -----

  function Reason(e: Event): string {
    match e
    case LogOut(_, reason, _) => reason
    case Rotate(_, _, _, _) => "REFRESH_REUSE"
    case Disable(_, _) => "ACCOUNT_DISABLED"
    case SetStatus(_, _, _) => "ACCOUNT_DISABLED"
    case ResetPassword(_, _, _) => "PASSWORD_RESET"
    case ChangePassword(_, _, _, _, _) => "PASSWORD_CHANGED"
    case VerifyAccount(_, _, _, _) => "EMAIL_VERIFIED_LOGIN_RESET"
    case _ => ""
  }

  function ClockOf(e: Event): Instant {
    match e
    case LogOut(_, _, now) => now
    case Rotate(_, _, _, now) => now
    case Disable(_, now) => now
    case SetStatus(_, _, now) => now
    case ResetPassword(_, _, now) => now
    case ChangePassword(_, _, _, _, now) => now
    case VerifyAccount(_, _, _, now) => now
    case _ => 0
  }

  /** The moment is the clock's, or the creation time if that is later. */
  predicate NotBefore(at: Instant, now: Instant, createdAt: Instant) {
    at >= now && at >= createdAt && (at == now || at == createdAt)
  }

  /** The session was live; it was consumed and revoked by a rotation, or revoked for the transaction's reason; and
      nothing else about it changed. */
  predicate Recorded(before: Session, after: Session, e: Event, rotated: bool) {
    && before.revoked == None && after.revoked.Some?
    && NotBefore(after.revoked.value.at, ClockOf(e), before.createdAt)
    && after.revoked.value.reason == (if rotated then "ROTATED" else Reason(e))
    && after.consumedAt == (if rotated then Some(after.revoked.value.at) else before.consumedAt)
    && after == before.(revoked := after.revoked, consumedAt := after.consumedAt, replacedBy := after.replacedBy)
    && (!rotated ==> after.replacedBy == before.replacedBy)
  }

  /** Whatever transaction changes a session revokes it, leaving its reason and a time that is not before the session's
      creation; a successful rotation marks the session as rotated and consumed at that time. */
  lemma RevocationsAreRecorded(t: Tables, e: Event, x: Id)
    requires Inv(t) && x in t.sessions && x in Step(t, e).0.sessions
    requires Step(t, e).0.sessions[x] != t.sessions[x]
    ensures Recorded(t.sessions[x], Step(t, e).0.sessions[x], e, e.Rotate? && Step(t, e).1 == Done)
  {
    if e.Rotate? {
      RotationsAreRecorded(t, e, x);
    } else if e.OAuth? {
      OAuthChangesNoSession(t, e, x);
    } else {
      OtherRevocationsAreRecorded(t, e, x);
    }
  }

  lemma RotationsAreRecorded(t: Tables, e: Event, x: Id)
    requires Inv(t) && e.Rotate? && x in t.sessions && x in Step(t, e).0.sessions
    ensures Step(t, e).0.sessions[x] != t.sessions[x] ==>
      Recorded(t.sessions[x], Step(t, e).0.sessions[x], e, Step(t, e).1 == Done)
  {
    if AnyPresented(t, e.hash) {
      UnrevokedIsUnconsumed(t.sessions, PresentedSession(t, e.hash));
    }
  }

  lemma OAuthChangesNoSession(t: Tables, e: Event, x: Id)
    requires e.OAuth? && x in t.sessions
    ensures x in Step(t, e).0.sessions && Step(t, e).0.sessions[x] == t.sessions[x]
  {
  }

  lemma OtherRevocationsAreRecorded(t: Tables, e: Event, x: Id)
    requires !e.Rotate? && !e.OAuth? && x in t.sessions && x in Step(t, e).0.sessions
    ensures Step(t, e).0.sessions[x] != t.sessions[x] ==> Recorded(t.sessions[x], Step(t, e).0.sessions[x], e, false)
  {
  }

  /** The sessions a transaction ends: the family that logs out; the presented session, or for a spent token its whole
      family; all of a user whose account is disabled or verified or whose password is reset; and for a user who changes
      the password all but the family it is done in. */
  ghost predicate Reached(t: Tables, e: Event, s: Session) {
    var outcome := Step(t, e).1;
    match e
    case LogOut(familyId, _, _) => s.familyId == familyId
    case Rotate(hash, _, _, _) =>
      || (outcome == Done && s.refreshHash == hash)
      || (outcome == RefreshReuse
          && exists id :: id in t.sessions && t.sessions[id].refreshHash == hash && t.sessions[id].familyId == s.familyId)
    case Disable(userId, _) => outcome == Done && s.userId == userId
    case SetStatus(id, target, _) => outcome == Done && target == Disabled && s.userId == id
    case ResetPassword(id, _, _) => outcome == Done && s.userId == id
    case ChangePassword(userId, familyId, _, _, _) => outcome == Done && s.userId == userId && s.familyId != familyId
    case VerifyAccount(email, _, _, _) => outcome == Done && s.userId in t.users && t.users[s.userId].email == email
    case _ => false
  }

  /** In a reachable state a transaction ends exactly the live sessions it is meant to reach, and keeps every other. */
  lemma RevocationsReachExactly(t: Tables, e: Event, x: Id)
    requires Inv(t) && x in t.sessions && t.sessions[x].revoked == None
    ensures x in Step(t, e).0.sessions
    ensures Step(t, e).0.sessions[x].revoked.Some? <==> Reached(t, e, t.sessions[x])
  {
    StepGoesForward(t, e);
    assert SessionLater(t.sessions, Step(t, e).0.sessions, x);
    assert OwnerIsEligible(t.users, t.sessions[x]);
    if e.Rotate? {
      RotationReachesExactly(t, e, x);
    } else if e.OAuth? {
      OAuthChangesNoSession(t, e, x);
    } else {
      OthersReachExactly(t, e, x);
    }
  }

  lemma RotationReachesExactly(t: Tables, e: Event, x: Id)
    requires Inv(t) && e.Rotate? && x in t.sessions && t.sessions[x].revoked == None && x in Step(t, e).0.sessions
    ensures Step(t, e).0.sessions[x].revoked.Some? <==> Reached(t, e, t.sessions[x])
  {
    if id :| id in t.sessions && t.sessions[id].refreshHash == e.hash {
      assert OwnerIsEligible(t.users, t.sessions[id]);
      assert Presented(t, id, e.hash) && PresentedSession(t, e.hash) == id;
      FoundRotationReaches(t, id, e.value, e.drawn, e.now, x);
    }
  }

  lemma FoundRotationReaches(t: Tables, id: Id, value: NewSession, drawn: Drawn, now: Instant, x: Id)
    requires id in t.sessions && t.sessions[id].userId in t.users && x in t.sessions && t.sessions[x].revoked == None
    ensures var (after, outcome) := RotateSession(t, id, value, drawn, now);
      && x in after.sessions
      && (after.sessions[x].revoked.Some? <==>
            || (outcome == Done && x == id)
            || (outcome == RefreshReuse && t.sessions[x].familyId == t.sessions[id].familyId))
  {
  }

  lemma OthersReachExactly(t: Tables, e: Event, x: Id)
    requires Inv(t) && !e.Rotate? && !e.OAuth? && x in t.sessions && t.sessions[x].revoked == None
    requires x in Step(t, e).0.sessions && t.sessions[x].userId in t.users && Eligible(t.users[t.sessions[x].userId])
    ensures Step(t, e).0.sessions[x].revoked.Some? <==> Reached(t, e, t.sessions[x])
  {
    if e.VerifyAccount? {
      VerificationReachesExactly(t, e, x);
    } else if e.SetStatus? || e.ResetPassword? || e.ChangePassword? {
      CashierActionsReachExactly(t, e, x);
    } else {
      LogOutReachesExactly(t, e, x);
    }
  }

  lemma VerificationReachesExactly(t: Tables, e: Event, x: Id)
    requires EmailsUnique(t.users) && e.VerifyAccount? && x in t.sessions && t.sessions[x].revoked == None
    requires t.sessions[x].userId in t.users
    ensures x in Step(t, e).0.sessions
    ensures Step(t, e).0.sessions[x].revoked.Some? <==> Reached(t, e, t.sessions[x])
  {
    var user := t.users[t.sessions[x].userId];
    assert user.email == e.email ==> OwnerOf(t, e.email) == t.sessions[x].userId;
  }

  lemma CashierActionsReachExactly(t: Tables, e: Event, x: Id)
    requires e.SetStatus? || e.ResetPassword? || e.ChangePassword?
    requires x in t.sessions && t.sessions[x].revoked == None
    requires t.sessions[x].userId in t.users && t.users[t.sessions[x].userId].status.Active?
    ensures x in Step(t, e).0.sessions
    ensures Step(t, e).0.sessions[x].revoked.Some? <==> Reached(t, e, t.sessions[x])
  {
  }

  lemma LogOutReachesExactly(t: Tables, e: Event, x: Id)
    requires e.LogOut? || e.Disable? || e.LogIn? || e.Register?
    requires x in t.sessions && t.sessions[x].revoked == None && x in Step(t, e).0.sessions
    ensures Step(t, e).0.sessions[x].revoked.Some? <==> Reached(t, e, t.sessions[x])
  {
  }
}
