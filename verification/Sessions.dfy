/** Users, logins and refresh-token sessions: the identity tables and the transactions on them. */
module Sessions {
  import opened Basics

  datatype Role = Customer | Cashier | Admin

  datatype AccountStatus = Active | Disabled

  datatype User = User(email: string, role: Role, status: AccountStatus, emailVerified: bool, mustChangePassword: bool)

  datatype Provider = Password | Google | Apple

  datatype LoginKey = LoginKey(provider: Provider, subject: string)

  /** A stored hash stands for its preimage. */
  datatype Login = Login(userId: Id, passwordHash: Option<Id>)

  datatype Revocation = Revocation(at: Instant, reason: string)

  datatype Session = Session(
    userId: Id, familyId: Id, parent: Option<Id>, accessHash: Id, refreshHash: Id, accessExpires: Instant,
    refreshExpires: Instant, createdAt: Instant, consumedAt: Option<Instant>, revoked: Option<Revocation>,
    replacedBy: Option<Id>)

  datatype Purpose = ForLogin | ForLink

  datatype Intent = Intent(provider: Provider, purpose: Purpose, expiresAt: Instant, consumedAt: Option<Instant>)

  datatype Tables = Tables(
    users: map<Id, User>, logins: map<LoginKey, Login>, sessions: map<Id, Session>, intents: map<Id, Intent>)

  /** The caller's part of a session row. */
  datatype NewSession = NewSession(accessHash: Id, refreshHash: Id, accessExpires: Instant, refreshExpires: Instant)

  /** The identifiers and the creation time the database draws for a session row. */
  datatype Drawn = Drawn(sessionId: Id, familyId: Id, createdAt: Instant)

  function Later(a: Instant, b: Instant): Instant {
    if a < b then b else a
  }

  // ----- Who may hold a session -----

  predicate MayHoldSession(user: User) {
    user.role.Cashier? ==> user.emailVerified
  }

  predicate Eligible(user: User) {
    user.status.Active? && MayHoldSession(user)
  }

  // ----- Revoking -----

  function Revoke(s: Session, now: Instant, reason: string): Session {
    if s.revoked.Some? then s else s.(revoked := Some(Revocation(Later(now, s.createdAt), reason)))
  }

  function RevokeFamilyOf(sessions: map<Id, Session>, familyId: Id, now: Instant, reason: string): map<Id, Session> {
    map id | id in sessions :: if sessions[id].familyId == familyId then Revoke(sessions[id], now, reason) else sessions[id]
  }

  function RevokeUser(sessions: map<Id, Session>, userId: Id, now: Instant, reason: string): map<Id, Session> {
    map id | id in sessions :: if sessions[id].userId == userId then Revoke(sessions[id], now, reason) else sessions[id]
  }

  function RevokeOthers(sessions: map<Id, Session>, userId: Id, familyId: Id, now: Instant): map<Id, Session> {
    map id | id in sessions ::
      if sessions[id].userId == userId && sessions[id].familyId != familyId
      then Revoke(sessions[id], now, "PASSWORD_CHANGED") else sessions[id]
  }

  // ----- Inserting a session -----

  datatype InsertOutcome = Inserted | NoOwner | InsertFailed

  ghost predicate HashTaken(sessions: map<Id, Session>, value: NewSession) {
    exists id :: id in sessions
      && (sessions[id].accessHash == value.accessHash || sessions[id].refreshHash == value.refreshHash)
  }

  function Row(userId: Id, familyId: Id, parent: Option<Id>, value: NewSession, createdAt: Instant): Session {
    Session(userId, familyId, parent, value.accessHash, value.refreshHash, value.accessExpires, value.refreshExpires,
            createdAt, None, None, None)
  }

  /** The insert keeps unverified cashiers out, whatever its caller checked. */
  ghost function Insert(t: Tables, userId: Id, familyId: Id, parent: Option<Id>, value: NewSession, drawn: Drawn)
    : (Tables, InsertOutcome)
  {
    if userId !in t.users || !MayHoldSession(t.users[userId]) then (t, NoOwner)
    else if drawn.sessionId in t.sessions || HashTaken(t.sessions, value) then (t, InsertFailed)
    else
      (t.(sessions := t.sessions[drawn.sessionId := Row(userId, familyId, parent, value, drawn.createdAt)]), Inserted)
  }

  datatype Outcome = Done | Unauthenticated | AccountDisabled | RefreshReuse | InvalidIntent | LinkRequired
    | IdentityLinked | CashierNotFound | InvalidInput | InvalidCredentials | DatabaseError

  function FromInsert(outcome: InsertOutcome): Outcome {
    match outcome
    case Inserted => Done
    case NoOwner => Unauthenticated
    case InsertFailed => DatabaseError
  }

  // ----- Logging in -----

  /** Every login starts a family of its own. */
  ghost function SessionCreated(t: Tables, userId: Id, value: NewSession, drawn: Drawn): (Tables, Outcome) {
    if userId !in t.users then (t, Unauthenticated)
    else if !t.users[userId].status.Active? then (t, AccountDisabled)
    else
      var (after, outcome) := Insert(t, userId, drawn.familyId, None, value, drawn);
      (after, FromInsert(outcome))
  }

  datatype Access =
    | Principal(userId: Id, familyId: Id, role: Role, mustChangePassword: bool)
    | Denied(reason: Outcome)

  ghost predicate Opens(t: Tables, id: Id, hash: Id, now: Instant) {
    && id in t.sessions && t.sessions[id].accessHash == hash
    && t.sessions[id].accessExpires > now && t.sessions[id].revoked.None?
    && t.sessions[id].userId in t.users && MayHoldSession(t.users[t.sessions[id].userId])
  }

  /** What the bearer of an access token is told: who it is, or why not. */
  ghost function AccessOf(t: Tables, hash: Id, now: Instant): Access {
    if id :| Opens(t, id, hash, now) then
      var userId := t.sessions[id].userId;
      if t.users[userId].status.Active?
      then Principal(userId, t.sessions[id].familyId, t.users[userId].role, t.users[userId].mustChangePassword)
      else Denied(AccountDisabled)
    else Denied(Unauthenticated)
  }

  // ----- Rotating -----

  ghost predicate Presented(t: Tables, id: Id, hash: Id) {
    id in t.sessions && t.sessions[id].refreshHash == hash && t.sessions[id].userId in t.users
  }

  function Consumed(s: Session, now: Instant, replacement: Id): Session {
    s.(consumedAt := Some(Later(now, s.createdAt)),
       revoked := Some(Revocation(Later(now, s.createdAt), "ROTATED")),
       replacedBy := Some(replacement))
  }

  ghost function RotateSession(t: Tables, id: Id, value: NewSession, drawn: Drawn, now: Instant): (Tables, Outcome)
    requires id in t.sessions && t.sessions[id].userId in t.users
  {
    var s := t.sessions[id];
    if s.consumedAt.Some? then
      (t.(sessions := RevokeFamilyOf(t.sessions, s.familyId, now, "REFRESH_REUSE")), RefreshReuse)
    else if s.revoked.Some? || s.refreshExpires <= now then (t, Unauthenticated)
    else if !t.users[s.userId].status.Active? then (t, AccountDisabled)
    else
      var (after, outcome) := Insert(t, s.userId, s.familyId, Some(id), value, drawn);
      if !outcome.Inserted? then (t, FromInsert(outcome))
      else (after.(sessions := after.sessions[id := Consumed(s, now, drawn.sessionId)]), Done)
  }

  ghost predicate AnyPresented(t: Tables, hash: Id) {
    exists id :: Presented(t, id, hash)
  }

  ghost function PresentedSession(t: Tables, hash: Id): (id: Id)
    requires AnyPresented(t, hash)
    ensures Presented(t, id, hash)
  {
    var id :| Presented(t, id, hash);
    id
  }

  ghost function RefreshRotated(t: Tables, hash: Id, value: NewSession, drawn: Drawn, now: Instant): (Tables, Outcome) {
    if AnyPresented(t, hash) then RotateSession(t, PresentedSession(t, hash), value, drawn, now)
    else (t, Unauthenticated)
  }

  /** `RevokeFamily`: logging out. */
  function FamilyRevoked(t: Tables, familyId: Id, reason: string, now: Instant): Tables {
    t.(sessions := RevokeFamilyOf(t.sessions, familyId, now, reason))
  }

  // ----- OAuth -----

  datatype Verified = Verified(provider: Provider, subject: string, email: string)

  function KeyOf(verified: Verified): LoginKey {
    LoginKey(verified.provider, verified.subject)
  }

  predicate Usable(t: Tables, intentId: Id, provider: Provider, now: Instant) {
    && intentId in t.intents
    && t.intents[intentId].consumedAt.None? && t.intents[intentId].expiresAt > now
    && t.intents[intentId].purpose.ForLogin? && t.intents[intentId].provider == provider
  }

  function ConsumeIntent(t: Tables, intentId: Id, now: Instant): Tables
    requires intentId in t.intents
  {
    t.(intents := t.intents[intentId := t.intents[intentId].(consumedAt := Some(now))])
  }

  predicate Known(t: Tables, key: LoginKey) {
    key in t.logins && t.logins[key].userId in t.users
  }

  ghost predicate EmailOwned(t: Tables, email: string) {
    exists u :: u in t.users && t.users[u].email == email
  }

  function NewCustomer(email: string): User {
    User(email, Customer, Active, false, false)
  }

  /** The user the provider's subject belongs to, or a new customer. */
  ghost function SignIn(
    t: Tables, intentId: Id, userId: Id, value: NewSession, drawn: Drawn, now: Instant, original: Tables)
    : (Tables, Outcome)
    requires userId in t.users && intentId in t.intents
  {
    if !t.users[userId].status.Active? then (original, AccountDisabled)
    else
      var (after, outcome) := Insert(t, userId, drawn.familyId, None, value, drawn);
      if outcome.Inserted? then (ConsumeIntent(after, intentId, now), Done) else (original, FromInsert(outcome))
  }

  ghost function OAuthLoginCompleted(
    t: Tables, intentId: Id, verified: Verified, newUserId: Id, value: NewSession, drawn: Drawn, now: Instant)
    : (Tables, Outcome)
  {
    var key := KeyOf(verified);
    if !Usable(t, intentId, verified.provider, now) then (t, InvalidIntent)
    else if Known(t, key) then SignIn(t, intentId, t.logins[key].userId, value, drawn, now, t)
    else if EmailOwned(t, verified.email) then (ConsumeIntent(t, intentId, now), LinkRequired)
    else if newUserId in t.users then (t, DatabaseError)
    else if key in t.logins then (t, IdentityLinked)
    else
      var extended := t.(users := t.users[newUserId := NewCustomer(verified.email)],
                         logins := t.logins[key := Login(newUserId, None)]);
      SignIn(extended, intentId, newUserId, value, drawn, now, t)
  }

  // ----- Accounts -----

  function UserDisabled(t: Tables, userId: Id, now: Instant): (Tables, Outcome) {
    if userId !in t.users then (t, InvalidInput)
    else
      (t.(users := t.users[userId := t.users[userId].(status := Disabled)],
          sessions := RevokeUser(t.sessions, userId, now, "ACCOUNT_DISABLED")),
       Done)
  }

  function CashierStatusSet(t: Tables, id: Id, target: AccountStatus, now: Instant): (Tables, Outcome) {
    if id !in t.users || !t.users[id].role.Cashier? then (t, CashierNotFound)
    else if t.users[id].status == target then (t, Done)
    else
      (t.(users := t.users[id := t.users[id].(status := target)],
          sessions := if target.Disabled? then RevokeUser(t.sessions, id, now, "ACCOUNT_DISABLED") else t.sessions),
       Done)
  }

  ghost predicate HasPassword(t: Tables, userId: Id) {
    exists key :: key in t.logins && key.provider.Password? && t.logins[key].userId == userId
  }

  /** The password rows of a user; the unique constraint on user and provider leaves at most one. */
  function SetPassword(logins: map<LoginKey, Login>, userId: Id, hash: Id): map<LoginKey, Login> {
    map key | key in logins ::
      if key.provider.Password? && logins[key].userId == userId then Login(userId, Some(hash)) else logins[key]
  }

  ghost function CashierPasswordReset(t: Tables, id: Id, hash: Id, now: Instant): (Tables, Outcome) {
    if id !in t.users || !t.users[id].role.Cashier? then (t, CashierNotFound)
    else if !HasPassword(t, id) then (t, InvalidInput)
    else
      (Tables(t.users[id := t.users[id].(mustChangePassword := true)], SetPassword(t.logins, id, hash),
              RevokeUser(t.sessions, id, now, "PASSWORD_RESET"), t.intents),
       Done)
  }

  ghost predicate PasswordIs(t: Tables, userId: Id, hash: Id) {
    exists key :: key in t.logins && key.provider.Password? && t.logins[key] == Login(userId, Some(hash))
  }

  ghost function OwnPasswordChanged(
    t: Tables, userId: Id, familyId: Id, oldHash: Id, newHash: Id, now: Instant): (Tables, Outcome)
  {
    if userId !in t.users then (t, Unauthenticated)
    else if !t.users[userId].status.Active? then (t, AccountDisabled)
    else if !PasswordIs(t, userId, oldHash) then (t, InvalidCredentials)
    else
      (Tables(t.users[userId := t.users[userId].(mustChangePassword := false)], SetPassword(t.logins, userId, newHash),
              RevokeOthers(t.sessions, userId, familyId, now), t.intents),
       Done)
  }

  /** The account part of `VerifyCashierRegistration`. */
  ghost function CashierVerified(t: Tables, email: string, hash: Id, newUserId: Id, now: Instant): (Tables, Outcome) {
    if EmailOwned(t, email) then
      var id := OwnerOf(t, email);
      if !t.users[id].role.Cashier? || t.users[id].emailVerified then (t, InvalidInput)
      else
        (Tables(t.users[id := t.users[id].(emailVerified := true, mustChangePassword := true)],
                SetPassword(t.logins, id, hash), RevokeUser(t.sessions, id, now, "EMAIL_VERIFIED_LOGIN_RESET"), t.intents),
         Done)
    else if newUserId in t.users || LoginKey(Password, email) in t.logins then (t, DatabaseError)
    else
      (t.(users := t.users[newUserId := User(email, Cashier, Active, true, true)],
          logins := t.logins[LoginKey(Password, email) := Login(newUserId, Some(hash))]),
       Done)
  }

  ghost function OwnerOf(t: Tables, email: string): (id: Id)
    requires EmailOwned(t, email)
    ensures id in t.users && t.users[id].email == email
  {
    var id :| id in t.users && t.users[id].email == email;
    id
  }

  /** The account part of `VerifyRegistration`. */
  ghost function CustomerRegistered(t: Tables, email: string, hash: Id, newUserId: Id): (Tables, Outcome) {
    if EmailOwned(t, email) then (t, InvalidInput)
    else if newUserId in t.users || LoginKey(Password, email) in t.logins then (t, DatabaseError)
    else
      (t.(users := t.users[newUserId := NewCustomer(email)],
          logins := t.logins[LoginKey(Password, email) := Login(newUserId, Some(hash))]),
       Done)
  }

  // ----- The store -----

  ghost predicate HashesUnique(sessions: map<Id, Session>) {
    && (forall a, b :: a in sessions && b in sessions && sessions[a].accessHash == sessions[b].accessHash ==> a == b)
    && (forall a, b :: a in sessions && b in sessions && sessions[a].refreshHash == sessions[b].refreshHash ==> a == b)
  }

  ghost predicate EmailsUnique(users: map<Id, User>) {
    forall a, b :: a in users && b in users && users[a].email == users[b].email ==> a == b
  }

  /** The unique constraints the lookups rely on. */
  ghost predicate Constrained(t: Tables) {
    HashesUnique(t.sessions) && EmailsUnique(t.users)
  }

  class Store {
    var users: map<Id, User>
    var logins: map<LoginKey, Login>
    var sessions: map<Id, Session>
    var intents: map<Id, Intent>

    ghost function View(): Tables
      reads this
    {
      Tables(users, logins, sessions, intents)
    }

    /** `insertSession`. */
    method InsertSession(userId: Id, familyId: Id, parent: Option<Id>, value: NewSession, drawn: Drawn)
      returns (outcome: InsertOutcome)
      modifies this`sessions
      ensures (View(), outcome) == old(Insert(View(), userId, familyId, parent, value, drawn))
      ensures outcome == Inserted ==>
        && drawn.sessionId in sessions
        && sessions[drawn.sessionId].accessExpires == value.accessExpires
        && sessions[drawn.sessionId].refreshExpires == value.refreshExpires
    {
      ghost var before := View();
      if userId !in users || !MayHoldSession(users[userId]) {
        return NoOwner;
      }
      if drawn.sessionId in sessions
         || exists id :: id in sessions
              && (sessions[id].accessHash == value.accessHash || sessions[id].refreshHash == value.refreshHash) {
        assert drawn.sessionId in before.sessions || HashTaken(before.sessions, value);
        return InsertFailed;
      }
      assert !HashTaken(before.sessions, value);
      sessions := sessions[drawn.sessionId := Row(userId, familyId, parent, value, drawn.createdAt)];
      return Inserted;
    }

    method CreateSession(userId: Id, value: NewSession, drawn: Drawn) returns (outcome: Outcome)
      modifies this`sessions
      ensures (View(), outcome) == old(SessionCreated(View(), userId, value, drawn))
      ensures outcome == Done ==>
        && drawn.sessionId in sessions
        && sessions[drawn.sessionId].accessExpires == value.accessExpires
        && sessions[drawn.sessionId].refreshExpires == value.refreshExpires
    {
      if userId !in users {
        return Unauthenticated;
      }
      if !users[userId].status.Active? {
        return AccountDisabled;
      }
      var inserted := InsertSession(userId, drawn.familyId, None, value, drawn);
      return FromInsert(inserted);
    }

    /** `AuthenticateAccess`: a principal exactly when some live, unexpired session opens and its owner is active. */
    method AuthenticateAccess(hash: Id, now: Instant) returns (access: Access)
      requires Constrained(View())
      ensures access.Principal? <==> exists id :: Opens(View(), id, hash, now) && users[sessions[id].userId].status.Active?
      ensures access.Principal? ==> exists id :: (
        Opens(View(), id, hash, now) && sessions[id].userId == access.userId && sessions[id].familyId == access.familyId)
      ensures access == Denied(AccountDisabled) ==> exists id :: Opens(View(), id, hash, now)
      ensures access == AccessOf(View(), hash, now)
    {
      if id :| id in sessions && sessions[id].accessHash == hash {
        var s := sessions[id];
        if s.accessExpires > now && s.revoked.None? && s.userId in users && MayHoldSession(users[s.userId]) {
          assert Opens(View(), id, hash, now);
          var user := users[s.userId];
          return if user.status.Active? then Principal(s.userId, s.familyId, user.role, user.mustChangePassword)
                 else Denied(AccountDisabled);
        }
      }
      return Denied(Unauthenticated);
    }

    method RotateRefresh(hash: Id, value: NewSession, drawn: Drawn, now: Instant) returns (outcome: Outcome)
      requires Constrained(View())
      modifies this`sessions
      ensures (View(), outcome) == old(RefreshRotated(View(), hash, value, drawn, now))
    {
      ghost var before := View();
      if id :| id in sessions && sessions[id].refreshHash == hash && sessions[id].userId in users {
        assert Presented(before, id, hash) && id == PresentedSession(before, hash);
        outcome := RotateFound(id, value, drawn, now);
      } else {
        assert !AnyPresented(before, hash);
        outcome := Unauthenticated;
      }
    }

    method RotateFound(id: Id, value: NewSession, drawn: Drawn, now: Instant) returns (outcome: Outcome)
      requires id in sessions && sessions[id].userId in users
      modifies this`sessions
      ensures (View(), outcome) == old(RotateSession(View(), id, value, drawn, now))
    {
      var s := sessions[id];
      if s.consumedAt.Some? {
        sessions := RevokeFamilyOf(sessions, s.familyId, now, "REFRESH_REUSE");
        return RefreshReuse;
      }
      if s.revoked.Some? || s.refreshExpires <= now {
        return Unauthenticated;
      }
      if !users[s.userId].status.Active? {
        return AccountDisabled;
      }
      var inserted := InsertSession(s.userId, s.familyId, Some(id), value, drawn);
      if !inserted.Inserted? {
        return FromInsert(inserted);
      }
      sessions := sessions[id := Consumed(s, now, drawn.sessionId)];
      return Done;
    }

    method RevokeFamily(familyId: Id, reason: string, now: Instant)
      modifies this`sessions
      ensures View() == old(FamilyRevoked(View(), familyId, reason, now))
    {
      sessions := RevokeFamilyOf(sessions, familyId, now, reason);
    }

    method CompleteOAuthLogin(
      intentId: Id, verified: Verified, newUserId: Id, value: NewSession, drawn: Drawn, now: Instant) returns (outcome: Outcome)
      modifies this
      ensures (View(), outcome) == old(OAuthLoginCompleted(View(), intentId, verified, newUserId, value, drawn, now))
    {
      ghost var before := View();
      if intentId !in intents || intents[intentId].consumedAt.Some? || intents[intentId].expiresAt <= now
         || !intents[intentId].purpose.ForLogin? || intents[intentId].provider != verified.provider {
        return InvalidIntent;
      }
      var key := KeyOf(verified);
      var oldUsers, oldLogins, userId := users, logins, newUserId;
      if key in logins && logins[key].userId in users {
        userId := logins[key].userId;
      } else {
        if u :| u in users && users[u].email == verified.email {
          assert EmailOwned(before, verified.email);
          intents := intents[intentId := intents[intentId].(consumedAt := Some(now))];
          return LinkRequired;
        }
        assert !EmailOwned(before, verified.email);
        if newUserId in users {
          return DatabaseError;
        }
        users := users[newUserId := NewCustomer(verified.email)];
        if key in logins {
          users := oldUsers;
          return IdentityLinked;
        }
        logins := logins[key := Login(newUserId, None)];
      }
      if !users[userId].status.Active? {
        users, logins := oldUsers, oldLogins;
        return AccountDisabled;
      }
      var inserted := InsertSession(userId, drawn.familyId, None, value, drawn);
      if !inserted.Inserted? {
        users, logins := oldUsers, oldLogins;
        return FromInsert(inserted);
      }
      intents := intents[intentId := intents[intentId].(consumedAt := Some(now))];
      return Done;
    }

    method DisableUser(userId: Id, now: Instant) returns (outcome: Outcome)
      modifies this`users, this`sessions
      ensures (View(), outcome) == old(UserDisabled(View(), userId, now))
    {
      if userId !in users {
        return InvalidInput;
      }
      users := users[userId := users[userId].(status := Disabled)];
      sessions := RevokeUser(sessions, userId, now, "ACCOUNT_DISABLED");
      return Done;
    }

    method SetCashierStatus(id: Id, target: AccountStatus, now: Instant) returns (outcome: Outcome)
      modifies this`users, this`sessions
      ensures (View(), outcome) == old(CashierStatusSet(View(), id, target, now))
    {
      if id !in users || !users[id].role.Cashier? {
        return CashierNotFound;
      }
      if users[id].status != target {
        users := users[id := users[id].(status := target)];
        if target.Disabled? {
          sessions := RevokeUser(sessions, id, now, "ACCOUNT_DISABLED");
        }
      }
      return Done;
    }

    method ResetCashierPassword(id: Id, hash: Id, now: Instant) returns (outcome: Outcome)
      modifies this
      ensures (View(), outcome) == old(CashierPasswordReset(View(), id, hash, now))
    {
      ghost var before := View();
      if id !in users || !users[id].role.Cashier? {
        return CashierNotFound;
      }
      if !exists key :: key in logins && key.provider.Password? && logins[key].userId == id {
        assert !HasPassword(before, id);
        return InvalidInput;
      }
      assert HasPassword(before, id);
      logins := SetPassword(logins, id, hash);
      users := users[id := users[id].(mustChangePassword := true)];
      sessions := RevokeUser(sessions, id, now, "PASSWORD_RESET");
      return Done;
    }

    method ChangeOwnPassword(userId: Id, familyId: Id, oldHash: Id, newHash: Id, now: Instant) returns (outcome: Outcome)
      modifies this
      ensures (View(), outcome) == old(OwnPasswordChanged(View(), userId, familyId, oldHash, newHash, now))
    {
      ghost var before := View();
      if userId !in users {
        return Unauthenticated;
      }
      if !users[userId].status.Active? {
        return AccountDisabled;
      }
      if !exists key :: key in logins && key.provider.Password? && logins[key] == Login(userId, Some(oldHash)) {
        assert !PasswordIs(before, userId, oldHash);
        return InvalidCredentials;
      }
      assert PasswordIs(before, userId, oldHash);
      logins := SetPassword(logins, userId, newHash);
      users := users[userId := users[userId].(mustChangePassword := false)];
      sessions := RevokeOthers(sessions, userId, familyId, now);
      return Done;
    }

    method VerifyCashier(email: string, hash: Id, newUserId: Id, now: Instant) returns (outcome: Outcome)
      requires Constrained(View())
      modifies this
      ensures (View(), outcome) == old(CashierVerified(View(), email, hash, newUserId, now))
    {
      ghost var before := View();
      if id :| id in users && users[id].email == email {
        assert EmailOwned(before, email) && id == OwnerOf(before, email);
        if !users[id].role.Cashier? || users[id].emailVerified {
          return InvalidInput;
        }
        users := users[id := users[id].(emailVerified := true, mustChangePassword := true)];
        logins := SetPassword(logins, id, hash);
        sessions := RevokeUser(sessions, id, now, "EMAIL_VERIFIED_LOGIN_RESET");
        return Done;
      }
      assert !EmailOwned(before, email);
      if newUserId in users || LoginKey(Password, email) in logins {
        return DatabaseError;
      }
      users := users[newUserId := User(email, Cashier, Active, true, true)];
      logins := logins[LoginKey(Password, email) := Login(newUserId, Some(hash))];
      return Done;
    }

    method RegisterCustomer(email: string, hash: Id, newUserId: Id) returns (outcome: Outcome)
      modifies this`users, this`logins
      ensures (View(), outcome) == old(CustomerRegistered(View(), email, hash, newUserId))
    {
      ghost var before := View();
      if exists u :: u in users && users[u].email == email {
        assert EmailOwned(before, email);
        return InvalidInput;
      }
      assert !EmailOwned(before, email);
      if newUserId in users || LoginKey(Password, email) in logins {
        return DatabaseError;
      }
      users := users[newUserId := NewCustomer(email)];
      logins := logins[LoginKey(Password, email) := Login(newUserId, Some(hash))];
      return Done;
    }
  }
}
