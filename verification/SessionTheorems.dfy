/** What every run of the identity transactions guarantees about sessions, families and their owners. */
module SessionTheorems {
  import opened Basics
  import opened Sessions

  datatype Event =
    | LogIn(userId: Id, value: NewSession, drawn: Drawn)
    | Rotate(hash: Id, value: NewSession, drawn: Drawn, now: Instant)
    | LogOut(familyId: Id, reason: string, now: Instant)
    | OAuth(intentId: Id, verified: Verified, newUserId: Id, value: NewSession, drawn: Drawn, now: Instant)
    | Disable(userId: Id, now: Instant)
    | SetStatus(id: Id, target: AccountStatus, now: Instant)
    | ResetPassword(id: Id, hash: Id, now: Instant)
    | ChangePassword(userId: Id, familyId: Id, oldHash: Id, newHash: Id, now: Instant)
    | VerifyAccount(email: string, hash: Id, newUserId: Id, now: Instant)
    | Register(email: string, hash: Id, newUserId: Id)

  /** The family identifier a login draws has never been used. */
  ghost predicate FreshFamily(sessions: map<Id, Session>, familyId: Id) {
    forall id :: id in sessions ==> sessions[id].familyId != familyId
  }

  ghost predicate Enabled(t: Tables, e: Event) {
    match e
    case LogIn(_, _, drawn) => FreshFamily(t.sessions, drawn.familyId)
    case OAuth(_, _, _, _, drawn, _) => FreshFamily(t.sessions, drawn.familyId)
    case _ => true
  }

  ghost function Step(t: Tables, e: Event): (Tables, Outcome) {
    match e
    case LogIn(userId, value, drawn) => SessionCreated(t, userId, value, drawn)
    case Rotate(hash, value, drawn, now) => RefreshRotated(t, hash, value, drawn, now)
    case LogOut(familyId, reason, now) => (FamilyRevoked(t, familyId, reason, now), Done)
    case OAuth(intentId, verified, newUserId, value, drawn, now) =>
      OAuthLoginCompleted(t, intentId, verified, newUserId, value, drawn, now)
    case Disable(userId, now) => UserDisabled(t, userId, now)
    case SetStatus(id, target, now) => CashierStatusSet(t, id, target, now)
    case ResetPassword(id, hash, now) => CashierPasswordReset(t, id, hash, now)
    case ChangePassword(userId, familyId, oldHash, newHash, now) =>
      OwnPasswordChanged(t, userId, familyId, oldHash, newHash, now)
    case VerifyAccount(email, hash, newUserId, now) => CashierVerified(t, email, hash, newUserId, now)
    case Register(email, hash, newUserId) => CustomerRegistered(t, email, hash, newUserId)
  }

  ghost predicate StepAt(states: seq<Tables>, events: seq<Event>, i: nat)
    requires i < |events| < |states|
  {
    Enabled(states[i], events[i]) && states[i + 1] == Step(states[i], events[i]).0
  }

  /** A run starts without sessions, over any users and logins with distinct emails. */
  ghost predicate IsRun(states: seq<Tables>, events: seq<Event>) {
    && |states| == |events| + 1
    && states[0].sessions == map[] && EmailsUnique(states[0].users)
    && forall i: nat :: i < |events| ==> StepAt(states, events, i)
  }

  // ----- Families are chains -----

  /** Position `i` of a chain: child of the one before, replaced by the one after; consumed exactly when it has a
      successor, and then revoked. */
  ghost predicate LinkAt(sessions: map<Id, Session>, chain: seq<Id>, i: nat)
    requires i < |chain|
  {
    && chain[i] in sessions && chain[0] in sessions
    && var s, tip := sessions[chain[i]], i == |chain| - 1;
       && s.userId == sessions[chain[0]].userId
       && s.parent == (if i == 0 then None else Some(chain[i - 1]))
       && s.replacedBy == (if tip then None else Some(chain[i + 1]))
       && (s.consumedAt.Some? <==> !tip)
       && (!tip ==> s.revoked.Some?)
  }

  /** `chain` lists exactly the sessions of the family, without repetition, each linked to the next. */
  ghost predicate IsChain(sessions: map<Id, Session>, familyId: Id, chain: seq<Id>) {
    && chain != [] && NoRepeats(chain)
    && (forall id :: id in chain <==> id in sessions && sessions[id].familyId == familyId)
    && (forall i: nat :: i < |chain| ==> LinkAt(sessions, chain, i))
  }

  ghost predicate HasChain(sessions: map<Id, Session>, familyId: Id) {
    exists chain :: IsChain(sessions, familyId, chain)
  }

  ghost predicate Chained(sessions: map<Id, Session>) {
    forall id :: id in sessions ==> HasChain(sessions, sessions[id].familyId)
  }

  ghost predicate OwnerIsEligible(users: map<Id, User>, s: Session) {
    s.userId in users && (s.revoked.None? ==> Eligible(users[s.userId]))
  }

  ghost predicate OwnersEligible(users: map<Id, User>, sessions: map<Id, Session>) {
    forall id :: id in sessions ==> OwnerIsEligible(users, sessions[id])
  }

  ghost predicate Inv(t: Tables) {
    Chained(t.sessions) && HashesUnique(t.sessions) && EmailsUnique(t.users) && OwnersEligible(t.users, t.sessions)
  }

  // ----- Changes of the session table -----

  /** Some live sessions are revoked; nothing else changes. */
  ghost predicate OnlyRevokes(a: map<Id, Session>, b: map<Id, Session>) {
    && a.Keys == b.Keys
    && forall id :: id in a ==> b[id] == a[id].(revoked := b[id].revoked) && (a[id].revoked.Some? ==> b[id] == a[id])
  }

  lemma RevokingKeepsChains(a: map<Id, Session>, b: map<Id, Session>)
    requires Chained(a) && OnlyRevokes(a, b)
    ensures Chained(b)
  {
    forall id | id in b
      ensures HasChain(b, b[id].familyId)
    {
      assert HasChain(a, a[id].familyId);
      var chain :| IsChain(a, a[id].familyId, chain);
      RevokingKeepsChain(a, b, a[id].familyId, chain);
    }
  }

  lemma RevokingKeepsChain(a: map<Id, Session>, b: map<Id, Session>, familyId: Id, chain: seq<Id>)
    requires IsChain(a, familyId, chain) && OnlyRevokes(a, b)
    ensures IsChain(b, familyId, chain)
  {
    forall i: nat | i < |chain|
      ensures LinkAt(b, chain, i)
    {
      assert LinkAt(a, chain, i);
    }
  }

  /** A session of another family comes or changes: this family keeps its chain. */
  lemma OtherFamilyKeepsChain(a: map<Id, Session>, b: map<Id, Session>, familyId: Id)
    requires HasChain(a, familyId)
    requires forall id :: id in a && a[id].familyId == familyId ==> id in b && b[id] == a[id]
    requires forall id :: id in b && b[id].familyId == familyId ==> id in a && a[id].familyId == familyId
    ensures HasChain(b, familyId)
  {
    var chain :| IsChain(a, familyId, chain);
    forall i: nat | i < |chain|
      ensures LinkAt(b, chain, i)
    {
      assert LinkAt(a, chain, i) && chain[i] in chain && chain[0] in chain;
    }
    assert IsChain(b, familyId, chain);
  }

  lemma RootKeepsChains(a: map<Id, Session>, id: Id, root: Session)
    requires Chained(a) && id !in a && FreshFamily(a, root.familyId)
    requires root.parent.None? && root.replacedBy.None? && root.consumedAt.None?
    ensures Chained(a[id := root])
  {
    var b := a[id := root];
    forall x | x in b
      ensures HasChain(b, b[x].familyId)
    {
      if x == id {
        assert LinkAt(b, [id], 0) && IsChain(b, root.familyId, [id]);
      } else {
        assert HasChain(a, a[x].familyId);
        OtherFamilyKeepsChain(a, b, a[x].familyId);
      }
    }
  }

  /** The session table after a successful rotation. */
  function Rotated(
    sessions: map<Id, Session>, id: Id, next: Id, value: NewSession, drawn: Drawn, now: Instant): map<Id, Session>
    requires id in sessions
  {
    var s := sessions[id];
    sessions[next := Row(s.userId, s.familyId, Some(id), value, drawn.createdAt)][id := Consumed(s, now, next)]
  }

  lemma RotationKeepsChains(a: map<Id, Session>, id: Id, next: Id, value: NewSession, drawn: Drawn, now: Instant)
    requires Chained(a) && id in a && next !in a && a[id].consumedAt.None? && next == drawn.sessionId
    ensures Chained(Rotated(a, id, next, value, drawn, now))
  {
    var s, b := a[id], Rotated(a, id, next, value, drawn, now);
    assert HasChain(a, s.familyId);
    var chain :| IsChain(a, s.familyId, chain);
    RotationGrowsChain(a, b, id, next, value, drawn, now, chain);
    forall x | x in b
      ensures HasChain(b, b[x].familyId)
    {
      if b[x].familyId == s.familyId {
        assert IsChain(b, s.familyId, chain + [next]);
      } else {
        assert HasChain(a, a[x].familyId);
        OtherFamilyKeepsChain(a, b, a[x].familyId);
      }
    }
  }

  /** The session that is rotated is the tip of its family's chain. */
  lemma UnconsumedIsTip(sessions: map<Id, Session>, familyId: Id, chain: seq<Id>, id: Id)
    requires IsChain(sessions, familyId, chain) && id in chain && sessions[id].consumedAt.None?
    ensures chain[|chain| - 1] == id
  {
    var i: nat :| i < |chain| && chain[i] == id;
    assert LinkAt(sessions, chain, i);
  }

  lemma RotationGrowsChain(
    a: map<Id, Session>, b: map<Id, Session>, id: Id, next: Id, value: NewSession, drawn: Drawn, now: Instant,
    chain: seq<Id>)
    requires id in a && next !in a && a[id].consumedAt.None? && IsChain(a, a[id].familyId, chain)
    requires b == Rotated(a, id, next, value, drawn, now)
    ensures IsChain(b, a[id].familyId, chain + [next])
  {
    UnconsumedIsTip(a, a[id].familyId, chain, id);
    var longer := chain + [next];
    forall i: nat | i < |longer|
      ensures LinkAt(b, longer, i)
    {
      if i < |chain| {
        assert LinkAt(a, chain, i) && chain[i] in chain && chain[0] in chain;
        assert i < |chain| - 1 ==> chain[i] != id;
      } else {
        assert LinkAt(a, chain, |chain| - 1);
      }
    }
    assert forall x :: x in longer <==> x in chain || x == next;
  }

  // ----- Steps keep the invariant -----

  lemma RevokeFamilyOnlyRevokes(sessions: map<Id, Session>, familyId: Id, now: Instant, reason: string)
    ensures OnlyRevokes(sessions, RevokeFamilyOf(sessions, familyId, now, reason))
  {
  }

  lemma RevokeUserOnlyRevokes(sessions: map<Id, Session>, userId: Id, now: Instant, reason: string)
    ensures OnlyRevokes(sessions, RevokeUser(sessions, userId, now, reason))
  {
  }

  lemma RevokeOthersOnlyRevokes(sessions: map<Id, Session>, userId: Id, familyId: Id, now: Instant)
    ensures OnlyRevokes(sessions, RevokeOthers(sessions, userId, familyId, now))
  {
  }

  lemma RevokingKeepsHashes(a: map<Id, Session>, b: map<Id, Session>)
    requires HashesUnique(a) && OnlyRevokes(a, b)
    ensures HashesUnique(b)
  {
  }

  lemma RevokingKeepsOwners(users: map<Id, User>, a: map<Id, Session>, b: map<Id, Session>)
    requires OwnersEligible(users, a) && OnlyRevokes(a, b)
    ensures OwnersEligible(users, b)
  {
  }

  lemma RevokingKeepsInv(t: Tables, sessions: map<Id, Session>)
    requires Inv(t) && OnlyRevokes(t.sessions, sessions)
    ensures Inv(t.(sessions := sessions))
  {
    RevokingKeepsChains(t.sessions, sessions);
    RevokingKeepsHashes(t.sessions, sessions);
    RevokingKeepsOwners(t.users, t.sessions, sessions);
  }

  /** One user changes in a way that keeps the email; the user's sessions are revoked unless the user stays eligible. */
  lemma UserChangeKeepsInv(t: Tables, u: Tables, id: Id)
    requires Inv(t) && id in t.users && id in u.users && u.users == t.users[id := u.users[id]]
    requires u.users[id].email == t.users[id].email && OnlyRevokes(t.sessions, u.sessions)
    requires Eligible(u.users[id]) ||
      forall x :: x in u.sessions && u.sessions[x].userId == id ==> u.sessions[x].revoked.Some?
    ensures Inv(u)
  {
    RevokingKeepsChains(t.sessions, u.sessions);
    RevokingKeepsHashes(t.sessions, u.sessions);
    forall x | x in u.sessions
      ensures OwnerIsEligible(u.users, u.sessions[x])
    {
      assert OwnerIsEligible(t.users, t.sessions[x]);
    }
  }

  lemma NewUserKeepsInv(t: Tables, u: Tables, id: Id)
    requires Inv(t) && id !in t.users && id in u.users && u.users == t.users[id := u.users[id]]
    requires u.sessions == t.sessions && !EmailOwned(t, u.users[id].email)
    ensures Inv(u)
  {
  }

  lemma InsertRootKeepsInv(t: Tables, userId: Id, value: NewSession, drawn: Drawn)
    requires Inv(t) && FreshFamily(t.sessions, drawn.familyId)
    requires userId in t.users ==> t.users[userId].status.Active?
    ensures Inv(Insert(t, userId, drawn.familyId, None, value, drawn).0)
  {
    var (u, outcome) := Insert(t, userId, drawn.familyId, None, value, drawn);
    if outcome.Inserted? {
      var row := Row(userId, drawn.familyId, None, value, drawn.createdAt);
      RootKeepsChains(t.sessions, drawn.sessionId, row);
      NewRowKeepsRest(t, u, drawn.sessionId, row, value);
    }
  }

  lemma NewRowKeepsRest(t: Tables, u: Tables, id: Id, row: Session, value: NewSession)
    requires HashesUnique(t.sessions) && OwnersEligible(t.users, t.sessions) && id !in t.sessions
    requires u.users == t.users && u.sessions == t.sessions[id := row] && !HashTaken(t.sessions, value)
    requires row.accessHash == value.accessHash && row.refreshHash == value.refreshHash && OwnerIsEligible(t.users, row)
    ensures HashesUnique(u.sessions) && OwnersEligible(u.users, u.sessions)
  {
  }

  lemma RotationKeepsInv(t: Tables, id: Id, value: NewSession, drawn: Drawn, now: Instant)
    requires Inv(t) && id in t.sessions && t.sessions[id].userId in t.users
    ensures Inv(RotateSession(t, id, value, drawn, now).0)
  {
    var s := t.sessions[id];
    if s.consumedAt.Some? {
      RevokeFamilyOnlyRevokes(t.sessions, s.familyId, now, "REFRESH_REUSE");
      RevokingKeepsInv(t, RevokeFamilyOf(t.sessions, s.familyId, now, "REFRESH_REUSE"));
    } else if RotateSession(t, id, value, drawn, now).1.Done? {
      ReplacingKeepsInv(t, RotateSession(t, id, value, drawn, now).0, id, value, drawn, now);
    }
  }

  lemma ReplacingKeepsInv(t: Tables, u: Tables, id: Id, value: NewSession, drawn: Drawn, now: Instant)
    requires Inv(t) && id in t.sessions && t.sessions[id].consumedAt.None? && t.sessions[id].revoked.None?
    requires drawn.sessionId !in t.sessions && !HashTaken(t.sessions, value)
    requires u == t.(sessions := Rotated(t.sessions, id, drawn.sessionId, value, drawn, now))
    ensures Inv(u)
  {
    var s := t.sessions[id];
    var row := Row(s.userId, s.familyId, Some(id), value, drawn.createdAt);
    var after := t.(sessions := t.sessions[drawn.sessionId := row]);
    assert OwnerIsEligible(t.users, s);
    RotationKeepsChains(t.sessions, id, drawn.sessionId, value, drawn, now);
    NewRowKeepsRest(t, after, drawn.sessionId, row, value);
    ConsumingKeepsRest(after, u, id, now, drawn.sessionId);
  }

  lemma ConsumingKeepsRest(t: Tables, u: Tables, id: Id, now: Instant, next: Id)
    requires HashesUnique(t.sessions) && OwnersEligible(t.users, t.sessions) && id in t.sessions
    requires u.users == t.users && u.sessions == t.sessions[id := Consumed(t.sessions[id], now, next)]
    ensures HashesUnique(u.sessions) && OwnersEligible(u.users, u.sessions)
  {
  }

  lemma OAuthKeepsInv(
    t: Tables, intentId: Id, verified: Verified, newUserId: Id, value: NewSession, drawn: Drawn, now: Instant)
    requires Inv(t) && FreshFamily(t.sessions, drawn.familyId)
    ensures Inv(OAuthLoginCompleted(t, intentId, verified, newUserId, value, drawn, now).0)
  {
    var key := KeyOf(verified);
    if Usable(t, intentId, verified.provider, now) {
      if Known(t, key) {
        if t.users[t.logins[key].userId].status.Active? {
          InsertRootKeepsInv(t, t.logins[key].userId, value, drawn);
        }
      } else if !EmailOwned(t, verified.email) && newUserId !in t.users && key !in t.logins {
        var extended := t.(users := t.users[newUserId := NewCustomer(verified.email)],
                           logins := t.logins[key := Login(newUserId, None)]);
        NewUserKeepsInv(t, extended, newUserId);
        InsertRootKeepsInv(extended, newUserId, value, drawn);
      }
    }
  }

  lemma LogInKeepsInv(t: Tables, userId: Id, value: NewSession, drawn: Drawn)
    requires Inv(t) && FreshFamily(t.sessions, drawn.familyId)
    ensures Inv(SessionCreated(t, userId, value, drawn).0)
  {
    if userId in t.users && t.users[userId].status.Active? {
      InsertRootKeepsInv(t, userId, value, drawn);
    }
  }

  lemma DisableKeepsInv(t: Tables, userId: Id, now: Instant)
    requires Inv(t)
    ensures Inv(UserDisabled(t, userId, now).0)
  {
    RevokeUserOnlyRevokes(t.sessions, userId, now, "ACCOUNT_DISABLED");
    if userId in t.users {
      UserChangeKeepsInv(t, UserDisabled(t, userId, now).0, userId);
    }
  }

  lemma ResetKeepsInv(t: Tables, id: Id, hash: Id, now: Instant)
    requires Inv(t)
    ensures Inv(CashierPasswordReset(t, id, hash, now).0)
  {
    RevokeUserOnlyRevokes(t.sessions, id, now, "PASSWORD_RESET");
    if CashierPasswordReset(t, id, hash, now).1.Done? {
      UserChangeKeepsInv(t, CashierPasswordReset(t, id, hash, now).0, id);
    }
  }

  lemma ChangeKeepsInv(t: Tables, userId: Id, familyId: Id, oldHash: Id, newHash: Id, now: Instant)
    requires Inv(t)
    ensures Inv(OwnPasswordChanged(t, userId, familyId, oldHash, newHash, now).0)
  {
    RevokeOthersOnlyRevokes(t.sessions, userId, familyId, now);
    if OwnPasswordChanged(t, userId, familyId, oldHash, newHash, now).1.Done? {
      PasswordChangeKeepsInv(t, OwnPasswordChanged(t, userId, familyId, oldHash, newHash, now).0, userId);
    }
  }

  lemma VerifyKeepsInv(t: Tables, email: string, hash: Id, newUserId: Id, now: Instant)
    requires Inv(t)
    ensures Inv(CashierVerified(t, email, hash, newUserId, now).0)
  {
    var (u, outcome) := CashierVerified(t, email, hash, newUserId, now);
    if outcome.Done? && EmailOwned(t, email) {
      RevokeUserOnlyRevokes(t.sessions, OwnerOf(t, email), now, "EMAIL_VERIFIED_LOGIN_RESET");
      UserChangeKeepsInv(t, u, OwnerOf(t, email));
    } else if outcome.Done? {
      NewUserKeepsInv(t, u, newUserId);
    }
  }

  lemma RegisterKeepsInv(t: Tables, email: string, hash: Id, newUserId: Id)
    requires Inv(t)
    ensures Inv(CustomerRegistered(t, email, hash, newUserId).0)
  {
  }

  lemma StepKeepsInv(t: Tables, e: Event)
    requires Inv(t) && Enabled(t, e)
    ensures Inv(Step(t, e).0)
  {
    match e
    case LogIn(userId, value, drawn) => LogInKeepsInv(t, userId, value, drawn);
    case Rotate(hash, value, drawn, now) =>
      if AnyPresented(t, hash) {
        RotationKeepsInv(t, PresentedSession(t, hash), value, drawn, now);
      }
    case LogOut(familyId, reason, now) =>
      RevokeFamilyOnlyRevokes(t.sessions, familyId, now, reason);
      RevokingKeepsInv(t, RevokeFamilyOf(t.sessions, familyId, now, reason));
    case OAuth(intentId, verified, newUserId, value, drawn, now) =>
      OAuthKeepsInv(t, intentId, verified, newUserId, value, drawn, now);
    case Disable(userId, now) => DisableKeepsInv(t, userId, now);
    case SetStatus(id, target, now) => StatusKeepsInv(t, id, target, now);
    case ResetPassword(id, hash, now) => ResetKeepsInv(t, id, hash, now);
    case ChangePassword(userId, familyId, oldHash, newHash, now) =>
      ChangeKeepsInv(t, userId, familyId, oldHash, newHash, now);
    case VerifyAccount(email, hash, newUserId, now) => VerifyKeepsInv(t, email, hash, newUserId, now);
    case Register(email, hash, newUserId) => RegisterKeepsInv(t, email, hash, newUserId);
  }

  /** A disabled cashier had no live session, so restoring the account needs no further check. */
  lemma StatusKeepsInv(t: Tables, id: Id, target: AccountStatus, now: Instant)
    requires Inv(t)
    ensures Inv(CashierStatusSet(t, id, target, now).0)
  {
    var u := CashierStatusSet(t, id, target, now).0;
    RevokeUserOnlyRevokes(t.sessions, id, now, "ACCOUNT_DISABLED");
    if u != t {
      if target.Active? {
        forall x | x in t.sessions && t.sessions[x].userId == id
          ensures t.sessions[x].revoked.Some?
        {
          assert OwnerIsEligible(t.users, t.sessions[x]);
        }
      }
      UserChangeKeepsInv(t, u, id);
    }
  }

  lemma PasswordChangeKeepsInv(t: Tables, u: Tables, id: Id)
    requires Inv(t) && id in t.users && u.users == t.users[id := t.users[id].(mustChangePassword := false)]
    requires OnlyRevokes(t.sessions, u.sessions)
    ensures Inv(u)
  {
    RevokingKeepsChains(t.sessions, u.sessions);
    RevokingKeepsHashes(t.sessions, u.sessions);
    RevokingKeepsOwners(t.users, t.sessions, u.sessions);
    FlagKeepsOwners(t.users, u.users, id, u.sessions);
  }

  lemma FlagKeepsOwners(users: map<Id, User>, after: map<Id, User>, id: Id, sessions: map<Id, Session>)
    requires OwnersEligible(users, sessions) && id in users
    requires after == users[id := users[id].(mustChangePassword := false)]
    ensures OwnersEligible(after, sessions)
  {
  }

  lemma {:induction false} RunKeepsInv(states: seq<Tables>, events: seq<Event>, i: nat)
    requires IsRun(states, events) && i < |states|
    ensures Inv(states[i])
  {
    if i > 0 {
      RunKeepsInv(states, events, i - 1);
      assert StepAt(states, events, i - 1);
      StepKeepsInv(states[i - 1], events[i - 1]);
    }
  }

  // ----- Main results -----

  /** In every reachable state every family is one chain of one user. */
  lemma FamiliesAreChains(states: seq<Tables>, events: seq<Event>, i: nat, id: Id)
    requires IsRun(states, events) && i < |states| && id in states[i].sessions
    ensures HasChain(states[i].sessions, states[i].sessions[id].familyId)
  {
    RunKeepsInv(states, events, i);
  }

  /** Consequences of the chain for two sessions of one family: a session is consumed exactly when it has a
      successor, whose parent it is; a consumed session is revoked; at most one session is live, the tip. */
  lemma OneLiveSessionPerFamily(sessions: map<Id, Session>, a: Id, b: Id)
    requires Chained(sessions) && a in sessions && b in sessions && sessions[a].familyId == sessions[b].familyId
    ensures sessions[a].userId == sessions[b].userId
    ensures sessions[a].revoked.None? && sessions[b].revoked.None? ==> a == b
    ensures sessions[a].revoked.None? ==> sessions[a].replacedBy.None?
    ensures sessions[a].consumedAt.Some? <==> sessions[a].replacedBy.Some?
    ensures sessions[a].replacedBy == Some(b) <==> sessions[b].parent == Some(a)
  {
    var familyId := sessions[a].familyId;
    assert HasChain(sessions, familyId);
    var chain :| IsChain(sessions, familyId, chain);
    assert a in chain && b in chain;
    var i: nat :| i < |chain| && chain[i] == a;
    var j: nat :| j < |chain| && chain[j] == b;
    assert LinkAt(sessions, chain, i) && LinkAt(sessions, chain, j);
  }

  /** In every reachable state a live session belongs to an active user who is not an unverified cashier. */
  lemma LiveSessionsHaveEligibleOwners(states: seq<Tables>, events: seq<Event>, i: nat, id: Id)
    requires IsRun(states, events) && i < |states| && id in states[i].sessions && states[i].sessions[id].revoked.None?
    ensures states[i].sessions[id].userId in states[i].users
    ensures Eligible(states[i].users[states[i].sessions[id].userId])
  {
    RunKeepsInv(states, events, i);
    assert OwnerIsEligible(states[i].users, states[i].sessions[id]);
  }

  /** The access token opens the session before `expires`, and from then on no session at all. */
  ghost predicate OpensUntil(t: Tables, id: Id, hash: Id, expires: Instant) {
    forall other: Id, now: Instant :: Opens(t, other, hash, now) <==> other == id && now < expires
  }

  /** The refresh token is rotated before `expires`, given free identifiers for the new session, and never after. */
  ghost predicate RotatesUntil(t: Tables, hash: Id, expires: Instant) {
    forall value, drawn, now: Instant ::
      RefreshRotated(t, hash, value, drawn, now).1 == Done <==>
        now < expires && drawn.sessionId !in t.sessions && !HashTaken(t.sessions, value)
  }

  /** A live session of an eligible owner can be used until its two expiries. */
  lemma LiveSessionIsUsable(t: Tables, id: Id)
    requires HashesUnique(t.sessions) && id in t.sessions
    requires t.sessions[id].revoked.None? && t.sessions[id].consumedAt.None?
    requires t.sessions[id].userId in t.users && Eligible(t.users[t.sessions[id].userId])
    ensures OpensUntil(t, id, t.sessions[id].accessHash, t.sessions[id].accessExpires)
    ensures RotatesUntil(t, t.sessions[id].refreshHash, t.sessions[id].refreshExpires)
  {
    assert Presented(t, id, t.sessions[id].refreshHash);
    assert PresentedSession(t, t.sessions[id].refreshHash) == id;
  }

  /** In a reachable state a presented token is rotated exactly when its session is live and unexpired and the new
      row's identifiers are free; the account checks never fire, because a live session has an eligible owner. The
      successor takes the family over as its only live session, and its tokens work until the expiries that were asked
      for; the presented session opens nothing any more, and its token is reuse. */
  lemma RotationIsExact(t: Tables, id: Id, value: NewSession, drawn: Drawn, now: Instant)
    requires Inv(t) && id in t.sessions
    ensures var (after, outcome) := RefreshRotated(t, t.sessions[id].refreshHash, value, drawn, now);
      && outcome != AccountDisabled
      && (outcome == Done <==>
            && t.sessions[id].revoked.None? && now < t.sessions[id].refreshExpires
            && drawn.sessionId !in t.sessions && !HashTaken(t.sessions, value))
      && (outcome == Done ==>
            && drawn.sessionId in after.sessions && id in after.sessions
            && after.sessions[id].revoked.Some? && after.sessions[id].replacedBy == Some(drawn.sessionId)
            && OpensUntil(after, drawn.sessionId, value.accessHash, value.accessExpires)
            && RotatesUntil(after, value.refreshHash, value.refreshExpires)
            && IsSpent(after, t.sessions[id].accessHash, t.sessions[id].refreshHash)
            && var next := after.sessions[drawn.sessionId];
               && next.revoked.None? && next.parent == Some(id)
               && next.userId == t.sessions[id].userId && next.familyId == t.sessions[id].familyId
               && next.accessHash == value.accessHash && next.refreshHash == value.refreshHash)
  {
    assert OwnerIsEligible(t.users, t.sessions[id]);
    assert Presented(t, id, t.sessions[id].refreshHash);
    assert PresentedSession(t, t.sessions[id].refreshHash) == id;
    UnrevokedIsUnconsumed(t.sessions, id);
    var (after, outcome) := RefreshRotated(t, t.sessions[id].refreshHash, value, drawn, now);
    if outcome == Done {
      RotationInsertsRow(t, id, value, drawn, now);
      LiveSessionIsUsable(after, drawn.sessionId);
      ConsumedIsSpent(after, id);
    }
  }

  lemma RotationInsertsRow(t: Tables, id: Id, value: NewSession, drawn: Drawn, now: Instant)
    requires HashesUnique(t.sessions) && id in t.sessions && t.sessions[id].userId in t.users
    requires RotateSession(t, id, value, drawn, now).1 == Done
    ensures var after := RotateSession(t, id, value, drawn, now).0;
      && after.users == t.users && HashesUnique(after.sessions) && drawn.sessionId != id
      && drawn.sessionId in after.sessions && id in after.sessions
      && after.sessions[drawn.sessionId] == Row(t.sessions[id].userId, t.sessions[id].familyId, Some(id), value, drawn.createdAt)
      && after.sessions[id] == Consumed(t.sessions[id], now, drawn.sessionId)
  {
  }

  /** The access token opens nothing and the refresh token is taken for reuse, at any time. */
  ghost predicate IsSpent(t: Tables, accessHash: Id, refreshHash: Id) {
    && (forall id: Id, now: Instant :: !Opens(t, id, accessHash, now))
    && (forall value, drawn, now: Instant :: RefreshRotated(t, refreshHash, value, drawn, now).1 == RefreshReuse)
  }

  lemma ConsumedIsSpent(t: Tables, id: Id)
    requires HashesUnique(t.sessions) && id in t.sessions && t.sessions[id].userId in t.users
    requires t.sessions[id].revoked.Some? && t.sessions[id].consumedAt.Some?
    ensures IsSpent(t, t.sessions[id].accessHash, t.sessions[id].refreshHash)
  {
    assert Presented(t, id, t.sessions[id].refreshHash);
    assert PresentedSession(t, t.sessions[id].refreshHash) == id;
  }

  lemma UnrevokedIsUnconsumed(sessions: map<Id, Session>, id: Id)
    requires Chained(sessions) && id in sessions
    ensures sessions[id].revoked.None? ==> sessions[id].consumedAt.None?
  {
    OneLiveSessionPerFamily(sessions, id, id);
  }

  /** In a reachable state an access token that opens at all opens for an active user. */
  lemma OpenSessionsHaveActiveUsers(t: Tables, id: Id, hash: Id, now: Instant)
    requires Inv(t) && Opens(t, id, hash, now)
    ensures t.users[t.sessions[id].userId].status.Active?
  {
  }

  // ----- What is never undone -----

  ghost predicate SessionLater(a: map<Id, Session>, b: map<Id, Session>, id: Id)
    requires id in a
  {
    && id in b && b[id].userId == a[id].userId && b[id].familyId == a[id].familyId && b[id].parent == a[id].parent
    && b[id].accessHash == a[id].accessHash && b[id].refreshHash == a[id].refreshHash
    && (a[id].revoked.Some? ==> b[id].revoked == a[id].revoked)
    && (a[id].consumedAt.Some? ==> b[id].consumedAt == a[id].consumedAt && b[id].replacedBy == a[id].replacedBy)
  }

  ghost predicate SessionsLater(a: map<Id, Session>, b: map<Id, Session>) {
    forall id :: id in a ==> SessionLater(a, b, id)
  }

  ghost predicate IntentsLater(a: map<Id, Intent>, b: map<Id, Intent>) {
    forall id :: id in a && a[id].consumedAt.Some? ==> id in b && b[id].consumedAt.Some?
  }

  lemma StepGoesForward(t: Tables, e: Event)
    ensures SessionsLater(t.sessions, Step(t, e).0.sessions) && IntentsLater(t.intents, Step(t, e).0.intents)
  {
    match e
    case Rotate(hash, value, drawn, now) =>
      if AnyPresented(t, hash) {
        RotationGoesForward(t, PresentedSession(t, hash), value, drawn, now);
      }
    case OAuth(intentId, verified, newUserId, value, drawn, now) =>
      OAuthGoesForward(t, intentId, verified, newUserId, value, drawn, now);
    case _ => OtherStepsGoForward(t, e);
  }

  lemma OAuthGoesForward(
    t: Tables, intentId: Id, verified: Verified, newUserId: Id, value: NewSession, drawn: Drawn, now: Instant)
    ensures var u := OAuthLoginCompleted(t, intentId, verified, newUserId, value, drawn, now).0;
      SessionsLater(t.sessions, u.sessions) && IntentsLater(t.intents, u.intents)
  {
  }

  lemma OtherStepsGoForward(t: Tables, e: Event)
    requires !e.Rotate? && !e.OAuth?
    ensures SessionsLater(t.sessions, Step(t, e).0.sessions) && IntentsLater(t.intents, Step(t, e).0.intents)
  {
    if e.LogIn? || e.Register? {
      NewcomersGoForward(t, e);
    } else {
      AccountStepsGoForward(t, e);
    }
  }

  lemma NewcomersGoForward(t: Tables, e: Event)
    requires e.LogIn? || e.Register?
    ensures SessionsLater(t.sessions, Step(t, e).0.sessions) && Step(t, e).0.intents == t.intents
  {
  }

  lemma AccountStepsGoForward(t: Tables, e: Event)
    requires !e.Rotate? && !e.OAuth? && !e.LogIn? && !e.Register?
    ensures SessionsLater(t.sessions, Step(t, e).0.sessions) && Step(t, e).0.intents == t.intents
  {
  }

  lemma RotationGoesForward(t: Tables, id: Id, value: NewSession, drawn: Drawn, now: Instant)
    requires id in t.sessions && t.sessions[id].userId in t.users
    ensures SessionsLater(t.sessions, RotateSession(t, id, value, drawn, now).0.sessions)
    ensures RotateSession(t, id, value, drawn, now).0.intents == t.intents
  {
  }

  /** Over any stretch of a run: sessions are never removed or handed over, and a revocation, a consumption and
      the use of an intent are for ever. Restoring an account therefore revives nothing. */
  lemma {:induction false} NothingIsRevived(states: seq<Tables>, events: seq<Event>, i: nat, j: nat)
    requires IsRun(states, events) && i <= j < |states|
    ensures SessionsLater(states[i].sessions, states[j].sessions) && IntentsLater(states[i].intents, states[j].intents)
    decreases j
  {
    if i < j {
      NothingIsRevived(states, events, i, j - 1);
      assert StepAt(states, events, j - 1);
      StepGoesForward(states[j - 1], events[j - 1]);
      LaterIsTransitive(states[i].sessions, states[j - 1].sessions, states[j].sessions);
    }
  }

  lemma LaterIsTransitive(a: map<Id, Session>, b: map<Id, Session>, c: map<Id, Session>)
    requires SessionsLater(a, b) && SessionsLater(b, c)
    ensures SessionsLater(a, c)
  {
  }

  // ----- Reuse kills a family -----

  ghost predicate Dead(sessions: map<Id, Session>, familyId: Id) {
    forall id :: id in sessions && sessions[id].familyId == familyId ==> sessions[id].revoked.Some?
  }

  ghost predicate Used(sessions: map<Id, Session>, familyId: Id) {
    exists id :: id in sessions && sessions[id].familyId == familyId
  }

  /** A session of a dead family opens nothing and cannot be rotated. */
  lemma DeadFamiliesAreUseless(t: Tables, id: Id, hash: Id, value: NewSession, drawn: Drawn, now: Instant)
    requires Inv(t) && id in t.sessions && Dead(t.sessions, t.sessions[id].familyId)
    ensures !Opens(t, id, hash, now)
    ensures RefreshRotated(t, t.sessions[id].refreshHash, value, drawn, now).1 != Done
  {
  }

  lemma StepKeepsDead(t: Tables, e: Event, familyId: Id)
    requires Inv(t) && Enabled(t, e) && Dead(t.sessions, familyId) && Used(t.sessions, familyId)
    ensures Dead(Step(t, e).0.sessions, familyId) && Used(Step(t, e).0.sessions, familyId)
  {
    var u := Step(t, e).0;
    StepGoesForward(t, e);
    var id :| id in t.sessions && t.sessions[id].familyId == familyId;
    assert SessionLater(t.sessions, u.sessions, id);
    forall x | x in u.sessions && u.sessions[x].familyId == familyId
      ensures u.sessions[x].revoked.Some?
    {
      NewSessionsAreNotDead(t, e, x, familyId);
      assert SessionLater(t.sessions, u.sessions, x);
    }
  }

  /** A step adds no session to a dead family. */
  lemma NewSessionsAreNotDead(t: Tables, e: Event, x: Id, familyId: Id)
    requires Enabled(t, e) && Dead(t.sessions, familyId) && Used(t.sessions, familyId)
    requires x in Step(t, e).0.sessions && Step(t, e).0.sessions[x].familyId == familyId
    ensures x in t.sessions
  {
  }

  lemma {:induction false} DeadForEver(states: seq<Tables>, events: seq<Event>, i: nat, j: nat, familyId: Id)
    requires IsRun(states, events) && i <= j < |states|
    requires Dead(states[i].sessions, familyId) && Used(states[i].sessions, familyId)
    ensures Dead(states[j].sessions, familyId) && Used(states[j].sessions, familyId)
    decreases j
  {
    if i < j {
      DeadForEver(states, events, i, j - 1, familyId);
      RunKeepsInv(states, events, j - 1);
      assert StepAt(states, events, j - 1);
      StepKeepsDead(states[j - 1], events[j - 1], familyId);
    }
  }

  /** Once a consumed refresh token is presented again, no session of its family ever opens anything or is rotated,
      in any later state. */
  lemma ReuseKillsTheFamily(
    states: seq<Tables>, events: seq<Event>, i: nat, j: nat, id: Id, x: Id, hash: Id, value: NewSession, drawn: Drawn,
    now: Instant)
    requires IsRun(states, events) && i < |events| && i < j < |states|
    requires events[i].Rotate? && id in states[i].sessions && states[i].sessions[id].refreshHash == events[i].hash
    requires states[i].sessions[id].consumedAt.Some?
    requires x in states[j].sessions && states[j].sessions[x].familyId == states[i].sessions[id].familyId
    ensures Step(states[i], events[i]).1 == RefreshReuse
    ensures !Opens(states[j], x, hash, now)
    ensures RefreshRotated(states[j], states[j].sessions[x].refreshHash, value, drawn, now).1 != Done
  {
    RunKeepsInv(states, events, i);
    RunKeepsInv(states, events, j);
    assert StepAt(states, events, i);
    ReuseIsDetected(states[i], events[i], id);
    DeadForEver(states, events, i + 1, j, states[i].sessions[id].familyId);
    DeadFamiliesAreUseless(states[j], x, hash, value, drawn, now);
  }

  lemma ReuseIsDetected(t: Tables, e: Event, id: Id)
    requires Inv(t) && e.Rotate? && id in t.sessions && t.sessions[id].refreshHash == e.hash
    requires t.sessions[id].consumedAt.Some?
    ensures Step(t, e).1 == RefreshReuse
    ensures Dead(Step(t, e).0.sessions, t.sessions[id].familyId) && Used(Step(t, e).0.sessions, t.sessions[id].familyId)
  {
    assert OwnerIsEligible(t.users, t.sessions[id]);
    assert Presented(t, id, e.hash) && PresentedSession(t, e.hash) == id;
    assert id in Step(t, e).0.sessions && Step(t, e).0.sessions[id].familyId == t.sessions[id].familyId;
  }

  // ----- Revocation across families -----

  /** After a disable, a reset or a verification of an existing cashier, no session of the user is live. */
  lemma AccountActionsEndAllSessions(t: Tables, e: Event, userId: Id, x: Id)
    requires Inv(t)
    requires match e
      case Disable(id, _) => id == userId
      case SetStatus(id, target, _) => id == userId && target.Disabled?
      case ResetPassword(id, _, _) => id == userId
      case VerifyAccount(email, _, _, _) => EmailOwned(t, email) && OwnerOf(t, email) == userId
      case _ => false
    requires Step(t, e).1 == Done
    requires x in Step(t, e).0.sessions && Step(t, e).0.sessions[x].userId == userId
    ensures Step(t, e).0.sessions[x].revoked.Some?
  {
    if e.SetStatus? {
      DisabledStatusEndsAllSessions(t, e.id, e.now, x);
    }
  }

  lemma DisabledStatusEndsAllSessions(t: Tables, id: Id, now: Instant, x: Id)
    requires Inv(t) && CashierStatusSet(t, id, Disabled, now).1 == Done
    requires x in t.sessions && t.sessions[x].userId == id
    ensures CashierStatusSet(t, id, Disabled, now).0.sessions[x].revoked.Some?
  {
    assert OwnerIsEligible(t.users, t.sessions[x]);
  }

  /** A password change ends every session of the user outside the family it was made in, and none inside it. */
  lemma PasswordChangeKeepsOwnFamily(t: Tables, userId: Id, familyId: Id, oldHash: Id, newHash: Id, now: Instant, x: Id)
    requires OwnPasswordChanged(t, userId, familyId, oldHash, newHash, now).1 == Done && x in t.sessions
    ensures var after := OwnPasswordChanged(t, userId, familyId, oldHash, newHash, now).0.sessions;
      && x in after
      && (t.sessions[x].userId == userId && t.sessions[x].familyId != familyId ==> after[x].revoked.Some?)
      && (t.sessions[x].userId != userId || t.sessions[x].familyId == familyId ==> after[x] == t.sessions[x])
  {
  }

  /** The transaction succeeds and is one that ends the session: a logout from its family, an action on its owner's
      account, or its owner changing the password in another family. */
  ghost predicate Ends(t: Tables, e: Event, s: Session) {
    && Step(t, e).1 == Done
    && match e
       case LogOut(familyId, _, _) => familyId == s.familyId
       case Disable(id, _) => id == s.userId
       case SetStatus(id, target, _) => id == s.userId && target.Disabled?
       case ResetPassword(id, _, _) => id == s.userId
       case ChangePassword(id, familyId, _, _, _) => id == s.userId && familyId != s.familyId
       case VerifyAccount(email, _, _, _) => EmailOwned(t, email) && OwnerOf(t, email) == s.userId
       case _ => false
  }

  lemma EndingRevokes(t: Tables, e: Event, x: Id)
    requires Inv(t) && x in t.sessions && Ends(t, e, t.sessions[x])
    ensures x in Step(t, e).0.sessions && Step(t, e).0.sessions[x].revoked.Some?
  {
    StepGoesForward(t, e);
    assert SessionLater(t.sessions, Step(t, e).0.sessions, x);
    if e.ChangePassword? {
      PasswordChangeKeepsOwnFamily(t, e.userId, e.familyId, e.oldHash, e.newHash, e.now, x);
    } else if e.Disable? || e.SetStatus? || e.ResetPassword? || e.VerifyAccount? {
      AccountActionsEndAllSessions(t, e, t.sessions[x].userId, x);
    }
  }

  /** Such a transaction adds no session. */
  lemma EndingAddsNone(t: Tables, e: Event, s: Session, x: Id)
    requires Ends(t, e, s) && x in Step(t, e).0.sessions
    ensures x in t.sessions
  {
  }

  lemma EndingKillsFamily(t: Tables, e: Event, x: Id)
    requires Inv(t) && x in t.sessions && Ends(t, e, t.sessions[x])
    ensures Dead(Step(t, e).0.sessions, t.sessions[x].familyId) && Used(Step(t, e).0.sessions, t.sessions[x].familyId)
  {
    var u := Step(t, e).0;
    StepGoesForward(t, e);
    assert SessionLater(t.sessions, u.sessions, x);
    forall y | y in u.sessions && u.sessions[y].familyId == t.sessions[x].familyId
      ensures u.sessions[y].revoked.Some?
    {
      EndingAddsNone(t, e, t.sessions[x], y);
      assert SessionLater(t.sessions, u.sessions, y);
      OneLiveSessionPerFamily(t.sessions, x, y);
      EndingRevokes(t, e, y);
    }
  }

  /** A session that was ended so, and every later one of its family, opens nothing and is never rotated again, in
      any later state: also after the account is restored. */
  lemma EndedFamiliesStayDead(
    states: seq<Tables>, events: seq<Event>, i: nat, j: nat, x: Id, y: Id, hash: Id, value: NewSession, drawn: Drawn,
    now: Instant)
    requires IsRun(states, events) && i < |events| && i < j < |states|
    requires x in states[i].sessions && Ends(states[i], events[i], states[i].sessions[x])
    requires y in states[j].sessions && states[j].sessions[y].familyId == states[i].sessions[x].familyId
    ensures !Opens(states[j], y, hash, now)
    ensures RefreshRotated(states[j], states[j].sessions[y].refreshHash, value, drawn, now).1 != Done
  {
    RunKeepsInv(states, events, i);
    RunKeepsInv(states, events, j);
    assert StepAt(states, events, i);
    EndingKillsFamily(states[i], events[i], x);
    DeadForEver(states, events, i + 1, j, states[i].sessions[x].familyId);
    DeadFamiliesAreUseless(states[j], y, hash, value, drawn, now);
  }

  /** An OAuth intent logs in at most once. */
  lemma IntentsWorkOnce(states: seq<Tables>, events: seq<Event>, i: nat, j: nat, provider: Provider, now: Instant)
    requires IsRun(states, events) && i < |events| && i < j < |states|
    requires events[i].OAuth? && Step(states[i], events[i]).1 == Done
    ensures !Usable(states[j], events[i].intentId, provider, now)
  {
    assert StepAt(states, events, i);
    NothingIsRevived(states, events, i + 1, j);
    assert states[i + 1].intents[events[i].intentId].consumedAt.Some?;
  }
}
