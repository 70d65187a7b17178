/** What an email challenge comes to: when one is sent, which code verifies what and until when, and that cleaning up
    takes nothing away that still counts. */
module RegistrationMeaning {
  import opened Basics
  import Identity = Sessions
  import opened SessionMeaning
  import opened Registration

  /** The requests counted for a key in a clock hour. */
  function Requests(buckets: map<Bucket, nat>, key: BucketKey, hour: nat): nat {
    if Bucket(key, hour) in buckets then buckets[Bucket(key, hour)] else 0
  }

  function HourOf(now: Instant): nat {
    now / 3_600_000_000_000
  }

  /** Fewer than five requests for the email and fewer than a hundred from the address in this clock hour. */
  predicate MayRequest(buckets: map<Bucket, nat>, email: string, ip: string, now: Instant) {
    Requests(buckets, EmailKey(email), HourOf(now)) < 5 && Requests(buckets, IpKey(ip), HourOf(now)) < 100
  }

  /** The email and the address have one request more in this hour, and nothing else has. */
  ghost predicate RequestCounted(
    a: map<Bucket, nat>, b: map<Bucket, nat>, email: string, ip: string, now: Instant)
  {
    forall key, hour :: Requests(b, key, hour) ==
      Requests(a, key, hour) + (if hour == HourOf(now) && (key == EmailKey(email) || key == IpKey(ip)) then 1 else 0)
  }

  /** A request is let through exactly if both counts are below their limits, and both are then one higher. */
  lemma LimitsAreExact(buckets: map<Bucket, nat>, email: string, ip: string, now: Instant)
    ensures var counted := WithinLimits(buckets, email, ip, now / HOUR);
      && (counted.Some? <==> MayRequest(buckets, email, ip, now))
      && (counted.Some? ==> RequestCounted(buckets, counted.value, email, ip, now))
  {
  }

  // ----- Sending a challenge -----

  /** A fresh challenge: the request's identifier, password and code, no attempts yet, sent now. */
  predicate IsFresh(row: Pending, r: Request, actor: Id, eligible: bool, now: Instant) {
    && row.id == r.id && row.actor == actor && row.eligible == eligible && row.passwordHash == r.passwordHash
    && row.code == r.code && row.attempts == 0 && row.expiresAt == r.expiresAt && row.lastSentAt == now
    && row.consumedAt == None && row.user == None && !row.created
  }

  /** Another email's challenge has the identifier. */
  ghost predicate IdElsewhere(rows: Rows, id: Id, email: string) {
    exists other :: other in rows && other != email && rows[other].id == id
  }

  /** A customer challenge is sent exactly if the limits allow it and its identifier is new; it replaces the email's
      earlier one and can only lead to an account if nobody owns the email. Nothing is written otherwise. */
  lemma CustomerChallengeIsSent(t: Tables, r: Request, ip: string, now: Instant)
    ensures var (after, outcome) := CustomerBegun(t, r, ip, now);
      && (outcome == RateLimited <==> !MayRequest(t.buckets, r.email, ip, now))
      && (outcome == Issued <==> MayRequest(t.buckets, r.email, ip, now) && !IdElsewhere(t.customers, r.id, r.email))
      && (outcome != Issued ==> after == t)
      && (outcome == Issued ==>
            && r.email in after.customers && after.customers == t.customers[r.email := after.customers[r.email]]
            && IsFresh(after.customers[r.email], r, NIL, !SomebodyOwns(t.identity, r.email), now)
            && RequestCounted(t.buckets, after.buckets, r.email, ip, now)
            && after.identity == t.identity && after.cashiers == t.cashiers)
  {
    LimitsAreExact(t.buckets, r.email, ip, now);
  }

  /** Somebody owns the email who is not an unverified cashier. */
  ghost predicate OwnedForGood(identity: Identity.Tables, email: string) {
    exists u :: u in identity.users && identity.users[u].email == email
      && !(identity.users[u].role == Identity.Cashier && !identity.users[u].emailVerified)
  }

  /** A cashier challenge is sent exactly if the limits allow it, the email is not taken by anybody but an unverified
      cashier, and its identifier is new. */
  lemma CashierChallengeIsSent(t: Tables, r: Request, actor: Id, ip: string, now: Instant)
    ensures var (after, outcome) := CashierBegun(t, r, actor, ip, now);
      && (outcome == RateLimited <==> !MayRequest(t.buckets, r.email, ip, now))
      && (outcome == EmailInUse <==> MayRequest(t.buckets, r.email, ip, now) && OwnedForGood(t.identity, r.email))
      && (outcome == Issued <==>
            MayRequest(t.buckets, r.email, ip, now) && !OwnedForGood(t.identity, r.email)
            && !IdElsewhere(t.cashiers, r.id, r.email))
      && (outcome != Issued ==> after == t)
      && (outcome == Issued ==>
            && r.email in after.cashiers && after.cashiers == t.cashiers[r.email := after.cashiers[r.email]]
            && IsFresh(after.cashiers[r.email], r, actor, true, now)
            && RequestCounted(t.buckets, after.buckets, r.email, ip, now)
            && after.identity == t.identity && after.customers == t.customers)
  {
    LimitsAreExact(t.buckets, r.email, ip, now);
    assert Taken(t.identity, r.email) <==> OwnedForGood(t.identity, r.email);
  }

  predicate Alive(row: Pending, now: Instant) {
    row.consumedAt == None && now < row.expiresAt
  }

  /** A challenge is sent again exactly if it is neither used nor expired, the last one is a minute old and the limits
      allow it; it then has the new code and expiry and all its attempts, and is otherwise as it was. */
  lemma ChallengeIsSentAgain(
    rows: Rows, buckets: map<Bucket, nat>, email: string, code: Id, ip: string, now: Instant, expires: Instant)
    requires email in rows
    ensures var (after, counted, outcome) := RowResent(rows, buckets, email, code, ip, now, expires);
      var row := rows[email];
      && (outcome == Invalid <==> !Alive(row, now))
      && (outcome == Cooldown <==> Alive(row, now) && now < row.lastSentAt + 60_000_000_000)
      && (outcome == Issued <==>
            Alive(row, now) && row.lastSentAt + 60_000_000_000 <= now && MayRequest(buckets, email, ip, now))
      && (outcome == RateLimited <==>
            Alive(row, now) && row.lastSentAt + 60_000_000_000 <= now && !MayRequest(buckets, email, ip, now))
      && (outcome != Issued ==> after == rows && counted == buckets)
      && (outcome == Issued ==>
            && after == rows[email := row.(code := code, expiresAt := expires, lastSentAt := now, attempts := 0)]
            && RequestCounted(buckets, counted, email, ip, now))
  {
    LimitsAreExact(buckets, email, ip, now);
  }

  // ----- Verifying -----

  /** One attempt more, and nothing else. */
  predicate AttemptCounted(a: Rows, b: Rows, email: string) {
    email in a && b == a[email := a[email].(attempts := a[email].attempts + 1)]
  }

  /** A customer's code verifies exactly if it is the challenge's, before it expires, the first time, with fewer than
      five wrong attempts before, and nobody owns the email; the account is then an active customer with the chosen
      password. A wrong code, or any code for an email that was owned, counts as an attempt. */
  lemma CustomerCodeVerifies(t: Tables, email: string, code: Id, newUserId: Id, now: Instant)
    requires email in t.customers
    ensures var (after, outcome) := CustomerChecked(t, email, code, newUserId, now);
      var row := t.customers[email];
      var open, right := Alive(row, now) && row.attempts < 5, code == row.code && row.eligible;
      && (outcome == WrongCode <==> open && !right)
      && (outcome == Verified <==>
            open && right && !SomebodyOwns(t.identity, email) && newUserId !in t.identity.users
            && Identity.LoginKey(Identity.Password, email) !in t.identity.logins)
      && (outcome == WrongCode ==>
            after == t.(customers := after.customers) && AttemptCounted(t.customers, after.customers, email))
      && (outcome == Verified ==>
            && after == t.(identity := after.identity, customers := t.customers[email := row.(consumedAt := Some(now))])
            && AccountAdded(t.identity, after.identity, newUserId,
                            Identity.User(email, Identity.Customer, Identity.Active, false, false), row.passwordHash))
      && (outcome != WrongCode && outcome != Verified ==> after == t)
  {
  }

  /** The code of a fresh customer challenge makes the account if it is presented before it expires, and no other does. */
  lemma FreshCodeVerifies(t: Tables, r: Request, ip: string, now: Instant, code: Id, newUserId: Id, later: Instant)
    requires IdsUnique(t.customers) && CustomerBegun(t, r, ip, now).1 == Issued && later < r.expiresAt
    requires !SomebodyOwns(t.identity, r.email) && newUserId !in t.identity.users
    requires Identity.LoginKey(Identity.Password, r.email) !in t.identity.logins
    ensures CustomerVerified(CustomerBegun(t, r, ip, now).0, r.id, code, newUserId, later).1 ==
      if code == r.code then Verified else WrongCode
  {
    var after := CustomerBegun(t, r, ip, now).0;
    CustomerChallengeIsSent(t, r, ip, now);
    assert EmailOf(after.customers, r.id) == r.email;
    CustomerCodeVerifies(after, r.email, code, newUserId, later);
  }

  /** After a challenge was sent again only the new code verifies. */
  lemma ResentCodeVerifies(
    t: Tables, id: Id, code: Id, ip: string, now: Instant, expires: Instant, presented: Id, newUserId: Id, later: Instant)
    requires IdsUnique(t.customers) && CustomerResent(t, id, code, ip, now, expires).1 == Issued && later < expires
    requires newUserId !in t.identity.users && t.customers[EmailOf(t.customers, id)].eligible
    requires !SomebodyOwns(t.identity, EmailOf(t.customers, id))
    requires Identity.LoginKey(Identity.Password, EmailOf(t.customers, id)) !in t.identity.logins
    ensures CustomerVerified(CustomerResent(t, id, code, ip, now, expires).0, id, presented, newUserId, later).1 ==
      if presented == code then Verified else WrongCode
  {
    var email, after := EmailOf(t.customers, id), CustomerResent(t, id, code, ip, now, expires).0;
    ChallengeIsSentAgain(t.customers, t.buckets, email, code, ip, now, expires);
    assert email in after.customers && after.customers[email].id == id;
    assert EmailOf(after.customers, id) == email;
    CustomerCodeVerifies(after, email, presented, newUserId, later);
  }

  /** A cashier's code verifies exactly if it is the challenge's, before it expires, the first time, with fewer than five
      wrong attempts before, and the account can be made or verified; the same code repeated after that is answered as a
      repetition and changes nothing. */
  lemma CashierCodeVerifies(t: Tables, email: string, code: Id, newUserId: Id, now: Instant)
    requires email in t.cashiers
    ensures var (after, outcome) := CashierChecked(t, email, code, newUserId, now);
      var row := t.cashiers[email];
      var (identity, account) := Identity.CashierVerified(t.identity, email, row.passwordHash, newUserId, now);
      var open := Alive(row, now) && row.attempts < 5;
      && (outcome == Replayed <==> row.consumedAt != None && row.user != None && code == row.code)
      && (outcome == WrongCode <==> open && code != row.code)
      && (outcome == Verified <==> open && code == row.code && account == Identity.Done)
      && (outcome == EmailInUse <==> open && code == row.code && account == Identity.InvalidInput)
      && (outcome == WrongCode ==>
            after == t.(cashiers := after.cashiers) && AttemptCounted(t.cashiers, after.cashiers, email))
      && (outcome == Verified ==>
            && email in after.cashiers
            && after == t.(identity := identity, cashiers := t.cashiers[email := after.cashiers[email]])
            && after.cashiers[email].consumedAt == Some(now)
            && CashierChecked(after, email, code, newUserId, now) == (after, Replayed))
      && (outcome != WrongCode && outcome != Verified ==> after == t)
  {
  }

  /** The row of a verified cashier says whose account it led to, and whether that was new. */
  lemma VerifiedRowNamesTheCashier(t: Tables, email: string, code: Id, newUserId: Id, now: Instant, owner: Id)
    requires email in t.cashiers && CashierChecked(t, email, code, newUserId, now).1 == Verified
    requires Identity.EmailsUnique(t.identity.users)
    requires SomebodyOwns(t.identity, email) ==> owner in t.identity.users && t.identity.users[owner].email == email
    ensures var after := CashierChecked(t, email, code, newUserId, now).0;
      && email in after.cashiers
      && after.cashiers[email].user == Some(if SomebodyOwns(t.identity, email) then owner else newUserId)
      && after.cashiers[email].created == !SomebodyOwns(t.identity, email)
  {
    if SomebodyOwns(t.identity, email) {
      assert Identity.OwnerOf(t.identity, email) == owner;
    }
  }

  /** Only the administrator who began a cashier's registration can have it sent again or verified. */
  lemma OnlyTheActorContinues(
    t: Tables, email: string, actor: Id, code: Id, ip: string, newUserId: Id, now: Instant, expires: Instant)
    requires IdsUnique(t.cashiers) && email in t.cashiers
    ensures var id := t.cashiers[email].id;
      if actor == t.cashiers[email].actor
      then && CashierVerified(t, actor, id, code, newUserId, now) == CashierChecked(t, email, code, newUserId, now)
           && CashierResent(t, actor, id, code, ip, now, expires).1 ==
                RowResent(t.cashiers, t.buckets, email, code, ip, now, expires).2
      else && CashierVerified(t, actor, id, code, newUserId, now) == (t, Invalid)
           && CashierResent(t, actor, id, code, ip, now, expires) == (t, Invalid)
  {
    assert EmailOf(t.cashiers, t.cashiers[email].id) == email;
  }

  // ----- Cleaning up -----

  /** The clean-up deletes exactly the challenges that have expired or were used before, and the counts of hours that
      began more than two hours ago. */
  lemma CleaningDeletesWhatIsOver(t: Tables, now: Instant, email: string, key: BucketKey, hour: nat)
    ensures var u := ExpiredDeleted(t, now);
      && (email in u.customers <==>
            && email in t.customers && now < t.customers[email].expiresAt
            && (t.customers[email].consumedAt.Some? ==> now <= t.customers[email].consumedAt.value))
      && (email in u.cashiers <==>
            && email in t.cashiers && now < t.cashiers[email].expiresAt
            && (t.cashiers[email].consumedAt.Some? ==> now <= t.cashiers[email].consumedAt.value))
      && (email in u.customers ==> u.customers[email] == t.customers[email])
      && (email in u.cashiers ==> u.cashiers[email] == t.cashiers[email])
      && (Bucket(key, hour) in u.buckets <==>
            Bucket(key, hour) in t.buckets && now <= hour * 3_600_000_000_000 + 7_200_000_000_000)
      && (Bucket(key, hour) in u.buckets ==> u.buckets[Bucket(key, hour)] == t.buckets[Bucket(key, hour)])
      && u.identity == t.identity
  {
  }

  lemma HoursPass(now: Instant, later: Instant)
    requires now <= later
    ensures now <= HourOf(later) * 3_600_000_000_000 + 7_200_000_000_000
  {
  }

  /** Nobody can tell later whether the clean-up ran: a customer's code verifies, counts as wrong or is refused as it
      would have been, and a challenge is sent again, held back or limited as it would have been. */
  lemma CleaningIsInvisible(
    t: Tables, now: Instant, id: Id, code: Id, newUserId: Id, ip: string, expires: Instant, later: Instant)
    requires IdsUnique(t.customers) && now <= later
    ensures CustomerVerified(ExpiredDeleted(t, now), id, code, newUserId, later).1
         == CustomerVerified(t, id, code, newUserId, later).1
    ensures CustomerResent(ExpiredDeleted(t, now), id, code, ip, later, expires).1
         == CustomerResent(t, id, code, ip, later, expires).1
  {
    var u := ExpiredDeleted(t, now);
    if IdUsed(t.customers, id) {
      var email := EmailOf(t.customers, id);
      CleaningDeletesWhatIsOver(t, now, email, EmailKey(email), HourOf(later));
      CleaningDeletesWhatIsOver(t, now, email, IpKey(ip), HourOf(later));
      HoursPass(now, later);
      CustomerCodeVerifies(t, email, code, newUserId, later);
      ChallengeIsSentAgain(t.customers, t.buckets, email, code, ip, later, expires);
      if email in u.customers {
        assert IdUsed(u.customers, id) && EmailOf(u.customers, id) == email;
        CustomerCodeVerifies(u, email, code, newUserId, later);
        ChallengeIsSentAgain(u.customers, u.buckets, email, code, ip, later, expires);
      }
    }
  }

  /** A cashier's code is treated as it would have been without the clean-up, except that a repetition is no longer
      recognised once the clean-up deleted its row: when it had expired, or was used before. */
  lemma CleaningForgetsRepetitions(t: Tables, now: Instant, actor: Id, id: Id, code: Id, newUserId: Id, later: Instant)
    requires IdsUnique(t.cashiers) && now <= later
    ensures var before := CashierVerified(t, actor, id, code, newUserId, later).1;
      var after := CashierVerified(ExpiredDeleted(t, now), actor, id, code, newUserId, later).1;
      && (before == Replayed ==> IdUsed(t.cashiers, id))
      && var deleted := before == Replayed && EmailOf(t.cashiers, id) !in ExpiredDeleted(t, now).cashiers;
         after == if deleted then Invalid else before
  {
    var u := ExpiredDeleted(t, now);
    if IdUsed(t.cashiers, id) {
      var email := EmailOf(t.cashiers, id);
      CleaningDeletesWhatIsOver(t, now, email, EmailKey(email), 0);
      CashierCodeVerifies(t, email, code, newUserId, later);
      if email in u.cashiers {
        assert IdUsed(u.cashiers, id) && EmailOf(u.cashiers, id) == email;
        CashierCodeVerifies(u, email, code, newUserId, later);
      }
    }
  }
}
