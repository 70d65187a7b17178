/** Email challenges for customers and cashiers: pending rows, hourly request buckets, and the transactions on them. */
module Registration {
  import opened Basics
  import Identity = Sessions

  /** Nanoseconds. */
  const MINUTE: nat := 60_000_000_000
  const HOUR: nat := 60 * MINUTE

  const MAX_ATTEMPTS: nat := 5
  const EMAIL_LIMIT: nat := 5
  const IP_LIMIT: nat := 100

  /** The two kinds of bucket key carry different prefixes, and a digest stands for its preimage. */
  datatype BucketKey = EmailKey(email: string) | IpKey(ip: string)

  datatype Bucket = Bucket(key: BucketKey, window: nat)

  /** A pending row; `actor`, `user` and `created` are used by cashier registrations only. */
  datatype Pending = Pending(
    id: Id, actor: Id, eligible: bool, passwordHash: Id, code: Id, attempts: nat, expiresAt: Instant,
    lastSentAt: Instant, consumedAt: Option<Instant>, user: Option<Id>, created: bool)

  /** `normalized_email` is unique, so it indexes the rows. */
  type Rows = map<string, Pending>

  datatype Tables = Tables(identity: Identity.Tables, customers: Rows, cashiers: Rows, buckets: map<Bucket, nat>)

  datatype Request = Request(id: Id, email: string, passwordHash: Id, code: Id, expiresAt: Instant)

  datatype Outcome = Issued | RateLimited | Cooldown | Invalid | WrongCode | Verified | Replayed | EmailInUse | Failed

  // ----- Rate limits -----

  function CountOf(buckets: map<Bucket, nat>, key: BucketKey, window: nat): nat {
    if Bucket(key, window) in buckets then buckets[Bucket(key, window)] else 0
  }

  function Counted(buckets: map<Bucket, nat>, key: BucketKey, window: nat): map<Bucket, nat> {
    buckets[Bucket(key, window) := CountOf(buckets, key, window) + 1]
  }

  /** Both counters go up, or, when a limit is passed, the transaction is given up. */
  function WithinLimits(buckets: map<Bucket, nat>, email: string, ip: string, window: nat): Option<map<Bucket, nat>> {
    var first := Counted(buckets, EmailKey(email), window);
    if CountOf(first, EmailKey(email), window) > EMAIL_LIMIT then None
    else
      var second := Counted(first, IpKey(ip), window);
      if CountOf(second, IpKey(ip), window) > IP_LIMIT then None else Some(second)
  }

  // ----- Rows -----

  ghost predicate IdsUnique(rows: Rows) {
    forall a, b :: a in rows && b in rows && rows[a].id == rows[b].id ==> a == b
  }

  ghost predicate IdUsed(rows: Rows, id: Id) {
    exists email :: email in rows && rows[email].id == id
  }

  ghost function EmailOf(rows: Rows, id: Id): (email: string)
    requires IdUsed(rows, id)
    ensures email in rows && rows[email].id == id
  {
    var email :| email in rows && rows[email].id == id;
    email
  }

  ghost predicate ClashesWithOther(rows: Rows, r: Request) {
    exists email :: email in rows && email != r.email && rows[email].id == r.id
  }

  function NewRow(r: Request, actor: Id, eligible: bool, now: Instant): Pending {
    Pending(r.id, actor, eligible, r.passwordHash, r.code, 0, r.expiresAt, now, None, None, false)
  }

  predicate Open(row: Pending, now: Instant) {
    row.consumedAt.None? && now < row.expiresAt
  }

  predicate TooSoon(row: Pending, now: Instant) {
    now < row.lastSentAt + MINUTE
  }

  function Resent(row: Pending, code: Id, expires: Instant, now: Instant): Pending {
    row.(code := code, expiresAt := expires, lastSentAt := now, attempts := 0)
  }

  function Missed(row: Pending): Pending {
    row.(attempts := row.attempts + 1)
  }

  // ----- Customers -----

  ghost function CustomerBegun(t: Tables, r: Request, ip: string, now: Instant): (Tables, Outcome) {
    var buckets := WithinLimits(t.buckets, r.email, ip, now / HOUR);
    if buckets.None? then (t, RateLimited)
    else if ClashesWithOther(t.customers, r) then (t, Failed)
    else
      var row := NewRow(r, NIL, !Identity.EmailOwned(t.identity, r.email), now);
      (t.(buckets := buckets.value, customers := t.customers[r.email := row]), Issued)
  }

  /** One resend, on either table; `None` when nothing is to be written. */
  ghost function RowResent(
    rows: Rows, buckets: map<Bucket, nat>, email: string, code: Id, ip: string, now: Instant, expires: Instant)
    : (Rows, map<Bucket, nat>, Outcome)
    requires email in rows
  {
    var row := rows[email];
    if !Open(row, now) then (rows, buckets, Invalid)
    else if TooSoon(row, now) then (rows, buckets, Cooldown)
    else
      var counted := WithinLimits(buckets, email, ip, now / HOUR);
      if counted.None? then (rows, buckets, RateLimited)
      else (rows[email := Resent(row, code, expires, now)], counted.value, Issued)
  }

  ghost function CustomerResent(t: Tables, id: Id, code: Id, ip: string, now: Instant, expires: Instant): (Tables, Outcome) {
    if !IdUsed(t.customers, id) then (t, Invalid)
    else
      var (rows, buckets, outcome) := RowResent(t.customers, t.buckets, EmailOf(t.customers, id), code, ip, now, expires);
      (t.(customers := rows, buckets := buckets), outcome)
  }

  ghost function CustomerChecked(t: Tables, email: string, code: Id, newUserId: Id, now: Instant): (Tables, Outcome)
    requires email in t.customers
  {
    var row := t.customers[email];
    if !Open(row, now) || row.attempts >= MAX_ATTEMPTS then (t, Invalid)
    else if row.code != code || !row.eligible then
      (t.(customers := t.customers[email := Missed(row)]), WrongCode)
    else
      var (identity, outcome) := Identity.CustomerRegistered(t.identity, email, row.passwordHash, newUserId);
      if outcome.Done? then
        (t.(identity := identity, customers := t.customers[email := row.(consumedAt := Some(now))]), Verified)
      else (t, if outcome.InvalidInput? then Invalid else Failed)
  }

  ghost function CustomerVerified(t: Tables, id: Id, code: Id, newUserId: Id, now: Instant): (Tables, Outcome) {
    if !IdUsed(t.customers, id) then (t, Invalid)
    else CustomerChecked(t, EmailOf(t.customers, id), code, newUserId, now)
  }

  // ----- Cashiers -----

  /** The email belongs to somebody other than an unverified cashier. */
  ghost predicate Taken(identity: Identity.Tables, email: string) {
    exists u :: u in identity.users && identity.users[u].email == email
      && (!identity.users[u].role.Cashier? || identity.users[u].emailVerified)
  }

  ghost function CashierBegun(t: Tables, r: Request, actor: Id, ip: string, now: Instant): (Tables, Outcome) {
    var buckets := WithinLimits(t.buckets, r.email, ip, now / HOUR);
    if buckets.None? then (t, RateLimited)
    else if Taken(t.identity, r.email) then (t, EmailInUse)
    else if ClashesWithOther(t.cashiers, r) then (t, Failed)
    else (t.(buckets := buckets.value, cashiers := t.cashiers[r.email := NewRow(r, actor, true, now)]), Issued)
  }

  ghost predicate Owned(rows: Rows, id: Id, actor: Id) {
    IdUsed(rows, id) && rows[EmailOf(rows, id)].actor == actor
  }

  ghost function CashierResent(
    t: Tables, actor: Id, id: Id, code: Id, ip: string, now: Instant, expires: Instant): (Tables, Outcome)
  {
    if !Owned(t.cashiers, id, actor) then (t, Invalid)
    else
      var (rows, buckets, outcome) := RowResent(t.cashiers, t.buckets, EmailOf(t.cashiers, id), code, ip, now, expires);
      (t.(cashiers := rows, buckets := buckets), outcome)
  }

  predicate IsReplay(row: Pending, code: Id) {
    row.consumedAt.Some? && row.user.Some? && row.code == code
  }

  ghost function CashierChecked(t: Tables, email: string, code: Id, newUserId: Id, now: Instant): (Tables, Outcome)
    requires email in t.cashiers
  {
    var row := t.cashiers[email];
    if IsReplay(row, code) then (t, Replayed)
    else if !Open(row, now) || row.attempts >= MAX_ATTEMPTS then (t, Invalid)
    else if row.code != code then (t.(cashiers := t.cashiers[email := Missed(row)]), WrongCode)
    else
      var created := !Identity.EmailOwned(t.identity, email);
      var user := if created then newUserId else Identity.OwnerOf(t.identity, email);
      var (identity, outcome) := Identity.CashierVerified(t.identity, email, row.passwordHash, newUserId, now);
      if outcome.Done? then
        (t.(identity := identity,
            cashiers := t.cashiers[email := row.(consumedAt := Some(now), user := Some(user), created := created)]),
         Verified)
      else (t, if outcome.InvalidInput? then EmailInUse else Failed)
  }

  ghost function CashierVerified(t: Tables, actor: Id, id: Id, code: Id, newUserId: Id, now: Instant): (Tables, Outcome) {
    if !Owned(t.cashiers, id, actor) then (t, Invalid)
    else CashierChecked(t, EmailOf(t.cashiers, id), code, newUserId, now)
  }

  // ----- Cleaning up -----

  predicate Stale(row: Pending, now: Instant) {
    row.expiresAt <= now || (row.consumedAt.Some? && row.consumedAt.value < now)
  }

  function Cleaned(rows: Rows, now: Instant): Rows {
    map email | email in rows && !Stale(rows[email], now) :: rows[email]
  }

  function ExpiredDeleted(t: Tables, now: Instant): Tables {
    t.(customers := Cleaned(t.customers, now), cashiers := Cleaned(t.cashiers, now),
       buckets := map b | b in t.buckets && now <= b.window * HOUR + 2 * HOUR :: t.buckets[b])
  }

  // ----- The store -----

  /** `registrationLimits`: one upsert per limit, each followed by its check. */
  method RegistrationLimits(before: map<Bucket, nat>, email: string, ip: string, now: Instant)
    returns (buckets: Option<map<Bucket, nat>>)
    ensures buckets == WithinLimits(before, email, ip, now / HOUR)
  {
    var limits := [(EmailKey(email), EMAIL_LIMIT), (IpKey(ip), IP_LIMIT)];
    var counted, window := before, now / HOUR;
    for i := 0 to |limits|
      invariant i == 0 ==> counted == before
      invariant i == 1 ==> counted == Counted(before, EmailKey(email), window)
      invariant i == 1 ==> CountOf(counted, EmailKey(email), window) <= EMAIL_LIMIT
      invariant i == 2 ==> WithinLimits(before, email, ip, window) == Some(counted)
    {
      var key, maximum := limits[i].0, limits[i].1;
      counted := Counted(counted, key, window);
      if CountOf(counted, key, window) > maximum {
        return None;
      }
    }
    return Some(counted);
  }

  class Store {
    const identity: Identity.Store
    var customers: Rows
    var cashiers: Rows
    var buckets: map<Bucket, nat>

    constructor (identity: Identity.Store)
      ensures this.identity == identity && View() == Tables(identity.View(), map[], map[], map[])
    {
      this.identity, customers, cashiers, buckets := identity, map[], map[], map[];
    }

    ghost function View(): Tables
      reads this, identity
    {
      Tables(identity.View(), customers, cashiers, buckets)
    }

    ghost predicate Constrained()
      reads this, identity
    {
      IdsUnique(customers) && IdsUnique(cashiers) && Identity.Constrained(identity.View())
    }

    method BeginRegistration(r: Request, ip: string, now: Instant) returns (outcome: Outcome)
      modifies this`customers, this`buckets
      ensures (View(), outcome) == old(CustomerBegun(View(), r, ip, now))
    {
      ghost var before := View();
      var counted := RegistrationLimits(buckets, r.email, ip, now);
      if counted.None? {
        return RateLimited;
      }
      var owned := exists u :: u in identity.users && identity.users[u].email == r.email;
      assert owned == Identity.EmailOwned(before.identity, r.email);
      if exists email :: email in customers && email != r.email && customers[email].id == r.id {
        assert ClashesWithOther(before.customers, r);
        return Failed;
      }
      assert !ClashesWithOther(before.customers, r);
      customers, buckets := customers[r.email := NewRow(r, NIL, !owned, now)], counted.value;
      return Issued;
    }

    method ResendRegistration(id: Id, code: Id, ip: string, now: Instant, expires: Instant) returns (outcome: Outcome)
      requires Constrained()
      modifies this`customers, this`buckets
      ensures (View(), outcome) == old(CustomerResent(View(), id, code, ip, now, expires))
    {
      ghost var before := View();
      if email :| email in customers && customers[email].id == id {
        assert IdUsed(before.customers, id) && email == EmailOf(before.customers, id);
        customers, buckets, outcome := ResendRow(customers, buckets, email, code, ip, now, expires);
      } else {
        assert !IdUsed(before.customers, id);
        outcome := Invalid;
      }
    }

    method VerifyRegistration(id: Id, code: Id, newUserId: Id, now: Instant) returns (outcome: Outcome)
      requires Constrained()
      modifies this`customers, identity
      ensures (View(), outcome) == old(CustomerVerified(View(), id, code, newUserId, now))
    {
      ghost var before := View();
      if email :| email in customers && customers[email].id == id {
        assert IdUsed(before.customers, id) && email == EmailOf(before.customers, id);
        outcome := CheckCustomer(email, code, newUserId, now);
      } else {
        assert !IdUsed(before.customers, id);
        outcome := Invalid;
      }
    }

    method CheckCustomer(email: string, code: Id, newUserId: Id, now: Instant) returns (outcome: Outcome)
      requires email in customers
      modifies this`customers, identity
      ensures (View(), outcome) == old(CustomerChecked(View(), email, code, newUserId, now))
    {
      var row := customers[email];
      if row.consumedAt.Some? || now >= row.expiresAt || row.attempts >= MAX_ATTEMPTS {
        return Invalid;
      }
      if row.code != code || !row.eligible {
        customers := customers[email := row.(attempts := row.attempts + 1)];
        return WrongCode;
      }
      var registered := identity.RegisterCustomer(email, row.passwordHash, newUserId);
      if !registered.Done? {
        return if registered.InvalidInput? then Invalid else Failed;
      }
      customers := customers[email := row.(consumedAt := Some(now))];
      return Verified;
    }

    method BeginCashierRegistration(r: Request, actor: Id, ip: string, now: Instant) returns (outcome: Outcome)
      modifies this`cashiers, this`buckets
      ensures (View(), outcome) == old(CashierBegun(View(), r, actor, ip, now))
    {
      ghost var before := View();
      var counted := RegistrationLimits(buckets, r.email, ip, now);
      if counted.None? {
        return RateLimited;
      }
      if exists u :: u in identity.users && identity.users[u].email == r.email
           && (!identity.users[u].role.Cashier? || identity.users[u].emailVerified) {
        assert Taken(before.identity, r.email);
        return EmailInUse;
      }
      assert !Taken(before.identity, r.email);
      if exists email :: email in cashiers && email != r.email && cashiers[email].id == r.id {
        assert ClashesWithOther(before.cashiers, r);
        return Failed;
      }
      assert !ClashesWithOther(before.cashiers, r);
      cashiers, buckets := cashiers[r.email := NewRow(r, actor, true, now)], counted.value;
      return Issued;
    }

    method ResendCashierRegistration(actor: Id, id: Id, code: Id, ip: string, now: Instant, expires: Instant)
      returns (outcome: Outcome)
      requires Constrained()
      modifies this`cashiers, this`buckets
      ensures (View(), outcome) == old(CashierResent(View(), actor, id, code, ip, now, expires))
    {
      ghost var before := View();
      if email :| email in cashiers && cashiers[email].id == id && cashiers[email].actor == actor {
        assert IdUsed(before.cashiers, id) && email == EmailOf(before.cashiers, id);
        cashiers, buckets, outcome := ResendRow(cashiers, buckets, email, code, ip, now, expires);
      } else {
        assert !Owned(before.cashiers, id, actor);
        outcome := Invalid;
      }
    }

    method VerifyCashierRegistration(actor: Id, id: Id, code: Id, newUserId: Id, now: Instant) returns (outcome: Outcome)
      requires Constrained()
      modifies this`cashiers, identity
      ensures (View(), outcome) == old(CashierVerified(View(), actor, id, code, newUserId, now))
    {
      ghost var before := View();
      if email :| email in cashiers && cashiers[email].id == id && cashiers[email].actor == actor {
        assert IdUsed(before.cashiers, id) && email == EmailOf(before.cashiers, id);
        outcome := CheckCashier(email, code, newUserId, now);
      } else {
        assert !Owned(before.cashiers, id, actor);
        outcome := Invalid;
      }
    }

    method CheckCashier(email: string, code: Id, newUserId: Id, now: Instant) returns (outcome: Outcome)
      requires email in cashiers && Identity.Constrained(identity.View())
      modifies this`cashiers, identity
      ensures (View(), outcome) == old(CashierChecked(View(), email, code, newUserId, now))
    {
      ghost var before := View();
      var row := cashiers[email];
      if row.consumedAt.Some? && row.user.Some? && row.code == code {
        return Replayed;
      }
      if row.consumedAt.Some? || now >= row.expiresAt || row.attempts >= MAX_ATTEMPTS {
        return Invalid;
      }
      if row.code != code {
        cashiers := cashiers[email := row.(attempts := row.attempts + 1)];
        return WrongCode;
      }
      var user, created := newUserId, true;
      if u :| u in identity.users && identity.users[u].email == email {
        assert Identity.EmailOwned(before.identity, email) && u == Identity.OwnerOf(before.identity, email);
        user, created := u, false;
      } else {
        assert !Identity.EmailOwned(before.identity, email);
      }
      var verified := identity.VerifyCashier(email, row.passwordHash, newUserId, now);
      if !verified.Done? {
        return if verified.InvalidInput? then EmailInUse else Failed;
      }
      cashiers := cashiers[email := row.(consumedAt := Some(now), user := Some(user), created := created)];
      return Verified;
    }

    method DeleteExpiredRegistrations(now: Instant)
      modifies this`customers, this`cashiers, this`buckets
      ensures View() == old(ExpiredDeleted(View(), now))
    {
      customers := Cleaned(customers, now);
      buckets := map b | b in buckets && now <= b.window * HOUR + 2 * HOUR :: buckets[b];
      cashiers := Cleaned(cashiers, now);
    }
  }

  /** The common part of the two resends. */
  method ResendRow(
    rows: Rows, buckets: map<Bucket, nat>, email: string, code: Id, ip: string, now: Instant, expires: Instant)
    returns (rows': Rows, buckets': map<Bucket, nat>, outcome: Outcome)
    requires email in rows
    ensures (rows', buckets', outcome) == RowResent(rows, buckets, email, code, ip, now, expires)
  {
    var row := rows[email];
    if row.consumedAt.Some? || now >= row.expiresAt {
      return rows, buckets, Invalid;
    }
    if now < row.lastSentAt + MINUTE {
      return rows, buckets, Cooldown;
    }
    var counted := RegistrationLimits(buckets, email, ip, now);
    if counted.None? {
      return rows, buckets, RateLimited;
    }
    return rows[email := row.(code := code, expiresAt := expires, lastSentAt := now, attempts := 0)], counted.value, Issued;
  }
}
