/** Amortised bounds on challenges over every run with a clock that does not go back. */
module RegistrationTheorems {
  import opened Basics
  import Identity = Sessions
  import opened Registration

  datatype Kind = ForCustomer | ForCashier

  datatype Event =
    | BeginCustomer(r: Request, ip: string)
    | ResendCustomer(id: Id, code: Id, ip: string, expires: Instant)
    | VerifyCustomer(id: Id, code: Id, newUserId: Id)
    | BeginCashier(r: Request, actor: Id, ip: string)
    | ResendCashier(actor: Id, id: Id, code: Id, ip: string, expires: Instant)
    | VerifyCashier(actor: Id, id: Id, code: Id, newUserId: Id)
    | DeleteExpired
    | OtherChange(identity: Identity.Tables)

  /** What a committed transaction did to the challenge of one email. */
  datatype Deed = Sent | Wrong | Right

  datatype Challenge = Challenge(kind: Kind, email: string)

  /** `code` is the code that was sent, or the one that was presented. */
  datatype Mark<K> = Mark(key: K, deed: Deed, window: nat, code: Id)

  /** The tables, everything done so far, and the time of the latest event. */
  datatype State = State(tables: Tables, log: seq<Mark<Challenge>>, clock: Instant)

  ghost function Effect(t: Tables, e: Event, now: Instant): (Tables, Outcome) {
    match e
    case BeginCustomer(r, ip) => CustomerBegun(t, r, ip, now)
    case ResendCustomer(id, code, ip, expires) => CustomerResent(t, id, code, ip, now, expires)
    case VerifyCustomer(id, code, newUserId) => CustomerVerified(t, id, code, newUserId, now)
    case BeginCashier(r, actor, ip) => CashierBegun(t, r, actor, ip, now)
    case ResendCashier(actor, id, code, ip, expires) => CashierResent(t, actor, id, code, ip, now, expires)
    case VerifyCashier(actor, id, code, newUserId) => CashierVerified(t, actor, id, code, newUserId, now)
    case DeleteExpired => (ExpiredDeleted(t, now), Replayed)
    case OtherChange(identity) => (t.(identity := identity), Replayed)
  }

  predicate IsCustomerEvent(e: Event) {
    e.BeginCustomer? || e.ResendCustomer? || e.VerifyCustomer?
  }

  function KindOf(e: Event): Kind {
    if IsCustomerEvent(e) then ForCustomer else ForCashier
  }

  function RowsOf(t: Tables, kind: Kind): Rows {
    if kind.ForCustomer? then t.customers else t.cashiers
  }

  /** The email whose row the event is about. */
  ghost function Subject(t: Tables, e: Event): string {
    match e
    case BeginCustomer(r, _) => r.email
    case BeginCashier(r, _, _) => r.email
    case ResendCustomer(id, _, _, _) => if IdUsed(t.customers, id) then EmailOf(t.customers, id) else ""
    case VerifyCustomer(id, _, _) => if IdUsed(t.customers, id) then EmailOf(t.customers, id) else ""
    case ResendCashier(_, id, _, _, _) => if IdUsed(t.cashiers, id) then EmailOf(t.cashiers, id) else ""
    case VerifyCashier(_, id, _, _) => if IdUsed(t.cashiers, id) then EmailOf(t.cashiers, id) else ""
    case _ => ""
  }

  function CodeOf(e: Event): Id {
    match e
    case BeginCustomer(r, _) => r.code
    case BeginCashier(r, _, _) => r.code
    case ResendCustomer(_, code, _, _) => code
    case VerifyCustomer(_, code, _) => code
    case ResendCashier(_, _, code, _, _) => code
    case VerifyCashier(_, _, code, _) => code
    case _ => NIL
  }

  ghost function Marks(t: Tables, e: Event, now: Instant): seq<Mark<Challenge>> {
    match Effect(t, e, now).1
    case Issued => [Mark(Challenge(KindOf(e), Subject(t, e)), Sent, now / HOUR, CodeOf(e))]
    case WrongCode => [Mark(Challenge(KindOf(e), Subject(t, e)), Wrong, now / HOUR, CodeOf(e))]
    case Verified => [Mark(Challenge(KindOf(e), Subject(t, e)), Right, now / HOUR, CodeOf(e))]
    case _ => []
  }

  ghost function Step(s: State, e: Event, now: Instant): State {
    State(Effect(s.tables, e, now).0, s.log + Marks(s.tables, e, now), now)
  }

  ghost predicate StepAt(states: seq<State>, events: seq<Event>, i: nat)
    requires i < |events| < |states|
  {
    states[i].clock <= states[i + 1].clock && states[i + 1] == Step(states[i], events[i], states[i + 1].clock)
  }

  ghost predicate IsRun(states: seq<State>, events: seq<Event>) {
    && |states| == |events| + 1
    && states[0].log == [] && states[0].tables.customers == map[] && states[0].tables.cashiers == map[]
    && states[0].tables.buckets == map[]
    && forall i: nat :: i < |events| ==> StepAt(states, events, i)
  }

  // ----- Counting -----

  function Times<K(==)>(log: seq<Mark<K>>, key: K, deed: Deed): nat {
    if log == [] then 0
    else
      var last := log[|log| - 1];
      Times(log[..|log| - 1], key, deed) + (if last.key == key && last.deed == deed then 1 else 0)
  }

  /** Challenges sent to one email in one clock hour, by either flow. */
  function SentIn(log: seq<Mark<Challenge>>, email: string, window: nat): nat {
    if log == [] then 0
    else
      var last := log[|log| - 1];
      SentIn(log[..|log| - 1], email, window)
      + (if last.key.email == email && last.deed.Sent? && last.window == window then 1 else 0)
  }

  lemma TimesAppend<K>(log: seq<Mark<K>>, m: Mark<K>, key: K, deed: Deed)
    ensures Times(log + [m], key, deed) == Times(log, key, deed) + (if m.key == key && m.deed == deed then 1 else 0)
  {
  }

  lemma SentAppend(log: seq<Mark<Challenge>>, m: Mark<Challenge>, email: string, window: nat)
    ensures SentIn(log + [m], email, window) ==
      SentIn(log, email, window) + (if m.key.email == email && m.deed.Sent? && m.window == window then 1 else 0)
  {
  }

  // ----- Buckets -----

  /** At most five in every hour; and as long as the hour's bucket may still be used, it holds the exact count. */
  ghost predicate HourInv(s: State, email: string, window: nat) {
    && SentIn(s.log, email, window) <= EMAIL_LIMIT
    && (s.clock <= window * HOUR + 2 * HOUR ==>
          SentIn(s.log, email, window) == CountOf(s.tables.buckets, EmailKey(email), window))
  }

  lemma LimitsCount(before: map<Bucket, nat>, email: string, ip: string, window: nat, other: string, w: nat)
    requires WithinLimits(before, email, ip, window).Some?
    ensures CountOf(WithinLimits(before, email, ip, window).value, EmailKey(other), w) ==
      CountOf(before, EmailKey(other), w) + (if other == email && w == window then 1 else 0)
    ensures CountOf(before, EmailKey(email), window) < EMAIL_LIMIT
  {
  }

  /** What a transaction does to the buckets, as seen through its mark. */
  ghost predicate BucketsFollow(t: Tables, u: Tables, marks: seq<Mark<Challenge>>, now: Instant) {
    || (marks == [] && (u.buckets == t.buckets || u.buckets == ExpiredDeleted(t, now).buckets))
    || (|marks| == 1 && !marks[0].deed.Sent? && u.buckets == t.buckets)
    || (|marks| == 1 && marks[0].deed.Sent? && marks[0].window == now / HOUR
        && exists ip :: WithinLimits(t.buckets, marks[0].key.email, ip, now / HOUR) == Some(u.buckets))
  }

  lemma EffectOnBuckets(t: Tables, e: Event, now: Instant)
    ensures BucketsFollow(t, Effect(t, e, now).0, Marks(t, e, now), now)
  {
    match e
    case BeginCustomer(r, ip) => BeginFollowsLimits(t, e, now, ip);
    case BeginCashier(r, _, ip) => BeginFollowsLimits(t, e, now, ip);
    case ResendCustomer(id, _, ip, _) => ResendFollowsLimits(t, e, now, ip);
    case ResendCashier(_, id, _, ip, _) => ResendFollowsLimits(t, e, now, ip);
    case _ => OthersSendNothing(t, e, now);
  }

  lemma BeginFollowsLimits(t: Tables, e: Event, now: Instant, ip: string)
    requires (e.BeginCustomer? || e.BeginCashier?) && e.ip == ip
    ensures BucketsFollow(t, Effect(t, e, now).0, Marks(t, e, now), now)
  {
  }

  lemma ResendFollowsLimits(t: Tables, e: Event, now: Instant, ip: string)
    requires (e.ResendCustomer? || e.ResendCashier?) && e.ip == ip
    ensures BucketsFollow(t, Effect(t, e, now).0, Marks(t, e, now), now)
  {
  }

  lemma OthersSendNothing(t: Tables, e: Event, now: Instant)
    requires e.VerifyCustomer? || e.VerifyCashier? || e.DeleteExpired? || e.OtherChange?
    ensures BucketsFollow(t, Effect(t, e, now).0, Marks(t, e, now), now)
  {
  }

  lemma HourOf(now: Instant)
    ensures now / HOUR * HOUR <= now < now / HOUR * HOUR + HOUR
  {
  }

  lemma StepKeepsHour(s: State, e: Event, now: Instant, email: string, window: nat)
    requires HourInv(s, email, window) && HourInv(s, email, now / HOUR) && s.clock <= now
    ensures HourInv(Step(s, e, now), email, window)
  {
    var t, marks := s.tables, Marks(s.tables, e, now);
    var u := Effect(t, e, now).0;
    EffectOnBuckets(t, e, now);
    HourOf(now);
    if marks == [] {
      assert s.log + marks == s.log;
    } else {
      assert marks == [marks[0]];
      SentAppend(s.log, marks[0], email, window);
      if marks[0].deed.Sent? {
        var ip :| WithinLimits(t.buckets, marks[0].key.email, ip, now / HOUR) == Some(u.buckets);
        LimitsCount(t.buckets, marks[0].key.email, ip, now / HOUR, email, window);
      }
    }
  }

  lemma {:induction false} RunKeepsHour(states: seq<State>, events: seq<Event>, i: nat, email: string, window: nat)
    requires IsRun(states, events) && i < |states|
    ensures HourInv(states[i], email, window)
  {
    if i > 0 {
      assert StepAt(states, events, i - 1);
      var s, now := states[i - 1], states[i].clock;
      RunKeepsHour(states, events, i - 1, email, window);
      RunKeepsHour(states, events, i - 1, email, now / HOUR);
      StepKeepsHour(s, events[i - 1], now, email, window);
    }
  }

  /** However begins and resends of customers and cashiers, failed transactions and clean-ups interleave, at most
      five challenges go to one email in one clock hour. */
  lemma FivePerEmailAndHour(states: seq<State>, events: seq<Event>, i: nat, email: string, window: nat)
    requires IsRun(states, events) && i < |states|
    ensures SentIn(states[i].log, email, window) <= 5
  {
    RunKeepsHour(states, events, i, email, window);
  }

  // ----- Attempts and users -----

  /** The attempts and the success that a row still allows. */
  function AttemptsLeft(rows: Rows, email: string): int {
    if email in rows then MAX_ATTEMPTS - rows[email].attempts else 0
  }

  function SuccessLeft(rows: Rows, email: string): nat {
    if email in rows && rows[email].consumedAt.None? then 1 else 0
  }

  /** What was tried and what may still be tried is paid for by what was sent. */
  ghost predicate RowInv(rows: Rows, log: seq<Mark<Challenge>>, kind: Kind, email: string) {
    && (email in rows ==> rows[email].attempts <= MAX_ATTEMPTS)
    && var key := Challenge(kind, email);
       && Times(log, key, Wrong) + AttemptsLeft(rows, email) <= MAX_ATTEMPTS * Times(log, key, Sent)
       && Times(log, key, Right) + SuccessLeft(rows, email) <= Times(log, key, Sent)
  }

  /** What a transaction does to the rows of a kind, as seen through its mark: a mark of the kind changes the row of
      its email, and otherwise rows only disappear. */
  ghost predicate RowsFollow(a: Rows, b: Rows, marks: seq<Mark<Challenge>>, kind: Kind) {
    if marks != [] && marks[0].key.kind == kind then
      && |marks| == 1 && marks[0].key.email in b && b == a[marks[0].key.email := b[marks[0].key.email]]
      && RowFollows(a, b[marks[0].key.email], marks[0])
    else forall email :: email in b ==> email in a && b[email] == a[email]
  }

  ghost predicate RowFollows(a: Rows, after: Pending, mark: Mark<Challenge>) {
    match mark.deed
    case Sent => after.attempts == 0 && after.consumedAt.None? && after.code == mark.code
    case Wrong => mark.key.email in a && a[mark.key.email].attempts < MAX_ATTEMPTS && after == Missed(a[mark.key.email])
    case Right =>
      && mark.key.email in a && a[mark.key.email].consumedAt.None? && a[mark.key.email].code == mark.code
      && after.consumedAt.Some? && after.attempts == a[mark.key.email].attempts
  }

  lemma EffectOnRows(t: Tables, e: Event, now: Instant, kind: Kind)
    ensures RowsFollow(RowsOf(t, kind), RowsOf(Effect(t, e, now).0, kind), Marks(t, e, now), kind)
  {
    if e.VerifyCustomer? || e.VerifyCashier? {
      VerifyFollows(t, e, now, kind);
    } else {
      SendFollows(t, e, now, kind);
    }
  }

  lemma SendFollows(t: Tables, e: Event, now: Instant, kind: Kind)
    requires !e.VerifyCustomer? && !e.VerifyCashier?
    ensures RowsFollow(RowsOf(t, kind), RowsOf(Effect(t, e, now).0, kind), Marks(t, e, now), kind)
  {
    if e.BeginCustomer? || e.BeginCashier? {
      BeginFollows(t, e, now, kind);
    } else if e.ResendCustomer? || e.ResendCashier? {
      ResendFollows(t, e, now, kind);
    }
  }

  lemma BeginFollows(t: Tables, e: Event, now: Instant, kind: Kind)
    requires e.BeginCustomer? || e.BeginCashier?
    ensures RowsFollow(RowsOf(t, kind), RowsOf(Effect(t, e, now).0, kind), Marks(t, e, now), kind)
  {
  }

  lemma ResendFollows(t: Tables, e: Event, now: Instant, kind: Kind)
    requires e.ResendCustomer? || e.ResendCashier?
    ensures RowsFollow(RowsOf(t, kind), RowsOf(Effect(t, e, now).0, kind), Marks(t, e, now), kind)
  {
  }

  lemma VerifyFollows(t: Tables, e: Event, now: Instant, kind: Kind)
    requires e.VerifyCustomer? || e.VerifyCashier?
    ensures RowsFollow(RowsOf(t, kind), RowsOf(Effect(t, e, now).0, kind), Marks(t, e, now), kind)
  {
    if e.VerifyCustomer? {
      if IdUsed(t.customers, e.id) {
        CustomerCheckFollows(t, EmailOf(t.customers, e.id), e.code, e.newUserId, now);
      }
    } else {
      if Owned(t.cashiers, e.id, e.actor) {
        CashierCheckFollows(t, EmailOf(t.cashiers, e.id), e.code, e.newUserId, now);
      }
    }
  }

  /** One row checked: a wrong code is counted, a right one consumes the row, anything else changes nothing. */
  ghost predicate CheckFollows(a: Rows, b: Rows, email: string, code: Id, outcome: Outcome) {
    var key := Challenge(ForCustomer, email);
    match outcome
    case WrongCode => email in b && b == a[email := b[email]] && RowFollows(a, b[email], Mark(key, Wrong, 0, code))
    case Verified => email in b && b == a[email := b[email]] && RowFollows(a, b[email], Mark(key, Right, 0, code))
    case _ => b == a && !outcome.Issued?
  }

  lemma CustomerCheckFollows(t: Tables, email: string, code: Id, newUserId: Id, now: Instant)
    requires email in t.customers
    ensures var (u, outcome) := CustomerChecked(t, email, code, newUserId, now);
      CheckFollows(t.customers, u.customers, email, code, outcome) && u.cashiers == t.cashiers
  {
  }

  lemma CashierCheckFollows(t: Tables, email: string, code: Id, newUserId: Id, now: Instant)
    requires email in t.cashiers
    ensures var (u, outcome) := CashierChecked(t, email, code, newUserId, now);
      CheckFollows(t.cashiers, u.cashiers, email, code, outcome) && u.customers == t.customers
  {
  }

  lemma MarksKeepRow(a: Rows, b: Rows, log: seq<Mark<Challenge>>, marks: seq<Mark<Challenge>>, kind: Kind, email: string)
    requires RowInv(a, log, kind, email) && RowsFollow(a, b, marks, kind) && |marks| <= 1
    ensures RowInv(b, log + marks, kind, email)
  {
    if marks == [] {
      assert log + marks == log;
    } else {
      assert marks == [marks[0]];
      MarkKeepsRow(a, b, log, marks[0], kind, email);
    }
  }

  lemma MarkKeepsRow(a: Rows, b: Rows, log: seq<Mark<Challenge>>, mark: Mark<Challenge>, kind: Kind, email: string)
    requires RowInv(a, log, kind, email) && RowsFollow(a, b, [mark], kind)
    ensures RowInv(b, log + [mark], kind, email)
  {
  }

  lemma {:induction false} RunKeepsRows(states: seq<State>, events: seq<Event>, i: nat, kind: Kind, email: string)
    requires IsRun(states, events) && i < |states|
    ensures RowInv(RowsOf(states[i].tables, kind), states[i].log, kind, email)
  {
    if i > 0 {
      assert StepAt(states, events, i - 1);
      var s, now := states[i - 1], states[i].clock;
      RunKeepsRows(states, events, i - 1, kind, email);
      EffectOnRows(s.tables, events[i - 1], now, kind);
      MarksKeepRow(
        RowsOf(s.tables, kind), RowsOf(states[i].tables, kind), s.log, Marks(s.tables, events[i - 1], now), kind, email);
    }
  }

  /** The attempt count stays within its column's bounds; the wrong codes that were ever counted for an email are at
      most five for each challenge sent to it; and there are no more successes than challenges. */
  lemma ChallengesAreAmortised(states: seq<State>, events: seq<Event>, i: nat, kind: Kind, email: string)
    requires IsRun(states, events) && i < |states|
    ensures email in RowsOf(states[i].tables, kind) ==> 0 <= RowsOf(states[i].tables, kind)[email].attempts <= 5
    ensures Times(states[i].log, Challenge(kind, email), Wrong) <= 5 * Times(states[i].log, Challenge(kind, email), Sent)
    ensures Times(states[i].log, Challenge(kind, email), Right) <= Times(states[i].log, Challenge(kind, email), Sent)
  {
    RunKeepsRows(states, events, i, kind, email);
  }

  // ----- One code, one success -----

  /** The latest thing done to a challenge other than a wrong attempt. */
  function Latest<K(==)>(log: seq<Mark<K>>, key: K): Option<Mark<K>> {
    if log == [] then None
    else
      var last := log[|log| - 1];
      if last.key == key && !last.deed.Wrong? then Some(last) else Latest(log[..|log| - 1], key)
  }

  /** The challenge was sent with this code and has not succeeded since. */
  predicate Awaits<K(==)>(log: seq<Mark<K>>, key: K, code: Id) {
    var latest := Latest(log, key);
    latest.Some? && latest.value.deed.Sent? && latest.value.code == code
  }

  lemma LatestAppend<K>(log: seq<Mark<K>>, m: Mark<K>, key: K)
    ensures Latest(log + [m], key) == if m.key == key && !m.deed.Wrong? then Some(m) else Latest(log, key)
  {
    assert (log + [m])[..|log|] == log;
  }

  /** The mark at `j` is no success, or it presents the code of a challenge that was still waiting for one. */
  ghost predicate RedeemsAt<K>(log: seq<Mark<K>>, j: nat)
    requires j < |log|
  {
    log[j].deed.Right? ==> Awaits(log[..j], log[j].key, log[j].code)
  }

  ghost predicate AllRedeem<K>(log: seq<Mark<K>>) {
    forall j: nat :: j < |log| ==> RedeemsAt(log, j)
  }

  /** A row that may still verify waits for the code that was sent last. */
  ghost predicate OpenRowAwaits(rows: Rows, log: seq<Mark<Challenge>>, kind: Kind, email: string) {
    email in rows && rows[email].consumedAt.None? ==> Awaits(log, Challenge(kind, email), rows[email].code)
  }

  lemma MarksKeepAwaiting(
    a: Rows, b: Rows, log: seq<Mark<Challenge>>, marks: seq<Mark<Challenge>>, kind: Kind, email: string)
    requires OpenRowAwaits(a, log, kind, email) && RowsFollow(a, b, marks, kind) && |marks| <= 1
    ensures OpenRowAwaits(b, log + marks, kind, email)
  {
    if marks == [] {
      assert log + marks == log;
    } else {
      assert marks == [marks[0]];
      LatestAppend(log, marks[0], Challenge(kind, email));
    }
  }

  lemma RedeemsAppend<K>(log: seq<Mark<K>>, m: Mark<K>)
    requires AllRedeem(log) && (m.deed.Right? ==> Awaits(log, m.key, m.code))
    ensures AllRedeem(log + [m])
  {
    var longer := log + [m];
    forall j: nat | j < |longer|
      ensures RedeemsAt(longer, j)
    {
      assert longer[..j] == log[..j];
      assert j < |log| ==> RedeemsAt(log, j);
      assert log[..|log|] == log;
    }
  }

  lemma {:induction false} RunKeepsAwaiting(states: seq<State>, events: seq<Event>, i: nat, kind: Kind, email: string)
    requires IsRun(states, events) && i < |states|
    ensures OpenRowAwaits(RowsOf(states[i].tables, kind), states[i].log, kind, email)
  {
    if i > 0 {
      assert StepAt(states, events, i - 1);
      var s, now := states[i - 1], states[i].clock;
      RunKeepsAwaiting(states, events, i - 1, kind, email);
      EffectOnRows(s.tables, events[i - 1], now, kind);
      MarksKeepAwaiting(
        RowsOf(s.tables, kind), RowsOf(states[i].tables, kind), s.log, Marks(s.tables, events[i - 1], now), kind, email);
    }
  }

  lemma {:induction false} RunRedeems(states: seq<State>, events: seq<Event>, i: nat)
    requires IsRun(states, events) && i < |states|
    ensures AllRedeem(states[i].log)
  {
    if i > 0 {
      assert StepAt(states, events, i - 1);
      RunRedeems(states, events, i - 1);
      var s, now := states[i - 1], states[i].clock;
      var marks := Marks(s.tables, events[i - 1], now);
      if marks == [] {
        assert s.log + marks == s.log;
      } else {
        var key := marks[0].key;
        RunKeepsAwaiting(states, events, i - 1, key.kind, key.email);
        EffectOnRows(s.tables, events[i - 1], now, key.kind);
        assert marks == [marks[0]];
        RedeemsAppend(s.log, marks[0]);
      }
    }
  }

  /** What `Latest` finds: nothing but wrong attempts came after it. */
  lemma {:induction false} LatestIsLatest<K>(log: seq<Mark<K>>, key: K) returns (k: nat)
    requires Latest(log, key).Some?
    ensures k < |log| && log[k] == Latest(log, key).value && log[k].key == key
    ensures forall m :: k < m < |log| && log[m].key == key ==> log[m].deed.Wrong?
  {
    var init, last := log[..|log| - 1], log[|log| - 1];
    if last.key == key && !last.deed.Wrong? {
      k := |log| - 1;
    } else {
      k := LatestIsLatest(init, key);
    }
  }

  /** The success at `j` redeems the challenge sent at `k`: it presents the code of that challenge, and only wrong
      attempts lie between them. */
  ghost predicate Redeems(log: seq<Mark<Challenge>>, k: nat, j: nat)
    requires j < |log|
  {
    && k < j && log[k].deed.Sent? && log[j].deed.Right? && log[k].key == log[j].key && log[k].code == log[j].code
    && forall m :: k < m < j && log[m].key == log[j].key ==> log[m].deed.Wrong?
  }

  /** In every run every success redeems a challenge sent before it, by its code. */
  lemma SuccessesRedeemChallenges(states: seq<State>, events: seq<Event>, i: nat, j: nat)
    requires IsRun(states, events) && i < |states| && j < |states[i].log| && states[i].log[j].deed.Right?
    ensures exists k: nat :: Redeems(states[i].log, k, j)
  {
    var log := states[i].log;
    RunRedeems(states, events, i);
    assert RedeemsAt(log, j);
    var k := LatestIsLatest(log[..j], log[j].key);
    assert Redeems(log, k, j);
  }

  /** One issued code verifies at most one account: between two successes of one challenge in any run a new challenge
      was sent, and the second success presents that one's code. */
  lemma OneCodeVerifiesOnce(states: seq<State>, events: seq<Event>, i: nat, first: nat, second: nat)
    requires IsRun(states, events) && i < |states| && first < second < |states[i].log|
    requires states[i].log[first].deed.Right? && states[i].log[second].deed.Right?
    requires states[i].log[first].key == states[i].log[second].key
    ensures exists k: nat :: first < k < second && Redeems(states[i].log, k, second) && !Redeems(states[i].log, k, first)
  {
    SuccessesRedeemChallenges(states, events, i, second);
    var k: nat :| Redeems(states[i].log, k, second);
    assert first < k;
  }

  /** A challenge event changes the set of accounts only by succeeding, and then by at most the one new identifier. */
  lemma OnlySuccessesAddAccounts(t: Tables, e: Event, now: Instant)
    requires !e.OtherChange?
    ensures var before, after := t.identity.users.Keys, Effect(t, e, now).0.identity.users.Keys;
      && (Effect(t, e, now).1 != Verified ==> after == before)
      && (Effect(t, e, now).1 == Verified ==>
            (e.VerifyCustomer? || e.VerifyCashier?) && before <= after <= before + {e.newUserId})
  {
    if e.VerifyCustomer? || e.VerifyCashier? {
      VerifyingAddsAtMostOne(t, e, now);
    } else {
      SendingAddsNone(t, e, now);
    }
  }

  lemma SendingAddsNone(t: Tables, e: Event, now: Instant)
    requires !e.OtherChange? && !e.VerifyCustomer? && !e.VerifyCashier?
    ensures Effect(t, e, now).0.identity == t.identity && Effect(t, e, now).1 != Verified
  {
  }

  lemma VerifyingAddsAtMostOne(t: Tables, e: Event, now: Instant)
    requires e.VerifyCustomer? || e.VerifyCashier?
    ensures var before, after := t.identity.users.Keys, Effect(t, e, now).0.identity.users.Keys;
      && (Effect(t, e, now).1 != Verified ==> after == before)
      && before <= after <= before + {e.newUserId}
  {
    if e.VerifyCustomer? {
      if IdUsed(t.customers, e.id) {
        CustomerCheckAddsAtMostOne(t, EmailOf(t.customers, e.id), e.code, e.newUserId, now);
      }
    } else {
      if Owned(t.cashiers, e.id, e.actor) {
        CashierCheckAddsAtMostOne(t, EmailOf(t.cashiers, e.id), e.code, e.newUserId, now);
      }
    }
  }

  lemma CustomerCheckAddsAtMostOne(t: Tables, email: string, code: Id, newUserId: Id, now: Instant)
    requires email in t.customers
    ensures var (u, outcome) := CustomerChecked(t, email, code, newUserId, now);
      && (outcome != Verified ==> u.identity == t.identity)
      && t.identity.users.Keys <= u.identity.users.Keys <= t.identity.users.Keys + {newUserId}
  {
  }

  lemma CashierCheckAddsAtMostOne(t: Tables, email: string, code: Id, newUserId: Id, now: Instant)
    requires email in t.cashiers
    ensures var (u, outcome) := CashierChecked(t, email, code, newUserId, now);
      && (outcome != Verified ==> u.identity == t.identity)
      && t.identity.users.Keys <= u.identity.users.Keys <= t.identity.users.Keys + {newUserId}
  {
  }

  // ----- Totals over all emails -----

  function Total<K>(log: seq<Mark<K>>, deed: Deed): nat {
    if log == [] then 0
    else Total(log[..|log| - 1], deed) + (if log[|log| - 1].deed == deed then 1 else 0)
  }

  function Without<K(==)>(log: seq<Mark<K>>, key: K): seq<Mark<K>> {
    if log == [] then []
    else
      var last := log[|log| - 1];
      Without(log[..|log| - 1], key) + (if last.key == key then [] else [last])
  }

  lemma TotalAppend<K>(log: seq<Mark<K>>, m: Mark<K>, deed: Deed)
    ensures Total(log + [m], deed) == Total(log, deed) + (if m.deed == deed then 1 else 0)
  {
  }

  lemma WithoutAppend<K>(log: seq<Mark<K>>, m: Mark<K>, key: K)
    ensures Without(log + [m], key) == Without(log, key) + (if m.key == key then [] else [m])
  {
  }

  lemma {:induction false} WithoutTotals<K>(log: seq<Mark<K>>, key: K, deed: Deed)
    ensures |Without(log, key)| <= |log|
    ensures Total(log, deed) == Total(Without(log, key), deed) + Times(log, key, deed)
  {
    if log != [] {
      var init, last := log[..|log| - 1], log[|log| - 1];
      assert log == init + [last];
      WithoutTotals(init, key, deed);
      WithoutAppend(init, last, key);
      TimesAppend(init, last, key, deed);
      TotalAppend(init, last, deed);
      TotalAppend(Without(init, key), last, deed);
      assert Without(init, key) + [] == Without(init, key);
    }
  }

  lemma {:induction false} WithoutTimes<K>(log: seq<Mark<K>>, key: K, other: K, deed: Deed)
    ensures Times(Without(log, key), other, deed) == if other == key then 0 else Times(log, other, deed)
  {
    if log != [] {
      var init, last := log[..|log| - 1], log[|log| - 1];
      assert log == init + [last];
      WithoutTimes(init, key, other, deed);
      TimesAppend(init, last, other, deed);
      var rest, without := Without(init, key), Without(log, key);
      if last.key == key {
        assert without == rest;
      } else {
        assert without == rest + [last];
        TimesAppend(rest, last, other, deed);
      }
    }
  }

  ghost predicate PaidFor<K(!new)>(log: seq<Mark<K>>) {
    forall key: K :: Times(log, key, Wrong) <= 5 * Times(log, key, Sent)
  }

  lemma {:induction false} PaidForInTotal<K(!new)>(log: seq<Mark<K>>)
    requires PaidFor(log)
    ensures Total(log, Wrong) <= 5 * Total(log, Sent)
    decreases |log|
  {
    if log != [] {
      var init, last := log[..|log| - 1], log[|log| - 1];
      var rest := Without(log, last.key);
      assert log == init + [last];
      WithoutAppend(init, last, last.key);
      WithoutTotals(init, last.key, Sent);
      forall key: K
        ensures Times(rest, key, Wrong) <= 5 * Times(rest, key, Sent)
      {
        WithoutTimes(log, last.key, key, Wrong);
        WithoutTimes(log, last.key, key, Sent);
      }
      PaidForInTotal(rest);
      WithoutTotals(log, last.key, Wrong);
      WithoutTotals(log, last.key, Sent);
    }
  }

  /** Over all emails and both flows, the counted wrong attempts are at most five times the challenges sent. */
  lemma WrongAttemptsAreBounded(states: seq<State>, events: seq<Event>, i: nat)
    requires IsRun(states, events) && i < |states|
    ensures Total(states[i].log, Wrong) <= 5 * Total(states[i].log, Sent)
  {
    forall key: Challenge
      ensures Times(states[i].log, key, Wrong) <= 5 * Times(states[i].log, key, Sent)
    {
      ChallengesAreAmortised(states, events, i, key.kind, key.email);
    }
    PaidForInTotal(states[i].log);
  }

  /** A challenge is sent again only for an open row whose last challenge is a minute old, and then it replaces the
      code, starts the attempts afresh and restarts the minute. */
  lemma ResendIsSpaced(t: Tables, e: Event, now: Instant)
    requires (e.ResendCustomer? || e.ResendCashier?) && Effect(t, e, now).1.Issued?
    ensures var rows, after, email := RowsOf(t, KindOf(e)), RowsOf(Effect(t, e, now).0, KindOf(e)), Subject(t, e);
      && email in rows && rows[email].lastSentAt + MINUTE <= now < rows[email].expiresAt && rows[email].consumedAt.None?
      && email in after && after[email].code == e.code && after[email].attempts == 0 && after[email].lastSentAt == now
      && after[email].expiresAt == e.expires && after[email].id == e.id
  {
  }

  /** A verification succeeds only with the code of an open row that has attempts left; then the email has an
      account, which is new when a customer verified, and the row can never verify again. */
  lemma VerificationNeedsTheCode(t: Tables, e: Event, now: Instant)
    requires (e.VerifyCustomer? || e.VerifyCashier?) && Effect(t, e, now).1.Verified?
    ensures var rows, email, after := RowsOf(t, KindOf(e)), Subject(t, e), Effect(t, e, now).0;
      && email in rows && rows[email].code == e.code && Open(rows[email], now) && rows[email].attempts < 5
      && Identity.EmailOwned(after.identity, email)
      && (e.VerifyCustomer? ==> !Identity.EmailOwned(t.identity, email))
      && email in RowsOf(after, KindOf(e)) && RowsOf(after, KindOf(e))[email].consumedAt == Some(now)
  {
    var email, after := Subject(t, e), Effect(t, e, now).0;
    if !Identity.EmailOwned(t.identity, email) {
      assert e.newUserId in after.identity.users && after.identity.users[e.newUserId].email == email;
    } else {
      var owner := Identity.OwnerOf(t.identity, email);
      assert after.identity.users[owner].email == email;
    }
  }
}
