/**
 The admin user service: credit adjustments with their audit trail, user
 creation and soft deletion, and the user analytics summary.

 The remote store is a value: the profiles table, the admin activity log, the
 credit accounts, and the trace of remote calls in the order they were made.
 What the store's hidden procedures and write paths answer (the credit RPCs,
 an insert that fails) comes in as parameters.
 */
module UserManagement {
  import opened Results
  import opened Js

  const DefaultAdjustmentNote := "Admin credit adjustment"
  const UnknownAdmin := "Unknown Admin"
  const NotAuthenticated := "Not authenticated"
  const UserNotAuthenticated := "User not authenticated"
  /** The error a `.single()` read or write reports when it matches no row or several. */
  const NotSingleRow := "JSON object requested, multiple (or no) rows returned"

  /** A row of `user_profiles`; an empty string stands for a missing text column. */
  datatype Profile = Profile(id: string, fullName: string, email: string, role: string, isActive: bool, updatedAt: string)

  datatype Metadata = Metadata(action: string, amount: int, description: string, adminName: string)

  /** A row of `admin_activity_log`. */
  datatype ActivityEntry = ActivityEntry(
    adminUserId: string,
    userId: string,
    entityType: string,
    entityId: string,
    activityType: string,
    description: string,
    amount: int,
    metadata: Metadata)

  /** A row of `user_credits`. */
  datatype CreditAccount = CreditAccount(userId: string, balance: int)

  /** The remote calls, in the order the service issues them. */
  datatype Call =
    | GetUser
    | SelectProfile(id: string)
    | Rpc(name: string, userId: string, amount: int)
    | InsertActivity
    | InsertProfile
    | InsertCreditAccount(userId: string)
    | UpdateProfile(id: string)
    | SelectUsers

  /** The store as the service sees it; `caller` is the signed-in user's id. */
  datatype Store = Store(
    caller: Option<string>,
    profiles: seq<Profile>,
    activityLog: seq<ActivityEntry>,
    creditAccounts: seq<CreditAccount>,
    calls: seq<Call>)

  /** The store after an operation, and what the operation returned or threw. */
  datatype Reply<T> = Reply(store: Store, result: Result<T, string>)

  // ---------------------------------------------------------------------------
  // Single-row reads
  // ---------------------------------------------------------------------------

  /** The profile rows with the given id, in table order. */
  function Matches(ps: seq<Profile>, id: string): (r: seq<Profile>)
    ensures |r| <= |ps|
    ensures forall p :: p in r ==> p in ps && p.id == id
    ensures r == [] <==> forall i :: 0 <= i < |ps| ==> ps[i].id != id
  {
    if |ps| == 0 then []
    else (if ps[0].id == id then [ps[0]] else []) + Matches(ps[1..], id)
  }

  /** Every row with the id comes back, as often as the table holds it, and no
      other row does. */
  lemma {:induction false} MatchesKeepsEveryRow(ps: seq<Profile>, id: string)
    ensures forall p: Profile :: p.id == id ==> multiset(Matches(ps, id))[p] == multiset(ps)[p]
    ensures forall p: Profile :: p.id != id ==> multiset(Matches(ps, id))[p] == 0
    decreases |ps|
  {
    if |ps| > 0 {
      MatchesKeepsEveryRow(ps[1..], id);
      assert ps == [ps[0]] + ps[1..];
      assert multiset(ps) == multiset([ps[0]]) + multiset(ps[1..]);
    }
  }

  /** Reading a table that grew at the end: the old matches, then the new ones. */
  lemma {:induction false} MatchesAppend(ps: seq<Profile>, qs: seq<Profile>, id: string)
    ensures Matches(ps + qs, id) == Matches(ps, id) + Matches(qs, id)
    decreases |ps|
  {
    if |ps| == 0 {
      assert ps + qs == qs;
    } else {
      assert (ps + qs)[0] == ps[0];
      assert (ps + qs)[1..] == ps[1..] + qs;
      MatchesAppend(ps[1..], qs, id);
    }
  }

  /** `.eq('id', id).single()`: the row when exactly one matches, else nothing
      (the service ignores the error of this read). */
  function Single(ps: seq<Profile>, id: string): (r: Option<Profile>)
    ensures r.Some? ==> r.value in ps && r.value.id == id
    ensures r.None? <==> |Matches(ps, id)| != 1
  {
    var m := Matches(ps, id);
    if |m| == 1 then Some(m[0]) else None
  }

  // ---------------------------------------------------------------------------
  // Credit adjustments
  // ---------------------------------------------------------------------------

  /** `full_name || email || 'Unknown Admin'` over the admin's profile. */
  function AdminName(profile: Option<Profile>): (r: string)
    ensures r != ""
    ensures profile.Some? && profile.value.fullName != "" ==> r == profile.value.fullName
    ensures profile.Some? && profile.value.fullName == "" && profile.value.email != "" ==> r == profile.value.email
    ensures profile.None? || (profile.value.fullName == "" && profile.value.email == "") ==> r == UnknownAdmin
  {
    match profile
    case None => UnknownAdmin
    case Some(p) =>
      if p.fullName != "" then p.fullName
      else if p.email != "" then p.email
      else UnknownAdmin
  }

  /** Which of the two adjustment operations runs. */
  datatype Adjustment = Add | Deduct {
    function RpcName(): string {
      if Add? then "add_user_credits" else "deduct_user_credits"
    }
    function Verb(): string {
      if Add? then "added" else "deducted"
    }
    function Action(): string {
      if Add? then "add_credits" else "deduct_credits"
    }
    /** The signed amount the audit row records. */
    function Signed(amount: int): (r: int)
      ensures Add? ==> r == amount
      ensures Deduct? ==> r + amount == 0
    {
      if Add? then amount else -amount
    }
  }

  /** The audit row written after a successful adjustment. */
  function AuditEntry(kind: Adjustment, adminId: string, userId: string, amount: int, note: string, adminName: string): ActivityEntry {
    ActivityEntry(
      adminId, userId, "user", userId, "credit_adjustment",
      Decimal(amount) + (" credits " + kind.Verb() + " by " + adminName + ": " + note),
      kind.Signed(amount),
      Metadata(kind.Action(), amount, note, adminName))
  }

  /** What a credit procedure answers when it succeeds: the data it returns and
      the `user_credits` table as it leaves it. Its body is hidden, so both are
      whatever the store says. */
  datatype ProcedureAnswer<D> = ProcedureAnswer(data: D, accounts: seq<CreditAccount>)

  /** `addUserCredits` / `deductUserCredits`. `rpc` is what the credit procedure
      answers and `logFault` whether the audit insert fails. */
  function AdjustCredits<D>(
    s: Store, kind: Adjustment, userId: string, amount: int, description: Option<string>,
    rpc: Result<ProcedureAnswer<D>, string>, logFault: Option<string>): (r: Reply<D>)
    ensures r.store.caller == s.caller && r.store.profiles == s.profiles
    ensures s.calls <= r.store.calls
    // The credit table is the procedure's to change: what it leaves when it
    // succeeds, untouched when it fails or never runs.
    ensures s.caller.Some? && rpc.Ok? ==> r.store.creditAccounts == rpc.value.accounts
    ensures s.caller.None? || rpc.Err? ==> r.store.creditAccounts == s.creditAccounts
    // The calls made: user, admin profile, procedure, then the audit insert
    // when the procedure succeeded.
    ensures s.caller.Some? ==>
              r.store.calls == s.calls + [GetUser, SelectProfile(s.caller.value), Rpc(kind.RpcName(), userId, amount)]
                               + (if rpc.Ok? then [InsertActivity] else [])
    // No signed-in user: thrown before any read, procedure call or log write.
    ensures s.caller.None? ==>
              r.result == Err(NotAuthenticated) && r.store == s.(calls := s.calls + [GetUser])
    // The credit procedure runs exactly when there is a signed-in user.
    ensures Rpc(kind.RpcName(), userId, amount) in r.store.calls[|s.calls|..] <==> s.caller.Some?
    // Its error is rethrown and nothing is logged.
    ensures s.caller.Some? && rpc.Err? ==>
              r.result == Err(rpc.error) && r.store.activityLog == s.activityLog
              && InsertActivity !in r.store.calls[|s.calls|..]
    // Otherwise its data is returned, whether or not the audit insert fails.
    ensures r.result.Ok? <==> s.caller.Some? && rpc.Ok?
    ensures r.result.Ok? ==> r.result.value == rpc.value.data
    ensures r.result.Ok? && logFault.Some? ==> r.store.activityLog == s.activityLog
    ensures r.result.Ok? && logFault.None? ==>
              && |r.store.activityLog| == |s.activityLog| + 1
              && r.store.activityLog[..|s.activityLog|] == s.activityLog
              && var e := r.store.activityLog[|s.activityLog|];
              && e == AuditEntry(kind, s.caller.value, userId, amount, description.GetOr(DefaultAdjustmentNote),
                                 AdminName(Single(s.profiles, s.caller.value)))
              && e.adminUserId == s.caller.value
              && e.userId == userId && e.entityId == userId
              && e.activityType == "credit_adjustment"
              && e.amount == kind.Signed(amount)
              && e.metadata.amount == amount
              && e.metadata.description == description.GetOr(DefaultAdjustmentNote)
              && e.metadata.adminName == AdminName(Single(s.profiles, s.caller.value))
  {
    var note := description.GetOr(DefaultAdjustmentNote);
    match s.caller
    case None => Reply(s.(calls := s.calls + [GetUser]), Err(NotAuthenticated))
    case Some(adminId) =>
      var adminName := AdminName(Single(s.profiles, adminId));
      var called := s.calls + [GetUser, SelectProfile(adminId), Rpc(kind.RpcName(), userId, amount)];
      match rpc
      case Err(e) =>
        assert called[|s.calls|..] == [GetUser, SelectProfile(adminId), Rpc(kind.RpcName(), userId, amount)];
        Reply(s.(calls := called), Err(e))
      case Ok(answer) =>
        var log := if logFault.None? then s.activityLog + [AuditEntry(kind, adminId, userId, amount, note, adminName)]
                   else s.activityLog;
        var after := called + [InsertActivity];
        assert after[|s.calls|..] == [GetUser, SelectProfile(adminId), Rpc(kind.RpcName(), userId, amount), InsertActivity];
        Reply(s.(activityLog := log, creditAccounts := answer.accounts, calls := after), Ok(answer.data))
  }

  /** The net credit adjustment the audit log records for a user. */
  function LoggedNet(log: seq<ActivityEntry>, userId: string): int {
    if |log| == 0 then 0
    else
      var e := log[|log| - 1];
      LoggedNet(log[..|log| - 1], userId)
        + (if e.activityType == "credit_adjustment" && e.userId == userId then e.amount else 0)
  }

  /** Appending one row moves the net by that row's amount (or not at all). */
  lemma LoggedNetAppend(log: seq<ActivityEntry>, e: ActivityEntry, userId: string)
    ensures LoggedNet(log + [e], userId)
            == LoggedNet(log, userId) + (if e.activityType == "credit_adjustment" && e.userId == userId then e.amount else 0)
  {
    assert (log + [e])[..|log|] == log;
  }

  /** The audit log keeps account: an adjustment that succeeds and is logged moves
      the target's logged net by the signed amount and nobody else's; any other
      outcome leaves every net as it was. */
  lemma AdjustmentMovesLedger<D>(
    s: Store, kind: Adjustment, userId: string, amount: int, description: Option<string>,
    rpc: Result<ProcedureAnswer<D>, string>, logFault: Option<string>, other: string)
    requires other != userId
    ensures var r := AdjustCredits(s, kind, userId, amount, description, rpc, logFault);
      && LoggedNet(r.store.activityLog, userId)
         == LoggedNet(s.activityLog, userId) + (if r.result.Ok? && logFault.None? then kind.Signed(amount) else 0)
      && LoggedNet(r.store.activityLog, other) == LoggedNet(s.activityLog, other)
  {
    var r := AdjustCredits(s, kind, userId, amount, description, rpc, logFault);
    if r.result.Ok? && logFault.None? {
      var e := r.store.activityLog[|s.activityLog|];
      assert r.store.activityLog == s.activityLog + [e];
      LoggedNetAppend(s.activityLog, e, userId);
      LoggedNetAppend(s.activityLog, e, other);
    }
  }

  /** Adding and then deducting the same amount, both succeeding and both
      logged, leaves the user's logged net where it started. */
  lemma AddThenDeductCancels<D>(
    s: Store, userId: string, amount: int, description: Option<string>, a1: ProcedureAnswer<D>, a2: ProcedureAnswer<D>)
    ensures var r1 := AdjustCredits(s, Add, userId, amount, description, Ok(a1), None);
      var r2 := AdjustCredits(r1.store, Deduct, userId, amount, description, Ok(a2), None);
      LoggedNet(r2.store.activityLog, userId) == LoggedNet(s.activityLog, userId)
  {
    var r1 := AdjustCredits(s, Add, userId, amount, description, Ok(a1), None);
    AdjustmentMovesLedger(s, Add, userId, amount, description, Ok(a1), None, userId + "?");
    AdjustmentMovesLedger(r1.store, Deduct, userId, amount, description, Ok(a2), None, userId + "?");
  }

  /** The total balance the credit table holds for a user. */
  function BalanceOf(accounts: seq<CreditAccount>, userId: string): int {
    if |accounts| == 0 then 0
    else
      var last := accounts[|accounts| - 1];
      BalanceOf(accounts[..|accounts| - 1], userId) + (if last.userId == userId then last.balance else 0)
  }

  /** When the procedure moves the user's balance by the signed amount (what its
      name promises) and the audit insert succeeds, the balance and the logged
      net move together, so their difference is kept. When the procedure fails,
      neither moves. */
  lemma LedgerTracksBalance<D>(
    s: Store, kind: Adjustment, userId: string, amount: int, description: Option<string>,
    rpc: Result<ProcedureAnswer<D>, string>)
    requires rpc.Ok? ==> BalanceOf(rpc.value.accounts, userId) == BalanceOf(s.creditAccounts, userId) + kind.Signed(amount)
    ensures var r := AdjustCredits(s, kind, userId, amount, description, rpc, None);
      BalanceOf(r.store.creditAccounts, userId) - LoggedNet(r.store.activityLog, userId)
      == BalanceOf(s.creditAccounts, userId) - LoggedNet(s.activityLog, userId)
  {
    AdjustmentMovesLedger(s, kind, userId, amount, description, rpc, None, userId + "?");
  }

  /** The audit description starts with the amount: reading it back with
      `parseInt` recovers the unsigned amount. */
  lemma AuditDescriptionLeadsWithAmount(kind: Adjustment, adminId: string, userId: string, amount: int, note: string, adminName: string)
    ensures ParseInt(AuditEntry(kind, adminId, userId, amount, note, adminName).description, NoRadix) == Num(amount)
  {
    var rest := " credits " + kind.Verb() + " by " + adminName + ": " + note;
    ParseIntOfDecimal(amount, rest, NoRadix);
  }

  // ---------------------------------------------------------------------------
  // Creating and deleting users
  // ---------------------------------------------------------------------------

  /** `createUser`. `row` is the profile the insert returns (its id assigned by
      the store, empty when it has none); `insertFault` whether the insert fails,
      `creditFault` whether the unchecked credit-account insert fails. */
  function CreateUser(s: Store, row: Profile, insertFault: Option<string>, creditFault: bool): (r: Reply<Profile>)
    ensures r.store.caller == s.caller && r.store.activityLog == s.activityLog
    ensures s.calls <= r.store.calls
    ensures insertFault.Some? ==>
              r.result == Err(insertFault.value)
              && r.store == s.(calls := s.calls + [InsertProfile])
    ensures insertFault.None? ==>
              r.result == Ok(row) && r.store.profiles == s.profiles + [row]
    // A credit account is requested only for a created row with an id, and a
    // failure there is ignored.
    ensures InsertCreditAccount(row.id) in r.store.calls[|s.calls|..] <==> insertFault.None? && row.id != ""
    ensures r.store.creditAccounts == s.creditAccounts + (if insertFault.None? && row.id != "" && !creditFault then [CreditAccount(row.id, 0)] else [])
  {
    if insertFault.Some? then
      Reply(s.(calls := s.calls + [InsertProfile]), Err(insertFault.value))
    else
      var created := s.(profiles := s.profiles + [row]);
      if row.id != "" then
        var accounts := if creditFault then s.creditAccounts else s.creditAccounts + [CreditAccount(row.id, 0)];
        var calls := s.calls + [InsertProfile, InsertCreditAccount(row.id)];
        assert calls[|s.calls|..] == [InsertProfile, InsertCreditAccount(row.id)];
        Reply(created.(creditAccounts := accounts, calls := calls), Ok(row))
      else
        var calls := s.calls + [InsertProfile];
        assert calls[|s.calls|..] == [InsertProfile];
        Reply(created.(calls := calls), Ok(row))
  }

  /** Creating a user under a fresh id and deleting it leaves an inactive row
      for that user, the only one with the id, next to a zero-balance credit
      account. */
  lemma CreateThenDelete(s: Store, row: Profile, now: string)
    requires row.id != "" && Matches(s.profiles, row.id) == []
    ensures var created := CreateUser(s, row, None, false);
      var deleted := DeleteUser(created.store, row.id, now, None);
      && deleted.result == Ok(Deactivated(row, now))
      && !deleted.result.value.isActive
      && Matches(deleted.store.profiles, row.id) == [Deactivated(row, now)]
      && CreditAccount(row.id, 0) in deleted.store.creditAccounts
  {
    var created := CreateUser(s, row, None, false);
    var ps := created.store.profiles;
    assert ps == s.profiles + [row];
    MatchesAppend(s.profiles, [row], row.id);
    assert Matches([row], row.id) == [row] + Matches([], row.id);
    assert Matches(ps, row.id) == [row];
    assert Single(ps, row.id) == Some(row);
    var deleted := DeleteUser(created.store, row.id, now, None);
    assert deleted.store.profiles == DeactivateRows(ps, row.id, now);
    MatchesAfterDeactivate(ps, row.id, now);
  }

  /** A profile marked deleted at time `now`. */
  function Deactivated(p: Profile, now: string): Profile {
    p.(isActive := false, updatedAt := now)
  }

  /** The table after `update({is_active: false, updated_at}).eq('id', userId)`. */
  function DeactivateRows(ps: seq<Profile>, userId: string, now: string): (qs: seq<Profile>)
    ensures |qs| == |ps|
  {
    seq(|ps|, i requires 0 <= i < |ps| => if ps[i].id == userId then Deactivated(ps[i], now) else ps[i])
  }

  /** `deleteUser`: a soft delete. With exactly one row for the id, that row is
      marked inactive with the new timestamp and returned; otherwise (or when the
      write fails) an error is thrown and the table is unchanged. */
  function DeleteUser(s: Store, userId: string, now: string, fault: Option<string>): (r: Reply<Profile>)
    ensures r.store.calls == s.calls + [UpdateProfile(userId)]
    ensures r.store.activityLog == s.activityLog && r.store.creditAccounts == s.creditAccounts
    ensures |r.store.profiles| == |s.profiles|
    ensures r.result.Ok? <==> fault.None? && |Matches(s.profiles, userId)| == 1
    ensures r.result.Err? ==> r.store.profiles == s.profiles
    ensures fault.Some? ==> r.result == Err(fault.value)
    ensures r.result.Ok? ==>
              && r.result.value == Deactivated(Single(s.profiles, userId).value, now)
              && forall i :: 0 <= i < |s.profiles| ==>
                   && r.store.profiles[i].id == s.profiles[i].id
                   && (s.profiles[i].id != userId ==> r.store.profiles[i] == s.profiles[i])
                   && (s.profiles[i].id == userId ==> r.store.profiles[i] == Deactivated(s.profiles[i], now))
  {
    var called := s.(calls := s.calls + [UpdateProfile(userId)]);
    if fault.Some? then Reply(called, Err(fault.value))
    else
      match Single(s.profiles, userId)
      case None => Reply(called, Err(NotSingleRow))
      case Some(p) => Reply(called.(profiles := DeactivateRows(s.profiles, userId, now)), Ok(Deactivated(p, now)))
  }

  /** After the update the id picks out the same rows, each deactivated. */
  lemma {:induction false} MatchesAfterDeactivate(ps: seq<Profile>, userId: string, now: string)
    ensures Matches(DeactivateRows(ps, userId, now), userId)
            == seq(|Matches(ps, userId)|, i requires 0 <= i < |Matches(ps, userId)| => Deactivated(Matches(ps, userId)[i], now))
    decreases |ps|
  {
    var qs := DeactivateRows(ps, userId, now);
    if |ps| > 0 {
      assert qs[1..] == DeactivateRows(ps[1..], userId, now);
      MatchesAfterDeactivate(ps[1..], userId, now);
    }
  }

  /** Deleting keeps the user: the same single row is still there, now inactive,
      with its name, email and role as before; a second delete returns the same
      row again up to the timestamp. */
  lemma DeleteIsSoft(s: Store, userId: string, now: string, later: string)
    requires DeleteUser(s, userId, now, None).result.Ok?
    ensures var r := DeleteUser(s, userId, now, None);
      var before := Single(s.profiles, userId).value;
      && Single(r.store.profiles, userId) == Some(r.result.value)
      && !r.result.value.isActive
      && r.result.value == Deactivated(before, now)
      && DeleteUser(r.store, userId, later, None).result == Ok(Deactivated(before, later))
  {
    MatchesAfterDeactivate(s.profiles, userId, now);
  }

  // ---------------------------------------------------------------------------
  // Analytics
  // ---------------------------------------------------------------------------

  /** A subscription row as the users query returns it. */
  datatype Subscription = Subscription(tier: string, status: string)

  /** A user row of the users query with its nested subscriptions and credit rows. */
  datatype UserRow = UserRow(isActive: bool, role: string, subscriptions: seq<Subscription>, balances: seq<int>)

  const PremiumTiers: seq<string> := ["subscriber", "founder", "unlimited"]

  /** The groups the summary counts. */
  datatype Category = Active | Trial | Subscriber | Founder | Unlimited | Admin | Premium

  predicate HasTier(u: UserRow, tier: string) {
    exists s :: s in u.subscriptions && s.tier == tier
  }

  predicate InCategory(u: UserRow, c: Category) {
    match c
    case Active => u.isActive
    case Trial => exists s :: s in u.subscriptions && s.tier == "registered" && s.status == "trial"
    case Subscriber => HasTier(u, "subscriber")
    case Founder => HasTier(u, "founder")
    case Unlimited => HasTier(u, "unlimited")
    case Admin => u.role == "admin"
    case Premium => exists s :: s in u.subscriptions && s.tier in PremiumTiers
  }

  /** `users.filter(...).length` for one category. */
  function CountWhere(users: seq<UserRow>, c: Category): (r: nat)
    ensures r <= |users|
  {
    if |users| == 0 then 0
    else CountWhere(users[..|users| - 1], c) + (if InCategory(users[|users| - 1], c) then 1 else 0)
  }

  /** The first credit row's balance, 0 when the user has none. */
  function FirstBalance(u: UserRow): int {
    if |u.balances| > 0 then u.balances[0] else 0
  }

  function TotalCredits(users: seq<UserRow>): int {
    if |users| == 0 then 0
    else TotalCredits(users[..|users| - 1]) + FirstBalance(users[|users| - 1])
  }

  /** `Math.round(total / n)` for a positive count: the nearest integer, halves
      rounded up. */
  function RoundHalfUp(total: int, n: int): (r: int)
    requires n > 0
    ensures 2 * n * r - n <= 2 * total < 2 * n * r + n
  {
    var q := (2 * total + n) / (2 * n);
    assert (2 * n) * q <= 2 * total + n < (2 * n) * q + 2 * n;
    q
  }

  datatype Analytics = Analytics(
    totalUsers: nat,
    activeUsers: nat,
    trialUsers: nat,
    premiumUsers: nat,
    subscriberUsers: nat,
    founderUsers: nat,
    unlimitedUsers: nat,
    adminUsers: nat,
    totalCredits: int,
    avgCreditsPerUser: int)

  /** The summary as a set of independent counts over the list. */
  function Summary(users: seq<UserRow>): Analytics {
    Analytics(
      |users|,
      CountWhere(users, Active),
      CountWhere(users, Trial),
      CountWhere(users, Premium),
      CountWhere(users, Subscriber),
      CountWhere(users, Founder),
      CountWhere(users, Unlimited),
      CountWhere(users, Admin),
      TotalCredits(users),
      if |users| > 0 then RoundHalfUp(TotalCredits(users), |users|) else 0)
  }

  /** The summary computed in one pass over the users. */
  method Summarize(users: seq<UserRow>) returns (a: Analytics)
    ensures a == Summary(users)
  {
    var active, trial, premium, subscriber, founder, unlimited, admin := 0, 0, 0, 0, 0, 0, 0;
    var total := 0;
    var i := 0;
    while i < |users|
      invariant 0 <= i <= |users|
      invariant active == CountWhere(users[..i], Active) && trial == CountWhere(users[..i], Trial)
      invariant premium == CountWhere(users[..i], Premium) && subscriber == CountWhere(users[..i], Subscriber)
      invariant founder == CountWhere(users[..i], Founder) && unlimited == CountWhere(users[..i], Unlimited)
      invariant admin == CountWhere(users[..i], Admin)
      invariant total == TotalCredits(users[..i])
    {
      var u := users[i];
      assert users[..i + 1][..i] == users[..i];
      assert users[..i + 1][i] == u;
      if InCategory(u, Active) { active := active + 1; }
      if InCategory(u, Trial) { trial := trial + 1; }
      if InCategory(u, Premium) { premium := premium + 1; }
      if InCategory(u, Subscriber) { subscriber := subscriber + 1; }
      if InCategory(u, Founder) { founder := founder + 1; }
      if InCategory(u, Unlimited) { unlimited := unlimited + 1; }
      if InCategory(u, Admin) { admin := admin + 1; }
      total := total + FirstBalance(u);
      i := i + 1;
    }
    assert users[..|users|] == users;
    var avg := if |users| > 0 then RoundHalfUp(total, |users|) else 0;
    a := Analytics(|users|, active, trial, premium, subscriber, founder, unlimited, admin, total, avg);
  }

  /** One category contained in another never counts more users. */
  lemma {:induction false} CountMonotone(users: seq<UserRow>, a: Category, b: Category)
    requires forall u :: InCategory(u, a) ==> InCategory(u, b)
    ensures CountWhere(users, a) <= CountWhere(users, b)
  {
    if |users| > 0 {
      CountMonotone(users[..|users| - 1], a, b);
    }
  }

  /** Every count is bounded by the number of users, and the legacy premium count
      is at least each of the three paid-tier counts. */
  lemma SummaryBounds(users: seq<UserRow>)
    ensures var a := Summary(users);
      && a.activeUsers <= a.totalUsers && a.trialUsers <= a.totalUsers
      && a.premiumUsers <= a.totalUsers && a.adminUsers <= a.totalUsers
      && a.subscriberUsers <= a.premiumUsers
      && a.founderUsers <= a.premiumUsers
      && a.unlimitedUsers <= a.premiumUsers
  {
    forall u | InCategory(u, Subscriber) ensures InCategory(u, Premium) {
      var s :| s in u.subscriptions && s.tier == "subscriber";
      assert s.tier in PremiumTiers;
    }
    forall u | InCategory(u, Founder) ensures InCategory(u, Premium) {
      var s :| s in u.subscriptions && s.tier == "founder";
      assert s.tier in PremiumTiers;
    }
    forall u | InCategory(u, Unlimited) ensures InCategory(u, Premium) {
      var s :| s in u.subscriptions && s.tier == "unlimited";
      assert s.tier in PremiumTiers;
    }
    CountMonotone(users, Subscriber, Premium);
    CountMonotone(users, Founder, Premium);
    CountMonotone(users, Unlimited, Premium);
  }

  /** When every user holds the same first balance, the average is that balance. */
  lemma {:induction false} AverageOfEqualBalances(users: seq<UserRow>, b: int)
    requires |users| > 0
    requires forall i :: 0 <= i < |users| ==> FirstBalance(users[i]) == b
    ensures Summary(users).avgCreditsPerUser == b
  {
    TotalOfEqualBalances(users, b);
    var n := |users|;
    RoundOfMultiple(n, b);
  }

  /** Rounding an exact multiple of the count gives back the factor. */
  lemma RoundOfMultiple(n: int, b: int)
    requires n > 0
    ensures RoundHalfUp(n * b, n) == b
  {
    var r := RoundHalfUp(n * b, n);
    var a := 2 * n;
    var k := r - b;
    assert a * r - n <= a * b < a * r + n;
    assert a * r - a * b == a * k by {
      assert a * (r - b) == a * r - a * b;
    }
    ScaleBound(a, k);
  }

  lemma ScaleBound(a: int, k: int)
    requires a > 0
    ensures k >= 1 ==> a * k >= a
    ensures k <= -1 ==> a * k <= -a
  {
  }

  lemma {:induction false} TotalOfEqualBalances(users: seq<UserRow>, b: int)
    requires forall i :: 0 <= i < |users| ==> FirstBalance(users[i]) == b
    ensures TotalCredits(users) == |users| * b
  {
    if |users| > 0 {
      TotalOfEqualBalances(users[..|users| - 1], b);
    }
  }

  /** `fetchAllUsers`: needs a signed-in user; a query error is rethrown and a
      missing result reads as no users. */
  function FetchAllUsers(s: Store, fetched: Result<Option<seq<UserRow>>, string>): (r: Reply<seq<UserRow>>)
    ensures s.caller.None? ==> r.result == Err(UserNotAuthenticated) && r.store.calls == s.calls + [GetUser]
    ensures s.caller.Some? && fetched.Err? ==> r.result == Err(fetched.error)
    ensures s.caller.Some? && fetched.Ok? ==> r.result == Ok(fetched.value.GetOr([]))
    ensures r.store.caller == s.caller && r.store.profiles == s.profiles
    ensures r.store.activityLog == s.activityLog && r.store.creditAccounts == s.creditAccounts
  {
    if s.caller.None? then Reply(s.(calls := s.calls + [GetUser]), Err(UserNotAuthenticated))
    else
      var after := s.(calls := s.calls + [GetUser, SelectUsers]);
      match fetched
      case Err(e) => Reply(after, Err(e))
      case Ok(rows) => Reply(after, Ok(rows.GetOr([])))
  }

  /** `getAnalytics`: the summary of what `fetchAllUsers` returns, or its error. */
  method GetAnalytics(s: Store, fetched: Result<Option<seq<UserRow>>, string>) returns (r: Reply<Analytics>)
    ensures r.store == FetchAllUsers(s, fetched).store
    ensures r.result.Err? <==> s.caller.None? || fetched.Err?
    ensures s.caller.None? ==> r.result == Err(UserNotAuthenticated)
    ensures r.result.Ok? ==> r.result.value == Summary(fetched.value.GetOr([]))
    ensures s.caller.Some? && fetched == Ok(None) ==> r.result == Ok(Analytics(0, 0, 0, 0, 0, 0, 0, 0, 0, 0))
  {
    var users := FetchAllUsers(s, fetched);
    match users.result {
      case Err(e) =>
        r := Reply(users.store, Err(e));
      case Ok(rows) =>
        var a := Summarize(rows);
        r := Reply(users.store, Ok(a));
    }
  }
}
