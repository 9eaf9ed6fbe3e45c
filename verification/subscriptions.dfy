/**
 The subscription service: changing plan, cancelling, pausing, resuming and
 toggling renewal on a user's active subscription, and the subscription
 analytics counts.

 The store holds the `user_subscriptions` rows (one per user), the plan
 catalogue, the billing simulations and the plan-change log, plus the trace
 of remote calls. The clock (`now`, in milliseconds since the epoch) and the
 answers of the store's hidden procedure and of failing writes are parameters.
 */
module Subscriptions {
  import opened Results

  const DefaultPaymentMethod := "card"
  const DefaultCancelReason := "User requested cancellation"
  const ChangeReason := "User-initiated upgrade"
  /** Thirty days in milliseconds: the distance to the next billing date. */
  const BillingPeriodMs := 30 * 24 * 60 * 60 * 1000
  const NotSingleRow := "JSON object requested, multiple (or no) rows returned"

  /** A row of `user_subscriptions`. */
  datatype Subscription = Subscription(
    planId: string,
    tier: string,
    status: string,
    creditsPerMonth: int,
    pricePaid: int,
    nextBillingDate: int,
    updatedAt: int,
    isActive: bool,
    autoRenewal: bool,
    cancellationDate: Option<int>,
    cancellationReason: Option<string>)

  /** A row of `subscription_plans`. */
  datatype Plan = Plan(id: string, tier: string, isActive: bool, creditsPerMonth: int, priceUsd: int)

  /** A row of `billing_simulations`. */
  datatype Simulation = Simulation(paymentStatus: string, processedAt: Option<int>)

  /** A row of `subscription_plan_changes`. */
  datatype PlanChange = PlanChange(userId: string, toPlanId: string, toTier: string, changeReason: string, processedBy: string)

  datatype Step =
    | Simulate(userId: string, tier: string, paymentMethod: string)
    | SelectPlan(tier: string)
    | Upsert(userId: string)
    | CompleteSimulation(id: string)
    | InsertPlanChange
    | UpdateActive(userId: string)
    | SelectActive

  datatype Db = Db(
    subscriptions: map<string, Subscription>,
    plans: seq<Plan>,
    simulations: map<string, Simulation>,
    planChanges: seq<PlanChange>,
    steps: seq<Step>)

  datatype Reply<T> = Reply(db: Db, result: Result<T, string>)

  // ---------------------------------------------------------------------------
  // Changing plan
  // ---------------------------------------------------------------------------

  /** The active catalogue rows of a tier, in catalogue order. */
  function PlansOf(plans: seq<Plan>, tier: string): (r: seq<Plan>)
    ensures |r| <= |plans|
    ensures forall p :: p in r ==> p in plans && p.tier == tier && p.isActive
    ensures r == [] <==> forall i :: 0 <= i < |plans| ==> !(plans[i].tier == tier && plans[i].isActive)
  {
    if |plans| == 0 then []
    else (if plans[0].tier == tier && plans[0].isActive then [plans[0]] else []) + PlansOf(plans[1..], tier)
  }

  /** Every active row of the tier comes back, as often as the catalogue holds
      it, and no other row does. */
  lemma {:induction false} PlansOfKeepsEveryRow(plans: seq<Plan>, tier: string)
    ensures forall p: Plan :: p.tier == tier && p.isActive ==> multiset(PlansOf(plans, tier))[p] == multiset(plans)[p]
    ensures forall p: Plan :: !(p.tier == tier && p.isActive) ==> multiset(PlansOf(plans, tier))[p] == 0
    decreases |plans|
  {
    if |plans| > 0 {
      PlansOfKeepsEveryRow(plans[1..], tier);
      assert plans == [plans[0]] + plans[1..];
      assert multiset(plans) == multiset([plans[0]]) + multiset(plans[1..]);
    }
  }

  /** `.eq('tier', t).eq('is_active', true).single()`. */
  function LookupPlan(plans: seq<Plan>, tier: string): (r: Result<Plan, string>)
    ensures r.Ok? <==> |PlansOf(plans, tier)| == 1
    ensures r.Ok? ==> r.value in plans && r.value.tier == tier && r.value.isActive
    ensures r.Err? ==> r.error == NotSingleRow
  {
    var m := PlansOf(plans, tier);
    if |m| == 1 then Ok(m[0]) else Err(NotSingleRow)
  }

  /** The columns a fresh `user_subscriptions` row takes from its table defaults:
      active, renewing, never cancelled. */
  const FreshRow := Subscription("", "", "", 0, 0, 0, 0, true, true, None, None)

  /** The row the upsert leaves: the payload's columns over the user's existing
      row, or over the table defaults when there is none. */
  function Upserted(existing: Option<Subscription>, plan: Plan, tier: string, now: int): (r: Subscription)
    ensures r.planId == plan.id && r.tier == tier && r.status == "active"
    ensures r.creditsPerMonth == plan.creditsPerMonth && r.pricePaid == plan.priceUsd
    ensures r.nextBillingDate == now + BillingPeriodMs && r.updatedAt == now
    ensures var base := existing.GetOr(FreshRow);
      r.isActive == base.isActive && r.autoRenewal == base.autoRenewal
      && r.cancellationDate == base.cancellationDate && r.cancellationReason == base.cancellationReason
  {
    existing.GetOr(FreshRow).(
      planId := plan.id, tier := tier, status := "active",
      creditsPerMonth := plan.creditsPerMonth, pricePaid := plan.priceUsd,
      nextBillingDate := now + BillingPeriodMs, updatedAt := now)
  }

  function Lookup(subs: map<string, Subscription>, userId: string): Option<Subscription> {
    if userId in subs then Some(subs[userId]) else None
  }

  /** What the simulation procedure answers when it succeeds: the simulation id
      it returns and the `billing_simulations` table as it leaves it (its body is
      hidden; it is expected to have inserted a pending row under that id). */
  datatype Simulated = Simulated(id: string, simulations: map<string, Simulation>)

  /** What the remote side answers during a plan change: the simulation (or its
      error), whether the upsert fails, and whether the two unchecked writes
      fail. */
  datatype ChangeAnswers = ChangeAnswers(
    simulation: Result<Simulated, string>,
    upsertFault: Option<string>,
    completionFault: bool,
    logFault: bool)

  /** The simulation row marked completed at `now`, when the table has it. */
  function Completed(sims: map<string, Simulation>, id: string, now: int): (r: map<string, Simulation>)
    ensures r.Keys == sims.Keys
    ensures id in sims ==> r[id] == sims[id].(paymentStatus := "completed", processedAt := Some(now))
    ensures forall k :: k in sims && k != id ==> r[k] == sims[k]
  {
    if id in sims then sims[id := sims[id].(paymentStatus := "completed", processedAt := Some(now))] else sims
  }

  /** `changeSubscriptionPlan`. */
  function ChangeSubscriptionPlan(db: Db, userId: string, newTier: string, paymentMethod: Option<string>, now: int, a: ChangeAnswers): (r: Reply<Subscription>)
    ensures r.db.plans == db.plans
    ensures db.steps <= r.db.steps
    // The steps issued: the simulation, then the plan read, the upsert and the
    // two follow-up writes, each only when everything before it succeeded.
    ensures var sim := Simulate(userId, newTier, paymentMethod.GetOr(DefaultPaymentMethod));
      && (a.simulation.Err? ==> r.db.steps == db.steps + [sim])
      && (a.simulation.Ok? && LookupPlan(db.plans, newTier).Err? ==> r.db.steps == db.steps + [sim, SelectPlan(newTier)])
      && (a.simulation.Ok? && LookupPlan(db.plans, newTier).Ok? && a.upsertFault.Some? ==>
            r.db.steps == db.steps + [sim, SelectPlan(newTier), Upsert(userId)])
      && (a.simulation.Ok? && LookupPlan(db.plans, newTier).Ok? && a.upsertFault.None? ==>
            r.db.steps == db.steps + [sim, SelectPlan(newTier), Upsert(userId), CompleteSimulation(a.simulation.value.id), InsertPlanChange])
    // Simulation, lookup and upsert errors are rethrown before either
    // follow-up write is issued.
    ensures r.result.Err? ==>
              && r.db.subscriptions == db.subscriptions
              && r.db.planChanges == db.planChanges
              && InsertPlanChange !in r.db.steps[|db.steps|..]
    ensures r.result.Ok? <==> a.simulation.Ok? && LookupPlan(db.plans, newTier).Ok? && a.upsertFault.None?
    ensures a.simulation.Err? ==> r.result == Err(a.simulation.error) && r.db.simulations == db.simulations
    // Whatever the simulation wrote stays when a later step fails: nothing
    // rolls it back.
    ensures a.simulation.Ok? && r.result.Err? ==> r.db.simulations == a.simulation.value.simulations
    // On success the user's row is the upserted one and no other row moves.
    ensures r.result.Ok? ==>
              var plan := LookupPlan(db.plans, newTier).value;
              && r.result.value == Upserted(Lookup(db.subscriptions, userId), plan, newTier, now)
              && r.db.subscriptions == db.subscriptions[userId := r.result.value]
              && r.db.planChanges == db.planChanges
                   + (if a.logFault then [] else [PlanChange(userId, plan.id, newTier, ChangeReason, userId)])
    // On success the simulation's row is marked completed at `now`, unless
    // that unchecked update fails; no other simulation row moves.
    ensures r.result.Ok? && !a.completionFault ==>
              var sim := a.simulation.value;
              && r.db.simulations.Keys == sim.simulations.Keys
              && (sim.id in sim.simulations ==>
                    r.db.simulations[sim.id].paymentStatus == "completed" && r.db.simulations[sim.id].processedAt == Some(now))
              && forall k :: k in sim.simulations && k != sim.id ==> r.db.simulations[k] == sim.simulations[k]
    ensures r.result.Ok? && a.completionFault ==> r.db.simulations == a.simulation.value.simulations
  {
    var sim := Simulate(userId, newTier, paymentMethod.GetOr(DefaultPaymentMethod));
    match a.simulation
    case Err(e) => Reply(db.(steps := db.steps + [sim]), Err(e))
    case Ok(simulated) =>
      var afterSim := db.(simulations := simulated.simulations);
      match LookupPlan(db.plans, newTier)
      case Err(e) =>
        var steps := db.steps + [sim, SelectPlan(newTier)];
        assert steps[|db.steps|..] == [sim, SelectPlan(newTier)];
        Reply(afterSim.(steps := steps), Err(e))
      case Ok(plan) =>
        if a.upsertFault.Some? then
          var steps := db.steps + [sim, SelectPlan(newTier), Upsert(userId)];
          assert steps[|db.steps|..] == [sim, SelectPlan(newTier), Upsert(userId)];
          Reply(afterSim.(steps := steps), Err(a.upsertFault.value))
        else
          var row := Upserted(Lookup(db.subscriptions, userId), plan, newTier, now);
          var sims := if a.completionFault then simulated.simulations else Completed(simulated.simulations, simulated.id, now);
          var changes := if a.logFault then db.planChanges
                         else db.planChanges + [PlanChange(userId, plan.id, newTier, ChangeReason, userId)];
          var steps := db.steps + [sim, SelectPlan(newTier), Upsert(userId), CompleteSimulation(simulated.id), InsertPlanChange];
          Reply(Db(db.subscriptions[userId := row], db.plans, sims, changes, steps), Ok(row))
  }

  /** A simulation that inserted its pending row: on a failed change the row
      stays pending; on a successful one (with the follow-up write succeeding)
      it is completed. */
  lemma PendingSimulationOutcome(db: Db, userId: string, newTier: string, paymentMethod: Option<string>, now: int, a: ChangeAnswers)
    requires a.simulation.Ok? && a.simulation.value.id in a.simulation.value.simulations
    requires a.simulation.value.simulations[a.simulation.value.id].paymentStatus == "pending"
    requires !a.completionFault
    ensures var r := ChangeSubscriptionPlan(db, userId, newTier, paymentMethod, now, a);
      var id := a.simulation.value.id;
      && id in r.db.simulations
      && (r.db.simulations[id].paymentStatus == "pending" <==> r.result.Err?)
      && (r.db.simulations[id].paymentStatus == "completed" <==> r.result.Ok?)
  {
  }

  /** The two unchecked follow-up writes never change what the caller gets back
      or the subscription rows. */
  lemma FollowUpFailuresAreSilent(db: Db, userId: string, newTier: string, paymentMethod: Option<string>, now: int, a: ChangeAnswers, completionFault: bool, logFault: bool)
    ensures var b := a.(completionFault := completionFault, logFault := logFault);
      var r1 := ChangeSubscriptionPlan(db, userId, newTier, paymentMethod, now, a);
      var r2 := ChangeSubscriptionPlan(db, userId, newTier, paymentMethod, now, b);
      r1.result == r2.result && r1.db.subscriptions == r2.db.subscriptions
  {
  }

  /** Changing to the same tier twice at the same instant leaves the same row but
      two identical change records: the log does not record where a change came
      from, so it cannot tell a repeat from a real change. */
  lemma RepeatedChange(db: Db, userId: string, newTier: string, now: int, a: ChangeAnswers)
    requires a.simulation.Ok? && a.upsertFault.None? && !a.logFault
    requires LookupPlan(db.plans, newTier).Ok?
    ensures var r1 := ChangeSubscriptionPlan(db, userId, newTier, None, now, a);
      var r2 := ChangeSubscriptionPlan(r1.db, userId, newTier, None, now, a);
      var plan := LookupPlan(db.plans, newTier).value;
      var record := PlanChange(userId, plan.id, newTier, ChangeReason, userId);
      && r2.result == r1.result
      && r2.db.subscriptions == r1.db.subscriptions
      && r2.db.planChanges == db.planChanges + [record, record]
  {
    var r1 := ChangeSubscriptionPlan(db, userId, newTier, None, now, a);
    var plan := LookupPlan(db.plans, newTier).value;
    var row := r1.result.value;
    assert Lookup(r1.db.subscriptions, userId) == Some(row);
    assert Upserted(Some(row), plan, newTier, now) == row;
  }

  // ---------------------------------------------------------------------------
  // Updates of the active row
  // ---------------------------------------------------------------------------

  /** The column changes of the four single-row updates. */
  datatype Patch =
    | CancelPatch(reason: string, at: int)
    | StatusPatch(status: string, at: int)
    | RenewalPatch(autoRenewal: bool, at: int)
  {
    function Apply(row: Subscription): (r: Subscription)
      ensures r.planId == row.planId && r.tier == row.tier && r.isActive == row.isActive
      ensures r.creditsPerMonth == row.creditsPerMonth && r.pricePaid == row.pricePaid
      ensures r.nextBillingDate == row.nextBillingDate
      ensures r.updatedAt == at
    {
      match this
      case CancelPatch(reason, at) =>
        row.(status := "cancelled", cancellationDate := Some(at), cancellationReason := Some(reason),
             autoRenewal := false, updatedAt := at)
      case StatusPatch(status, at) => row.(status := status, updatedAt := at)
      case RenewalPatch(auto, at) => row.(autoRenewal := auto, updatedAt := at)
    }
  }

  /** `update(...).eq('user_id', u).eq('is_active', true).select().single()`:
      the user's row is patched when it exists and is active; otherwise, or when
      the write fails, an error is thrown and nothing changes. */
  function UpdateActiveRow(db: Db, userId: string, patch: Patch, fault: Option<string>): (r: Reply<Subscription>)
    ensures r.db.steps == db.steps + [UpdateActive(userId)]
    ensures r.db.plans == db.plans && r.db.simulations == db.simulations && r.db.planChanges == db.planChanges
    ensures r.result.Ok? <==> fault.None? && userId in db.subscriptions && db.subscriptions[userId].isActive
    ensures fault.Some? ==> r.result == Err(fault.value)
    ensures r.result.Err? ==> r.db.subscriptions == db.subscriptions
    ensures r.result.Ok? ==>
              r.result.value == patch.Apply(db.subscriptions[userId])
              && r.db.subscriptions == db.subscriptions[userId := r.result.value]
  {
    var called := db.(steps := db.steps + [UpdateActive(userId)]);
    if fault.Some? then Reply(called, Err(fault.value))
    else if userId in db.subscriptions && db.subscriptions[userId].isActive then
      var row := patch.Apply(db.subscriptions[userId]);
      Reply(called.(subscriptions := db.subscriptions[userId := row]), Ok(row))
    else Reply(called, Err(NotSingleRow))
  }

  /** `cancelSubscription`: status `cancelled`, the reason (or its default), the
      date, renewal switched off and a new timestamp; the row stays active and
      every other column and row stays. */
  function CancelSubscription(db: Db, userId: string, reason: Option<string>, now: int, fault: Option<string>): (r: Reply<Subscription>)
    ensures r.db.steps == db.steps + [UpdateActive(userId)]
    ensures r.db.plans == db.plans && r.db.simulations == db.simulations && r.db.planChanges == db.planChanges
    ensures r.result.Ok? <==> fault.None? && userId in db.subscriptions && db.subscriptions[userId].isActive
    ensures fault.Some? ==> r.result == Err(fault.value)
    ensures r.result.Err? ==> r.db.subscriptions == db.subscriptions
    ensures r.result.Ok? ==>
              && r.result.value == db.subscriptions[userId].(
                   status := "cancelled", cancellationDate := Some(now),
                   cancellationReason := Some(reason.GetOr(DefaultCancelReason)),
                   autoRenewal := false, updatedAt := now)
              && r.result.value.isActive
              && r.db.subscriptions == db.subscriptions[userId := r.result.value]
  {
    UpdateActiveRow(db, userId, CancelPatch(reason.GetOr(DefaultCancelReason), now), fault)
  }

  /** `pauseSubscription`: status `paused` and a new timestamp on the user's
      active row; every other column and row stays. */
  function PauseSubscription(db: Db, userId: string, now: int, fault: Option<string>): (r: Reply<Subscription>)
    ensures r.db.steps == db.steps + [UpdateActive(userId)]
    ensures r.db.plans == db.plans && r.db.simulations == db.simulations && r.db.planChanges == db.planChanges
    ensures r.result.Ok? <==> fault.None? && userId in db.subscriptions && db.subscriptions[userId].isActive
    ensures fault.Some? ==> r.result == Err(fault.value)
    ensures r.result.Err? ==> r.db.subscriptions == db.subscriptions
    ensures r.result.Ok? ==>
              && r.result.value == db.subscriptions[userId].(status := "paused", updatedAt := now)
              && r.db.subscriptions == db.subscriptions[userId := r.result.value]
  {
    UpdateActiveRow(db, userId, StatusPatch("paused", now), fault)
  }

  /** `resumeSubscription`: status `active` and a new timestamp; a cancellation's
      reason and date stay recorded and renewal stays as it was. */
  function ResumeSubscription(db: Db, userId: string, now: int, fault: Option<string>): (r: Reply<Subscription>)
    ensures r.db.steps == db.steps + [UpdateActive(userId)]
    ensures r.db.plans == db.plans && r.db.simulations == db.simulations && r.db.planChanges == db.planChanges
    ensures r.result.Ok? <==> fault.None? && userId in db.subscriptions && db.subscriptions[userId].isActive
    ensures fault.Some? ==> r.result == Err(fault.value)
    ensures r.result.Err? ==> r.db.subscriptions == db.subscriptions
    ensures r.result.Ok? ==>
              && r.result.value == db.subscriptions[userId].(status := "active", updatedAt := now)
              && r.db.subscriptions == db.subscriptions[userId := r.result.value]
  {
    UpdateActiveRow(db, userId, StatusPatch("active", now), fault)
  }

  /** `updateRenewalSettings`: the renewal flag and a new timestamp. */
  function UpdateRenewalSettings(db: Db, userId: string, autoRenewal: bool, now: int, fault: Option<string>): (r: Reply<Subscription>)
    ensures r.db.steps == db.steps + [UpdateActive(userId)]
    ensures r.db.plans == db.plans && r.db.simulations == db.simulations && r.db.planChanges == db.planChanges
    ensures r.result.Ok? <==> fault.None? && userId in db.subscriptions && db.subscriptions[userId].isActive
    ensures fault.Some? ==> r.result == Err(fault.value)
    ensures r.result.Err? ==> r.db.subscriptions == db.subscriptions
    ensures r.result.Ok? ==>
              && r.result.value == db.subscriptions[userId].(autoRenewal := autoRenewal, updatedAt := now)
              && r.db.subscriptions == db.subscriptions[userId := r.result.value]
  {
    UpdateActiveRow(db, userId, RenewalPatch(autoRenewal, now), fault)
  }

  /** Pausing and then resuming an active subscription gives back the same row,
      only with the later timestamp. */
  lemma PauseThenResume(db: Db, userId: string, t1: int, t2: int)
    requires userId in db.subscriptions && db.subscriptions[userId].isActive
    requires db.subscriptions[userId].status == "active"
    ensures var paused := PauseSubscription(db, userId, t1, None);
      var resumed := ResumeSubscription(paused.db, userId, t2, None);
      && resumed.result == Ok(db.subscriptions[userId].(updatedAt := t2))
      && resumed.db.subscriptions == db.subscriptions[userId := db.subscriptions[userId].(updatedAt := t2)]
  {
  }

  /** Switching renewal and switching it back restores the row up to the timestamp. */
  lemma RenewalToggleRestores(db: Db, userId: string, flip: bool, t1: int, t2: int)
    requires userId in db.subscriptions && db.subscriptions[userId].isActive
    ensures var row := db.subscriptions[userId];
      var first := UpdateRenewalSettings(db, userId, flip, t1, None);
      var second := UpdateRenewalSettings(first.db, userId, row.autoRenewal, t2, None);
      second.result == Ok(row.(updatedAt := t2))
  {
  }

  /** Cancelling does not deactivate the row, so a later resume finds it and
      marks it active again, while renewal stays off and the cancellation
      reason stays recorded. */
  lemma CancelThenResume(db: Db, userId: string, reason: Option<string>, t1: int, t2: int)
    requires userId in db.subscriptions && db.subscriptions[userId].isActive
    ensures var cancelled := CancelSubscription(db, userId, reason, t1, None);
      var resumed := ResumeSubscription(cancelled.db, userId, t2, None);
      && resumed.result.Ok?
      && resumed.result.value.status == "active"
      && !resumed.result.value.autoRenewal
      && resumed.result.value.cancellationReason == Some(reason.GetOr(DefaultCancelReason))
  {
  }

  // ---------------------------------------------------------------------------
  // Analytics
  // ---------------------------------------------------------------------------

  /** Counting one more row adds one exactly when that row holds the value. */
  lemma CountRowsStep(rows: seq<Subscription>, i: int, c: Column, value: string)
    requires 0 <= i < |rows|
    ensures CountRows(rows[..i + 1], c, value) == CountRows(rows[..i], c, value) + (if Cell(rows[i], c) == value then 1 else 0)
  {
    assert rows[..i + 1][..i] == rows[..i];
  }

  /** The two columns the analytics group rows by. */
  datatype Column = StatusColumn | TierColumn

  function Cell(row: Subscription, c: Column): string {
    match c
    case StatusColumn => row.status
    case TierColumn => row.tier
  }

  /** How many rows hold `value` in column `c`: the length of the filtered list. */
  function CountRows(rows: seq<Subscription>, c: Column, value: string): (r: nat)
    ensures r <= |rows|
  {
    if |rows| == 0 then 0
    else CountRows(rows[..|rows| - 1], c, value) + (if Cell(rows[|rows| - 1], c) == value then 1 else 0)
  }

  predicate Distinct(xs: seq<string>) {
    forall i, j :: 0 <= i < j < |xs| ==> xs[i] != xs[j]
  }

  /** The sum of the counts listed for `order`. */
  function SumCounts(order: seq<string>, counts: map<string, nat>): int
    requires forall t :: t in order ==> t in counts
  {
    if |order| == 0 then 0 else counts[order[0]] + SumCounts(order[1..], counts)
  }

  /** The `byTier` object: its keys in insertion order and each key's count. */
  datatype TierCounts = TierCounts(order: seq<string>, counts: map<string, nat>)

  /** The counting part of the subscription analytics. */
  datatype SubscriptionCounts = SubscriptionCounts(
    totalSubscriptions: nat,
    activeSubscriptions: nat,
    trialSubscriptions: nat,
    cancelledSubscriptions: nat,
    byTier: TierCounts)

  /** The status counts and the tier grouping of `getSubscriptionAnalytics` over
      the active rows the query returns. */
  method CountSubscriptions(rows: seq<Subscription>) returns (a: SubscriptionCounts)
    ensures a.totalSubscriptions == |rows|
    ensures a.activeSubscriptions == CountRows(rows, StatusColumn, "active")
    ensures a.trialSubscriptions == CountRows(rows, StatusColumn, "trial")
    ensures a.cancelledSubscriptions == CountRows(rows, StatusColumn, "cancelled")
    ensures Distinct(a.byTier.order)
    ensures forall t :: t in a.byTier.order <==> t in a.byTier.counts
    ensures forall t :: t in a.byTier.counts <==> CountRows(rows, TierColumn, t) > 0
    ensures forall t :: t in a.byTier.counts ==> a.byTier.counts[t] == CountRows(rows, TierColumn, t)
    ensures SumCounts(a.byTier.order, a.byTier.counts) == |rows|
  {
    var byTier := GroupByTier(rows);
    var active, trial, cancelled := CountByStatus(rows);
    a := SubscriptionCounts(|rows|, active, trial, cancelled, byTier);
  }

  /** `g` is the `byTier` grouping of `rows`: distinct keys, the same keys in
      the order and the map, exactly the tiers present, each with its count,
      and counts that add up to the number of rows. */
  ghost predicate Grouped(rows: seq<Subscription>, g: TierCounts) {
    && Distinct(g.order)
    && (forall t :: t in g.order <==> t in g.counts)
    && (forall t :: t in g.counts <==> CountRows(rows, TierColumn, t) > 0)
    && (forall t :: t in g.counts ==> g.counts[t] == CountRows(rows, TierColumn, t))
    && SumCounts(g.order, g.counts) == |rows|
  }

  /** One step of the reduction: bump a known tier, or append a new one at 1. */
  function AddTier(g: TierCounts, tier: string): TierCounts {
    if tier in g.counts then TierCounts(g.order, g.counts[tier := g.counts[tier] + 1])
    else TierCounts(g.order + [tier], g.counts[tier := 1])
  }

  lemma AddTierKeepsGrouping(rows: seq<Subscription>, i: int, g: TierCounts)
    requires 0 <= i < |rows| && Grouped(rows[..i], g)
    ensures Grouped(rows[..i + 1], AddTier(g, rows[i].tier))
  {
    var tier := rows[i].tier;
    forall t
      ensures CountRows(rows[..i + 1], TierColumn, t) == CountRows(rows[..i], TierColumn, t) + (if tier == t then 1 else 0)
    {
      CountRowsStep(rows, i, TierColumn, t);
    }
    if tier in g.counts {
      SumBump(g.order, g.counts, tier);
    } else {
      SumFresh(g.order, g.counts, tier);
    }
  }

  /** The `byTier` reduction: each tier seen, in first-seen order, with the
      number of rows holding it. */
  method GroupByTier(rows: seq<Subscription>) returns (g: TierCounts)
    ensures Distinct(g.order)
    ensures forall t :: t in g.order <==> t in g.counts
    ensures forall t :: t in g.counts <==> CountRows(rows, TierColumn, t) > 0
    ensures forall t :: t in g.counts ==> g.counts[t] == CountRows(rows, TierColumn, t)
    ensures SumCounts(g.order, g.counts) == |rows|
  {
    g := TierCounts([], map[]);
    var i := 0;
    while i < |rows|
      invariant 0 <= i <= |rows|
      invariant Grouped(rows[..i], g)
    {
      AddTierKeepsGrouping(rows, i, g);
      g := AddTier(g, rows[i].tier);
      i := i + 1;
    }
    assert rows[..|rows|] == rows;
  }

  /** The three status filters, in one pass. */
  method CountByStatus(rows: seq<Subscription>) returns (active: nat, trial: nat, cancelled: nat)
    ensures active == CountRows(rows, StatusColumn, "active")
    ensures trial == CountRows(rows, StatusColumn, "trial")
    ensures cancelled == CountRows(rows, StatusColumn, "cancelled")
  {
    active, trial, cancelled := 0, 0, 0;
    var i := 0;
    while i < |rows|
      invariant 0 <= i <= |rows|
      invariant active == CountRows(rows[..i], StatusColumn, "active")
      invariant trial == CountRows(rows[..i], StatusColumn, "trial")
      invariant cancelled == CountRows(rows[..i], StatusColumn, "cancelled")
    {
      CountRowsStep(rows, i, StatusColumn, "active");
      CountRowsStep(rows, i, StatusColumn, "trial");
      CountRowsStep(rows, i, StatusColumn, "cancelled");
      var status := rows[i].status;
      if status == "active" { active := active + 1; }
      else if status == "trial" { trial := trial + 1; }
      else if status == "cancelled" { cancelled := cancelled + 1; }
      i := i + 1;
    }
    assert rows[..|rows|] == rows;
  }

  /** Incrementing the count of a listed key adds one to the sum. */
  lemma {:induction false} SumBump(order: seq<string>, counts: map<string, nat>, t: string)
    requires Distinct(order) && t in order
    requires forall u :: u in order ==> u in counts
    ensures SumCounts(order, counts[t := counts[t] + 1]) == SumCounts(order, counts) + 1
  {
    var bumped := counts[t := counts[t] + 1];
    if order[0] == t {
      assert t !in order[1..] by {
        forall k | 0 <= k < |order[1..]| ensures order[1..][k] != t {
          assert order[1..][k] == order[k + 1];
        }
      }
      SumFrame(order[1..], counts, t, counts[t] + 1);
    } else {
      SumBump(order[1..], counts, t);
    }
  }

  /** Setting the count of an unlisted key does not change the sum. */
  lemma {:induction false} SumFrame(order: seq<string>, counts: map<string, nat>, t: string, c: nat)
    requires t !in order
    requires forall u :: u in order ==> u in counts
    ensures SumCounts(order, counts[t := c]) == SumCounts(order, counts)
  {
    if |order| > 0 {
      SumFrame(order[1..], counts, t, c);
    }
  }

  /** Appending a fresh key with count one adds one to the sum. */
  lemma {:induction false} SumFresh(order: seq<string>, counts: map<string, nat>, t: string)
    requires t !in order
    requires forall u :: u in order ==> u in counts
    ensures SumCounts(order + [t], counts[t := 1]) == SumCounts(order, counts) + 1
  {
    if |order| == 0 {
      assert order + [t] == [t];
      assert [t][1..] == [];
    } else {
      assert (order + [t])[1..] == order[1..] + [t];
      SumFresh(order[1..], counts, t);
    }
  }

  /** Paused rows are not counted by status, so the three status counts never
      exceed the total. */
  lemma {:induction false} StatusCountsBounded(rows: seq<Subscription>)
    ensures CountRows(rows, StatusColumn, "active") + CountRows(rows, StatusColumn, "trial") + CountRows(rows, StatusColumn, "cancelled") <= |rows|
  {
    if |rows| > 0 {
      StatusCountsBounded(rows[..|rows| - 1]);
    }
  }

  /** `getSubscriptionAnalytics`, counts only: the active rows are read, a query
      error is rethrown, and a missing result counts as no rows. */
  method GetSubscriptionAnalytics(db: Db, fetched: Result<Option<seq<Subscription>>, string>) returns (r: Reply<SubscriptionCounts>)
    ensures r.db == db.(steps := db.steps + [SelectActive])
    ensures r.result.Err? <==> fetched.Err?
    ensures fetched.Err? ==> r.result == Err(fetched.error)
    // Each count is the length of its filter over the rows read, and `byTier`
    // holds exactly the tiers present, each with its number of rows.
    ensures r.result.Ok? ==>
              var rows := fetched.value.GetOr([]);
              var a := r.result.value;
              && a.totalSubscriptions == |rows|
              && a.activeSubscriptions == CountRows(rows, StatusColumn, "active")
              && a.trialSubscriptions == CountRows(rows, StatusColumn, "trial")
              && a.cancelledSubscriptions == CountRows(rows, StatusColumn, "cancelled")
              && a.activeSubscriptions + a.trialSubscriptions + a.cancelledSubscriptions <= |rows|
              && Grouped(rows, a.byTier)
    ensures fetched == Ok(None) ==> r.result == Ok(SubscriptionCounts(0, 0, 0, 0, TierCounts([], map[])))
  {
    var after := db.(steps := db.steps + [SelectActive]);
    match fetched {
      case Err(e) =>
        r := Reply(after, Err(e));
      case Ok(found) =>
        var rows := found.GetOr([]);
        var a := CountSubscriptions(rows);
        StatusCountsBounded(rows);
        r := Reply(after, Ok(a));
    }
  }
}
