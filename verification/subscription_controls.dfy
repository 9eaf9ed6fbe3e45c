/**
 The plan-change and cancellation controls of the subscription page: which
 dialog is shown, whether a plan change counts as an upgrade, and what the
 cancel handler passes on.
 */
module SubscriptionControls {
  import opened Results
  import opened Js

  /** The tier ladder, cheapest first. */
  const Tiers: seq<string> := ["registered", "subscriber", "founder", "unlimited"]

  const DefaultCancelReason := "User requested cancellation"

  /** `Array.prototype.indexOf`: the first position holding `x`, or -1. */
  function IndexOf(xs: seq<string>, x: string): (r: int)
    ensures -1 <= r < |xs|
    ensures r == -1 <==> x !in xs
    ensures 0 <= r < |xs| ==> xs[r] == x && x !in xs[..r]
  {
    if |xs| == 0 then -1
    else if xs[0] == x then 0
    else
      var k := IndexOf(xs[1..], x);
      if k == -1 then -1
      else
        assert xs[..k + 1] == [xs[0]] + xs[1..][..k];
        k + 1
  }

  /** The rank of a tier written out by hand: an independent reading of the
      ladder, -1 for anything off it. */
  function Rank(tier: string): int {
    if tier == "registered" then 0
    else if tier == "subscriber" then 1
    else if tier == "founder" then 2
    else if tier == "unlimited" then 3
    else -1
  }

  /** The position in the ladder is the hand-written rank. */
  lemma IndexOfIsRank(tier: string)
    ensures IndexOf(Tiers, tier) == Rank(tier)
  {
    var i := IndexOf(Tiers, tier);
    if 0 <= i {
      assert Tiers[i] == tier;
    }
  }

  /** `isUpgrade`: there is a current tier (truthy), and the selected tier sits
      strictly higher in the ladder than it. */
  predicate IsUpgrade(current: Option<string>, selected: string) {
    Present(current) && IndexOf(Tiers, selected) > IndexOf(Tiers, current.value)
  }

  /** The upgrade test in terms of the hand-written ranks. */
  lemma UpgradeByRank(current: Option<string>, selected: string)
    ensures IsUpgrade(current, selected) <==> Present(current) && Rank(selected) > Rank(current.value)
  {
    IndexOfIsRank(selected);
    if current.Some? {
      IndexOfIsRank(current.value);
    }
  }

  /** Staying on the same tier is never an upgrade. */
  lemma SameTierIsNoUpgrade(tier: string)
    ensures !IsUpgrade(Some(tier), tier)
  {
  }

  /** On the four known tiers the upgrade relation is a strict total order. */
  lemma UpgradeIsStrictOrder(a: string, b: string, c: string)
    requires a in Tiers && b in Tiers && c in Tiers
    ensures IsUpgrade(Some(a), b) ==> !IsUpgrade(Some(b), a)
    ensures IsUpgrade(Some(a), b) && IsUpgrade(Some(b), c) ==> IsUpgrade(Some(a), c)
    ensures a != b ==> IsUpgrade(Some(a), b) || IsUpgrade(Some(b), a)
  {
    UpgradeByRank(Some(a), b);
    UpgradeByRank(Some(b), a);
    UpgradeByRank(Some(b), c);
    UpgradeByRank(Some(a), c);
  }

  /** A current tier off the ladder ranks below every known tier; a selected tier
      off the ladder is never an upgrade; without a current tier nothing is. */
  lemma UnknownTiers(current: string, selected: string)
    ensures current != "" && current !in Tiers && selected in Tiers ==> IsUpgrade(Some(current), selected)
    ensures selected !in Tiers ==> !IsUpgrade(Some(current), selected)
    ensures !IsUpgrade(None, selected) && !IsUpgrade(Some(""), selected)
  {
  }

  /** Any move up the ladder is an upgrade. */
  lemma LadderClimbs(i: int, j: int)
    requires 0 <= i < j < |Tiers|
    ensures IsUpgrade(Some(Tiers[i]), Tiers[j])
  {
    UpgradeByRank(Some(Tiers[i]), Tiers[j]);
  }

  // ---------------------------------------------------------------------------
  // Dialogs and handlers
  // ---------------------------------------------------------------------------

  /** What the component renders. */
  datatype View = Nothing | PlanChangeDialog | CancelDialog

  /** The render guard and the two dialog branches. */
  function Render(selectedPlan: Option<string>, showCancelConfirm: bool): (r: View)
    ensures r == Nothing <==> !Present(selectedPlan) && !showCancelConfirm
    ensures r == CancelDialog <==> showCancelConfirm
    ensures r == PlanChangeDialog <==> Present(selectedPlan) && !showCancelConfirm
  {
    if !Present(selectedPlan) && !showCancelConfirm then Nothing
    else if Present(selectedPlan) && !showCancelConfirm then PlanChangeDialog
    else CancelDialog
  }

  /** `handleConfirmChange`: the plan handed to the plan-change callback, if any. */
  function ConfirmChange(selectedPlan: Option<string>, hasOnPlanChange: bool): (r: Option<string>)
    ensures r.Some? <==> Present(selectedPlan) && hasOnPlanChange
    ensures r.Some? ==> r == selectedPlan
  {
    if Present(selectedPlan) && hasOnPlanChange then selectedPlan else None
  }

  /** The cancel dialog's own state. */
  datatype Controls = Controls(showCancelConfirm: bool, cancelReason: string)

  datatype Cancelled = Cancelled(controls: Controls, reasonSent: Option<string>)

  /** `handleCancelSubscription`: without a cancel callback nothing happens;
      otherwise the callback gets the reason as typed (not trimmed), or the
      default when it is empty, and the dialog is reset. */
  function CancelSubscription(c: Controls, hasOnCancel: bool): (r: Cancelled)
    ensures r.reasonSent.Some? <==> hasOnCancel
    ensures r.reasonSent.Some? ==> r.reasonSent.value != ""
    ensures r.reasonSent.Some? && c.cancelReason != "" ==> r.reasonSent.value == c.cancelReason
    ensures r.reasonSent.Some? && c.cancelReason == "" ==> r.reasonSent.value == DefaultCancelReason
    ensures hasOnCancel ==> r.controls == Controls(false, "")
    ensures !hasOnCancel ==> r.controls == c
  {
    if hasOnCancel then
      Cancelled(Controls(false, ""), Some(if c.cancelReason != "" then c.cancelReason else DefaultCancelReason))
    else Cancelled(c, None)
  }

  /** Were the cancel dialog open, confirming would close it: the component then
      renders nothing unless a plan is still selected, in which case it falls
      back to the plan-change dialog. */
  lemma CancelClosesDialog(c: Controls, selectedPlan: Option<string>)
    ensures var r := CancelSubscription(c, true);
      Render(selectedPlan, r.controls.showCancelConfirm) != CancelDialog
  {
  }

  /** Every handler the component wires, by its effect on the cancel dialog's
      state: the two close buttons, the reason box, the confirm-cancellation
      button, and the plan dialog's confirm and close buttons (which leave it
      alone; `onClose` belongs to the parent). */
  datatype ControlEvent =
    | CloseCancelDialog
    | TypeReason(text: string)
    | ConfirmCancellation(hasOnCancel: bool)
    | ConfirmPlan
    | ClosePlanDialog

  /** The cancel dialog's state after one wired handler runs. */
  function Handle(c: Controls, ev: ControlEvent): (r: Controls)
    ensures ev.CloseCancelDialog? ==> !r.showCancelConfirm && r.cancelReason == c.cancelReason
    ensures ev.TypeReason? ==> r == c.(cancelReason := ev.text)
    ensures ev.ConfirmCancellation? ==> r == CancelSubscription(c, ev.hasOnCancel).controls
    ensures ev.ConfirmPlan? || ev.ClosePlanDialog? ==> r == c
  {
    match ev
    case CloseCancelDialog => c.(showCancelConfirm := false)
    case TypeReason(text) => c.(cancelReason := text)
    case ConfirmCancellation(hasOnCancel) => CancelSubscription(c, hasOnCancel).controls
    case ConfirmPlan => c
    case ClosePlanDialog => c
  }

  function HandleAll(c: Controls, evs: seq<ControlEvent>): Controls
    decreases |evs|
  {
    if |evs| == 0 then c else HandleAll(Handle(c, evs[0]), evs[1..])
  }

  /** The cancel dialog as written can never open: its flag starts false and no
      wired handler sets it to true, so after any run of handlers the component
      never renders the cancel dialog and the cancel callback is never reached. */
  lemma {:induction false} CancelDialogNeverOpens(c: Controls, evs: seq<ControlEvent>, selectedPlan: Option<string>)
    requires !c.showCancelConfirm
    ensures !HandleAll(c, evs).showCancelConfirm
    ensures Render(selectedPlan, HandleAll(c, evs).showCancelConfirm) != CancelDialog
    decreases |evs|
  {
    if |evs| > 0 {
      CancelDialogNeverOpens(Handle(c, evs[0]), evs[1..], selectedPlan);
    }
  }

  // The corrected controls: an entry point that opens the cancel dialog, which
  // the component evidently expects (it renders the dialog and wires its
  // handlers) but never provides.

  datatype CorrectedEvent = Wired(ev: ControlEvent) | OpenCancelDialog

  function HandleCorrected(c: Controls, ev: CorrectedEvent): (r: Controls)
    ensures ev.OpenCancelDialog? ==> r == c.(showCancelConfirm := true)
    ensures ev.Wired? ==> r == Handle(c, ev.ev)
  {
    match ev
    case OpenCancelDialog => c.(showCancelConfirm := true)
    case Wired(e) => Handle(c, e)
  }

  /** With the opener, the cancel dialog is shown, a typed reason reaches the
      cancel callback, and confirming closes the dialog again. */
  lemma CorrectedCancelReachable(selectedPlan: Option<string>, reason: string)
    requires reason != ""
    ensures var shown := HandleCorrected(Controls(false, ""), OpenCancelDialog);
      var typed := HandleCorrected(shown, Wired(TypeReason(reason)));
      && Render(selectedPlan, shown.showCancelConfirm) == CancelDialog
      && CancelSubscription(typed, true).reasonSent == Some(reason)
      && Render(selectedPlan, CancelSubscription(typed, true).controls.showCancelConfirm) != CancelDialog
  {
  }
}
