/**
 The preset-driven credit dialog: a free amount field prefilled with `100`,
 quick-select presets, and a submit that refuses amounts `parseInt` does not
 read as a positive integer.
 */
module CreditAddModal {
  import opened Results
  import opened Js

  const InitialAmount := "100"
  const DefaultNote := "Admin credit adjustment"
  const InvalidAmountAlert := "Please enter a valid positive number"
  const Presets: seq<nat> := [50, 100, 250, 500, 1000]

  /** The dialog's fields and busy flag. */
  datatype Dialog = Dialog(amount: string, description: string, loading: bool)

  const Initial := Dialog(InitialAmount, DefaultNote, false)

  /** The submit guard: `isNaN(n) || n <= 0` rejects. */
  predicate Accepts(n: Number) {
    !(n.NaN? || n.value <= 0)
  }

  lemma AcceptsIffPositive(n: Number)
    ensures Accepts(n) <==> n.Num? && n.value > 0
  {
  }

  /** The call made to the confirm callback. */
  datatype Grant = Grant(amount: int, description: string)

  /** The dialog after a submit, the call made (if any), and whether the
      invalid-amount alert was shown. */
  datatype Submission = Submission(dialog: Dialog, call: Option<Grant>, alerted: bool)

  /** `handleSubmit`, with the callback's completion as a parameter. */
  function Submit(d: Dialog, onConfirm: Completion): (r: Submission)
    ensures r.call.Some? <==> Accepts(ParseInt(d.amount, NoRadix))
    ensures r.alerted <==> r.call.None?
    ensures r.call.Some? ==> r.call.value == Grant(ParseInt(d.amount, NoRadix).value, d.description) && r.call.value.amount > 0
    // The fields are never reset by a submit, whatever the outcome; the busy
    // flag is down again once the callback settles.
    ensures r.dialog.amount == d.amount && r.dialog.description == d.description
    ensures r.call.Some? ==> !r.dialog.loading
    ensures r.call.None? ==> r.dialog == d
  {
    var n := ParseInt(d.amount, NoRadix);
    if !Accepts(n) then Submission(d, None, true)
    else Submission(d.(loading := false), Some(Grant(n.value, d.description)), false)
  }

  /** `handleClose`: both fields back to their initial values. */
  function Close(d: Dialog): (r: Dialog)
    ensures r.amount == InitialAmount && r.description == DefaultNote && r.loading == d.loading
  {
    d.(amount := InitialAmount, description := DefaultNote)
  }

  /** Closing a dialog that is not busy gives back the initial dialog. */
  lemma CloseRestoresInitial(d: Dialog)
    requires !d.loading
    ensures Close(d) == Initial
  {
  }

  /** A preset button: the amount becomes the preset's decimal string. */
  function ChoosePreset(d: Dialog, i: nat): (r: Dialog)
    requires i < |Presets|
    ensures r.amount == Decimal(Presets[i]) && r.description == d.description && r.loading == d.loading
  {
    d.(amount := Decimal(Presets[i]))
  }

  /** A preset button is highlighted when the amount is its decimal string. */
  predicate Highlighted(d: Dialog, i: nat)
    requires i < |Presets|
  {
    d.amount == Decimal(Presets[i])
  }

  /** Choosing a preset and submitting grants exactly that preset. */
  lemma PresetThenSubmit(d: Dialog, i: nat, outcome: Completion)
    requires i < |Presets|
    ensures Submit(ChoosePreset(d, i), outcome).call == Some(Grant(Presets[i], d.description))
  {
    assert Decimal(Presets[i]) + [] == Decimal(Presets[i]);
    ParseIntOfDecimal(Presets[i], [], NoRadix);
  }

  /** After choosing a preset, that preset and no other is highlighted. */
  lemma PresetHighlightIsUnique(d: Dialog, i: nat, j: nat)
    requires i < |Presets| && j < |Presets|
    ensures Highlighted(ChoosePreset(d, i), j) <==> i == j
  {
    if Decimal(Presets[i]) == Decimal(Presets[j]) {
      assert Decimal(Presets[i]) + [] == Decimal(Presets[i]);
      assert Decimal(Presets[j]) + [] == Decimal(Presets[j]);
      ParseIntOfDecimal(Presets[i], [], NoRadix);
      ParseIntOfDecimal(Presets[j], [], NoRadix);
    }
  }

  /** The prefilled dialog is ready to grant 100 credits, with the preset 100
      shown as selected. */
  lemma InitialGrantsHundred(outcome: Completion)
    ensures Submit(Initial, outcome).call == Some(Grant(100, DefaultNote))
    ensures Highlighted(Initial, 1)
  {
    assert Decimal(100) == InitialAmount;
    assert InitialAmount == Decimal(100) + [];
    ParseIntOfDecimal(100, [], NoRadix);
  }

  /** Amounts `parseInt` cannot read, or reads as zero or less, are refused
      with the alert and no call. */
  lemma RejectedAmounts(d: Dialog, outcome: Completion)
    ensures d.amount == "" ==> Submit(d, outcome).alerted
    ensures d.amount == "0" ==> Submit(d, outcome).alerted
    ensures d.amount == "-5" ==> Submit(d, outcome).alerted
  {
    ParseIntWithoutDigits("", NoRadix);
    assert "0" == Decimal(0) + [];
    ParseIntOfDecimal(0, [], NoRadix);
    assert "-5" == Decimal(-5) + [];
    ParseIntOfDecimal(-5, [], NoRadix);
  }
}
