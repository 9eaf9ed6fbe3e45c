/**
 The per-user credit dialog: an empty amount and an optional description,
 a submit that sends the trimmed description (or a default) and clears the
 dialog only on success, and the submit button's disabled state.
 */
module AddCreditsModal {
  import opened Results
  import opened Js
  import CreditAddModal

  const DefaultNote := "Admin credit adjustment"

  /** The dialog's fields, busy flag and whether it is still open. */
  datatype Dialog = Dialog(amount: string, description: string, loading: bool, open: bool)

  const Initial := Dialog("", "", false, true)

  /** The submit guard: `!n || n <= 0` rejects, so `NaN` and zero are refused. */
  predicate Accepts(n: Number) {
    !(!n.Truthy() || n.value <= 0)
  }

  /** The request handed to the confirm callback. */
  datatype Request = Request(amount: int, description: string)

  datatype Submission = Submission(dialog: Dialog, call: Option<Request>)

  /** The description sent: the trimmed input, or the default when that is empty. */
  function Note(description: string): (r: string)
    ensures r != ""
    ensures IsBlank(description) ==> r == DefaultNote
    ensures !IsBlank(description) ==> r == Trim(description)
  {
    TrimSpec(description);
    if Trim(description) != "" then Trim(description) else DefaultNote
  }

  /** `handleSubmit`, with the callback's completion as a parameter. */
  function Submit(d: Dialog, onConfirm: Completion): (r: Submission)
    ensures r.call.Some? <==> Accepts(ParseInt(d.amount, NoRadix))
    ensures r.call.Some? ==>
              r.call.value == Request(ParseInt(d.amount, NoRadix).value, Note(d.description))
              && r.call.value.amount > 0
    ensures r.call.None? ==> r.dialog == d
    // Success clears both fields and closes; failure keeps them and stays open.
    ensures r.call.Some? && onConfirm.Returned? ==> r.dialog == Dialog("", "", false, false)
    ensures r.call.Some? && onConfirm.Threw? ==> r.dialog == d.(loading := false)
  {
    var n := ParseInt(d.amount, NoRadix);
    if !Accepts(n) then Submission(d, None)
    else
      var call := Some(Request(n.value, Note(d.description)));
      match onConfirm
      case Returned => Submission(Dialog("", "", false, false), call)
      case Threw(_) => Submission(d.(loading := false), call)
  }

  /** `handleClose`: both fields cleared and the dialog closed. */
  function Close(d: Dialog): (r: Dialog)
    ensures r.amount == "" && r.description == "" && !r.open && r.loading == d.loading
  {
    Dialog("", "", d.loading, false)
  }

  /** The submit button's `disabled`: busy, empty amount, or an amount read as
      zero or less (a `NaN` comparison is false, so `NaN` does not disable it). */
  predicate SubmitDisabled(d: Dialog) {
    d.loading || d.amount == "" || (ParseInt(d.amount, NoRadix).Num? && ParseInt(d.amount, NoRadix).value <= 0)
  }

  /** The two credit dialogs refuse exactly the same parsed amounts. */
  lemma SameGateAsPresetDialog(n: Number)
    ensures Accepts(n) <==> CreditAddModal.Accepts(n)
    ensures Accepts(n) <==> n.Num? && n.value > 0
  {
  }

  /** An enabled button is necessary for a call: whenever the button is
      disabled for its amount, a submit makes no call. */
  lemma DisabledNeverSubmits(d: Dialog, outcome: Completion)
    requires SubmitDisabled(d) && !d.loading
    ensures Submit(d, outcome).call.None?
  {
    if d.amount == "" {
      ParseIntWithoutDigits("", NoRadix);
    }
  }

  /** The button and the handler disagree on amounts `parseInt` cannot read:
      `-` leaves the button enabled, and the handler then refuses it. */
  lemma UnreadableAmountEnabledButRefused(outcome: Completion)
    ensures var d := Initial.(amount := "-");
      !SubmitDisabled(d) && Submit(d, outcome).call.None?
  {
    ParseIntWithoutDigits("-", NoRadix);
  }

  /** Apart from unreadable amounts, the button is enabled exactly when a submit
      would make a call. */
  lemma EnabledIffSubmits(d: Dialog, outcome: Completion)
    requires !d.loading && ParseInt(d.amount, NoRadix).Num?
    ensures !SubmitDisabled(d) <==> Submit(d, outcome).call.Some?
  {
    if d.amount == "" {
      ParseIntWithoutDigits("", NoRadix);
    }
  }

  /** A failed confirmation keeps the input, so submitting again retries with
      the same request; a successful one leaves the dialog as a fresh one,
      closed. */
  lemma RetryAfterFailure(d: Dialog, message: string, next: Completion)
    requires Accepts(ParseInt(d.amount, NoRadix))
    ensures var first := Submit(d, Threw(message));
      first.dialog.open == d.open && Submit(first.dialog, next).call == first.call
    ensures Submit(d, Returned).dialog == Close(Initial)
  {
  }

  /** Typing a decimal amount and a description and submitting sends that
      amount, and the description without its surrounding whitespace. */
  lemma TypedAmountIsSent(n: nat, description: string, outcome: Completion)
    requires n > 0
    ensures Submit(Initial.(amount := Decimal(n), description := description), outcome).call
            == Some(Request(n, Note(description)))
  {
    assert Decimal(n) == Decimal(n) + [];
    ParseIntOfDecimal(n, [], NoRadix);
  }
}
