/**
 The dialog that asks for a reason before an assistant is activated or
 deactivated: the reason gate, what is reset and when, and how the
 requested action is read.
 */
module AssistantStatusModal {
  import opened Results
  import opened Js

  /** The dialog's own state: the reason typed so far and the busy flag. */
  datatype Modal = Modal(reason: string, processing: bool)

  const Cleared := Modal("", false)

  /** The effect that runs when `isOpen` changes: opening clears the reason and
      the busy flag, closing leaves them alone. */
  function OnOpenChange(m: Modal, isOpen: bool): (r: Modal)
    ensures isOpen ==> r.reason == "" && !r.processing
    ensures !isOpen ==> r == m
  {
    if isOpen then Cleared else m
  }

  /** The dialog after a submit, the reason handed to the confirm callback (if it
      was called), and whether the dialog asked to be closed. */
  datatype Submitted = Submitted(modal: Modal, confirmed: Option<string>, closed: bool)

  /** `handleSubmit`, with the confirm callback's completion as a parameter. */
  function Submit(m: Modal, onConfirm: Completion): (r: Submitted)
    ensures r.confirmed.Some? <==> !IsBlank(m.reason)
    ensures r.confirmed.Some? ==> r.confirmed.value == Trim(m.reason) && r.confirmed.value != ""
    ensures r.confirmed.None? ==> r.modal == m && !r.closed
    ensures r.confirmed.Some? ==> r.modal.reason == m.reason && !r.modal.processing
    ensures r.closed <==> r.confirmed.Some? && onConfirm.Returned?
  {
    var reason := Trim(m.reason);
    TrimSpec(m.reason);
    if reason == "" then Submitted(m, None, false)
    else
      match onConfirm
      case Returned => Submitted(m.(processing := false), Some(reason), true)
      case Threw(_) => Submitted(m.(processing := false), Some(reason), false)
  }

  /** `handleCancel`: clears the reason and the busy flag and always asks to be
      closed, without calling the confirm callback. */
  function Cancel(m: Modal): (r: Submitted)
    ensures r.modal.reason == "" && !r.modal.processing
    ensures r.closed && r.confirmed.None?
  {
    Submitted(Cleared, None, true)
  }

  /** Cancelling leaves the dialog as reopening it would, whatever was typed,
      and a submit straight after a cancel sends nothing: the reason it would
      have sent is gone. */
  lemma CancelDiscardsReason(m: Modal, onConfirm: Completion)
    ensures Cancel(m).modal == OnOpenChange(m, true)
    ensures Submit(Cancel(m).modal, onConfirm).confirmed.None?
    ensures !IsBlank(m.reason) ==> Submit(m, onConfirm).confirmed != Submit(Cancel(m).modal, onConfirm).confirmed
  {
    assert IsBlank("");
  }

  /** Only the exact action `activate` activates; anything else, `null` included,
      is a deactivation. */
  predicate IsActivating(action: Option<string>) {
    action == Some("activate")
  }

  /** The dialog's verb, chosen by `IsActivating`. */
  function ActionText(action: Option<string>): (r: string)
    ensures r == "Activate" <==> IsActivating(action)
    ensures r == "Activate" || r == "Deactivate"
  {
    if IsActivating(action) then "Activate" else "Deactivate"
  }

  /** The confirm button is disabled while busy or while the reason is blank. */
  predicate ConfirmDisabled(m: Modal) {
    m.processing || Trim(m.reason) == ""
  }

  /** When the dialog is idle, the confirm button is enabled exactly when a
      submit would call the confirm callback. */
  lemma ConfirmEnabledIffSubmits(m: Modal, onConfirm: Completion)
    requires !m.processing
    ensures !ConfirmDisabled(m) <==> Submit(m, onConfirm).confirmed.Some?
  {
    TrimSpec(m.reason);
  }

  /** A failed confirmation leaves the dialog open with the reason kept, so a
      second submit retries with the same trimmed reason. */
  lemma FailureAllowsRetry(m: Modal, message: string, next: Completion)
    requires !IsBlank(m.reason)
    ensures var first := Submit(m, Threw(message));
      && !first.closed
      && Submit(first.modal, next).confirmed == first.confirmed
  {
  }
}
