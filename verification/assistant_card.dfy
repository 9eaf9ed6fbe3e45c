/**
 The assistant card: how a stored domain value is shown (display code, icon,
 colour, formatted label), and the pending-action state behind the card's
 status dialog.
 */
module AssistantCard {
  import opened Results
  import opened Js
  import AssistantStatusModal

  const UndefinedLabel := "Undefined"
  const DefaultColor := "bg-gray-500"

  /** Lower-case domain value to display code. */
  const DisplayCodes: map<string, string> := map[
    "usmbok" := "USMBOK",
    "service_infrastructure_management" := "USMXXX",
    "service_consumer_management" := "USM1XX",
    "service_strategy_management" := "USM2XX",
    "service_performance_management" := "USM3XX",
    "service_experience_management" := "USM4XX",
    "service_delivery_management" := "USM5XX",
    "service_operations_management" := "USM6XX",
    "service_value_management" := "USM7XX",
    "intelligent_automation" := "USM8XX",
    "itil" := "ITIL",
    "it4it" := "IT4IT",
    "business" := "Business",
    "technology" := "Technology",
    "finance" := "Finance",
    "marketing" := "Marketing",
    "undefined" := "Undefined"]

  /** The ten domain values of the USM family. */
  const UsmFamily: set<string> := {
    "usmbok", "service_infrastructure_management", "service_consumer_management",
    "service_strategy_management", "service_performance_management", "service_experience_management",
    "service_delivery_management", "service_operations_management", "service_value_management",
    "intelligent_automation"}

  const Frameworks: set<string> := {"itil", "it4it"}

  datatype Icon = BookOpen | Award | Code | Briefcase | DollarSign | TrendingUp | Bot

  const Icons: map<string, Icon> := map[
    "usmbok" := BookOpen,
    "service_infrastructure_management" := BookOpen,
    "service_consumer_management" := BookOpen,
    "service_strategy_management" := BookOpen,
    "service_performance_management" := BookOpen,
    "service_experience_management" := BookOpen,
    "service_delivery_management" := BookOpen,
    "service_operations_management" := BookOpen,
    "service_value_management" := BookOpen,
    "intelligent_automation" := BookOpen,
    "itil" := Award,
    "it4it" := Award,
    "technology" := Code,
    "business" := Briefcase,
    "finance" := DollarSign,
    "marketing" := TrendingUp]

  const Colors: map<string, string> := map[
    "usmbok" := "bg-indigo-500",
    "service_infrastructure_management" := "bg-indigo-500",
    "service_consumer_management" := "bg-blue-500",
    "service_strategy_management" := "bg-green-500",
    "service_performance_management" := "bg-yellow-500",
    "service_experience_management" := "bg-orange-500",
    "service_delivery_management" := "bg-red-500",
    "service_operations_management" := "bg-purple-500",
    "service_value_management" := "bg-pink-500",
    "intelligent_automation" := "bg-teal-500",
    "itil" := "bg-orange-500",
    "it4it" := "bg-violet-500",
    "technology" := "bg-blue-500",
    "business" := "bg-green-500",
    "finance" := "bg-yellow-500",
    "marketing" := "bg-purple-500"]

  // ---------------------------------------------------------------------------
  // Domain display
  // ---------------------------------------------------------------------------

  /** `getDomainDisplayCode`: the table entry for the lower-cased value (a missing
      value is looked up as the key `undefined`), else the upper-cased value,
      else `Undefined`. */
  function DomainDisplayCode(domain: Option<string>): (r: string)
    ensures r != ""
    ensures domain.Some? && Lower(domain.value) in DisplayCodes ==> r == DisplayCodes[Lower(domain.value)]
    ensures domain.Some? && Lower(domain.value) !in DisplayCodes && domain.value != "" ==> r == Upper(domain.value)
    ensures domain.None? || domain == Some("") ==> r == UndefinedLabel
  {
    var key := if domain.None? then "undefined" else Lower(domain.value);
    if key in DisplayCodes then DisplayCodes[key]
    else
      var upper := Upper(domain.value);
      if upper != "" then upper else UndefinedLabel
  }

  /** `getDomainIcon`: a switch on the lower-cased value, `Bot` by default. */
  function DomainIcon(domain: Option<string>): Icon {
    match domain
    case None => Bot
    case Some(d) => if Lower(d) in Icons then Icons[Lower(d)] else Bot
  }

  /** `getDomainColor`: a switch on the lower-cased value, grey by default. */
  function DomainColor(domain: Option<string>): (r: string)
    ensures r != ""
  {
    match domain
    case None => DefaultColor
    case Some(d) => if Lower(d) in Colors then Colors[Lower(d)] else DefaultColor
  }

  /** The book icon marks exactly the USM family, the award icon exactly the two
      frameworks, whatever the letter case of the stored value. */
  lemma IconFamilies(d: string)
    ensures DomainIcon(Some(d)) == BookOpen <==> Lower(d) in UsmFamily
    ensures DomainIcon(Some(d)) == Award <==> Lower(d) in Frameworks
    ensures Lower(d) !in Icons ==> DomainIcon(Some(d)) == Bot
  {
  }

  /** The colour falls back to grey exactly for values outside the table. */
  lemma ColorFallback(d: string)
    ensures DomainColor(Some(d)) == DefaultColor <==> Lower(d) !in Colors
  {
  }

  /** The three lookups know the same domains: the icon and colour switches
      cover exactly the display table without its `undefined` entry. */
  lemma TablesAgree()
    ensures Icons.Keys == Colors.Keys
    ensures Icons.Keys == DisplayCodes.Keys - {"undefined"}
    ensures UsmFamily + Frameworks <= Icons.Keys
  {
  }

  /** All three lookups ignore letter case. */
  lemma LookupsIgnoreCase(s: string, t: string)
    requires Lower(s) == Lower(t)
    ensures DomainDisplayCode(Some(s)) == DomainDisplayCode(Some(t))
    ensures DomainIcon(Some(s)) == DomainIcon(Some(t))
    ensures DomainColor(Some(s)) == DomainColor(Some(t))
  {
    SameLowerSameUpper(s, t);
  }

  /** Capitalises the first character of a non-empty string. */
  function Capitalize(d: string): (r: string)
    requires d != ""
    ensures |r| == |d| && r[0] == UpperChar(d[0]) && r[1..] == d[1..]
  {
    [UpperChar(d[0])] + d[1..]
  }

  /** `formatDomainDisplay`: `Undefined` for a missing, empty or `undefined`
      value; fully upper-cased when its lower case starts with `usm`; otherwise
      only the first character upper-cased. */
  function FormatDomainDisplay(domain: Option<string>): (r: string)
    ensures r != ""
    ensures domain.None? || domain == Some("") || domain == Some("undefined") ==> r == UndefinedLabel
    ensures domain.Some? && domain.value != "" && domain.value != "undefined" ==>
              |r| == |domain.value| && Lower(r) == Lower(domain.value)
    ensures domain.Some? && domain.value != "" && domain.value != "undefined" && StartsWith(Lower(domain.value), "usm") ==>
              r == Upper(domain.value)
    ensures domain.Some? && domain.value != "" && domain.value != "undefined" && !StartsWith(Lower(domain.value), "usm") ==>
              r[0] == UpperChar(domain.value[0]) && r[1..] == domain.value[1..]
  {
    match domain
    case None => UndefinedLabel
    case Some(d) =>
      if d == "" || d == "undefined" then UndefinedLabel
      else if StartsWith(Lower(d), "usm") then
        LowerOfUpper(d);
        Upper(d)
      else
        var r := Capitalize(d);
        assert Lower(r) == Lower(d) by {
          assert Lower(r)[0] == LowerChar(UpperChar(d[0])) == LowerChar(d[0]);
        }
        r
  }

  /** Formatting a formatted label changes nothing. */
  lemma FormatIdempotent(domain: Option<string>)
    ensures FormatDomainDisplay(Some(FormatDomainDisplay(domain))) == FormatDomainDisplay(domain)
  {
    var r := FormatDomainDisplay(domain);
    if domain.Some? && domain.value != "" && domain.value != "undefined" {
      var d := domain.value;
      if StartsWith(Lower(d), "usm") {
        UpperIdempotent(d);
        LowerOfUpper(d);
      } else {
        assert r != "undefined" by {
          assert r[0] == UpperChar(d[0]);
          assert !IsLowerLetter(r[0]);
        }
        assert r[0] == UpperChar(r[0]);
        assert Capitalize(r) == r;
      }
    } else {
      assert r == UndefinedLabel;
      assert Lower(UndefinedLabel)[0] == 'u' && Lower(UndefinedLabel)[1] == 'n';
      assert !StartsWith(Lower(UndefinedLabel), "usm");
    }
  }

  /** For a USM value the formatted label and the display code agree: both are
      the value in upper case (the one table key of the family, `usmbok`, maps to
      its own upper case). */
  lemma FormatAgreesWithDisplayCode(d: string)
    requires StartsWith(Lower(d), "usm")
    ensures FormatDomainDisplay(Some(d)) == DomainDisplayCode(Some(d))
  {
    var key := Lower(d);
    assert d != "" && d != "undefined" by {
      assert |key| >= 3;
      assert Lower("undefined")[0] == 'u' && Lower("undefined")[1] == 'n';
    }
    if key in DisplayCodes {
      assert key == "usmbok" by {
        assert key[..3] == "usm";
        forall k | k in DisplayCodes && k != "usmbok" ensures |k| < 3 || k[..3] != "usm" {
          assert k[0] != 'u' || k[1] != 's';
        }
      }
      assert Lower("usmbok") == "usmbok";
      SameLowerSameUpper(d, "usmbok");
      assert Upper("usmbok") == "USMBOK";
    }
  }

  /** A value outside the USM family keeps everything after its first
      character, so only that character's case can differ from the stored
      value. */
  lemma LegacyLabelKeepsTail(d: string)
    requires d != "" && d != "undefined" && !StartsWith(Lower(d), "usm")
    ensures var r := FormatDomainDisplay(Some(d));
      r[1..] == d[1..] && !IsLowerLetter(r[0]) && LowerChar(r[0]) == LowerChar(d[0])
  {
  }

  // ---------------------------------------------------------------------------
  // Pending status action
  // ---------------------------------------------------------------------------

  /** The card's dialog state: shown or not, the action waiting for
      confirmation, and the busy flag. */
  datatype Prompt = Prompt(showModal: bool, pending: Option<string>, updating: bool)

  const Idle := Prompt(false, None, false)

  /** `handleStatusClick`: remember the action and show the dialog. */
  function StatusClick(p: Prompt, action: Option<string>): (r: Prompt)
    ensures r.showModal && r.pending == action && r.updating == p.updating
  {
    p.(showModal := true, pending := action)
  }

  /** `handleStatusCancel`: hide the dialog and forget the action. */
  function StatusCancel(p: Prompt): (r: Prompt)
    ensures !r.showModal && r.pending.None? && r.updating == p.updating
  {
    p.(showModal := false, pending := None)
  }

  /** The call made to the status-change callback. */
  datatype StatusChange = StatusChange(id: string, action: string)

  datatype Confirmed = Confirmed(prompt: Prompt, call: Option<StatusChange>)

  /** `handleStatusConfirm`, with the callback's completion as a parameter: the
      callback runs only with both an action and an id; after it runs the dialog
      is closed and the action cleared whether it succeeded or threw. */
  function StatusConfirm(p: Prompt, id: Option<string>, onStatusChange: Completion): (r: Confirmed)
    ensures r.call.Some? <==> Present(p.pending) && Present(id)
    ensures r.call.Some? ==> r.call.value == StatusChange(id.value, p.pending.value)
    ensures r.call.Some? ==> r.prompt == Idle
    ensures r.call.None? ==> r.prompt == p
  {
    if Present(p.pending) && Present(id) then
      Confirmed(Idle, Some(StatusChange(id.value, p.pending.value)))
    else
      Confirmed(p, None)
  }

  /** Clicking then cancelling returns the dialog to its closed, empty state. */
  lemma ClickThenCancel(p: Prompt, action: Option<string>)
    ensures StatusCancel(StatusClick(p, action)) == p.(showModal := false, pending := None)
  {
  }

  /** Clicking with a non-empty action and confirming calls the callback with
      that action once, and ends idle even when the callback throws. */
  lemma ClickThenConfirm(p: Prompt, action: string, id: string, outcome: Completion)
    requires action != "" && id != ""
    ensures var r := StatusConfirm(StatusClick(p, Some(action)), Some(id), outcome);
      r.call == Some(StatusChange(id, action)) && r.prompt == Idle
  {
  }

  /** The dialog events the card wires up: the dialog's close and confirm. The
      card itself never calls `handleStatusClick` or `handleStatusToggle`. */
  datatype WiredEvent = DialogClosed | DialogConfirmed(outcome: Completion)

  /** The prompt after a run of wired events, and the status changes requested. */
  function RunWired(p: Prompt, id: Option<string>, events: seq<WiredEvent>): (Prompt, seq<StatusChange>)
    decreases |events|
  {
    if |events| == 0 then (p, [])
    else
      match events[0]
      case DialogClosed => RunWired(StatusCancel(p), id, events[1..])
      case DialogConfirmed(outcome) =>
        var c := StatusConfirm(p, id, outcome);
        var rest := RunWired(c.prompt, id, events[1..]);
        (rest.0, (if c.call.Some? then [c.call.value] else []) + rest.1)
  }

  /** With only the wired events, a card that starts idle stays idle and never
      calls the status callback: nothing sets a pending action, so the status
      dialog is never shown by the card. */
  lemma {:induction false} CardNeverOpensDialog(id: Option<string>, events: seq<WiredEvent>)
    ensures RunWired(Idle, id, events) == (Idle, [])
    decreases |events|
  {
    if |events| > 0 {
      CardNeverOpensDialog(id, events[1..]);
      match events[0]
      case DialogClosed =>
        assert StatusCancel(Idle) == Idle;
      case DialogConfirmed(outcome) =>
        var c := StatusConfirm(Idle, id, outcome);
        assert c == Confirmed(Idle, None);
        var rest := RunWired(Idle, id, events[1..]);
        assert RunWired(Idle, id, events) == (rest.0, [] + rest.1);
        assert [] + rest.1 == rest.1;
    }
  }

  // ---------------------------------------------------------------------------
  // Quick toggle
  // ---------------------------------------------------------------------------

  /** The action that flips an assistant's state: an active one is deactivated,
      anything else activated. */
  function ToggleAction(state: Option<string>): (a: string)
    ensures a == "deactivate" <==> state == Some("Active")
    ensures a == "activate" || a == "deactivate"
  {
    if state == Some("Active") then "deactivate" else "activate"
  }

  /** `handleStatusToggle` as written: the flipping action is worked out, but
      the callback is handed the current state. */
  function StatusToggleAsWritten(state: Option<string>): (sent: Option<string>)
    ensures state == Some("Active") || state == Some("Inactive") ==> sent.Some? && sent.value != ToggleAction(state)
  {
    state
  }

  /** The quick toggle as written and the corrected one send the same word only
      for the stored state `activate`, which is not a state. For an inactive
      assistant the written code sends a value the status dialog does not read
      as an activation, where the corrected toggle sends `activate`; for an
      active one it sends `Active` instead of `deactivate`. */
  lemma ToggleAsWrittenDiffers(state: Option<string>)
    ensures StatusToggleAsWritten(state) == Some(StatusToggle(state)) <==> state == Some("activate")
    ensures state == Some("Inactive") ==>
              !AssistantStatusModal.IsActivating(StatusToggleAsWritten(state))
              && AssistantStatusModal.IsActivating(Some(StatusToggle(state)))
    ensures state == Some("Active") ==>
              StatusToggleAsWritten(state) == Some("Active") && StatusToggle(state) == "deactivate"
  {
  }

  /** The quick toggle with the computed action passed on, as the confirmed path
      does. */
  function StatusToggle(state: Option<string>): (sent: string) {
    ToggleAction(state)
  }

  /** The corrected toggle activates exactly the assistants that are not active,
      in the dialog's own reading of the action, and toggling twice returns to
      the starting kind of request. */
  lemma ToggleFlipsState(state: Option<string>)
    ensures AssistantStatusModal.IsActivating(Some(StatusToggle(state))) <==> state != Some("Active")
    ensures StatusToggle(Some(if AssistantStatusModal.IsActivating(Some(StatusToggle(state))) then "Active" else "Inactive"))
            == (if state == Some("Active") then "activate" else "deactivate")
  {
  }
}
