/**
 The assistant editor form: its initial values, the validation rules run on
 submit, the record handed to the save callback, the classification of the
 store's error message, and the effect of editing one field.
 */
module AssistantEditor {
  import opened Results
  import opened Js

  const DefaultDomain := "USMXXX"
  const DefaultCredits := 10
  const MinNameLength := 2
  const MinDescriptionLength := 10
  const MinCredits := 1
  const MaxCredits := 1000

  const NameRequired := "Name is required"
  const NameTooShort := "Name must be at least 2 characters long"
  const DescriptionRequired := "Description is required"
  const DescriptionTooShort := "Description must be at least 10 characters long"
  const DomainRequired := "Domain is required"
  const DomainInvalid := "Invalid USM code format. Use USMXXX, USM1XX-USM9XX, ITIL, or IT4IT"
  const KnowledgeBankRequired := "Knowledge bank is required"
  const StateInvalid := "Valid state is required (Active or Inactive)"
  const CreditsOutOfRange := "Credits per message must be between 1 and 1000"
  const FixErrorsMessage := "Please fix the validation errors before saving."

  const StateRejectedText := "Assistant state validation failed. Please ensure the state is set to Active or Inactive."
  const DuplicateText := "An assistant with this name or OpenAI ID already exists. Please use different values."
  const KnowledgeBankRejectedText := "Knowledge bank assignment failed. Please select a valid knowledge bank."
  const MissingRequiredText := "Required fields are missing. Please fill in all mandatory information."
  const GenericSaveText := "Failed to save assistant. Please try again."

  /** The codes offered by the domain selector. */
  const DomainOptions := ["USMXXX", "USM1XX", "USM2XX", "USM3XX", "USM4XX", "USM5XX",
                          "USM6XX", "USM7XX", "USM8XX", "USM9XX", "ITIL", "IT4IT"]

  datatype Field = Name | Description | Domain | KnowledgeBank | OpenAiId | State | Credits

  /** The `state` column as it may arrive: a string, a legacy boolean, or nothing. */
  datatype StoredState = StateText(text: string) | StateFlag(flag: bool) | StateMissing

  /** An assistant row opened in the editor. An empty string stands for a missing
      text column and `0` for missing credits: the editor treats both as falsy. */
  datatype Assistant = Assistant(
    name: string, description: string, domain: string, knowledgeBank: string,
    openAiId: string, state: StoredState, credits: int)

  /** The editor's form values. */
  datatype Form = Form(
    name: string, description: string, domain: string, knowledgeBank: string,
    openAiId: string, state: string, credits: int)

  /** The record handed to the save callback; a blank external id is `null`. */
  datatype Update = Update(
    name: string, description: string, domain: string, knowledgeBank: string,
    openAiId: Option<string>, state: string, credits: int)

  /** JavaScript's `s || fallback` on strings. */
  function OrElse(s: string, fallback: string): (r: string)
    ensures s != "" ==> r == s
    ensures s == "" ==> r == fallback
  {
    if s == "" then fallback else s
  }

  predicate IsStateText(s: string) {
    s == "Active" || s == "Inactive"
  }

  // ---------------------------------------------------------------------------
  // Initial form
  // ---------------------------------------------------------------------------

  /** The form built from the assistant being edited, or from nothing for a new one. */
  function InitialForm(source: Option<Assistant>): (f: Form)
    ensures f.state == "Active" <==>
              source.Some? && (source.value.state == StateText("Active") || source.value.state == StateFlag(true))
    ensures IsStateText(f.state)
    ensures f.domain != "" && f.credits != 0
    ensures source.Some? ==> f.name == source.value.name && f.description == source.value.description
                             && f.knowledgeBank == source.value.knowledgeBank && f.openAiId == source.value.openAiId
    ensures source.Some? && source.value.domain != "" ==> f.domain == source.value.domain
    ensures source.Some? && source.value.credits != 0 ==> f.credits == source.value.credits
    ensures source.None? ==> f == Form("", "", DefaultDomain, "", "", "Inactive", DefaultCredits)
  {
    match source
    case None => Form("", "", DefaultDomain, "", "", "Inactive", DefaultCredits)
    case Some(a) =>
      Form(a.name, a.description, OrElse(a.domain, DefaultDomain), a.knowledgeBank, a.openAiId,
           if a.state == StateText("Active") || a.state == StateFlag(true) then "Active" else "Inactive",
           if a.credits == 0 then DefaultCredits else a.credits)
  }

  // ---------------------------------------------------------------------------
  // Validation
  // ---------------------------------------------------------------------------

  predicate IsCodeDigit(c: char) {
    c == 'X' || IsDecDigit(c)
  }

  /** The anchored pattern `^(USM[X0-9]{3}|ITIL|IT4IT)$`, case-sensitive. */
  predicate IsDomainCode(d: string) {
    d == "ITIL" || d == "IT4IT"
    || (|d| == 6 && d[..3] == "USM" && IsCodeDigit(d[3]) && IsCodeDigit(d[4]) && IsCodeDigit(d[5]))
  }

  /** The "required" / "too short" check applied to name and description. */
  function LengthError(text: string, min: nat, required: string, tooShort: string): Option<string> {
    var t := Trim(text);
    if t == "" then Some(required)
    else if |t| < min then Some(tooShort)
    else None
  }

  function DomainError(domain: string): Option<string> {
    var t := Trim(domain);
    if t == "" then Some(DomainRequired)
    else if !IsDomainCode(t) then Some(DomainInvalid)
    else None
  }

  function StateError(state: string): Option<string> {
    if state == "" || !IsStateText(state) then Some(StateInvalid) else None
  }

  function CreditsError(credits: int): Option<string> {
    if credits < MinCredits || credits > MaxCredits then Some(CreditsOutOfRange) else None
  }

  /** The error `validateForm` records for one field, if any. */
  function FieldError(f: Form, field: Field): Option<string> {
    match field
    case Name => LengthError(f.name, MinNameLength, NameRequired, NameTooShort)
    case Description => LengthError(f.description, MinDescriptionLength, DescriptionRequired, DescriptionTooShort)
    case Domain => DomainError(f.domain)
    case KnowledgeBank => if f.knowledgeBank == "" then Some(KnowledgeBankRequired) else None
    case OpenAiId => None
    case State => StateError(f.state)
    case Credits => CreditsError(f.credits)
  }

  const AllFields: set<Field> := {Name, Description, Domain, KnowledgeBank, OpenAiId, State, Credits}

  /** `validateForm`: the error map, one message per failing field. */
  function Validate(f: Form): (errors: map<Field, string>)
    ensures Name in errors <==> |Trim(f.name)| < MinNameLength
    ensures Name in errors ==> errors[Name] == (if Trim(f.name) == "" then NameRequired else NameTooShort)
    ensures Description in errors <==> |Trim(f.description)| < MinDescriptionLength
    ensures Description in errors ==>
              errors[Description] == (if Trim(f.description) == "" then DescriptionRequired else DescriptionTooShort)
    ensures Domain in errors <==> !IsDomainCode(Trim(f.domain))
    ensures Domain in errors ==> errors[Domain] == (if Trim(f.domain) == "" then DomainRequired else DomainInvalid)
    ensures KnowledgeBank in errors <==> f.knowledgeBank == ""
    ensures State in errors <==> !IsStateText(f.state)
    ensures Credits in errors <==> !(MinCredits <= f.credits <= MaxCredits)
    ensures OpenAiId !in errors
  {
    map field | field in AllFields && FieldError(f, field).Some? :: FieldError(f, field).value
  }

  /** Every rule of the form holds. */
  predicate FormOk(f: Form) {
    && |Trim(f.name)| >= MinNameLength
    && |Trim(f.description)| >= MinDescriptionLength
    && IsDomainCode(Trim(f.domain))
    && f.knowledgeBank != ""
    && IsStateText(f.state)
    && MinCredits <= f.credits <= MaxCredits
  }

  /** The form is valid (no error recorded) exactly when every rule holds. */
  lemma ValidateEmptyIff(f: Form)
    ensures Validate(f) == map[] <==> FormOk(f)
  {
    var errors := Validate(f);
    if FormOk(f) {
      assert errors.Keys == {};
    }
  }

  /** A new assistant's form fails on the three empty fields and nothing else:
      its default domain, state and credits all pass. */
  lemma NewFormErrors()
    ensures Validate(InitialForm(None)).Keys == {Name, Description, KnowledgeBank}
  {
    var f := InitialForm(None);
    assert Trim(f.domain) == DefaultDomain by {
      TrimOfTrimmed(DefaultDomain);
    }
    assert IsDomainCode(DefaultDomain) by {
      assert DefaultDomain[..3] == "USM";
    }
    assert Trim("") == "";
    var errors := Validate(f);
    assert errors.Keys == {Name, Description, KnowledgeBank};
  }

  /** Every code offered by the selector passes the domain pattern. */
  lemma DomainOptionsAreCodes()
    ensures forall i :: 0 <= i < |DomainOptions| ==> IsDomainCode(DomainOptions[i])
  {
    forall i | 0 <= i < |DomainOptions| ensures IsDomainCode(DomainOptions[i]) {
      var d := DomainOptions[i];
      if |d| == 6 {
        assert d[..3] == "USM";
      }
    }
  }

  /** The pattern is case-sensitive: a code has no lower-case letter, so
      `usmxxx` is rejected before the upper-casing done on save is reached. */
  lemma CodeHasNoLowerCase(d: string)
    ensures IsDomainCode(d) ==> forall i :: 0 <= i < |d| ==> !IsLowerLetter(d[i])
  {
    if IsDomainCode(d) && |d| == 6 && d[..3] == "USM" {
      forall i | 0 <= i < 3 ensures d[i] == "USM"[i] {
        assert d[..3][i] == d[i];
      }
    }
  }

  /** Two rejected spellings: lower case, and too few code digits. */
  lemma RejectedExamples()
    ensures !IsDomainCode("usmxxx")
    ensures !IsDomainCode("USM99")
  {
    CodeHasNoLowerCase("usmxxx");
    assert IsLowerLetter("usmxxx"[0]);
  }

  // ---------------------------------------------------------------------------
  // Save-time normalisation
  // ---------------------------------------------------------------------------

  /** `parseInt(credits, 10) || 10` on the numeric form value. */
  function SavedCredits(credits: int): (c: int)
    ensures c == (if credits == 0 then DefaultCredits else credits)
  {
    var s := Decimal(credits);
    ParseIntOfDecimal(credits, "", Radix10);
    assert s + "" == s;
    match ParseInt(s, Radix10)
    case Num(v) => if v != 0 then v else DefaultCredits
    case NaN => DefaultCredits
  }

  /** The record `handleSubmit` builds from the form. */
  function Normalize(f: Form): Update {
    var id := Trim(f.openAiId);
    Update(
      Trim(f.name),
      Trim(f.description),
      OrElse(Upper(Trim(f.domain)), DefaultDomain),
      f.knowledgeBank,
      if id == "" then None else Some(id),
      f.state,
      SavedCredits(f.credits))
  }

  /** The saved record of a valid form keeps every rule of the form with its text
      already trimmed; its domain is the trimmed code unchanged, because a code
      that passes the pattern has no lower-case letter left to upper-case. */
  lemma SavedRecordOfValidForm(f: Form)
    requires Validate(f) == map[]
    ensures var u := Normalize(f);
      && u.name == Trim(f.name) && |u.name| >= MinNameLength
      && u.description == Trim(f.description) && |u.description| >= MinDescriptionLength
      && u.domain == Trim(f.domain) && IsDomainCode(u.domain)
      && u.knowledgeBank == f.knowledgeBank && u.state == f.state && IsStateText(u.state)
      && u.credits == f.credits && MinCredits <= u.credits <= MaxCredits
      && (u.openAiId.None? <==> IsBlank(f.openAiId))
  {
    ValidateEmptyIff(f);
    CodeIsUpperCase(Trim(f.domain));
    TrimSpec(f.openAiId);
  }

  /** A domain code is its own upper case. */
  lemma CodeIsUpperCase(d: string)
    requires IsDomainCode(d)
    ensures Upper(d) == d
  {
    CodeHasNoLowerCase(d);
    UpperOfUpper(d);
  }

  /** The row the store keeps for a saved record, as the editor later reopens it. */
  function Stored(u: Update): Assistant {
    Assistant(u.name, u.description, u.domain, u.knowledgeBank, u.openAiId.GetOr(""), StateText(u.state), u.credits)
  }

  /** Save, reopen, save again: the second save sends the same record, and the
      reopened form is valid. */
  lemma SaveReopenSave(f: Form)
    requires Validate(f) == map[]
    ensures var g := InitialForm(Some(Stored(Normalize(f))));
      Validate(g) == map[] && Normalize(g) == Normalize(f)
  {
    SavedRecordOfValidForm(f);
    var u := Normalize(f);
    var g := InitialForm(Some(Stored(u)));
    TrimIdempotent(f.name);
    TrimIdempotent(f.description);
    TrimIdempotent(f.domain);
    TrimIdempotent(f.openAiId);
    assert g.domain == u.domain;
    assert g.state == u.state;
    assert g.credits == u.credits;
    ValidateEmptyIff(g);
    ValidateEmptyIff(f);
    assert FormOk(g);
    CodeIsUpperCase(u.domain);
    if u.openAiId.Some? {
      assert g.openAiId == Trim(f.openAiId);
    } else {
      assert g.openAiId == "";
      assert Trim("") == "";
    }
  }

  // ---------------------------------------------------------------------------
  // Classification of the store's error message
  // ---------------------------------------------------------------------------

  datatype SaveFailure = StateRejected | DuplicateValue | KnowledgeBankRejected | MissingRequired | Unclassified

  predicate HasStateMarker(m: string) {
    Contains(m, "assistants_state_valid") || Contains(m, "assistants_state_check")
    || Contains(m, "violates check constraint")
  }

  predicate HasDuplicateMarker(m: string) {
    Contains(m, "unique constraint") || Contains(m, "duplicate key")
  }

  /** The first matching rule wins: check constraint, then uniqueness, then
      foreign key, then not-null. */
  function ClassifySaveError(message: string): (r: SaveFailure)
    ensures r == StateRejected <==> HasStateMarker(message)
    ensures r == DuplicateValue <==> !HasStateMarker(message) && HasDuplicateMarker(message)
    ensures r == KnowledgeBankRejected <==>
              !HasStateMarker(message) && !HasDuplicateMarker(message) && Contains(message, "foreign key constraint")
    ensures r == MissingRequired <==>
              && !HasStateMarker(message) && !HasDuplicateMarker(message)
              && !Contains(message, "foreign key constraint") && Contains(message, "not null constraint")
  {
    if HasStateMarker(message) then StateRejected
    else if HasDuplicateMarker(message) then DuplicateValue
    else if Contains(message, "foreign key constraint") then KnowledgeBankRejected
    else if Contains(message, "not null constraint") then MissingRequired
    else Unclassified
  }

  /** The banner text shown after a failed save: never empty, and the store's
      own message when no rule matches it. */
  function SaveErrorText(message: string): (r: string)
    ensures r != ""
    ensures ClassifySaveError(message) == Unclassified && message != "" ==> r == message
  {
    match ClassifySaveError(message)
    case StateRejected => StateRejectedText
    case DuplicateValue => DuplicateText
    case KnowledgeBankRejected => KnowledgeBankRejectedText
    case MissingRequired => MissingRequiredText
    case Unclassified => OrElse(message, GenericSaveText)
  }

  /** A check-constraint report is classified as a state failure whatever the
      store writes around it, even when that text also names a duplicate key. */
  lemma CheckConstraintWins(head: string, tail: string)
    ensures ClassifySaveError(head + "violates check constraint" + tail) == StateRejected
  {
    var marker := "violates check constraint";
    assert StartsWith(marker, marker);
    ContainsExtend(marker, marker, tail);
    ContainsPrepend(head, marker + tail, marker);
    assert head + marker + tail == head + (marker + tail);
  }

  // ---------------------------------------------------------------------------
  // Editor state: submit and field edits
  // ---------------------------------------------------------------------------

  /** The editor's state. An error entry is `Some(message)` while shown and
      `None` once an edit has cleared it: the edit handler overwrites the entry
      with `undefined` instead of removing it, so the key stays. */
  datatype Editor = Editor(
    form: Form, errors: map<Field, Option<string>>, saving: bool, saveSuccess: bool, saveError: string)

  /** The error object `validateForm` stores: one shown message per failing field. */
  function Shown(v: map<Field, string>): (m: map<Field, Option<string>>)
    ensures m.Keys == v.Keys
  {
    map k | k in v :: Some(v[k])
  }

  /** The Save button's `disabled`: busy, or the error object has any key at
      all, whatever its value. */
  predicate SaveDisabled(e: Editor) {
    e.saving || e.errors.Keys != {}
  }

  /** The editor as first rendered. */
  function Open(source: Option<Assistant>): (e: Editor)
    ensures e.form == InitialForm(source) && e.errors == map[] && !e.saving && !e.saveSuccess && e.saveError == ""
  {
    Editor(InitialForm(source), map[], false, false, "")
  }

  /** The editor after submit, and the record passed to the save callback, if any. */
  datatype Submitted = Submitted(editor: Editor, saved: Option<Update>)

  /** `handleSubmit`, with the save callback's completion as a parameter. */
  function Submit(e: Editor, onSave: Completion): (r: Submitted)
    ensures r.saved.Some? <==> FormOk(e.form)
    ensures r.saved.Some? ==> r.saved.value == Normalize(e.form)
    ensures r.editor.form == e.form && r.editor.errors.Keys == Validate(e.form).Keys
    ensures forall k :: k in r.editor.errors ==> r.editor.errors[k] == Some(Validate(e.form)[k])
    ensures r.saved.None? ==> r.editor.saveError == FixErrorsMessage && r.editor.saving == e.saving
                              && r.editor.saveSuccess == e.saveSuccess
    // A refused submit leaves an error key behind, so Save is disabled; a
    // submit that reached the save callback leaves it enabled.
    ensures r.saved.None? ==> r.editor.errors.Keys != {} && SaveDisabled(r.editor)
    ensures r.saved.Some? ==> !SaveDisabled(r.editor)
    ensures r.saved.Some? ==> !r.editor.saving
    ensures r.saved.Some? && onSave.Returned? ==> r.editor.saveSuccess && r.editor.saveError == ""
    ensures r.saved.Some? && onSave.Threw? ==>
              !r.editor.saveSuccess && r.editor.saveError == SaveErrorText(onSave.message)
  {
    var errors := Validate(e.form);
    ValidateEmptyIff(e.form);
    if errors != map[] then
      assert errors.Keys != {} by {
        var k :| k in errors;
      }
      Submitted(e.(errors := Shown(errors), saveError := FixErrorsMessage), None)
    else
      var update := Normalize(e.form);
      match onSave
      case Returned =>
        Submitted(e.(errors := Shown(errors), saving := false, saveSuccess := true, saveError := ""), Some(update))
      case Threw(message) =>
        Submitted(e.(errors := Shown(errors), saving := false, saveSuccess := false, saveError := SaveErrorText(message)), Some(update))
  }

  /** One user edit, with the input controls' own conversions: the state switch
      gives `Active`/`Inactive`, the credits box gives `parseInt(text) || 0`. */
  datatype Edit =
    | EditName(name: string)
    | EditDescription(description: string)
    | EditDomain(domain: string)
    | EditKnowledgeBank(bank: string)
    | EditOpenAiId(id: string)
    | ToggleState(checked: bool)
    | EditCredits(text: string)

  function EditedField(ed: Edit): Field {
    match ed
    case EditName(_) => Name
    case EditDescription(_) => Description
    case EditDomain(_) => Domain
    case EditKnowledgeBank(_) => KnowledgeBank
    case EditOpenAiId(_) => OpenAiId
    case ToggleState(_) => State
    case EditCredits(_) => Credits
  }

  /** `parseInt(text) || 0`: the credits input's conversion. */
  function CreditsInput(text: string): (c: int)
    ensures ParseInt(text, NoRadix).NaN? ==> c == 0
    ensures ParseInt(text, NoRadix).Num? ==> c == ParseInt(text, NoRadix).value
  {
    match ParseInt(text, NoRadix)
    case NaN => 0
    case Num(v) => v
  }

  datatype Value = Text(text: string) | Count(count: int)

  function Get(f: Form, field: Field): Value {
    match field
    case Name => Text(f.name)
    case Description => Text(f.description)
    case Domain => Text(f.domain)
    case KnowledgeBank => Text(f.knowledgeBank)
    case OpenAiId => Text(f.openAiId)
    case State => Text(f.state)
    case Credits => Count(f.credits)
  }

  /** The value an edit stores. */
  function EditValue(ed: Edit): Value {
    match ed
    case EditName(s) => Text(s)
    case EditDescription(s) => Text(s)
    case EditDomain(s) => Text(s)
    case EditKnowledgeBank(s) => Text(s)
    case EditOpenAiId(s) => Text(s)
    case ToggleState(checked) => Text(if checked then "Active" else "Inactive")
    case EditCredits(s) => Count(CreditsInput(s))
  }

  /** The form after one edit. */
  function EditForm(f: Form, ed: Edit): (g: Form)
    ensures Get(g, EditedField(ed)) == EditValue(ed)
    ensures forall k :: k != EditedField(ed) ==> Get(g, k) == Get(f, k)
  {
    match ed
    case EditName(s) => f.(name := s)
    case EditDescription(s) => f.(description := s)
    case EditDomain(s) => f.(domain := s)
    case EditKnowledgeBank(s) => f.(knowledgeBank := s)
    case EditOpenAiId(s) => f.(openAiId := s)
    case ToggleState(checked) => f.(state := if checked then "Active" else "Inactive")
    case EditCredits(s) => f.(credits := CreditsInput(s))
  }

  /** `handleInputChange` as written: one field takes the new value; a shown
      error on that field is overwritten with `undefined`, so its key stays;
      every other entry is kept, and the save banners are cleared. */
  function ApplyEdit(e: Editor, ed: Edit): (r: Editor)
    ensures r.form == EditForm(e.form, ed)
    ensures r.errors.Keys == e.errors.Keys
    ensures EditedField(ed) in r.errors ==> !Present(r.errors[EditedField(ed)])
    ensures forall k :: k in e.errors && k != EditedField(ed) ==> r.errors[k] == e.errors[k]
    ensures r.saving == e.saving && !r.saveSuccess && r.saveError == ""
  {
    var field := EditedField(ed);
    var errors := if field in e.errors && Present(e.errors[field]) then e.errors[field := None] else e.errors;
    Editor(EditForm(e.form, ed), errors, e.saving, false, "")
  }

  /** A run of edits, first to last. */
  function ApplyEdits(e: Editor, eds: seq<Edit>): Editor
    decreases |eds|
  {
    if |eds| == 0 then e else ApplyEdits(ApplyEdit(e, eds[0]), eds[1..])
  }

  /** Edits never remove an error key and never touch the busy flag. */
  lemma {:induction false} EditsKeepErrorKeys(e: Editor, eds: seq<Edit>)
    ensures ApplyEdits(e, eds).errors.Keys == e.errors.Keys
    ensures ApplyEdits(e, eds).saving == e.saving
    decreases |eds|
  {
    if |eds| > 0 {
      EditsKeepErrorKeys(ApplyEdit(e, eds[0]), eds[1..]);
    }
  }

  /** Once a submit has been refused, no run of edits enables Save again, even
      edits that make the form valid: the only way to submit again is to
      reopen the editor. */
  lemma FailedValidationLocksSave(e: Editor, onSave: Completion, eds: seq<Edit>)
    requires !FormOk(e.form)
    ensures var refused := Submit(e, onSave);
      refused.saved.None? && SaveDisabled(ApplyEdits(refused.editor, eds))
  {
    EditsKeepErrorKeys(Submit(e, onSave).editor, eds);
  }

  /** The three edits that complete a new assistant's form. */
  const CompletingEdits := [EditName("Ada Bot"), EditDescription("Answers USM questions"), EditKnowledgeBank("kb-1")]

  /** A new assistant: Save is pressed too early, then the three missing fields
      are filled in. The form is now valid, yet Save stays disabled. */
  lemma LockOutExample(onSave: Completion)
    ensures var refused := Submit(Open(None), onSave);
      var filled := ApplyEdits(refused.editor, CompletingEdits);
      && refused.saved.None?
      && FormOk(filled.form)
      && SaveDisabled(filled)
  {
    CompletedFormOk(Submit(Open(None), onSave).editor.form);
    EditsKeepErrorKeys(Submit(Open(None), onSave).editor, CompletingEdits);
  }

  /** Filling in the three missing fields makes a new assistant's form valid. */
  lemma CompletedFormOk(f: Form)
    requires f == InitialForm(None)
    ensures var g := EditForm(EditForm(EditForm(f, CompletingEdits[0]), CompletingEdits[1]), CompletingEdits[2]);
      FormOk(g)
  {
    TrimOfTrimmed("Ada Bot");
    TrimOfTrimmed("Answers USM questions");
    TrimOfTrimmed(DefaultDomain);
    assert DefaultDomain[..3] == "USM";
  }

  // The corrected edit: clearing an error removes its key, as the disabled
  // rule evidently expects (a cleared field no longer counts as an error).

  /** `handleInputChange` with the cleared entry removed rather than set to
      `undefined`. */
  function ApplyEditRemoving(e: Editor, ed: Edit): (r: Editor)
    ensures r.form == EditForm(e.form, ed)
    ensures r.errors.Keys == e.errors.Keys - {EditedField(ed)}
    ensures forall k :: k in r.errors ==> r.errors[k] == e.errors[k]
    ensures r.saving == e.saving && !r.saveSuccess && r.saveError == ""
  {
    Editor(EditForm(e.form, ed), e.errors - {EditedField(ed)}, e.saving, false, "")
  }

  function ApplyEditsRemoving(e: Editor, eds: seq<Edit>): Editor
    decreases |eds|
  {
    if |eds| == 0 then e else ApplyEditsRemoving(ApplyEditRemoving(e, eds[0]), eds[1..])
  }

  /** The fields a run of edits touches. */
  function EditedFields(eds: seq<Edit>): set<Field> {
    set i | 0 <= i < |eds| :: EditedField(eds[i])
  }

  /** With the corrected edit, the error keys left are exactly those of fields
      no edit touched; both runs of edits produce the same form. */
  lemma {:induction false} RemovingEditsClearTouchedFields(e: Editor, eds: seq<Edit>)
    ensures ApplyEditsRemoving(e, eds).errors.Keys == e.errors.Keys - EditedFields(eds)
    ensures ApplyEditsRemoving(e, eds).form == ApplyEdits(e, eds).form
    ensures ApplyEditsRemoving(e, eds).saving == e.saving
    decreases |eds|
  {
    if |eds| > 0 {
      var head := ApplyEditRemoving(e, eds[0]);
      RemovingEditsClearTouchedFields(head, eds[1..]);
      assert EditedFields(eds) == {EditedField(eds[0])} + EditedFields(eds[1..]) by {
        forall k | k in EditedFields(eds) ensures k in {EditedField(eds[0])} + EditedFields(eds[1..]) {
          var i :| 0 <= i < |eds| && EditedField(eds[i]) == k;
          if i > 0 {
            assert eds[1..][i - 1] == eds[i];
          }
        }
        forall k | k in EditedFields(eds[1..]) ensures k in EditedFields(eds) {
          var i :| 0 <= i < |eds[1..]| && EditedField(eds[1..][i]) == k;
          assert eds[i + 1] == eds[1..][i];
        }
      }
      assert head.form == ApplyEdit(e, eds[0]).form;
      ApplyEditsSameForm(ApplyEdit(e, eds[0]), head, eds[1..]);
    }
  }

  /** The form a run of edits produces does not depend on the error entries. */
  lemma {:induction false} ApplyEditsSameForm(a: Editor, b: Editor, eds: seq<Edit>)
    requires a.form == b.form
    ensures ApplyEdits(a, eds).form == ApplyEditsRemoving(b, eds).form
    decreases |eds|
  {
    if |eds| > 0 {
      ApplyEditsSameForm(ApplyEdit(a, eds[0]), ApplyEditRemoving(b, eds[0]), eds[1..]);
    }
  }

  /** With the corrected edit, a refused submit followed by edits of every
      failing field enables Save again; in the example above it does. */
  lemma RemovingEditsUnlock(e: Editor, onSave: Completion, eds: seq<Edit>)
    requires !e.saving
    requires Validate(e.form).Keys <= EditedFields(eds)
    ensures !SaveDisabled(ApplyEditsRemoving(Submit(e, onSave).editor, eds))
  {
    RemovingEditsClearTouchedFields(Submit(e, onSave).editor, eds);
  }

  lemma CorrectedExampleUnlocks(onSave: Completion)
    ensures var refused := Submit(Open(None), onSave);
      var filled := ApplyEditsRemoving(refused.editor, CompletingEdits);
      FormOk(filled.form) && !SaveDisabled(filled)
  {
    NewFormErrors();
    var refused := Submit(Open(None), onSave);
    assert EditedFields(CompletingEdits) == {Name, Description, KnowledgeBank} by {
      assert EditedField(CompletingEdits[0]) == Name;
      assert EditedField(CompletingEdits[1]) == Description;
      assert EditedField(CompletingEdits[2]) == KnowledgeBank;
    }
    RemovingEditsUnlock(Open(None), onSave, CompletingEdits);
    RemovingEditsClearTouchedFields(refused.editor, CompletingEdits);
    CompletedFormOk(refused.editor.form);
  }

  /** Non-numeric credits text is stored as 0, which the range rule rejects. */
  lemma NonNumericCreditsRejected(e: Editor, text: string)
    requires ParseInt(text, NoRadix).NaN?
    ensures Credits in Validate(ApplyEdit(e, EditCredits(text)).form)
  {
    assert Get(ApplyEdit(e, EditCredits(text)).form, Credits) == Count(0);
  }
}
