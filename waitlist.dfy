// The waitlist sign-up form of the landing page (main.js, initWaitlistForm):
// client-side validation of the first name and the e-mail address, the
// loading state of the submit button, one dispatch of the submission, and
// the success and error regions. The dispatch itself (a timed promise in the
// page, a network call in production) is an outcome passed in from outside.

module Waitlist {
  import opened Wrappers
  import opened JsString

  /** The named fields of the form. `goal` is optional on the page. */
  datatype Field = FirstName | Email | Goal

  /** Where keyboard focus is: on one of the form's fields, or anywhere else on the page. */
  datatype Focus = Elsewhere | On(field: Field)

  /** How the awaited dispatch ends: it resolves, or it rejects with a reason. */
  datatype Outcome = Resolved | Rejected(reason: string)

  /** The record built for one submission attempt. `timestamp` and `source` come from the host
      (the clock and the page's host name). */
  datatype Draft = Draft(firstName: string, email: string, goal: string, timestamp: string, source: string)

  /** Text shown by `showError` when it is given no message. */
  const FallbackMessage: string := "Something went wrong. Please try again."

  /** Text the submit handler shows when the dispatch rejects. */
  const DispatchFailedMessage: string := "We couldn't add you to the list right now. Please try again in a moment."

  /** The first-name check: the value is not blank once trimmed. */
  predicate FirstNameOk(value: string)
  {
    Trim(value) != []
  }

  /** A first name passes exactly when it has a character that is not white space. */
  lemma FirstNameOkIff(value: string)
    ensures FirstNameOk(value) <==> exists i :: 0 <= i < |value| && !IsWhiteSpace(value[i])
  {
    TrimEmptyIff(value);
  }

  /** The e-mail check as written: not blank once trimmed, and the untrimmed value contains
      both an '@' and a '.'. */
  predicate EmailOk(value: string)
  {
    Trim(value) != [] && '@' in value && '.' in value
  }

  /** The blank test in the e-mail check is redundant: an '@' survives trimming, so the check
      passes exactly when the value contains both an '@' and a '.'. */
  lemma EmailOkIff(value: string)
    ensures EmailOk(value) <==> '@' in value && '.' in value
  {
    if '@' in value {
      ContainsSurvivesTrim(value, '@');
    }
  }

  /** The text shown after a rejected dispatch is a message of its own: `showError` never falls
      back, since that text is not empty, and it differs from the fallback. */
  lemma DispatchFailedTextShown()
    ensures ErrorText(DispatchFailedMessage) == DispatchFailedMessage
    ensures DispatchFailedMessage != FallbackMessage
  {
  }

  /** The fields that fail validation; these are the fields that carry the invalid mark afterwards. */
  function FailedChecks(firstName: string, email: string): set<Field>
  {
    (if FirstNameOk(firstName) then {} else {FirstName}) + (if EmailOk(email) then {} else {Email})
  }

  /** The marks left by validation, in terms of the values alone: the first name is marked exactly
      when it is all white space, the e-mail exactly when it lacks an '@' or a '.', the goal never;
      no mark at all exactly when the form is valid. */
  lemma FailedChecksIff(firstName: string, email: string)
    ensures FirstName in FailedChecks(firstName, email) <==> AllWhiteSpace(firstName)
    ensures Email in FailedChecks(firstName, email) <==> '@' !in email || '.' !in email
    ensures Goal !in FailedChecks(firstName, email)
    ensures FailedChecks(firstName, email) == {} <==> !AllWhiteSpace(firstName) && '@' in email && '.' in email
  {
    TrimEmptyIff(firstName);
    EmailOkIff(email);
  }

  /** Focus after validation: `focus()` is called on the first failing field in the order first
      name, e-mail, and on nothing when both pass. `focus()` on a disabled field does nothing, so
      focus then stays where it was. */
  function FocusAfterValidate(firstName: string, email: string, firstNameDisabled: bool, emailDisabled: bool,
                              before: Focus): Focus
  {
    if !FirstNameOk(firstName) then (if firstNameDisabled then before else On(FirstName))
    else if !EmailOk(email) then (if emailDisabled then before else On(Email))
    else before
  }

  /** Validating again on unchanged values leaves focus where the first validation put it. */
  lemma FocusAfterValidateStable(firstName: string, email: string, firstNameDisabled: bool, emailDisabled: bool,
                                 before: Focus)
    ensures var once := FocusAfterValidate(firstName, email, firstNameDisabled, emailDisabled, before);
      FocusAfterValidate(firstName, email, firstNameDisabled, emailDisabled, once) == once
  {
  }

  /** Validation focuses an enabled field that fails its check, the first name before the e-mail,
      and moves focus nowhere else: not onto a disabled field, nor onto the goal. */
  lemma FocusMovesOnlyToEnabledFailing(firstName: string, email: string, firstNameDisabled: bool,
                                       emailDisabled: bool, before: Focus)
    ensures var after := FocusAfterValidate(firstName, email, firstNameDisabled, emailDisabled, before);
      (after != before ==> after == On(FirstName) || after == On(Email)) &&
      (AllWhiteSpace(firstName) && !firstNameDisabled ==> after == On(FirstName)) &&
      (after == On(FirstName) && before != On(FirstName) ==> AllWhiteSpace(firstName) && !firstNameDisabled) &&
      (!AllWhiteSpace(firstName) && ('@' !in email || '.' !in email) && !emailDisabled ==> after == On(Email)) &&
      (after == On(Email) && before != On(Email) ==>
         !AllWhiteSpace(firstName) && ('@' !in email || '.' !in email) && !emailDisabled)
  {
    FirstNameOkIff(firstName);
    EmailOkIff(email);
  }

  /** The error text `showError(msg)` displays: `msg || fallback`, where only the empty string is falsy. */
  function ErrorText(msg: string): (text: string)
    ensures text != []
    ensures msg != [] ==> text == msg
    ensures msg == [] ==> text == FallbackMessage
  {
    if msg == [] then FallbackMessage else msg
  }

  /** The form as the page holds it: field values, the invalid marks, focus, the `disabled` flag
      of every input and button inside the form, and the visibility of the button label, the
      loading indicator, the success region and the error region. */
  class WaitlistForm {
    var firstName: string
    var email: string
    var goal: Option<string>
    var invalid: set<Field>
    var focus: Focus
    /** `disabled` of each input and button of the form, in document order. */
    const controls: array<bool>
    /** Positions of the named fields among `controls`. The goal field has none when the page
        lacks it or when it is not an `input` (a `select` or a `textarea`). */
    const firstNameIndex: nat
    const emailIndex: nat
    const goalIndex: Option<nat>
    const submitIndex: nat
    var labelHidden: bool
    var loaderHidden: bool
    var successHidden: bool
    var errorHidden: bool
    var errorText: string

    /** The named controls are distinct members of the form's controls, a goal control belongs to
        an existing goal field, and only the first name and the e-mail are ever marked. */
    ghost predicate Valid()
      reads this
    {
      firstNameIndex < controls.Length && emailIndex < controls.Length && submitIndex < controls.Length &&
      firstNameIndex != emailIndex && firstNameIndex != submitIndex && emailIndex != submitIndex &&
      (goalIndex.Some? ==>
        goalIndex.value < controls.Length && goalIndex.value !in {firstNameIndex, emailIndex, submitIndex}) &&
      (goalIndex.Some? ==> goal.Some?) &&
      invalid <= {FirstName, Email}
    }

    /** The position of `field` among the inputs and buttons, when it is one of them. */
    function ControlOf(field: Field): (index: Option<nat>)
      reads this
      requires Valid()
      ensures index.Some? ==> index.value < controls.Length && index.value != submitIndex
      ensures field != Goal ==> index.Some?
    {
      match field
      case FirstName => Some(firstNameIndex)
      case Email => Some(emailIndex)
      case Goal => goalIndex
    }

    /** A fresh page: empty fields, nothing marked or disabled, the label shown and the loading
        indicator, the success region and the error region hidden. */
    constructor (count: nat, firstNameAt: nat, emailAt: nat, hasGoal: bool, goalAt: Option<nat>, submitAt: nat)
      requires firstNameAt < count && emailAt < count && submitAt < count
      requires goalAt.Some? ==> hasGoal
      requires firstNameAt != emailAt && firstNameAt != submitAt && emailAt != submitAt
      requires goalAt.Some? ==> goalAt.value < count && goalAt.value !in {firstNameAt, emailAt, submitAt}
      ensures Valid() && fresh(controls) && controls.Length == count
      ensures firstNameIndex == firstNameAt && emailIndex == emailAt && goalIndex == goalAt && submitIndex == submitAt
      ensures forall i :: 0 <= i < count ==> !controls[i]
      ensures firstName == [] && email == [] && goal == (if hasGoal then Some([]) else None)
      ensures invalid == {} && focus == Elsewhere
      ensures !labelHidden && loaderHidden && successHidden && errorHidden && errorText == []
    {
      controls := new bool[count](_ => false);
      firstNameIndex, emailIndex, goalIndex, submitIndex := firstNameAt, emailAt, goalAt, submitAt;
      firstName, email := [], [];
      goal := if hasGoal then Some([]) else None;
      invalid, focus := {}, Elsewhere;
      labelHidden, loaderHidden, successHidden, errorHidden, errorText := false, true, true, true, [];
    }

    /** `setLoading(loading)`: the submit button's `disabled` follows `loading`, the label is
        hidden and the loading indicator shown exactly while loading. Nothing else changes. */
    method SetLoading(loading: bool)
      requires Valid()
      modifies controls, this`labelHidden, this`loaderHidden
      ensures Valid()
      ensures controls[submitIndex] == loading
      ensures forall i :: 0 <= i < controls.Length && i != submitIndex ==> controls[i] == old(controls[i])
      ensures labelHidden == loading && loaderHidden == !loading
    {
      controls[submitIndex] := loading;
      labelHidden := loading;
      loaderHidden := !loading;
    }

    /** `showSuccess()`: every input and button of the form is disabled, the success region is
        shown and the error region hidden. */
    method ShowSuccess()
      requires Valid()
      modifies controls, this`successHidden, this`errorHidden
      ensures Valid()
      ensures forall i :: 0 <= i < controls.Length ==> controls[i]
      ensures !successHidden && errorHidden
    {
      for i := 0 to controls.Length
        invariant forall k :: 0 <= k < i ==> controls[k]
      {
        controls[i] := true;
      }
      successHidden := false;
      errorHidden := true;
    }

    /** `showError(msg)`: the error region is shown with `msg`, or the fallback text when `msg`
        is empty, and the loading state is left. */
    method ShowError(msg: string)
      requires Valid()
      modifies controls, this`errorHidden, this`errorText, this`labelHidden, this`loaderHidden
      ensures Valid()
      ensures !errorHidden && errorText == ErrorText(msg)
      ensures !controls[submitIndex]
      ensures forall i :: 0 <= i < controls.Length && i != submitIndex ==> controls[i] == old(controls[i])
      ensures !labelHidden && loaderHidden
    {
      errorHidden := false;
      errorText := ErrorText(msg);
      SetLoading(false);
    }

    /** `validate()`: both invalid marks are cleared and then set exactly on the failing fields;
        focus moves to the first failing field unless that field is disabled; the result is whether
        both checks pass. */
    method Validate() returns (valid: bool)
      requires Valid()
      modifies this`invalid, this`focus
      ensures Valid()
      ensures valid <==> FirstNameOk(firstName) && EmailOk(email)
      ensures invalid == FailedChecks(firstName, email)
      ensures focus == FocusAfterValidate(firstName, email, controls[firstNameIndex], controls[emailIndex], old(focus))
    {
      valid := true;
      invalid := invalid - {FirstName, Email};
      if !FirstNameOk(firstName) {
        invalid := invalid + {FirstName};
        if !controls[firstNameIndex] {
          focus := On(FirstName);
        }
        valid := false;
      }
      if !EmailOk(email) {
        invalid := invalid + {Email};
        if valid && !controls[emailIndex] {
          focus := On(Email);
        }
        valid := false;
      }
    }

    /** The submit handler up to the awaited dispatch. The error region is hidden first; when
        validation fails nothing else happens and no draft is built. Otherwise the form enters the
        loading state and the draft to dispatch is returned: trimmed first name and e-mail, the
        goal or the empty string when the page has no goal field. */
    method Press(timestamp: string, source: string) returns (draft: Option<Draft>)
      requires Valid()
      modifies controls, this`errorHidden, this`invalid, this`focus, this`labelHidden, this`loaderHidden
      ensures Valid()
      ensures errorHidden
      ensures invalid == FailedChecks(firstName, email)
      ensures focus == FocusAfterValidate(firstName, email, old(controls[firstNameIndex]), old(controls[emailIndex]), old(focus))
      ensures draft.Some? <==> FirstNameOk(firstName) && EmailOk(email)
      ensures draft.None? ==>
        unchanged(controls) && labelHidden == old(labelHidden) && loaderHidden == old(loaderHidden)
      ensures draft.Some? ==>
        controls[submitIndex] && (forall i :: 0 <= i < controls.Length && i != submitIndex ==> controls[i] == old(controls[i])) &&
        labelHidden && !loaderHidden &&
        draft.value == Draft(Trim(firstName), Trim(email), goal.GetOr([]), timestamp, source)
    {
      errorHidden := true;
      var valid := Validate();
      if !valid {
        return None;
      }
      SetLoading(true);
      draft := Some(Draft(Trim(firstName), Trim(email), goal.GetOr([]), timestamp, source));
    }

    /** The submit handler after the awaited dispatch. On `Resolved` the success region is shown
        and every control disabled; on `Rejected` the fixed failure text is shown, whatever the
        reason. Either way the `finally` block then leaves the loading state, so the submit button
        ends up enabled with its label visible, also after success. */
    method Resolve(outcome: Outcome)
      requires Valid()
      modifies controls, this`successHidden, this`errorHidden, this`errorText, this`labelHidden, this`loaderHidden
      ensures Valid()
      ensures !controls[submitIndex] && !labelHidden && loaderHidden
      ensures outcome.Resolved? ==>
        (forall i :: 0 <= i < controls.Length && i != submitIndex ==> controls[i]) &&
        !successHidden && errorHidden && errorText == old(errorText)
      ensures outcome.Rejected? ==> forall i :: 0 <= i < controls.Length && i != submitIndex ==> controls[i] == old(controls[i])
      ensures outcome.Rejected? ==> !errorHidden && errorText == DispatchFailedMessage
      ensures outcome.Rejected? ==> successHidden == old(successHidden)
    {
      match outcome {
        case Resolved =>
          ShowSuccess();
        case Rejected(_) =>
          ShowError(DispatchFailedMessage);
      }
      SetLoading(false);
    }

    /** The input handler: the edited field loses its invalid mark and the error region is
        hidden; nothing else changes. */
    method OnInput(target: Field)
      requires Valid()
      modifies this`invalid, this`errorHidden
      ensures Valid()
      ensures invalid == old(invalid) - {target} && errorHidden
    {
      invalid := invalid - {target};
      errorHidden := true;
    }

    /** The user edits a field the page has and that is not disabled: the browser stores the new
        value, then dispatches the input event to the form. */
    method Type(field: Field, value: string)
      requires Valid()
      requires field == Goal ==> goal.Some?
      requires ControlOf(field).Some? ==> !controls[ControlOf(field).value]
      modifies this`firstName, this`email, this`goal, this`invalid, this`errorHidden
      ensures Valid()
      ensures firstName == (if field == FirstName then value else old(firstName))
      ensures email == (if field == Email then value else old(email))
      ensures goal == (if field == Goal then Some(value) else old(goal))
      ensures invalid == old(invalid) - {field} && errorHidden
    {
      match field {
        case FirstName => firstName := value;
        case Email => email := value;
        case Goal => goal := Some(value);
      }
      OnInput(field);
    }
  }
}
