// Whole submissions on a freshly loaded page, driven through the form's handlers in the order the
// browser calls them. The page has four controls: first name, e-mail, goal and the submit button.

module WaitlistScenarios {
  import opened Wrappers
  import opened JsString
  import opened Waitlist

  method NewPage() returns (form: WaitlistForm)
    ensures fresh(form) && fresh(form.controls) && form.Valid()
    ensures form.controls.Length == 4 && form.submitIndex == 3
    ensures forall i :: 0 <= i < 4 ==> !form.controls[i]
    ensures form.firstNameIndex == 0 && form.emailIndex == 1 && form.goalIndex == Some(2)
    ensures form.goal == Some([])
    ensures form.invalid == {} && form.focus == Elsewhere
    ensures !form.labelHidden && form.loaderHidden && form.successHidden && form.errorHidden
  {
    form := new WaitlistForm(4, 0, 1, true, Some(2), 3);
  }

  /** A blank first name with a well-formed e-mail: nothing is dispatched, only the first name is
      marked and focus goes to it. */
  method BlankFirstName(name: string, email: string) returns (dispatched: bool, marked: set<Field>, focus: Focus)
    requires AllWhiteSpace(name) && '@' in email && '.' in email
    ensures !dispatched && marked == {FirstName} && focus == On(FirstName)
  {
    FirstNameOkIff(name);
    EmailOkIff(email);
    var form := NewPage();
    form.Type(FirstName, name);
    form.Type(Email, email);
    var draft := form.Press("", "");
    dispatched, marked, focus := draft.Some?, form.invalid, form.focus;
  }

  /** A first name with an e-mail that lacks an '@': only the e-mail is marked and focus goes to it.
      Typing anything into the e-mail then clears its mark and hides the error region. */
  method BadEmailThenEdit(name: string, email: string, edit: string)
    returns (dispatched: bool, marked: set<Field>, focus: Focus, markedAfterEdit: set<Field>, errorShown: bool)
    requires !AllWhiteSpace(name) && '@' !in email
    ensures !dispatched && marked == {Email} && focus == On(Email)
    ensures markedAfterEdit == {} && !errorShown
  {
    FirstNameOkIff(name);
    EmailOkIff(email);
    var form := NewPage();
    form.Type(FirstName, name);
    form.Type(Email, email);
    var draft := form.Press("", "");
    dispatched, marked, focus := draft.Some?, form.invalid, form.focus;
    form.Type(Email, edit);
    markedAfterEdit, errorShown := form.invalid, !form.errorHidden;
  }

  /** A valid submission that resolves: the draft carries the trimmed values and an empty goal; the
      success region is shown, the error region hidden and the fields disabled, but the `finally`
      block leaves the submit button enabled again. */
  method SuccessfulSubmission(name: string, email: string, timestamp: string, host: string)
    returns (draft: Option<Draft>, successShown: bool, errorShown: bool, fieldsDisabled: bool, submitDisabled: bool)
    requires !AllWhiteSpace(name) && '@' in email && '.' in email
    ensures draft == Some(Draft(Trim(name), Trim(email), [], timestamp, host))
    ensures successShown && !errorShown && fieldsDisabled && !submitDisabled
  {
    FirstNameOkIff(name);
    EmailOkIff(email);
    var form := NewPage();
    form.Type(FirstName, name);
    form.Type(Email, email);
    draft := form.Press(timestamp, host);
    form.Resolve(Resolved);
    successShown, errorShown := !form.successHidden, !form.errorHidden;
    fieldsDisabled := form.controls[0] && form.controls[1] && form.controls[2];
    submitDisabled := form.controls[3];
  }

  /** After a resolved submission the `finally` block has enabled the submit button again and the
      values still pass, so a second press dispatches again. When that second dispatch rejects,
      the success region and the error region are shown together. */
  method PressAgainAfterSuccess(name: string, email: string, reason: string)
    returns (redispatched: bool, successShown: bool, errorShown: bool)
    requires !AllWhiteSpace(name) && '@' in email && '.' in email
    ensures redispatched && successShown && errorShown
  {
    FirstNameOkIff(name);
    EmailOkIff(email);
    var form := NewPage();
    form.Type(FirstName, name);
    form.Type(Email, email);
    var first := form.Press("", "");
    form.Resolve(Resolved);
    var second := form.Press("", "");
    redispatched := second.Some?;
    form.Resolve(Rejected(reason));
    successShown, errorShown := !form.successHidden, !form.errorHidden;
  }

  /** A valid submission that is dispatched and rejects, whatever the reason: the fixed failure
      text (never the fallback) is shown, the submit button is enabled again, and the typed values
      stay, so pressing again dispatches them again. */
  method RejectedSubmission(name: string, email: string, reason: string)
    returns (dispatched: bool, errorShown: bool, text: string, submitDisabled: bool, successShown: bool,
             values: (string, string), redispatched: bool)
    requires !AllWhiteSpace(name) && '@' in email && '.' in email
    ensures dispatched && errorShown && text == DispatchFailedMessage
    ensures !submitDisabled && !successShown && values == (name, email)
    ensures redispatched
  {
    FirstNameOkIff(name);
    EmailOkIff(email);
    var form := NewPage();
    form.Type(FirstName, name);
    form.Type(Email, email);
    var draft := form.Press("", "");
    dispatched := draft.Some?;
    if draft.Some? {
      form.Resolve(Rejected(reason));
    }
    errorShown, text, submitDisabled := !form.errorHidden, form.errorText, form.controls[3];
    successShown, values := !form.successHidden, (form.firstName, form.email);
    var retry := form.Press("", "");
    redispatched := retry.Some?;
  }

  /** The first name is cleared while a valid submission is in flight (only the submit button is
      disabled then), and the dispatch resolves, which disables the fields. A second press
      dispatches nothing and marks the first name, but focus stays where it was, since the field
      is disabled; the mark then stays, as no field can be edited. */
  method EditDuringDispatch(name: string, email: string, blank: string)
    returns (dispatched: bool, redispatched: bool, marked: set<Field>, focus: Focus, nameDisabled: bool)
    requires !AllWhiteSpace(name) && '@' in email && '.' in email && AllWhiteSpace(blank)
    ensures dispatched && !redispatched && marked == {FirstName} && focus == Elsewhere && nameDisabled
  {
    FirstNameOkIff(name);
    FirstNameOkIff(blank);
    EmailOkIff(email);
    var form := NewPage();
    form.Type(FirstName, name);
    form.Type(Email, email);
    var draft := form.Press("", "");
    dispatched := draft.Some?;
    form.Type(FirstName, blank);
    form.Resolve(Resolved);
    var second := form.Press("", "");
    redispatched, marked, focus, nameDisabled := second.Some?, form.invalid, form.focus, form.controls[0];
  }
}
