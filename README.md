# ZenPhysic landing page: the waitlist form and its neighbours

This project models the client-side behaviour of the ZenPhysic landing page (`main.js`) in Dafny.
It proves properties of that model.

The heart of it is the **waitlist sign-up form** (`waitlist.dfy`, class `Waitlist.WaitlistForm`).
The class holds the page state the script reads and writes:

- the field values;
- the `is-invalid` marks;
- keyboard focus;
- the `disabled` flag of every input and button of the form;
- the visibility of the button label, the loading indicator, the success region and the error region;
- the error text.

Each handler of the script is a method whose `modifies` frame and `ensures` say which of these change and how:

- `validate`;
- `setLoading`;
- `showSuccess` (its `forEach` over the controls is a `for` loop over an array);
- `showError`;
- the submit handler, split at its one `await` into `Press` (up to the dispatch) and `Resolve(outcome)` (the rest, including `finally`);
- the input handler.

The awaited dispatch is an `Outcome` (`Resolved` or `Rejected(reason)`) chosen by the caller.
The page's own timed promise never rejects, so the rejected branch is reachable only through this abstraction.

The validation rests on JavaScript's `String.prototype.trim`.
`js_string.dfy` defines it with the white-space set of section 22.1.3.32 of the ECMAScript standard.
It proves what trimming keeps and removes.
From that it follows that the first-name check passes exactly when the name has a character that is not white space.
It also follows that the e-mail check passes exactly when the value contains an `@` and a `.`.
The "not blank" part of the e-mail check is therefore redundant.

`waitlist_scenarios.dfy` drives whole submissions through the handlers on a freshly loaded page:
a blank name, an e-mail without `@` followed by an edit, a resolved dispatch, a second press after it, an edit during the dispatch, and a rejected dispatch followed by a retry.

The model follows the code as written:

- After a resolved dispatch, `showSuccess` disables every control.
- The `finally` block then calls `setLoading(false)`, which enables the submit button again and shows its label.
- So after success the fields stay disabled but the submit button is enabled (`Resolve`, `SuccessfulSubmission`).
- A rejected dispatch always shows the fixed text of main.js:210.
- The rejection's reason is never shown, and `showError`'s fallback text is never used on that path.

The smaller state machines are modelled too:

- the mobile menu (`mobile_menu.dfy`): one open flag written into two `is-open` classes, `aria-expanded` and `aria-hidden`;
- the navigation bar's `scrolled` threshold and active-link highlighting (`nav.dfy`);
- the FAQ keyboard rule (`faq.dfy`).

Two consequences of the code as written:

- A success does not disable the submit button for good: the `finally` block enables it again, so the values, which still pass unless they were edited while the dispatch was in flight, can be sent a second time (`PressAgainAfterSuccess`). When the first name was cleared during the dispatch, the second press marks it, but `focus()` on the now disabled field does nothing, and no edit can clear the mark (`EditDuringDispatch`). If that second dispatch rejects, the success region and the error region are shown together.
- A rejection always shows the fixed text of main.js:210, never a message taken from the failure.

## Model

| member | source | states |
|---|---|---|
| `JsString.TrimStartShape` | main.js:148 | trimming the start removes only a run of leading white space and stops at the first other character |
| `JsString.TrimEndShape` | main.js:148 | trimming the end removes only a run of trailing white space and stops at the last other character |
| `JsString.TrimEmptyIff` | main.js:148 | `s.trim()` is empty exactly when every character of `s` is white space |
| `JsString.KeepsNonWhiteSpace` | main.js:172-173 | a character that is not white space survives `trim()`, at a fixed offset from the first kept character |
| `JsString.ContainsSurvivesTrim` | main.js:154 | a character that is not white space and occurs in `s` also occurs in `s.trim()` |
| `JsString.TrimIdempotent` | main.js:172-173 | trimming an already trimmed value changes nothing |
| `Waitlist.FirstNameOkIff` | main.js:148 | the first-name check passes exactly when the value has a character that is not white space |
| `Waitlist.EmailOkIff` | main.js:154 | the e-mail check passes exactly when the value contains both `@` and `.`, so its blank test is redundant |
| `Waitlist.FailedChecksIff` | main.js:145-158 | after validation the name is marked exactly when blank and the e-mail exactly when it lacks `@` or `.`; goal is never marked; no mark exactly when valid |
| `Waitlist.FocusAfterValidateStable` | main.js:148-158 | validating again on unchanged values and flags leaves focus where the first validation put it |
| `Waitlist.FocusMovesOnlyToEnabledFailing` | main.js:148-158 | validation focuses the first failing field, name before e-mail, when it is enabled, and moves focus nowhere else: never onto a disabled field or the goal |
| `Waitlist.ErrorText` | main.js:135 | `showError` shows its message when it is non-empty and the fallback text otherwise, never an empty text |
| `Waitlist.DispatchFailedTextShown` | main.js:208-210 | the failure text of the submit handler is shown as given by `showError`, and it is not the fallback text |
| `Waitlist.WaitlistForm.SetLoading` | main.js:119-123 | only the submit button's `disabled`, the label and the loading indicator change; all three follow `loading` |
| `Waitlist.WaitlistForm.ShowSuccess` | main.js:125-131 | every input and button of the form is disabled, the success region shown and the error region hidden |
| `Waitlist.WaitlistForm.ShowError` | main.js:133-137 | the error region is shown with the message or the fallback, and the loading state is left |
| `Waitlist.WaitlistForm.Validate` | main.js:139-161 | returns whether both checks pass; marks exactly the failing fields; focus moves to the first failing field unless it is disabled, where `focus()` does nothing |
| `Waitlist.WaitlistForm.Press` | main.js:163-177 | hides the error region; when invalid, loading is not entered and nothing is dispatched; otherwise loading is entered and the draft holds trimmed values and the goal or `''` |
| `Waitlist.WaitlistForm.Resolve` | main.js:201-213 | `Resolved`: other controls disabled, success shown, error hidden. `Rejected`: fixed failure text shown, success region untouched. Either way the submit button ends up enabled with its label shown |
| `Waitlist.WaitlistForm.OnInput` | main.js:217-220 | only the edited field loses its mark and the error region is hidden; nothing else changes |
| `Waitlist.WaitlistForm.Type` | main.js:217-220 | the edited field takes the new value, then the input handler runs |
| `WaitlistScenarios.BlankFirstName` | main.js:139-167 | a blank name with a good e-mail dispatches nothing, marks only the name and focuses it |
| `WaitlistScenarios.BadEmailThenEdit` | main.js:148-167 | a name with an e-mail lacking `@` marks only the e-mail and focuses it; any later edit of the e-mail clears its mark and hides the error region |
| `WaitlistScenarios.SuccessfulSubmission` | main.js:163-213 | a valid submission that resolves yields the trimmed draft, shows success, hides the error, disables the fields and leaves the submit button enabled |
| `WaitlistScenarios.PressAgainAfterSuccess` | main.js:163-213 | after a resolved submission the same values dispatch again on a second press; if that dispatch rejects, success and error are both shown |
| `WaitlistScenarios.RejectedSubmission` | main.js:163-213 | a valid submission is dispatched and, when it rejects, the fixed failure text is shown, the submit button enabled, success kept hidden and the typed values kept, so a retry dispatches again |
| `WaitlistScenarios.EditDuringDispatch` | main.js:139-220 | clearing the name during a dispatch that resolves makes a second press dispatch nothing and mark the name, while focus stays put because the field is disabled |
| `MobileMenu.AttrString` | main.js:59-61 | `String(open)` is `"true"` or `"false"` |
| `MobileMenu.AttrStringRoundTrip` | main.js:59-65 | reading `aria-expanded` back with `=== 'true'` recovers the flag that `toggle` wrote |
| `MobileMenu.Menu.Toggle` | main.js:57-62 | afterwards both `is-open` classes equal `open`, `aria-expanded` is `String(open)` and `aria-hidden` is `String(!open)` |
| `MobileMenu.Menu.OnHamburgerClick` | main.js:64-67 | the menu flips from the state read in `aria-expanded`, and the four places agree |
| `MobileMenu.Menu.OnLinkClick` | main.js:70-72 | a link click closes the menu |
| `MobileMenu.Menu.OnDocumentClick` | main.js:75-79 | a click outside both the hamburger and the menu closes it; any other click changes nothing |
| `MobileMenu.Menu.OnKeydown` | main.js:82-84 | Escape closes the menu; any other key changes nothing |
| `MobileMenu.Menu.Click` | main.js:64-79 | one bubbling click: on the hamburger it flips the menu, on a link or outside it closes it, elsewhere inside the menu it changes nothing |
| `Nav.NavBar.OnScroll` | main.js:40-45 | `scrolled` is set exactly when `scrollY > 20`, whatever it was before |
| `Nav.TargetsOneSection` | main.js:250 | a link's `href` matches `'#' + id` for at most one section id |
| `Nav.LastIntersecting` | main.js:246-252 | a batch of observer entries has a last intersecting section exactly when one of its entries intersects, and that section is the id of an intersecting entry with no intersecting entry after it |
| `Nav.NavLinks.Highlight` | main.js:249-251 | afterwards a link is active exactly when its `href` is `'#' + id` |
| `Nav.NavLinks.OnIntersect` | main.js:245-253 | the last intersecting entry of a batch decides which links are active; a batch with none changes nothing |
| `Faq.OnKeydown` | main.js:227-232 | Enter and Space click the summary, only Space has its default cancelled, and other keys do nothing |

## Left out

- Scroll reveal (main.js:9-32): it depends on IntersectionObserver thresholds, root margins and `matchMedia`, which are browser geometry and media queries.
- The timing of the active-link observer (main.js:244-257): which sections intersect is an input to `Nav.NavLinks.OnIntersect`, not computed.
- Smooth scrolling for anchor links (main.js:89-104): it is floating-point DOM geometry followed by `scrollTo`.
- The submit event's `preventDefault()` (main.js:164): it only stops the browser's own form submission.
- The timed promise, `async`/`await` scheduling, `console.log`/`console.error`, `scrollIntoView` (main.js:130, 201-209): host and I/O calls. The dispatch is one step whose outcome is a parameter.
- The clock and the host name (main.js:175-176): the timestamp and source of the draft are parameters of `Press`.
- The commented-out `fetch` integration (main.js:180-198): it is not live code.
- Element lookups and the early returns when an element is missing (main.js:37-38, 51-55, 109-117, 239-242): the model assumes the page has its elements.
- JavaScript strings are UTF-16 code units; the model's strings are sequences of Unicode scalar values. Trimming and the `@`/`.` tests behave the same for both.
- Which controls sit in the form besides the named fields and the submit button: their number is a parameter, and they start enabled.
- The kind of each field element: the first name and the e-mail are assumed to be `input` elements, so `showSuccess` disables them. The goal may be an `input` (it has a position among the controls and is disabled too) or another element such as a `select` (no position, never disabled, still editable). The constructor's `hasGoal` and `goalAt` say which.
- `Nav.NavBar.OnScroll`: `scrollY` is an integer in the model, while the browser reports a fractional number of pixels; a value such as 20.5, which sets `scrolled`, has no counterpart.
- The initial markup of the mobile menu is arbitrary (constructor parameters). The four places agree only after the first `toggle`.
- `MobileMenu.Menu.Click` assumes the menu links sit inside the menu element, as their selectors suggest. Its link case relies on this.
- The browser only fires the form's submit event while the submit button is enabled. That is what keeps one dispatch in flight at a time. `Press` has no precondition for it; instead it ensures the submit button is disabled whenever a draft is returned.
