# Registration form controller

A Dafny model of the `Register` component of the registration page (`src/index.js`), without its
rendering. The component keeps the six-field `formData` record (`userName`, `firstName`,
`lastName`, `email`, `password`, `terms`) and an `error` string. `handleChange` replaces one field
of the record. `handleSubmit` does the rest. It suppresses the browser's default form submission.
It refuses an incomplete record with a fixed message. Otherwise it posts the whole record to
`/user/register`. When the request ends, it either navigates to `/login` or stores an error
message.

Layout:

- `wrappers.dfy`: `Option`.
- `form_state.dfy` (module `FormState`): JavaScript values and their truthiness. It also holds the
  record, its initial value and the one-field spread update `handleChange` applies. The `type` of
  each rendered input is here too, so that "an event from the form" can be stated.
- `validation.dfy` (module `Validation`): the guard of `handleSubmit` and its characterisations.
- `submission.dfy` (module `Submission`): the component's state as a value (`Machine`) and its
  transitions. `Submit` is `handleSubmit` up to its `await`. `Settle` is what runs once the
  request has ended. `Run` replays a sequence of events. The lemmas over `Run` state what holds
  across any interleaving of typing, clicks and responses.
- `register.dfy` (module `RegisterComponent`): the class `Register` whose handlers update
  `formData` and `error` in place. Each handler's postcondition ties the new state to the
  transition function above. `AliceRegisters` drives the handlers through two registration
  scenarios, one succeeding and one rejected with a server message.

Values are JavaScript values (`undefined`, a boolean or a string) rather than typed fields. The
source stores whatever the event carries, and its guard tests truthiness. `WellShaped` together
with `FormChangeKeepsShape` and `EditedKeepsShape` recover the "five strings and a boolean" picture
for events raised by the rendered inputs.

Three behaviours of the code differ from what a tidier reading would expect. The model keeps
them as written:

- A tidier reading would fall back to "An error occurred." whenever the server's message is
  missing. The code falls back only when `error.response` is absent. A response without a
  `message` sets the error to `undefined`, which the page does not display
  (`MissingMessageShowsNothing`).
- A new attempt does not clear an earlier error: `setError` is called only on refusal and on
  failure. A successful retry navigates away with the old error still set
  (`SuccessKeepsEarlierError`).
- There is no guard against a second click while a request is awaited (`NoDoubleSubmitGuard`).

## Model

| member | source | states |
|---|---|---|
| FormState.InitialForm | src/index.js:7-14 | every field starts falsy: five empty strings and `terms: false` |
| FormState.With | src/index.js:19-22 | the spread update has the new value at the named key and every other key unchanged |
| FormState.WithIsTheOneFieldUpdate | src/index.js:19-22 | the spread update is the only record with the new value at that key that agrees with the old one elsewhere |
| FormState.StoredValue | src/index.js:21 | a checkbox stores its `checked` flag and any other input stores its raw text |
| FormState.InputTypeOf | src/index.js:76-160 | the type of the input rendered for each key (text, text, text, email, password, checkbox); only `terms` is a checkbox |
| FormState.ApplyChange | src/index.js:17-23 | `handleChange`'s updater replaces exactly the field the event names with the stored value |
| FormState.FormChangeKeepsShape | src/index.js:74-165 | events raised by the rendered inputs keep five string fields and a boolean `terms` |
| Validation.Incomplete | src/index.js:29-36 | the guard refuses exactly when some field of the record is falsy |
| Validation.IncompleteIffBlankOrUnaccepted | src/index.js:29-36 | on a well-shaped record, refusal happens exactly when a text field is empty or `terms` is false |
| Validation.OneFieldIsNotEnough | src/index.js:29-39 | filling any single field of the initial record still leaves the submission refused |
| Validation.CompleteWhenAllFilled | src/index.js:29-36 | five non-empty text fields plus accepted terms pass the guard |
| Submission.FailureError | src/index.js:50-52 | a failure without a response gives "An error occurred."; a failure with one gives the server's `message` as is, even when it is missing |
| Submission.Initial | src/index.js:7-15 | on mount the record is the initial one, the error is empty and not shown, nothing is awaited and no effect has happened |
| Submission.Change | src/index.js:17-23 | an edit replaces one field and leaves the error, the awaited requests and the effects alone |
| Submission.Submit | src/index.js:25-42 | after `preventDefault`, an incomplete record sets the fixed message and issues nothing; a complete one issues exactly one POST of the unchanged record to `/user/register`; the record is never modified |
| Submission.Settle | src/index.js:41-53 | success navigates to `/login` once and leaves the error; failure sets the error from `FailureError` and causes no effect; the record is never modified |
| Submission.Step | src/index.js:17-54 | an event is refused only when a response arrives with no request awaiting it |
| Submission.RunKeepsFormExceptEdits | src/index.js:25-54 | after any sequence of events the record is what the edits alone make of it: submissions and responses never modify it |
| Submission.EditsKeepErrorAndEffects | src/index.js:17-23 | keystrokes never set or clear the error and cause no request or navigation |
| Submission.EditedKeepsShape | src/index.js:74-165 | any sequence of edits from the rendered inputs keeps the record five strings and a boolean |
| Submission.RunOnlyPermittedEffects | src/index.js:25-54 | effects are only appended; every request goes to `/user/register` carrying a record that passed the guard; every navigation goes to `/login` |
| Submission.StepKeepsRequestsAhead | src/index.js:41-53 | each event keeps navigations plus awaited requests at most the number of requests issued |
| Submission.RunKeepsRequestsAhead | src/index.js:41-53 | that bound holds after any sequence of events |
| Submission.NoNavigationWithoutRequest | src/index.js:41-44 | from mount, the page never navigates more often than it has posted a registration |
| Submission.NoDoubleSubmitGuard | src/index.js:25-42 | two clicks on a complete record post it twice, with two responses awaited |
| Submission.RetryResendsSameRecord | src/index.js:41-53 | after a failure, clicking again posts exactly the same record, and the error is the failure's |
| Submission.SuccessKeepsEarlierError | src/index.js:41-44 | a successful attempt navigates to `/login` and leaves the earlier error in place |
| Submission.MissingMessageShowsNothing | src/index.js:50-52 | a failure whose response has no message sets the error to `undefined`, which is falsy and so not displayed (line 183) |
| RegisterComponent.Register.constructor | src/index.js:6-15 | the component mounts in the initial state |
| RegisterComponent.Register.HandleChange | src/index.js:17-23 | the handler's new state is `Change` of the old one |
| RegisterComponent.Register.HandleSubmit | src/index.js:25-42 | reports a request exactly when the record passed the guard; the new state is `Submit` of the old one |
| RegisterComponent.Register.Receive | src/index.js:41-53 | once a request ends, the new state is `Settle` of the old one |

## Left out

- The JSX layout, styling, labels, the "About" panel and its button, and the `Link` elements
  (src/index.js:56-216). They are presentation only. Two parts of that markup are modelled: the
  input `type` attributes (`InputTypeOf`) and the truthiness test on `error` before it is
  displayed (line 183).
- The `required` attributes (src/index.js:82, 100, 118, 136, 154, 166) and the `email` input
  type (line 130). In a browser, constraint validation holds back the submit event for an empty
  field, an unchecked box or a malformed address, so `handleSubmit` does not run then. The model
  lets `Click` happen on any record. Its refusal branch is the handler's own defence, reached
  only when that validation is bypassed. Every lemma over `Run` still holds for the smaller set
  of runs the browser allows.
- The network client. Its configuration lives in `../axiosConfig`, which is not part of this
  model. A request is recorded as a `Post` effect. Its end is an `Outcome` value passed to
  `Receive`.
- The success response's data and all `console.log` / `console.error` output. These are
  diagnostics only.
- React's scheduling. Handlers run one at a time, and each state update takes effect at once.
  Unmounting before the response arrives is not modelled. Neither is the stale `formData`
  captured by the closure when several updates are batched within one event.
- Event names outside the six keys. In JavaScript they would add a new key to `formData`. The
  rendered form only raises the six.
- A failure response whose `data` is `null` or `undefined`. The code would throw inside its
  `catch` and set no error. The model assumes that `data` is an object.
- Non-string, non-boolean server messages (numbers, objects). A message is `undefined`, a
  boolean or a string here.
