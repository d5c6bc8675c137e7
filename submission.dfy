/**
 * The submission coordinator of the registration form, as state transitions
 * on the component's state: `formData`, `error`, the number of requests whose
 * response has not arrived yet, and the log of effects the component has
 * caused in the outside world (the default-action suppression, the POST
 * requests and the navigations).
 *
 * `handleSubmit` runs in two halves around its `await`: `Submit` is the part
 * up to and including the request, `Settle` is the part that runs when the
 * response or the failure arrives. Between the two, other events (typing, a
 * second click) may be handled.
 */
module Submission {
  import opened Wrappers
  import opened FormState
  import opened Validation

  const RegisterPath: string := "/user/register"
  const LoginPath: string := "/login"
  const FillAllFieldsMessage: string := "Please fill in all fields."
  const FallbackMessage: string := "An error occurred."

  /** The failed request's `error.response`; `message` is `error.response.data.message`. */
  datatype Response = Response(message: JsValue)

  /** How the awaited request ends: resolved, or rejected with or without a response. */
  datatype Outcome = Succeeded | Failed(response: Option<Response>)

  /**
   * `error.response ? error.response.data.message : "An error occurred."`:
   * the fallback is used only when there is no response at all; a response
   * without a message yields that missing value.
   */
  function FailureError(response: Option<Response>): (e: JsValue)
    ensures response.None? ==> e == Str(FallbackMessage)
    ensures response.Some? ==> e == response.value.message
  {
    match response
    case None => Str(FallbackMessage)
    case Some(r) => r.message
  }

  /** What the component does to the outside world. */
  datatype Effect =
    | PreventDefault
    | Post(path: string, payload: FormData)
    | Navigate(path: string)

  /**
   * The component's state. `pending` and `trace` are not variables of the
   * source: they count the awaits still suspended and record the effects.
   */
  datatype Machine = Machine(form: FormData, error: JsValue, pending: nat, trace: seq<Effect>)

  /** The state on mount. */
  function Initial(): (m: Machine)
    ensures m.form == InitialForm() && m.error == Str("")
    ensures !Truthy(m.error) && Incomplete(m.form)
    ensures m.pending == 0 && m.trace == []
  {
    Machine(InitialForm(), Str(""), 0, [])
  }

  /** `handleChange`: one field of the record is replaced, nothing else changes. */
  function Change(m: Machine, e: InputEvent): (t: Machine)
    ensures Get(t.form, e.name) == StoredValue(e)
    ensures forall g :: g != e.name ==> Get(t.form, g) == Get(m.form, g)
    ensures t.error == m.error && t.pending == m.pending && t.trace == m.trace
  {
    m.(form := ApplyChange(m.form, e))
  }

  /**
   * `handleSubmit` up to its `await`: suppress the default action, then either
   * refuse with the fixed message or post the current record.
   */
  function Submit(m: Machine): (t: Machine)
    ensures t.form == m.form
    ensures Incomplete(m.form) ==>
              t.error == Str(FillAllFieldsMessage) && t.pending == m.pending &&
              t.trace == m.trace + [PreventDefault]
    ensures !Incomplete(m.form) ==>
              t.error == m.error && t.pending == m.pending + 1 &&
              t.trace == m.trace + [PreventDefault, Post(RegisterPath, m.form)]
  {
    var prevented := m.(trace := m.trace + [PreventDefault]);
    if Incomplete(m.form) then
      prevented.(error := Str(FillAllFieldsMessage))
    else
      prevented.(pending := m.pending + 1, trace := prevented.trace + [Post(RegisterPath, m.form)])
  }

  /**
   * `handleSubmit` after its `await`: navigate to the sign-in view on success,
   * set the error from the failure otherwise. The record is never touched.
   */
  function Settle(m: Machine, o: Outcome): (t: Machine)
    requires m.pending > 0
    ensures t.form == m.form && t.pending == m.pending - 1
    ensures o.Succeeded? ==> t.error == m.error && t.trace == m.trace + [Navigate(LoginPath)]
    ensures o.Failed? ==> t.error == FailureError(o.response) && t.trace == m.trace
  {
    match o
    case Succeeded => m.(pending := m.pending - 1, trace := m.trace + [Navigate(LoginPath)])
    case Failed(response) => m.(pending := m.pending - 1, error := FailureError(response))
  }

  /** The events the component reacts to. */
  datatype Action = Edit(event: InputEvent) | Click | Respond(outcome: Outcome)

  /** One event; a response can only arrive for a request that was issued. */
  function Step(m: Machine, a: Action): (r: Option<Machine>)
    ensures r.None? <==> a.Respond? && m.pending == 0
  {
    match a
    case Edit(e) => Some(Change(m, e))
    case Click => Some(Submit(m))
    case Respond(o) => if m.pending == 0 then None else Some(Settle(m, o))
  }

  /** A sequence of events, or None if some response had no request waiting for it. */
  function Run(m: Machine, acts: seq<Action>): Option<Machine>
    decreases |acts|
  {
    if acts == [] then Some(m)
    else
      match Step(m, acts[0])
      case None => None
      case Some(n) => Run(n, acts[1..])
  }

  /** The record obtained by applying only the edits of a sequence of events. */
  function Edited(d: FormData, acts: seq<Action>): FormData
    decreases |acts|
  {
    if acts == [] then d
    else Edited(if acts[0].Edit? then ApplyChange(d, acts[0].event) else d, acts[1..])
  }

  /**
   * Submissions and responses never modify `formData`: after any sequence of
   * events the record is what the edits alone make of it, so the values
   * entered survive every refusal and every failure.
   */
  lemma {:induction false} RunKeepsFormExceptEdits(m: Machine, acts: seq<Action>, t: Machine)
    requires Run(m, acts) == Some(t)
    ensures t.form == Edited(m.form, acts)
    decreases |acts|
  {
    if acts != [] {
      var n := Step(m, acts[0]).value;
      assert n.form == if acts[0].Edit? then ApplyChange(m.form, acts[0].event) else m.form;
      RunKeepsFormExceptEdits(n, acts[1..], t);
    }
  }

  /** Keystrokes alone never set or clear the error and cause no effect. */
  lemma {:induction false} EditsKeepErrorAndEffects(m: Machine, acts: seq<Action>, t: Machine)
    requires forall i :: 0 <= i < |acts| ==> acts[i].Edit?
    requires Run(m, acts) == Some(t)
    ensures t.error == m.error && t.pending == m.pending && t.trace == m.trace
    decreases |acts|
  {
    if acts != [] {
      var n := Step(m, acts[0]).value;
      assert forall i :: 0 <= i < |acts[1..]| ==> acts[1..][i] == acts[i + 1];
      EditsKeepErrorAndEffects(n, acts[1..], t);
    }
  }

  /** Edits from the rendered inputs keep the record five strings and one boolean. */
  lemma {:induction false} EditedKeepsShape(d: FormData, acts: seq<Action>)
    requires WellShaped(d)
    requires forall i :: 0 <= i < |acts| && acts[i].Edit? ==> FromForm(acts[i].event)
    ensures WellShaped(Edited(d, acts))
    decreases |acts|
  {
    if acts != [] {
      var d' := if acts[0].Edit? then ApplyChange(d, acts[0].event) else d;
      if acts[0].Edit? {
        FormChangeKeepsShape(d, acts[0].event);
      }
      assert forall i :: 0 <= i < |acts[1..]| ==> acts[1..][i] == acts[i + 1];
      EditedKeepsShape(d', acts[1..]);
    }
  }

  /** The only effects the component may cause. */
  predicate Permitted(e: Effect) {
    match e
    case PreventDefault => true
    case Post(path, payload) => path == RegisterPath && !Incomplete(payload)
    case Navigate(path) => path == LoginPath
  }

  /**
   * Effects are only ever appended, every request goes to the registration
   * endpoint with a record that passed validation, and every navigation goes
   * to the sign-in view.
   */
  lemma {:induction false} RunOnlyPermittedEffects(m: Machine, acts: seq<Action>, t: Machine)
    requires Run(m, acts) == Some(t)
    ensures |m.trace| <= |t.trace| && t.trace[..|m.trace|] == m.trace
    ensures forall i :: |m.trace| <= i < |t.trace| ==> Permitted(t.trace[i])
    decreases |acts|
  {
    if acts != [] {
      var n := Step(m, acts[0]).value;
      assert |m.trace| <= |n.trace| && n.trace[..|m.trace|] == m.trace;
      assert forall i :: |m.trace| <= i < |n.trace| ==> Permitted(n.trace[i]);
      RunOnlyPermittedEffects(n, acts[1..], t);
      assert t.trace[..|n.trace|][..|m.trace|] == t.trace[..|m.trace|];
    }
  }

  /** The number of requests in a log of effects. */
  function Posts(trace: seq<Effect>): nat
    decreases |trace|
  {
    if trace == [] then 0
    else Posts(trace[..|trace| - 1]) + (if trace[|trace| - 1].Post? then 1 else 0)
  }

  /** The number of navigations in a log of effects. */
  function Navigations(trace: seq<Effect>): nat
    decreases |trace|
  {
    if trace == [] then 0
    else Navigations(trace[..|trace| - 1]) + (if trace[|trace| - 1].Navigate? then 1 else 0)
  }

  /**
   * Each navigation and each request still awaited is matched by a request
   * that was issued: there is no navigation without a successful request.
   */
  predicate RequestsAhead(m: Machine) {
    Navigations(m.trace) + m.pending <= Posts(m.trace)
  }

  /** Every event keeps requests ahead of navigations and awaited responses. */
  lemma StepKeepsRequestsAhead(m: Machine, a: Action)
    requires RequestsAhead(m)
    requires Step(m, a).Some?
    ensures RequestsAhead(Step(m, a).value)
  {
  }

  lemma {:induction false} RunKeepsRequestsAhead(m: Machine, acts: seq<Action>, t: Machine)
    requires RequestsAhead(m)
    requires Run(m, acts) == Some(t)
    ensures RequestsAhead(t)
    decreases |acts|
  {
    if acts != [] {
      StepKeepsRequestsAhead(m, acts[0]);
      RunKeepsRequestsAhead(Step(m, acts[0]).value, acts[1..], t);
    }
  }

  /** From the initial state, the component never navigates more often than it posts. */
  lemma NoNavigationWithoutRequest(acts: seq<Action>, t: Machine)
    requires Run(Initial(), acts) == Some(t)
    ensures Navigations(t.trace) + t.pending <= Posts(t.trace)
  {
    RunKeepsRequestsAhead(Initial(), acts, t);
  }

  /**
   * There is no guard against a second click while a request is awaited:
   * two clicks on a complete record post it twice.
   */
  lemma NoDoubleSubmitGuard(m: Machine)
    requires !Incomplete(m.form)
    ensures Run(m, [Click, Click]).Some?
    ensures Run(m, [Click, Click]).value.pending == m.pending + 2
    ensures Run(m, [Click, Click]).value.trace ==
              m.trace + [PreventDefault, Post(RegisterPath, m.form), PreventDefault, Post(RegisterPath, m.form)]
  {
  }

  /**
   * After a failed attempt the record is intact, so clicking again posts the
   * very same record.
   */
  lemma RetryResendsSameRecord(m: Machine, r: Option<Response>)
    requires !Incomplete(m.form)
    ensures Run(m, [Click, Respond(Failed(r)), Click]).Some?
    ensures Run(m, [Click, Respond(Failed(r)), Click]).value.trace ==
              m.trace + [PreventDefault, Post(RegisterPath, m.form), PreventDefault, Post(RegisterPath, m.form)]
    ensures Run(m, [Click, Respond(Failed(r)), Click]).value.error == FailureError(r)
  {
    var n1 := Submit(m);
    var n2 := Settle(n1, Failed(r));
    assert Run(m, [Click, Respond(Failed(r)), Click]) == Run(n1, [Respond(Failed(r)), Click]);
    assert Run(n1, [Respond(Failed(r)), Click]) == Run(n2, [Click]);
    assert Run(n2, [Click]) == Some(Submit(n2));
  }

  /**
   * No path clears an earlier error: a successful attempt navigates away with
   * the previous error still set.
   */
  lemma SuccessKeepsEarlierError(m: Machine)
    requires !Incomplete(m.form)
    ensures Run(m, [Click, Respond(Succeeded)]).Some?
    ensures Run(m, [Click, Respond(Succeeded)]).value.error == m.error
    ensures Run(m, [Click, Respond(Succeeded)]).value.trace ==
              m.trace + [PreventDefault, Post(RegisterPath, m.form), Navigate(LoginPath)]
  {
  }

  /**
   * The error region is rendered only for a truthy error, so a failure whose
   * response carries no message leaves no visible error.
   */
  lemma MissingMessageShowsNothing(m: Machine)
    requires m.pending > 0
    ensures Settle(m, Failed(Some(Response(Undefined)))).error == Undefined
    ensures !Truthy(Settle(m, Failed(Some(Response(Undefined)))).error)
  {
  }
}
