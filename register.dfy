/**
 * The `Register` component without its rendering: the state that `useState`
 * holds (`formData` and `error`) and the two handlers that update it.
 */
module RegisterComponent {
  import opened Wrappers
  import opened FormState
  import opened Validation
  import opened Submission

  class Register {
    var formData: FormData
    var error: JsValue
    // Not variables of the source: the awaits still suspended and the effects caused so far.
    ghost var pending: nat
    ghost var trace: seq<Effect>

    ghost function State(): Machine
      reads this
    {
      Machine(formData, error, pending, trace)
    }

    /** Mount: five empty strings, unchecked terms, no error. */
    constructor ()
      ensures State() == Initial()
    {
      formData := InitialForm();
      error := Str("");
      pending := 0;
      trace := [];
    }

    /** `handleChange`: store the event's value under the event's name. */
    method HandleChange(e: InputEvent)
      modifies this
      ensures State() == Change(old(State()), e)
    {
      formData := ApplyChange(formData, e);
    }

    /**
     * `handleSubmit` up to its `await`. The handler itself returns nothing a
     * caller reads; `requested` reports, for the caller's benefit only,
     * whether the registration request was issued.
     */
    method HandleSubmit() returns (requested: bool)
      modifies this
      ensures requested == !Incomplete(old(formData))
      ensures State() == Submit(old(State()))
    {
      trace := trace + [PreventDefault];
      if Incomplete(formData) {
        error := Str(FillAllFieldsMessage);
        return false;
      }
      trace := trace + [Post(RegisterPath, formData)];
      pending := pending + 1;
      requested := true;
    }

    /** `handleSubmit` after its `await`, once the request has ended. */
    method Receive(outcome: Outcome)
      requires pending > 0
      modifies this
      ensures State() == Settle(old(State()), outcome)
    {
      pending := pending - 1;
      match outcome
      case Succeeded =>
        trace := trace + [Navigate(LoginPath)];
      case Failed(response) =>
        error := FailureError(response);
    }
  }

  /**
   * Two registration scenarios driven through the handlers: one succeeding and
   * one rejected with a server message.
   */
  method AliceRegisters(alreadyRegistered: bool)
  {
    var c := new Register();
    c.HandleChange(InputEvent(UserName, "text", "alice", false));
    c.HandleChange(InputEvent(FirstName, "text", "Alice", false));
    c.HandleChange(InputEvent(LastName, "text", "Smith", false));
    c.HandleChange(InputEvent(Email, "email", "a@x.com", false));
    c.HandleChange(InputEvent(Password, "password", "secret", false));
    var early := c.HandleSubmit();
    assert !early && c.error == Str(FillAllFieldsMessage);
    c.HandleChange(InputEvent(Terms, "checkbox", "on", true));
    var alice := FormData(Str("alice"), Str("Alice"), Str("Smith"), Str("a@x.com"), Str("secret"), Bool(true));
    assert c.formData == alice;
    var requested := c.HandleSubmit();
    assert requested;
    assert c.trace == [PreventDefault, PreventDefault, Post(RegisterPath, alice)];
    if alreadyRegistered {
      c.Receive(Failed(Some(Response(Str("Email already registered")))));
      assert c.error == Str("Email already registered") && c.formData == alice;
      assert c.trace == [PreventDefault, PreventDefault, Post(RegisterPath, alice)];
    } else {
      c.Receive(Succeeded);
      assert c.trace == [PreventDefault, PreventDefault, Post(RegisterPath, alice), Navigate(LoginPath)];
      assert c.error == Str(FillAllFieldsMessage);
    }
  }
}
