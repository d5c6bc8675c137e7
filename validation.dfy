/**
 * The validator: the guard `handleSubmit` evaluates before any request, which
 * refuses the submission when some field of `formData` is falsy.
 */
module Validation {
  import opened FormState

  /** The guard of `handleSubmit`: `!userName || !firstName || … || !terms`. */
  predicate Incomplete(d: FormData)
    ensures Incomplete(d) <==> exists f :: !Truthy(Get(d, f))
  {
    var incomplete :=
      !Truthy(d.userName) || !Truthy(d.firstName) || !Truthy(d.lastName) ||
      !Truthy(d.email) || !Truthy(d.password) || !Truthy(d.terms);
    assert incomplete ==> exists f :: !Truthy(Get(d, f)) by {
      if !Truthy(d.userName) { assert !Truthy(Get(d, UserName)); }
      else if !Truthy(d.firstName) { assert !Truthy(Get(d, FirstName)); }
      else if !Truthy(d.lastName) { assert !Truthy(Get(d, LastName)); }
      else if !Truthy(d.email) { assert !Truthy(Get(d, Email)); }
      else if !Truthy(d.password) { assert !Truthy(Get(d, Password)); }
      else if !Truthy(d.terms) { assert !Truthy(Get(d, Terms)); }
    }
    incomplete
  }

  /**
   * On a record of five strings and a boolean, the guard refuses exactly when
   * some text field is empty or the terms are not accepted.
   */
  lemma IncompleteIffBlankOrUnaccepted(d: FormData)
    requires WellShaped(d)
    ensures Incomplete(d) <==>
              (exists f :: f != Terms && Get(d, f) == Str("")) || Get(d, Terms) == Bool(false)
  {
  }

  /**
   * Filling in any one field of the initial record is not enough: some other
   * field is still falsy, so the guard refuses.
   */
  lemma OneFieldIsNotEnough(f: Field, v: JsValue)
    ensures Incomplete(With(InitialForm(), f, v))
  {
  }

  /** Accepted terms and five non-empty text fields let the submission through. */
  lemma CompleteWhenAllFilled(d: FormData)
    requires forall f :: f != Terms ==> Get(d, f).Str? && Get(d, f).s != ""
    requires Get(d, Terms) == Bool(true)
    ensures !Incomplete(d)
  {
  }
}
