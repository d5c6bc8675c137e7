/**
 * The field state store of the registration form: the six-field `formData`
 * record, its initial value and the structural update that `handleChange`
 * applies to it.
 *
 * Field values are JavaScript values, because the update stores whatever the
 * input event carries (a string, or the checked flag of a checkbox) and the
 * validation reads them back through JavaScript truthiness.
 */
module FormState {

  /** The JavaScript values that can reach the form: `undefined`, booleans and strings. */
  datatype JsValue = Undefined | Bool(b: bool) | Str(s: string)

  /** JavaScript truthiness: `undefined`, `false` and `""` are falsy. */
  predicate Truthy(v: JsValue) {
    match v
    case Undefined => false
    case Bool(b) => b
    case Str(s) => s != ""
  }

  /** The six keys of `formData`. */
  datatype Field = UserName | FirstName | LastName | Email | Password | Terms

  datatype FormData = FormData(
    userName: JsValue,
    firstName: JsValue,
    lastName: JsValue,
    email: JsValue,
    password: JsValue,
    terms: JsValue)

  /** `formData[f]` */
  function Get(d: FormData, f: Field): JsValue {
    match f
    case UserName => d.userName
    case FirstName => d.firstName
    case LastName => d.lastName
    case Email => d.email
    case Password => d.password
    case Terms => d.terms
  }

  /** `{ ...d, [f]: v }`: a copy of `d` in which only key `f` is replaced. */
  function With(d: FormData, f: Field, v: JsValue): (r: FormData)
    ensures Get(r, f) == v
    ensures forall g :: g != f ==> Get(r, g) == Get(d, g)
  {
    match f
    case UserName => d.(userName := v)
    case FirstName => d.(firstName := v)
    case LastName => d.(lastName := v)
    case Email => d.(email := v)
    case Password => d.(password := v)
    case Terms => d.(terms := v)
  }

  /** Two records that agree on every key are the same record. */
  lemma FormDataExtensional(a: FormData, b: FormData)
    requires forall f :: Get(a, f) == Get(b, f)
    ensures a == b
  {
    assert Get(a, UserName) == Get(b, UserName);
    assert Get(a, FirstName) == Get(b, FirstName);
    assert Get(a, LastName) == Get(b, LastName);
    assert Get(a, Email) == Get(b, Email);
    assert Get(a, Password) == Get(b, Password);
    assert Get(a, Terms) == Get(b, Terms);
  }

  /**
   * The spread update is the only record that has `v` at `f` and agrees with
   * `d` everywhere else: it replaces one field and nothing more.
   */
  lemma WithIsTheOneFieldUpdate(d: FormData, f: Field, v: JsValue, r: FormData)
    requires Get(r, f) == v
    requires forall g :: g != f ==> Get(r, g) == Get(d, g)
    ensures r == With(d, f, v)
  {
    FormDataExtensional(r, With(d, f, v));
  }

  /** The record `useState` starts from: five empty strings and `terms: false`. */
  function InitialForm(): (d: FormData)
    ensures forall f :: !Truthy(Get(d, f))
    ensures forall f :: f != Terms ==> Get(d, f) == Str("")
    ensures Get(d, Terms) == Bool(false)
  {
    FormData(Str(""), Str(""), Str(""), Str(""), Str(""), Bool(false))
  }

  /** What `handleChange` reads from `e.target`: name, type, value and checked. */
  datatype InputEvent = InputEvent(name: Field, inputType: string, value: string, checked: bool)

  /** The value stored for an event: the checked flag for a checkbox, the raw text otherwise. */
  function StoredValue(e: InputEvent): (v: JsValue)
    ensures e.inputType == "checkbox" ==> v == Bool(e.checked)
    ensures e.inputType != "checkbox" ==> v == Str(e.value)
  {
    if e.inputType == "checkbox" then Bool(e.checked) else Str(e.value)
  }

  /** The functional update `handleChange` passes to `setFormData`. */
  function ApplyChange(d: FormData, e: InputEvent): (r: FormData)
    ensures Get(r, e.name) == StoredValue(e)
    ensures forall g :: g != e.name ==> Get(r, g) == Get(d, g)
  {
    With(d, e.name, StoredValue(e))
  }

  /** The `type` attribute of the input the form renders for each key. */
  function InputTypeOf(f: Field): (t: string)
    ensures t == "checkbox" <==> f == Terms
    ensures f == Email ==> t == "email"
    ensures f == Password ==> t == "password"
    ensures f == UserName || f == FirstName || f == LastName ==> t == "text"
  {
    match f
    case UserName => "text"
    case FirstName => "text"
    case LastName => "text"
    case Email => "email"
    case Password => "password"
    case Terms => "checkbox"
  }

  /** An event raised by the input the form renders for its key. */
  predicate FromForm(e: InputEvent) {
    e.inputType == InputTypeOf(e.name)
  }

  /** Five string fields and a boolean `terms`: the record the rendered inputs produce. */
  predicate WellShaped(d: FormData) {
    (forall f :: f != Terms ==> Get(d, f).Str?) && Get(d, Terms).Bool?
  }

  /** Events from the rendered inputs keep the record five strings and one boolean. */
  lemma FormChangeKeepsShape(d: FormData, e: InputEvent)
    requires WellShaped(d) && FromForm(e)
    ensures WellShaped(ApplyChange(d, e))
  {
  }
}
