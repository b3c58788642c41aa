/**
 * The form controller of `app/page.js`: the six form fields, the map of
 * per-field error messages, the reply text and the busy flag, with the
 * handlers that change them. Submission is asynchronous in the page; here it
 * is two steps, `StartSubmit` (validate, then raise the busy flag and hand
 * out the form to post) and `CompleteSubmit` (store what came back).
 */
module AskPage {
  import opened Wrappers
  import opened JsString

  /** The `name` attributes of the six inputs. */
  datatype Field = Name | Age | Gender | Pincode | Issue | Duration

  /** The `form` state: every input's current text. */
  datatype Form = Form(
    name: string, age: string, gender: string, pincode: string, issue: string, duration: string)
  {
    function Get(f: Field): string
    {
      match f
      case Name => name
      case Age => age
      case Gender => gender
      case Pincode => pincode
      case Issue => issue
      case Duration => duration
    }

    /** The form with field `f` replaced by `v`. */
    function Set(f: Field, v: string): (r: Form)
      ensures r.Get(f) == v
      ensures forall g :: g != f ==> r.Get(g) == Get(g)
    {
      match f
      case Name => this.(name := v)
      case Age => this.(age := v)
      case Gender => this.(gender := v)
      case Pincode => this.(pincode := v)
      case Issue => this.(issue := v)
      case Duration => this.(duration := v)
    }
  }

  const EmptyForm: Form := Form("", "", "", "", "", "")

  /** What JavaScript's `Number(s)` gives; finite values are kept exact. */
  datatype JsNumber = NaN | Finite(value: real) | PositiveInfinity | NegativeInfinity

  /** `n < bound` for a JavaScript number and a finite bound (false for NaN). */
  predicate LessThan(n: JsNumber, bound: real)
  {
    match n
    case NaN => false
    case Finite(v) => v < bound
    case PositiveInfinity => false
    case NegativeInfinity => true
  }

  /** `n > bound` for a JavaScript number and a finite bound (false for NaN). */
  predicate GreaterThan(n: JsNumber, bound: real)
  {
    match n
    case NaN => false
    case Finite(v) => v > bound
    case PositiveInfinity => true
    case NegativeInfinity => false
  }

  /**
   * Comparing a JavaScript number with a finite bound: NaN is neither below
   * nor above it, and any other number is below it, above it or equal to it,
   * exactly one of the three.
   */
  lemma CompareWithBound(n: JsNumber, bound: real)
    ensures n.NaN? ==> !LessThan(n, bound) && !GreaterThan(n, bound)
    ensures !(LessThan(n, bound) && GreaterThan(n, bound))
    ensures !n.NaN? ==> (LessThan(n, bound) || GreaterThan(n, bound) <==> n != Finite(bound))
  {
  }

  function ErrorMessage(f: Field): string
  {
    match f
    case Name => "Name is required"
    case Age => "Valid age required"
    case Gender => "Gender is required"
    case Pincode => "Valid 6-digit pincode required"
    case Issue => "Health issue description is required"
    case Duration => "Please select duration"
  }

  /** Each field has its own, non-empty message. */
  lemma ErrorMessagesDistinct(f: Field, g: Field)
    ensures ErrorMessage(f) != ""
    ensures f != g ==> ErrorMessage(f) != ErrorMessage(g)
  {
  }

  predicate IsDigit(c: char)
  {
    '0' <= c <= '9'
  }

  // ---- What each field must satisfy ---------------------------------------

  /** An acceptable age: present, a number, and from 1 to 120 (fractions included). */
  predicate AgeAcceptable(age: string, n: JsNumber)
  {
    age != "" && n.Finite? && 1.0 <= n.value <= 120.0
  }

  /** An acceptable pincode: exactly six ASCII digits and nothing else. */
  predicate PincodeAcceptable(p: string)
  {
    |p| == 6 && forall i :: 0 <= i < |p| ==> IsDigit(p[i])
  }

  /** Whether the value `v` of field `f` passes, with `number` for `Number()`. */
  predicate FieldAcceptable(f: Field, v: string, number: string -> JsNumber)
  {
    match f
    case Name => !IsBlank(v)
    case Age => AgeAcceptable(v, number(v))
    case Gender => v != ""
    case Pincode => PincodeAcceptable(v)
    case Issue => !IsBlank(v)
    case Duration => v != ""
  }

  // ---- The tests as the page writes them ----------------------------------

  /** The trim test: rejected exactly when the value is whitespace only. */
  function BlankRejected(v: string): (rejected: bool)
    ensures rejected <==> IsBlank(v)
  {
    Trim(v) == ""
  }

  /** The age test: empty, not a number, below 1 or above 120; `n` is the age converted by `Number()`. */
  function AgeRejected(age: string, n: JsNumber): (rejected: bool)
    ensures rejected <==> !AgeAcceptable(age, n)
  {
    age == "" || n.NaN? || LessThan(n, 1.0) || GreaterThan(n, 120.0)
  }

  /** `s` is exactly `n` decimal digits and then ends, as the anchored pattern demands. */
  predicate DigitRun(s: string, n: nat)
    decreases n
  {
    if n == 0 then s == ""
    else s != "" && IsDigit(s[0]) && DigitRun(s[1..], n - 1)
  }

  lemma {:induction false} DigitRunIff(s: string, n: nat)
    ensures DigitRun(s, n) <==> |s| == n && forall i :: 0 <= i < |s| ==> IsDigit(s[i])
    decreases n
  {
    if n > 0 && s != "" {
      DigitRunIff(s[1..], n - 1);
      assert forall i :: 1 <= i < |s| ==> s[i] == s[1..][i - 1];
    }
  }

  /** The pincode test: rejected unless the anchored six-digit pattern matches. */
  function PincodeRejected(p: string): (rejected: bool)
    ensures rejected <==> !PincodeAcceptable(p)
  {
    DigitRunIff(p, 6);
    !DigitRun(p, 6)
  }

  // ---- `validate` without its state update --------------------------------

  /** Every entry of an error map is its own field's message. */
  predicate CarriesMessages(e: map<Field, string>)
  {
    forall f :: f in e ==> e[f] == ErrorMessage(f)
  }

  /**
   * One step of `validate`: the field gets its message if it was rejected,
   * and stays absent otherwise; other fields are untouched.
   */
  function Flag(e: map<Field, string>, f: Field, rejected: bool): (r: map<Field, string>)
    requires f !in e
    ensures r.Keys == if rejected then e.Keys + {f} else e.Keys
    ensures f in r ==> r[f] == ErrorMessage(f)
    ensures forall g :: g in e ==> r[g] == e[g]
    ensures CarriesMessages(e) ==> CarriesMessages(r)
  {
    if rejected then e[f := ErrorMessage(f)] else e
  }

  /** An error map that lists exactly the failing fields is empty exactly when every field passes. */
  lemma NoErrorsIffAllAcceptable(form: Form, number: string -> JsNumber, e: map<Field, string>)
    requires forall f :: f in e <==> !FieldAcceptable(f, form.Get(f), number)
    ensures |e| == 0 <==> e == map[]
    ensures e == map[] <==> forall f :: FieldAcceptable(f, form.Get(f), number)
  {
    if forall f :: FieldAcceptable(f, form.Get(f), number) {
      assert e == map[];
    }
  }

  /**
   * The six `if` statements of `validate`, each given its field's verdict:
   * a rejected field gets its message, in the page's order.
   */
  method RecordErrors(nameBad: bool, ageBad: bool, genderBad: bool,
                      pincodeBad: bool, issueBad: bool, durationBad: bool)
    returns (newErrors: map<Field, string>)
    ensures Name in newErrors <==> nameBad
    ensures Age in newErrors <==> ageBad
    ensures Gender in newErrors <==> genderBad
    ensures Pincode in newErrors <==> pincodeBad
    ensures Issue in newErrors <==> issueBad
    ensures Duration in newErrors <==> durationBad
    ensures forall f :: f in newErrors ==> newErrors[f] == ErrorMessage(f)
  {
    newErrors := map[];
    newErrors := Flag(newErrors, Name, nameBad);
    newErrors := Flag(newErrors, Age, ageBad);
    newErrors := Flag(newErrors, Gender, genderBad);
    newErrors := Flag(newErrors, Pincode, pincodeBad);
    newErrors := Flag(newErrors, Issue, issueBad);
    newErrors := Flag(newErrors, Duration, durationBad);
    assert CarriesMessages(newErrors);
  }

  /**
   * The body of `validate` up to `setErrors`: each field is tested on its
   * own with the page's test, and a failing one gets its message.
   */
  method CollectErrors(form: Form, number: string -> JsNumber) returns (newErrors: map<Field, string>)
    ensures forall f :: f in newErrors <==> !FieldAcceptable(f, form.Get(f), number)
    ensures forall f :: f in newErrors ==> newErrors[f] == ErrorMessage(f)
  {
    newErrors := RecordErrors(
      BlankRejected(form.name), AgeRejected(form.age, number(form.age)), form.gender == "",
      PincodeRejected(form.pincode), BlankRejected(form.issue), form.duration == "");
    forall f
      ensures f in newErrors <==> !FieldAcceptable(f, form.Get(f), number)
    {
      match f {
        case Name =>
        case Age =>
        case Gender =>
        case Pincode =>
        case Issue =>
        case Duration =>
      }
    }
  }

  // ---- The response panel --------------------------------------------------

  const ProcessingText: string := "Processing your input..."
  const PlaceholderText: string := "Fill the form and submit to get suggestions."
  const FailureText: string := "Something went wrong. Please try again."

  /** The text of the response panel: a progress note while busy, else the reply or the placeholder. */
  function PanelText(loading: bool, response: string): (shown: string)
    ensures shown != ""
    ensures loading ==> shown == ProcessingText
    ensures !loading && response != "" ==> shown == response
    ensures !loading && response == "" ==> shown == PlaceholderText
  {
    if loading then ProcessingText
    else if response != "" then response
    else PlaceholderText
  }

  /** The JSON object the submit posts to `/api/ask`: the six fields under their own names. */
  function FormBody(form: Form): (body: map<string, string>)
    ensures body.Keys == {"name", "age", "gender", "pincode", "issue", "duration"}
    ensures "message" !in body
    ensures body["name"] == form.name && body["age"] == form.age && body["gender"] == form.gender
    ensures body["pincode"] == form.pincode && body["issue"] == form.issue
    ensures body["duration"] == form.duration
  {
    map["name" := form.name, "age" := form.age, "gender" := form.gender,
        "pincode" := form.pincode, "issue" := form.issue, "duration" := form.duration]
  }

  /** How the posted request ended: the reply the server sent, or a transport error. */
  datatype SubmitOutcome = Answered(reply: string) | Failed

  /** The page component's state. */
  class AskPage {
    /** The `Number()` conversion the age test uses. */
    const number: string -> JsNumber
    var form: Form
    var errors: map<Field, string>
    var response: string
    var loading: bool

    /**
     * Every shown error carries its field's message and belongs to a field
     * whose current value fails its test: an error is never stale.
     */
    ghost predicate Valid()
      reads this
    {
      forall f :: f in errors ==> errors[f] == ErrorMessage(f) && !FieldAcceptable(f, form.Get(f), number)
    }

    /** The initial state: empty fields, no errors, no reply, not busy. */
    constructor(number: string -> JsNumber)
      ensures Valid()
      ensures this.number == number
      ensures form == EmptyForm && errors == map[] && response == "" && !loading
    {
      this.number := number;
      form := EmptyForm;
      errors := map[];
      response := "";
      loading := false;
    }

    /**
     * `validate`: the error map is replaced by the failures found, and the
     * answer is whether there were none.
     */
    method Validate() returns (ok: bool)
      modifies this`errors
      ensures forall f :: f in errors <==> !FieldAcceptable(f, form.Get(f), number)
      ensures forall f :: f in errors ==> errors[f] == ErrorMessage(f)
      ensures ok <==> errors == map[]
      ensures ok <==> forall f :: FieldAcceptable(f, form.Get(f), number)
      ensures Valid()
    {
      var newErrors := CollectErrors(form, number);
      NoErrorsIffAllAcceptable(form, number, newErrors);
      errors := newErrors;
      ok := |newErrors| == 0;
    }

    /** `handleChange`: one field takes the new text and loses its error; nothing else changes. */
    method HandleChange(field: Field, value: string)
      requires Valid()
      modifies this`form, this`errors
      ensures form == old(form).Set(field, value)
      ensures errors == old(errors) - {field}
      ensures forall g :: g != field ==> form.Get(g) == old(form).Get(g)
      ensures forall g :: g != field && g in old(errors) ==> g in errors && errors[g] == old(errors)[g]
      ensures Valid()
    {
      form := form.Set(field, value);
      errors := errors - {field};
    }

    /**
     * The synchronous part of `handleSubmit`: an invalid form stops here with
     * nothing sent and the busy flag and reply untouched; a valid one raises
     * the busy flag, clears the reply and returns the form to post.
     */
    method StartSubmit() returns (sent: Option<Form>)
      requires Valid() && !loading
      modifies this`errors, this`loading, this`response
      ensures forall f :: f in errors <==> !FieldAcceptable(f, form.Get(f), number)
      ensures sent.Some? <==> forall f :: FieldAcceptable(f, form.Get(f), number)
      ensures sent.None? ==> loading == old(loading) && response == old(response)
      ensures sent.Some? ==> sent.value == form && errors == map[] && loading && response == ""
      ensures Valid()
    {
      var ok := Validate();
      if !ok {
        return None;
      }
      loading := true;
      response := "";
      sent := Some(form);
    }

    /**
     * The end of `handleSubmit`: the reply, or the failure note, becomes the
     * response, and the busy flag drops.
     */
    method CompleteSubmit(outcome: SubmitOutcome)
      requires Valid() && loading
      modifies this`loading, this`response
      ensures !loading
      ensures outcome.Answered? ==> response == outcome.reply
      ensures outcome.Failed? ==> response == FailureText
      ensures Valid()
    {
      match outcome {
        case Answered(reply) => response := reply;
        case Failed => response := FailureText;
      }
      loading := false;
    }

    /** `handleReset`: fields, errors and reply are cleared; the busy flag is left as it is. */
    method HandleReset()
      requires Valid() && !loading
      modifies this`form, this`errors, this`response
      ensures form == EmptyForm && errors == map[] && response == ""
      ensures Valid()
    {
      form := EmptyForm;
      errors := map[];
      response := "";
    }
  }

}
