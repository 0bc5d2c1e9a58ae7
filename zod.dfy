/**
 * The part of the schema library the request schemas use: object schemas
 * over string and number fields, number bounds, optional fields, and the
 * issues a failed parse reports (path and message, in the library's wording).
 */
module Zod {
  import opened Wrappers
  import opened Json

  /** One entry of a validation error: the path to the offending value and a message */
  datatype Issue = Issue(path: seq<string>, message: string)

  /** `schema.parse(body)`: the parsed value, or the issues of the error it throws */
  datatype Parsed<T> = Parsed(value: T) | Failed(issues: seq<Issue>)

  /**
   * One field of an object schema: its issues, whether its type was wrong
   * (which aborts the whole object, so no refinement runs on it) and the
   * value it contributes to the parsed object.
   */
  datatype Field<T> = Field(issues: seq<Issue>, aborted: bool, value: Option<T>)

  /** The message for a missing value when the schema sets no `required_error` */
  const Required := "Required"

  function InvalidType(expected: string, received: Json): string {
    "Expected " + expected + ", received " + TypeName(received)
  }

  /** The issue of a body that is not a JSON object at all */
  function NotAnObject(body: Json): (r: seq<Issue>)
    ensures |r| == 1 && r[0].path == []
  {
    [Issue([], InvalidType("object", body))]
  }

  predicate IsString(v: Option<Json>) {
    v.Some? && v.value.JString?
  }

  predicate IsNumber(v: Option<Json>) {
    v.Some? && v.value.JNumber?
  }

  /**
   * `z.string()` on the value at `key`, or `z.string().optional()` when
   * `optional`; `requiredError` is the message for a missing required value.
   */
  function StringField(key: string, v: Option<Json>, optional: bool, requiredError: string): (f: Field<string>)
    ensures f.issues == [] <==> IsString(v) || (v.None? && optional)
    ensures f.aborted <==> f.issues != []
    ensures IsString(v) ==> f.value == Some(v.value.s)
    ensures v.None? ==> f.value.None?
    ensures v.None? && !optional ==> f.issues == [Issue([key], requiredError)]
    ensures forall i :: i in f.issues ==> i.path == [key]
  {
    match v
    case None =>
      if optional then Field([], false, None) else Field([Issue([key], requiredError)], true, None)
    case Some(JString(s)) => Field([], false, Some(s))
    case Some(other) => Field([Issue([key], InvalidType("string", other))], true, None)
  }

  /** `.positive()`, `.min(b)` and `.max(b)` on a number */
  datatype Check = GreaterThan(bound: nat) | AtLeast(bound: nat) | AtMost(bound: nat)

  predicate Passes(c: Check, n: real) {
    match c
    case GreaterThan(b) => n > b as real
    case AtLeast(b) => n >= b as real
    case AtMost(b) => n <= b as real
  }

  function DigitChar(d: nat): char
    requires d < 10
  {
    "0123456789"[d]
  }

  /** Decimal rendering of a bound, as a template literal prints it */
  function NatToString(n: nat): (s: string)
    ensures |s| >= 1
  {
    if n < 10 then [DigitChar(n)] else NatToString(n / 10) + [DigitChar(n % 10)]
  }

  function CheckMessage(c: Check): string {
    match c
    case GreaterThan(b) => "Number must be greater than " + NatToString(b)
    case AtLeast(b) => "Number must be greater than or equal to " + NatToString(b)
    case AtMost(b) => "Number must be less than or equal to " + NatToString(b)
  }

  /** Every check runs; each failing one adds its issue, in declaration order */
  function CheckIssues(key: string, checks: seq<Check>, n: real): (r: seq<Issue>)
    ensures r == [] <==> forall k :: 0 <= k < |checks| ==> Passes(checks[k], n)
    ensures forall i :: i in r ==> i.path == [key]
    ensures forall k :: 0 <= k < |checks| && !Passes(checks[k], n) ==> Issue([key], CheckMessage(checks[k])) in r
    ensures |r| <= |checks|
    ensures forall i :: i in r ==>
      exists k :: 0 <= k < |checks| && !Passes(checks[k], n) && i == Issue([key], CheckMessage(checks[k]))
  {
    if |checks| == 0 then []
    else
      var rest := CheckIssues(key, checks[1..], n);
      assert forall k :: 1 <= k < |checks| ==> checks[k] == checks[1..][k - 1];
      if Passes(checks[0], n) then rest else [Issue([key], CheckMessage(checks[0]))] + rest
  }

  /**
   * `z.number()` with `checks`, optional when `optional`. A failed check
   * leaves the object dirty but not aborted.
   */
  function NumberField(key: string, v: Option<Json>, optional: bool, requiredError: string, checks: seq<Check>): (f: Field<real>)
    ensures f.issues == [] <==>
      (v.None? && optional) || (IsNumber(v) && forall k :: 0 <= k < |checks| ==> Passes(checks[k], v.value.n))
    ensures f.aborted <==> !IsNumber(v) && !(v.None? && optional)
    ensures IsNumber(v) ==> f.value == Some(v.value.n)
    ensures v.None? ==> f.value.None?
    ensures v.None? && !optional ==> f.issues == [Issue([key], requiredError)]
    ensures IsNumber(v) ==> f.issues == CheckIssues(key, checks, v.value.n)
    ensures forall i :: i in f.issues ==> i.path == [key]
  {
    match v
    case None =>
      if optional then Field([], false, None) else Field([Issue([key], requiredError)], true, None)
    case Some(JNumber(n)) => Field(CheckIssues(key, checks, n), false, Some(n))
    case Some(other) => Field([Issue([key], InvalidType("number", other))], true, None)
  }
}
