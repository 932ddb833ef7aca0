/**
 * The guard functions of backend/utils/validators.py. Each either passes or raises a
 * ValidationException (status 422); here `Pass` or `Fail(exception)`.
 */
module Validators {
  import opened Exceptions
  import Strings

  datatype Outcome = Pass | Fail(error: AppException)

  /** A Python number as the validators receive it: `bool` is a subclass of `int`. */
  datatype PyNumber = PyInt(i: int) | PyFloat(f: real) | PyBool(b: bool)

  function NumericValue(n: PyNumber): real
  {
    match n
    case PyInt(i) => i as real
    case PyFloat(f) => f
    case PyBool(b) => if b then 1.0 else 0.0
  }

  /** `isinstance(value, int)`. */
  predicate IsInstanceInt(n: PyNumber)
  {
    n.PyInt? || n.PyBool?
  }

  function ValidatePositiveNumber(value: PyNumber, fieldName: string := "Value"): (r: Outcome)
    ensures r.Fail? <==> NumericValue(value) <= 0.0
    ensures r.Fail? ==> r.error == ValidationException(fieldName + " must be positive")
  {
    if NumericValue(value) <= 0.0 then Fail(ValidationException(fieldName + " must be positive"))
    else Pass
  }

  function ValidatePositiveInteger(value: PyNumber, fieldName: string := "Value"): (r: Outcome)
    ensures r.Fail? <==> !IsInstanceInt(value) || NumericValue(value) <= 0.0
    ensures r.Fail? ==> r.error == ValidationException(fieldName + " must be a positive integer")
  {
    if !IsInstanceInt(value) || NumericValue(value) <= 0.0 then
      Fail(ValidationException(fieldName + " must be a positive integer"))
    else Pass
  }

  function ValidateNonNegativeInteger(value: PyNumber, fieldName: string := "Value"): (r: Outcome)
    ensures r.Fail? <==> !IsInstanceInt(value) || NumericValue(value) < 0.0
    ensures r.Fail? ==> r.error == ValidationException(fieldName + " must be a non-negative integer")
  {
    if !IsInstanceInt(value) || NumericValue(value) < 0.0 then
      Fail(ValidationException(fieldName + " must be a non-negative integer"))
    else Pass
  }

  /** The deliberately loose e-mail check: non-empty, some '@' and some '.' anywhere. */
  function ValidateEmail(email: string): (r: Outcome)
    ensures r.Pass? <==> |email| > 0 && '@' in email && '.' in email
    ensures r.Fail? ==> r.error == ValidationException("Invalid email format")
  {
    if |email| == 0 || '@' !in email || '.' !in email then Fail(ValidationException("Invalid email format"))
    else Pass
  }

  function ValidateStringLength(value: string, minLength: int := 1, maxLength: int := 255,
                                fieldName: string := "Field"): (r: Outcome)
    ensures r.Pass? <==> |value| > 0 && minLength <= |value| <= maxLength
    ensures r.Fail? ==> r.error.cls == Validation
    // the minimum is checked first, so a string failing both bounds reports the minimum
    ensures (|value| == 0 || |value| < minLength) ==>
              r == Fail(ValidationException(fieldName + " must be at least " + Strings.IntToString(minLength) + " characters"))
    ensures 0 < |value| && minLength <= |value| && |value| > maxLength ==>
              r == Fail(ValidationException(fieldName + " must be at most " + Strings.IntToString(maxLength) + " characters"))
  {
    if |value| == 0 || |value| < minLength then
      Fail(ValidationException(fieldName + " must be at least " + Strings.IntToString(minLength) + " characters"))
    else if |value| > maxLength then
      Fail(ValidationException(fieldName + " must be at most " + Strings.IntToString(maxLength) + " characters"))
    else Pass
  }

  /** Every failure of every validator is a 422 ValidationException. */
  lemma FailuresAre422(n: PyNumber, s: string, lo: int, hi: int, name: string)
    ensures forall r :: r in {ValidatePositiveNumber(n, name), ValidatePositiveInteger(n, name),
                               ValidateNonNegativeInteger(n, name), ValidateEmail(s),
                               ValidateStringLength(s, lo, hi, name)} && r.Fail? ==>
              r.error.cls == Validation && StatusCode(r.error) == 422
  {
  }

  /** The three numeric guards are nested: a positive integer passes the other two, zero passes
      only the non-negative check, and a float never passes an integer check. */
  lemma NumericGuardsNested(n: PyNumber)
    ensures ValidatePositiveInteger(n).Pass? ==> ValidatePositiveNumber(n).Pass? && ValidateNonNegativeInteger(n).Pass?
    ensures ValidateNonNegativeInteger(PyInt(0)).Pass? && ValidatePositiveInteger(PyInt(0)).Fail?
    ensures n.PyFloat? ==> ValidatePositiveInteger(n).Fail? && ValidateNonNegativeInteger(n).Fail?
  {
  }

  /** Only the presence of '.' is checked, not that it follows the '@'. */
  lemma EmailDotPositionUnchecked()
    ensures ValidateEmail(".x@y").Pass?
  {
    assert ".x@y"[0] == '.' && ".x@y"[2] == '@';
  }

  /** Even with a minimum of 0 the empty string is rejected. */
  lemma EmptyStringAlwaysRejected(lo: int, hi: int)
    ensures ValidateStringLength("", lo, hi).Fail?
  {
  }
}
