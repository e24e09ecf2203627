/**
 * UploadImageValidator: checks the submitted base64 value with two independent rules and
 * appends one message per broken rule to the caller's error list.
 */
module Validation {
  import opened Php

  const RequiredMessage := "The image base64 is required."
  const StringMessage := "The image base64 should be a valid string."

  /** The messages `validate` appends for `value`: "required" first, then "string". */
  function Violations(value: Value): (ms: seq<string>)
    ensures ms == [] <==> Truthy(value) && IsString(value)
    ensures |ms| == (if IsEmpty(value) then 1 else 0) + (if IsString(value) then 0 else 1)
    ensures IsEmpty(value) ==> ms[0] == RequiredMessage
    ensures !IsString(value) ==> ms[|ms| - 1] == StringMessage
  {
    (if IsEmpty(value) then [RequiredMessage] else []) + (if IsString(value) then [] else [StringMessage])
  }

  /** The `ArrayObject` the caller passes in to collect messages. */
  class ErrorList {
    var items: seq<string>

    constructor(items: seq<string>)
      ensures this.items == items
    {
      this.items := items;
    }

    method Append(message: string)
      modifies this
      ensures items == old(items) + [message]
    {
      items := items + [message];
    }
  }

  /**
   * `validate`: appends the message of each broken rule to `errors`, keeping what was there,
   * and answers whether this call appended nothing.
   */
  method Validate(value: Value, errors: ErrorList) returns (valid: bool)
    modifies errors
    ensures errors.items == old(errors.items) + Violations(value)
    ensures valid <==> Violations(value) == []
  {
    valid := true;
    if IsEmpty(value) {
      valid := false;
      errors.Append(RequiredMessage);
    }
    if !IsString(value) {
      valid := false;
      errors.Append(StringMessage);
    }
  }

  /** A value is accepted exactly when it is a string other than "" and "0". */
  lemma ValidIffTruthyString(value: Value)
    ensures Violations(value) == [] <==> value.Str? && StringTruthy(value.s)
  {
  }

  /** "0" is a string, but PHP-empty: it gets the "required" message only. */
  lemma ZeroStringOnlyRequired()
    ensures Violations(Str("0")) == [RequiredMessage]
  {
  }

  /** The rules are independent: an empty non-string (null, false, 0, []) gets both messages, in order. */
  lemma EmptyNonStringGetsBoth(value: Value)
    requires IsEmpty(value) && !IsString(value)
    ensures Violations(value) == [RequiredMessage, StringMessage]
  {
  }

  /** A non-empty value that is not a string (a non-zero number, `true`, a non-empty array) gets only the "string" message. */
  lemma TruthyNonStringOnlyString(value: Value)
    requires Truthy(value) && !IsString(value)
    ensures Violations(value) == [StringMessage]
  {
  }
}
