/** pkg/utils/validate.go: turning a validation outcome into the list of
    field messages returned in 400 responses. */
module Validate {

  /** One failed rule of go-playground/validator: the field and its tag. */
  datatype FieldError = FieldError(field: string, tag: string)

  /** The `error` handed to FormatValidationErrors: nil, a validator
      ValidationErrors list, or any other error with its Error() text. */
  datatype ValidationOutcome =
    | Valid
    | FieldErrors(errors: seq<FieldError>)
    | OtherError(message: string)

  datatype ErrorResponse = ErrorResponse(field: string, message: string)

  function FieldMessage(fe: FieldError): string
  {
    fe.field + " failed on the " + fe.tag + " validation"
  }

  /** The list FormatValidationErrors returns: nothing for nil, one entry
      with an empty field for a foreign error, and otherwise one entry per
      field error, in order. */
  function ErrorResponses(err: ValidationOutcome): (r: seq<ErrorResponse>)
    ensures err.Valid? ==> r == []
    ensures err.OtherError? ==> r == [ErrorResponse("", err.message)]
    ensures err.FieldErrors? ==> |r| == |err.errors|
    ensures err.FieldErrors? ==> forall i :: 0 <= i < |r| ==>
      r[i].field == err.errors[i].field && r[i].message == FieldMessage(err.errors[i])
  {
    match err
    case Valid => []
    case OtherError(msg) => [ErrorResponse("", msg)]
    case FieldErrors(fes) =>
      seq(|fes|, i requires 0 <= i < |fes| => ErrorResponse(fes[i].field, FieldMessage(fes[i])))
  }

  /** FormatValidationErrors, appending one response per field error. */
  method FormatValidationErrors(err: ValidationOutcome) returns (errors: seq<ErrorResponse>)
    ensures errors == ErrorResponses(err)
  {
    errors := [];
    match err {
      case Valid =>
        return;
      case OtherError(msg) =>
        errors := errors + [ErrorResponse("", msg)];
        return;
      case FieldErrors(fes) =>
        for i := 0 to |fes|
          invariant |errors| == i
          invariant forall k :: 0 <= k < i ==>
            errors[k] == ErrorResponse(fes[k].field, FieldMessage(fes[k]))
        {
          var ve := fes[i];
          errors := errors + [ErrorResponse(ve.field, ve.field + " failed on the " + ve.tag + " validation")];
        }
    }
  }
}
