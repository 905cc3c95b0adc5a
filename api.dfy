// The HTTP outcomes the backend handlers answer with. Authentication is
// outside the model: every handler receives the caller's user id.
module Api {

  /** A request-body field checked by the create validator chain. */
  datatype Field = NameField | DosageField | TimeField | FrequencyField

  datatype Failure =
    | NotFound                // 404 'Medication not found'
    | NotAuthorized           // 401 'Not authorized to … this medication'
    | BadTimeFormat           // 400 'Time must be in HH:MM format'
    | Invalid(fields: seq<Field>)  // 400 { errors: [...] } from the validator chain
    | MissingMedicationId     // 400 'Medication ID is required'
    | ServerError             // 500 'Server error' (a schema validation error thrown by the store)

  function StatusCode(f: Failure): (code: nat)
    ensures 400 <= code < 600
  {
    match f
    case NotFound => 404
    case NotAuthorized => 401
    case BadTimeFormat => 400
    case Invalid(_) => 400
    case MissingMedicationId => 400
    case ServerError => 500
  }

  datatype Reply<T> = Ok(code: nat, body: T) | Failed(failure: Failure)
}
