/** Values shared by every route: optional values, request-body fields as JSON
    delivers them, validation errors and the response envelope. */
module Common {

  datatype Option<T> = None | Some(value: T) {
    function GetOr(default: T): T {
      match this
      case Some(v) => v
      case None => default
    }
  }

  /** One property of a JSON request body: missing (`undefined`), `null`, or a string. */
  datatype Field = Absent | Null | Text(s: string)

  /** The string a validator sees: express-validator turns `undefined` and `null` into ''. */
  function AsString(f: Field): string {
    if f.Text? then f.s else ""
  }

  /** JavaScript truthiness of a string-or-null value. */
  predicate Truthy(f: Field) {
    f.Text? && f.s != ""
  }

  /** One entry of the `errors` array of a 400 response. */
  datatype FieldError = FieldError(field: string, message: string)

  /** The response envelope `{success, message, data, errors}` with its HTTP status code. */
  datatype Outcome<T> =
    | Success(code: nat, message: string, data: T)
    | Failure(code: nat, message: string, errors: seq<FieldError>)

  function Fail<T>(code: nat, message: string): Outcome<T> {
    Failure(code, message, [])
  }
}
