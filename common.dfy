/** Value shapes shared by the whole model: JSON fields that may be absent
    or null, optional values, and the exceptions the scraper raises. */
module Common {

  /** A key of a decoded JSON object: missing, present with `null`, or
      present with a value. Only used where the code reacts differently to
      the three. */
  datatype Field<T> = Absent | Null | Present(value: T)

  datatype Option<T> = None | Some(value: T) {
    function GetOr(default: T): T {
      match this
      case Some(v) => v
      case None => default
    }
  }

  /** The exceptions raised on the way from a listing page to a day's
      document. None of them is caught before the top of the run. */
  datatype Error =
    | HttpStatus(code: int)          // a page answered with a status other than 200
    | UnparsableBody                 // a page body that is not JSON
    | ApiError                       // a page whose `error` entry is truthy
    | NullPayload(what: string)      // a JSON null the code dereferences
    | MissingAttribute(name: string) // an attribute read that the object does not have

  datatype Result<T> = Ok(value: T) | Err(error: Error) {
    predicate IsFailure() {
      Err?
    }

    function PropagateFailure<U>(): Result<U>
      requires Err?
    {
      Err(error)
    }

    function Extract(): T
      requires Ok?
    {
      value
    }
  }

  lemma AppendAssociates<T>(a: seq<T>, b: seq<T>, c: seq<T>)
    ensures a + b + c == a + (b + c)
  {
  }
}
