/** Optional values and the reply shape every HTTP handler of the backend produces. */
module Wrappers {

  /** `null` / `undefined` versus a present value. */
  datatype Option<+T> = None | Some(value: T) {

    /** The JavaScript `??` operator: this value if present, otherwise `default`. */
    function Or(default: T): T {
      match this
      case Some(v) => v
      case None => default
    }

    /** `a ?? b` where `b` is itself optional. */
    function OrElse(other: Option<T>): Option<T> {
      if Some? then this else other
    }
  }

  datatype Result<+R, +E> = Success(value: R) | Failure(error: E)
}

module Http {

  /** The JSON body of a response: a `{ message }` object or a data payload. */
  datatype Body<+T> = Message(text: string) | Data(value: T)

  /** `res.status(status).json(body)`. */
  datatype Reply<+T> = Reply(status: int, body: Body<T>)
}
