/** Values that flow through the cache: the results of query functions, the
    arguments they are called with, and the failure-compatible wrappers the
    rest of the model returns. */
module Values {

  /** The JavaScript values a query may resolve to. `Null` and `Undefined`
      are kept apart because the persistent lookup treats only `null` as a
      miss (`cached !== null`). */
  datatype Value =
    | Null
    | Undefined
    | Bool(b: bool)
    | Num(n: int)
    | Str(s: string)
    | Arr(items: seq<Value>)

  datatype Option<T> = None | Some(value: T)

  datatype Result<T, E> = Ok(value: T) | Err(error: E)

  /** The two ways a `cachedQuery` call can fail. */
  datatype Error =
    | ConfigurationError(message: string)  // no usable key while auto-keying is off
    | QueryFailure(reason: Value)          // the query function rejected with `reason`
}
