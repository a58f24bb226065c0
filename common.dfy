/** Shared value types: optional values and the replies the document database gives to a write. */
module Common {

  datatype Option<+T> = None | Some(value: T)

  /** The reply of the backend to one `addDoc`: the id it assigned, or a rejected promise. */
  datatype WriteResult = Written(id: string) | WriteFailed

  /** JavaScript truthiness of an optional string such as a route parameter:
      `undefined` and `''` are both falsy. */
  predicate Present(s: Option<string>)
  {
    s.Some? && s.value != ""
  }

  predicate IsFailed(r: WriteResult)
  {
    r.WriteFailed?
  }
}
