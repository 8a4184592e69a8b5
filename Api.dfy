/** Shared vocabulary of the client: optional values, the outcome of one
    request to the REST back end, and the user-visible message record that
    every component keeps in its state. */
module Api {

  datatype Option<+T> = None | Some(value: T)

  /** What one awaited `api.get`/`api.post`/`api.put` produced.  `Ok` is a
      2xx reply and carries the decoded `response.data`; `Thrown` is the
      rejected promise, carrying what `error.response?.data?.error` and
      `error.response?.data?.message` yield (both `None` when the error has
      no `response`, e.g. a network failure or a `TypeError` in the handler). */
  datatype Response<+D> = Ok(data: D) | Thrown(errorField: Option<string>, messageField: Option<string>)

  datatype Kind = Success | Error

  /** The `{ type, text }` object shown in an alert or a snackbar. */
  datatype Message = Message(kind: Kind, text: string)

  /** JavaScript truthiness of an optional string: absent and empty are falsy. */
  predicate Truthy(s: Option<string>) {
    s.Some? && s.value != ""
  }

  /** JavaScript's `s || fallback` for a string that may be absent: an
      absent or empty string is falsy and yields the fallback. */
  function OrElse(s: Option<string>, fallback: string): (r: string)
    ensures s.Some? && s.value != "" ==> r == s.value
    ensures s.None? || s.value == "" ==> r == fallback
    ensures r != "" ==> (r == fallback || s == Some(r))
  {
    if Truthy(s) then s.value else fallback
  }

  /** The `error.response?.data?.error || fallback` text of a failed request. */
  function ErrorText<D>(reply: Response<D>, fallback: string): (r: string)
    requires reply.Thrown?
    ensures r == fallback || (reply.errorField == Some(r) && r != "")
    ensures Truthy(reply.errorField) ==> r == reply.errorField.value
    ensures !Truthy(reply.errorField) ==> r == fallback
  {
    OrElse(reply.errorField, fallback)
  }
}
