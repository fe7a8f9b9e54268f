/** The few pieces of the web framework that the actions touch: form
    entries, the responses an action returns, and `badRequest`. */
module Remix {

  /** What `FormData.get` (or a property of `Object.fromEntries(formData)`)
      yields: `null`/`undefined` when the field was not sent, a string, or
      an uploaded `File`. */
  datatype FormValue = Missing | Text(value: string) | File

  /** JavaScript truthiness of a form value: `null` and `""` are falsy. */
  predicate Truthy(v: FormValue)
  {
    match v
    case Missing => false
    case Text(s) => s != ""
    case File => true
  }

  /** The JavaScript expression `v || fallback`. */
  function Or(v: FormValue, fallback: FormValue): (r: FormValue)
    ensures v == Missing || v == Text("") ==> r == fallback
    ensures v.File? || (v.Text? && v.value != "") ==> r == v
  {
    if Truthy(v) then v else fallback
  }

  /** What an action hands back to the framework.
      - `Json(status, data)`: `json(data, { status })`;
      - `Plain(data)`: a plain object returned without `json`;
      - `Redirect(location)`: `redirect(location)`;
      - `UserSession(userId, redirectTo)`: whatever `createUserSession`
        builds for that user and target (the session helpers are not part
        of this model). */
  datatype Response<D> =
    | Json(status: nat, data: D)
    | Plain(data: D)
    | Redirect(location: string)
    | UserSession(userId: string, redirectTo: string)

  /** An action returns a response or throws. `Raise(message)` is
      `throw new Error(message)`: a fresh error that keeps only the message
      of the one caught. `PassThrough(thrown)` is a value a collaborator
      threw that leaves the action unchanged (for instance the redirect
      `Response` of `requireUserId`), described by a string. */
  datatype Outcome<D> =
    | Return(response: Response<D>)
    | Raise(message: string)
    | PassThrough(thrown: string)

  /** `badRequest(data)`: a JSON response with status 400 carrying `data`
      unchanged. */
  function BadRequest<D>(data: D): (r: Response<D>)
    ensures r.Json? && r.status == 400 && r.data == data
  {
    Json(400, data)
  }
}
