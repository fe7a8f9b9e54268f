/** The decision logic of the new-joke route's `action`: the form-shape
    guard, the signed-in user, `Joke` validation, and either the failure
    payload or the record handed to the database. */
module NewJoke {
  import opened Wrappers
  import opened Remix
  import opened Validation

  const FormNotSubmitted: string := "Form not submitted correctly."
  const JokesPath: string := "/jokes/"

  /** The `name` and `content` entries of the submitted form. */
  datatype JokeForm = JokeForm(name: FormValue, content: FormValue)

  /** `fieldValues`: the submitted strings, echoed back on a failure. */
  datatype FormFields = FormFields(name: string, content: string)

  /** The route's `ActionData`. */
  datatype ActionData = ActionData(
    formError: Option<string>,
    fieldErrors: Option<map<string, string>>,
    fieldValues: Option<FormFields>)

  /** `name` and `content` are both strings. */
  predicate WellFormed(form: JokeForm)
  {
    form.name.Text? && form.content.Text?
  }

  /** The record `{ name, content }` handed to the validator: nothing else
      from the form reaches it. */
  function Submitted(form: JokeForm): (input: Input)
    requires WellFormed(form)
    ensures input.Keys == {"name", "content"}
    ensures input["name"] == form.name.value && input["content"] == form.content.value
  {
    map["name" := form.name.value, "content" := form.content.value]
  }

  /** `{ ...data, jokesterId: userId }`, the record `db.joke.create`
      receives. */
  function NewJokeRecord(data: map<string, string>, userId: string): (record: map<string, string>)
    ensures record.Keys == data.Keys + {"jokesterId"}
    ensures record["jokesterId"] == userId
    ensures forall f :: f in data && f != "jokesterId" ==> record[f] == data[f]
  {
    data["jokesterId" := userId]
  }

  /** The new-joke `action`. `userId` is how `requireUserId` settles (it
      throws when nobody is signed in); `create(record)` how
      `db.joke.create` settles, with the new joke's id. Only a malformed
      form gets a JSON 400; a redirect always goes to a joke's page. What
      `requireUserId` throws (it is awaited outside the `try`) leaves the
      action unchanged; a failed `create` is caught and rethrown as a new
      error with its message. */
  function Action(form: JokeForm, userId: Settled<string>, create: map<string, string> -> Settled<string>): (r: Outcome<ActionData>)
    ensures r.Return? ==> !r.response.UserSession?
    ensures r.Return? && r.response.Json? <==> !WellFormed(form)
    ensures r.Return? && r.response.Json? ==> r.response.status == 400
    ensures r.Return? && r.response.Redirect? ==>
      |JokesPath| <= |r.response.location| && r.response.location[..|JokesPath|] == JokesPath
    ensures r.Raise? ==> WellFormed(form) && userId.Resolved?
    ensures r.PassThrough? <==> WellFormed(form) && userId.Rejected?
    ensures r.PassThrough? ==> r.thrown == userId.reason
  {
    if !WellFormed(form) then
      Return(BadRequest(ActionData(Some(FormNotSubmitted), None, None)))
    else
      match userId
      case Rejected(thrown) => PassThrough(thrown)
      case Resolved(id) =>
        match FormValidator(Joke, Submitted(form))
        case ZodError(issues) =>
          Return(Plain(ActionData(None, Some(ErrorsOf(issues)), Some(FormFields(form.name.value, form.content.value)))))
        case Ok(data) =>
          match create(NewJokeRecord(data, id))
          case Rejected(reason) => Raise(reason)
          case Resolved(jokeId) => Return(Redirect(JokesPath + jokeId))
  }

  /** A form whose `name` or `content` is not a string gets a bare form
      error before the signed-in user is asked for. */
  lemma MalformedFormRejected(form: JokeForm, userId: Settled<string>, create: map<string, string> -> Settled<string>)
    requires !WellFormed(form)
    ensures Action(form, userId, create) == Return(Json(400, ActionData(Some(FormNotSubmitted), None, None)))
  {
  }

  /** The signed-in user is required before validation: what
      `requireUserId` throws passes through the action unchanged, even for
      an invalid joke. */
  lemma UserRequiredBeforeValidation(form: JokeForm, reason: string, create: map<string, string> -> Settled<string>)
    requires WellFormed(form)
    ensures Action(form, Rejected(reason), create) == PassThrough(reason)
  {
  }

  /** A joke that fails validation comes back as a plain object (not a JSON
      400) with the submitted values and the field errors, and nothing is
      created (`JokeFieldErrors` says which fields the errors name). */
  lemma ValidationFailureReturned(form: JokeForm, id: string, create: map<string, string> -> Settled<string>)
    requires WellFormed(form)
    requires FormValidator(Joke, Submitted(form)).ZodError?
    ensures Action(form, Resolved(id), create) == Return(Plain(ActionData(
      None, Some(ErrorsOf(Issues(Joke, Submitted(form)))), Some(FormFields(form.name.value, form.content.value)))))
  {
  }

  /** A valid joke is created from exactly the submitted name and content
      plus the author's id; the action then redirects to the new joke's
      page, or rethrows the database's error. */
  lemma ValidJokeCreated(form: JokeForm, id: string, create: map<string, string> -> Settled<string>)
    requires WellFormed(form)
    requires FormValidator(Joke, Submitted(form)).Ok?
    ensures var record := map["name" := form.name.value, "content" := form.content.value, "jokesterId" := id];
      && (forall jokeId :: create(record) == Resolved(jokeId) ==>
            Action(form, Resolved(id), create) == Return(Redirect("/jokes/" + jokeId)))
      && (forall reason :: create(record) == Rejected(reason) ==>
            Action(form, Resolved(id), create) == Raise(reason))
  {
    SchemaFields();
    var data := FormValidator(Joke, Submitted(form)).data;
    assert data == Submitted(form);
    assert NewJokeRecord(data, id) == map["name" := form.name.value, "content" := form.content.value, "jokesterId" := id];
  }
}
