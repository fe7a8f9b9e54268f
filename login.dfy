/** The decision logic of the login route's `action`: the redirect
    allow-list, the form-shape guard, `User` validation, and the
    `loginType` switch, with the database and session helpers passed in as
    their results. */
module Login {
  import opened Wrappers
  import opened Remix
  import opened Validation

  /** The only targets a login may redirect to. */
  const AllowedRedirects: seq<string> := ["/jokes", "/", "https://remix.run"]
  const DefaultRedirect: string := "/jokes"

  const FormNotSubmitted: string := "Form not submitted correctly."
  const IncorrectCredentials: string := "Username/Password combination is incorrect"
  const CreateUserFailed: string := "Something goes wrong when creating user"
  const InvalidLoginType: string := "Login type invalid"

  function UserAlreadyExists(username: string): string
  {
    "User with username " + username + " already exists"
  }

  /** `validateUrl(url)`: the url itself when it is on the allow-list,
      otherwise the default target. */
  function ValidateUrl(url: FormValue): (r: string)
    ensures r in AllowedRedirects
    ensures url.Text? && url.value in AllowedRedirects ==> r == url.value
    ensures !(url.Text? && url.value in AllowedRedirects) ==> r == DefaultRedirect
  {
    if url.Text? && url.value in AllowedRedirects then url.value else DefaultRedirect
  }

  /** Validating an already validated target changes nothing. */
  lemma ValidateUrlIdempotent(url: FormValue)
    ensures ValidateUrl(Text(ValidateUrl(url))) == ValidateUrl(url)
  {
  }

  /** `validateUrl(form.get("redirectTo") || "/jokes")`: a missing or empty
      target falls back to the default, and the result is always an allowed
      string (so the later `typeof redirectTo` test never fails). */
  function RedirectTo(redirectTo: FormValue): (r: string)
    ensures r in AllowedRedirects
    ensures redirectTo == Missing || redirectTo == Text("") ==> r == DefaultRedirect
    ensures redirectTo.Text? && redirectTo.value in AllowedRedirects ==> r == redirectTo.value
    ensures !(redirectTo.Text? && redirectTo.value in AllowedRedirects) ==> r == DefaultRedirect
  {
    ValidateUrl(Or(redirectTo, Text(DefaultRedirect)))
  }

  /** The submitted form entries the action reads. */
  datatype LoginForm = LoginForm(loginType: FormValue, username: FormValue, password: FormValue, redirectTo: FormValue)

  /** `fields`: the submitted strings, echoed back on an error. */
  datatype FormFields = FormFields(loginType: string, username: string, password: string)

  /** The route's `ActionData`. */
  datatype ActionData = ActionData(
    formError: Option<string>,
    fieldErrors: Option<map<string, string>>,
    fields: Option<FormFields>)

  /** How the collaborators the action awaits settle: `login(data)` and
      `register(data)` give the user's id or `null`, and
      `db.user.findFirst({ where: { username } })` whether such a user
      exists. `createSession(userId, redirectTo)` is how the promise of
      `createUserSession` settles: the action returns that promise without
      awaiting it, so its rejection escapes the `catch` unchanged. */
  datatype Backend = Backend(
    login: Input -> Settled<Option<string>>,
    findUser: string -> Settled<bool>,
    register: Input -> Settled<Option<string>>,
    createSession: (string, string) -> Settled<()>)

  /** `return createUserSession(userId, redirectTo)`: the session response,
      or the promise's rejection passed through. */
  function OpenSession(backend: Backend, userId: string, redirectTo: string): (r: Outcome<ActionData>)
    ensures backend.createSession(userId, redirectTo).Resolved? ==> r == Return(UserSession(userId, redirectTo))
    ensures backend.createSession(userId, redirectTo).Rejected? ==>
      r == PassThrough(backend.createSession(userId, redirectTo).reason)
  {
    match backend.createSession(userId, redirectTo)
    case Rejected(thrown) => PassThrough(thrown)
    case Resolved(_) => Return(UserSession(userId, redirectTo))
  }

  /** The user that `login` or `register` settled with, if any, leads to a
      session whose promise rejected with `thrown`. */
  predicate SessionRejected(backend: Backend, user: Settled<Option<string>>, redirectTo: string, thrown: string)
  {
    user.Resolved? && user.value.Some? && backend.createSession(user.value.value, redirectTo) == Rejected(thrown)
  }

  /** `loginType`, `username` and `password` are all strings. */
  predicate WellFormed(form: LoginForm)
  {
    form.loginType.Text? && form.username.Text? && form.password.Text?
  }

  /** The record `{ username, password }` handed to the validator. */
  function Credentials(form: LoginForm): (input: Input)
    requires WellFormed(form)
    ensures input.Keys == {"username", "password"}
    ensures input["username"] == form.username.value && input["password"] == form.password.value
  {
    map["username" := form.username.value, "password" := form.password.value]
  }

  function FieldsOf(form: LoginForm): FormFields
    requires WellFormed(form)
  {
    FormFields(form.loginType.value, form.username.value, form.password.value)
  }

  /** The login `action`. Every JSON response it builds is a 400, a session
      is only ever opened towards an allowed target, and it throws only once
      the form is well formed and the credentials have passed validation
      (and passes a rejection through only from a session it opens). */
  function Action(form: LoginForm, backend: Backend): (r: Outcome<ActionData>)
    ensures r.Return? ==> r.response.Json? || r.response.UserSession?
    ensures r.Return? && r.response.Json? ==> r.response.status == 400
    ensures r.Return? && r.response.UserSession? ==> r.response.redirectTo in AllowedRedirects
    ensures r.Raise? ==> WellFormed(form) && FormValidator(User, Credentials(form)).Ok?
    ensures r.PassThrough? ==>
      && WellFormed(form)
      && FormValidator(User, Credentials(form)).Ok?
      && (form.loginType.value == "login" || form.loginType.value == "register")
  {
    var redirectTo := RedirectTo(form.redirectTo);
    if !WellFormed(form) then
      Return(BadRequest(ActionData(Some(FormNotSubmitted), None, None)))
    else
      var fields := FieldsOf(form);
      var username := form.username.value;
      match FormValidator(User, Credentials(form))
      case ZodError(issues) =>
        Return(BadRequest(ActionData(None, Some(ErrorsOf(issues)), Some(fields))))
      case Ok(data) =>
        if form.loginType.value == "login" then
          match backend.login(data)
          case Rejected(reason) => Raise(reason)
          case Resolved(None) =>
            Return(BadRequest(ActionData(Some(IncorrectCredentials), None, Some(fields))))
          case Resolved(Some(id)) => OpenSession(backend, id, redirectTo)
        else if form.loginType.value == "register" then
          match backend.findUser(username)
          case Rejected(reason) => Raise(reason)
          case Resolved(true) =>
            Return(BadRequest(ActionData(Some(UserAlreadyExists(username)), None, Some(fields))))
          case Resolved(false) =>
            match backend.register(data)
            case Rejected(reason) => Raise(reason)
            case Resolved(None) =>
              Return(BadRequest(ActionData(Some(CreateUserFailed), None, Some(fields))))
            case Resolved(Some(id)) => OpenSession(backend, id, redirectTo)
        else
          Return(BadRequest(ActionData(Some(InvalidLoginType), None, Some(fields))))
  }

  /** On success the validated record is the submitted credentials
      unchanged, so `login` and `register` see what the user typed. */
  lemma ValidatedCredentials(form: LoginForm)
    requires WellFormed(form)
    ensures FormValidator(User, Credentials(form)).Ok? ==>
      FormValidator(User, Credentials(form)).data == Credentials(form)
  {
    SchemaFields();
  }

  /** A form whose `loginType`, `username` or `password` is not a string
      gets a bare form error, whatever the collaborators would say. */
  lemma MalformedFormRejected(form: LoginForm, backend: Backend)
    requires !WellFormed(form)
    ensures Action(form, backend) == Return(Json(400, ActionData(Some(FormNotSubmitted), None, None)))
  {
  }

  /** Validation runs before the `loginType` switch: failing credentials
      get the echoed fields and the field errors, for any `loginType` and
      without consulting a collaborator (`UserFieldErrors` says which
      fields the errors name). */
  lemma ValidationFailureRejected(form: LoginForm, backend: Backend)
    requires WellFormed(form)
    requires FormValidator(User, Credentials(form)).ZodError?
    ensures Action(form, backend) == Return(Json(400, ActionData(
      None, Some(ErrorsOf(Issues(User, Credentials(form)))), Some(FieldsOf(form)))))
  {
  }

  /** Valid credentials with a `loginType` other than "login" or
      "register" are refused with the fields echoed. */
  lemma InvalidLoginTypeRejected(form: LoginForm, backend: Backend)
    requires WellFormed(form) && FormValidator(User, Credentials(form)).Ok?
    requires form.loginType.value != "login" && form.loginType.value != "register"
    ensures Action(form, backend) ==
      Return(Json(400, ActionData(Some(InvalidLoginType), None, Some(FieldsOf(form)))))
  {
  }

  /** "login" with no matching user is refused; with one, a session for
      that user is opened towards the validated target. */
  lemma LoginOutcomes(form: LoginForm, backend: Backend)
    requires WellFormed(form) && FormValidator(User, Credentials(form)).Ok?
    requires form.loginType.value == "login"
    ensures backend.login(Credentials(form)) == Resolved(None) ==>
      Action(form, backend) == Return(Json(400, ActionData(Some(IncorrectCredentials), None, Some(FieldsOf(form)))))
    ensures forall id ::
      (backend.login(Credentials(form)) == Resolved(Some(id)) &&
       backend.createSession(id, RedirectTo(form.redirectTo)).Resolved?) ==>
      Action(form, backend) == Return(UserSession(id, RedirectTo(form.redirectTo)))
    ensures forall id, thrown ::
      (backend.login(Credentials(form)) == Resolved(Some(id)) &&
       backend.createSession(id, RedirectTo(form.redirectTo)) == Rejected(thrown)) ==>
      Action(form, backend) == PassThrough(thrown)
  {
    ValidatedCredentials(form);
  }

  /** "register" with a taken username is refused naming it; otherwise the
      user is created and a session opened, or a creation failure is
      reported. */
  lemma RegisterOutcomes(form: LoginForm, backend: Backend)
    requires WellFormed(form) && FormValidator(User, Credentials(form)).Ok?
    requires form.loginType.value == "register"
    ensures backend.findUser(form.username.value) == Resolved(true) ==>
      Action(form, backend) == Return(Json(400, ActionData(
        Some("User with username " + form.username.value + " already exists"), None, Some(FieldsOf(form)))))
    ensures backend.findUser(form.username.value) == Resolved(false) && backend.register(Credentials(form)) == Resolved(None) ==>
      Action(form, backend) == Return(Json(400, ActionData(Some(CreateUserFailed), None, Some(FieldsOf(form)))))
    ensures forall id ::
      (backend.findUser(form.username.value) == Resolved(false) &&
       backend.register(Credentials(form)) == Resolved(Some(id)) &&
       backend.createSession(id, RedirectTo(form.redirectTo)).Resolved?) ==>
      Action(form, backend) == Return(UserSession(id, RedirectTo(form.redirectTo)))
    ensures forall id, thrown ::
      (backend.findUser(form.username.value) == Resolved(false) &&
       backend.register(Credentials(form)) == Resolved(Some(id)) &&
       backend.createSession(id, RedirectTo(form.redirectTo)) == Rejected(thrown)) ==>
      Action(form, backend) == PassThrough(thrown)
  {
    ValidatedCredentials(form);
  }

  /** The action throws exactly when a collaborator it awaited rejected,
      and then with that error's message: such errors are rethrown, never
      turned into a response. */
  lemma CollaboratorErrorsRethrown(form: LoginForm, backend: Backend, reason: string)
    ensures Action(form, backend) == Raise(reason) <==>
      && WellFormed(form)
      && FormValidator(User, Credentials(form)).Ok?
      && (|| (form.loginType.value == "login" && backend.login(Credentials(form)) == Rejected(reason))
          || (form.loginType.value == "register" && backend.findUser(form.username.value) == Rejected(reason))
          || (form.loginType.value == "register" && backend.findUser(form.username.value) == Resolved(false)
              && backend.register(Credentials(form)) == Rejected(reason)))
  {
    if WellFormed(form) {
      ValidatedCredentials(form);
    }
  }

  /** A value passes through the action exactly when the session promise it
      returns rejected with it, after a successful `login` or `register`. */
  lemma SessionRejectionsPassThrough(form: LoginForm, backend: Backend, thrown: string)
    ensures Action(form, backend) == PassThrough(thrown) <==>
      && WellFormed(form)
      && FormValidator(User, Credentials(form)).Ok?
      && (|| (form.loginType.value == "login" &&
              SessionRejected(backend, backend.login(Credentials(form)), RedirectTo(form.redirectTo), thrown))
          || (form.loginType.value == "register" && backend.findUser(form.username.value) == Resolved(false) &&
              SessionRejected(backend, backend.register(Credentials(form)), RedirectTo(form.redirectTo), thrown)))
  {
    if WellFormed(form) {
      ValidatedCredentials(form);
    }
  }
}
