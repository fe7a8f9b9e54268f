# Remix Jokes: form validation and action decisions

This project models the form-validation layer of the Remix Jokes board and the
request-decision logic of the two actions that use it.

- **Validation** (`validation.dfy`) covers the two fixed schemas, `Joke` and
  `User`. Each field has one minimum-length rule with a fixed message.
  `FormValidator` parses an input record against a schema. It returns either
  the record holding only the schema's fields, or a `ZodError` with the ordered
  list of issues. `FormValidatorErrors` folds an issue list into a map from
  field name to message, and a later issue for the same field overwrites an
  earlier one. The fold is given twice: as the function `ErrorsOf` and as the
  loop the `reduce` performs (the method `FormValidatorErrors`), which is
  proved equal to it.
- **Login** (`login.dfy`) covers the redirect allow-list `validateUrl` and the
  login `action`. The action checks, in fixed order: the form's shape, the
  `User` validation, the `loginType` switch, and then the results of the
  database and session helpers.
- **NewJoke** (`new_joke.dfy`) covers the new-joke `action`: a shape check,
  the signed-in user, `Joke` validation, and then either the failure payload
  or the record passed to `db.joke.create`.
- **Remix** (`remix.dfy`) and **Wrappers** (`wrappers.dfy`) hold the few
  framework shapes the actions use. These are form entries (missing, string,
  or `File`), JavaScript truthiness for `||`, the responses an action returns,
  `badRequest`, and how an awaited promise settles.

Each action is a pure function. The external collaborators are passed in as
values or functions that say how each of their promises settles. Those
collaborators are `login`, `register`, `db.user.findFirst`, `requireUserId`,
`db.joke.create` and `createUserSession`. An error thrown inside an action's
`try` block is not a `ZodError`, so it is rethrown as a new error with its
message alone. The model writes this as `Raise(message)`. A value thrown
outside the `try` (by `requireUserId` in the new-joke action) leaves the action
unchanged; the model writes this as `PassThrough(thrown)`. So does a rejection
of the promise from `createUserSession` in the login action: it is returned
from inside the `try` without `await` (app/routes/login.tsx:83 and 105), so the
`catch` never sees it.

Some modelling decisions:

- **String length.** Zod's `min` compares JavaScript's `length`, which counts
  UTF-16 code units. Dafny strings count Unicode scalar values, so the model
  measures length with `Utf16Length`. A character outside the Basic
  Multilingual Plane therefore counts twice, exactly as in the source.
  `Utf16LengthOfBmp` shows that for other text this is just the number of
  characters.
- **Missing fields.** A declared field that is absent from the input gets an
  issue carrying zod's own "Required" message (`RequiredMessage`), not the
  field's too-short message: zod reports an absent field as an invalid type.
  Both callers check with `typeof` first, so the actions never reach this
  case.
- **Repeated fields.** The `reduce` in `FormValidatorErrors` is
  last-write-wins, so a field named twice in the issue list keeps its last
  message (`ErrorsOfLastWins`).
- **`redirectTo` check.** In the login action, `redirectTo` is always one of
  the allowed strings (`RedirectTo`), so its `typeof` test can never fail. The
  model therefore checks only the other three fields.
- **requireUserId before validation.** In the new-joke action,
  `requireUserId` runs outside the `try` block and before validation. A
  visitor who is not signed in therefore gets what `requireUserId` throws,
  unchanged, even for an invalid joke (`UserRequiredBeforeValidation`).
- **Determinism.** Validation is deterministic and stateless by construction.
  Every operation is a function except `FormValidatorErrors`, a method that
  modifies nothing and whose result is fixed by its `ensures` to
  `ErrorsOf(issues)`. `Joke`, `User` and the allow-list are `const`s that
  nothing can change.

## Model

| member | source | states |
|---|---|---|
| `Validation.Utf16Length` | app/utils/validation.ts:24-30 | the JavaScript length that `min` compares lies between the character count and twice it |
| `Validation.Utf16LengthOfBmp` | app/utils/validation.ts:24-30 | for text within the Basic Multilingual Plane, that length is the number of characters |
| `Validation.IssueFor` | app/utils/validation.ts:24-30 | a failing field's issue names that field and carries the rule's message when the field is present, zod's `RequiredMessage` when it is absent (a field fails when `Passes` does not hold: absent, or shorter than the rule's minimum) |
| `Validation.Issues` | app/utils/validation.ts:33-38 | every failing field has its issue in the list, every listed issue belongs to a failing declared field, and there are no more issues than declared fields |
| `Validation.IssuesOfConcat` | app/utils/validation.ts:33-38 | issues follow declaration order: the issues of a schema `a + b` are those of `a` followed by those of `b` |
| `Validation.FormValidator` | app/utils/validation.ts:33-38 | parsing succeeds iff every declared field passes; on success the record has exactly the declared fields with their input values unchanged; otherwise it returns the non-empty issue list |
| `Validation.FormValidatorIgnoresUndeclared` | app/utils/validation.ts:33-38 | the result depends only on the declared fields of the input |
| `Validation.ReportsOnlyDeclaredFields` | app/utils/validation.ts:33-38 | the record and the issues mention declared fields only |
| `Validation.SchemaFields` | app/utils/validation.ts:23-31 | `Joke` declares exactly `name` and `content`, and `User` declares exactly `username` and `password`, each with distinct field names |
| `Validation.UserIgnoresJokeFields` | app/utils/validation.ts:28-38 | validating against `User` never yields or reports `name` or `content` |
| `Validation.JokeIgnoresUserFields` | app/utils/validation.ts:23-38 | validating against `Joke` never yields or reports `username` or `password` |
| `Validation.JokeVerdict` | app/utils/validation.ts:23-26 | the exact `Joke` result for string inputs: the record `{name, content}`, or one issue per failing field with its literal message, `name` first |
| `Validation.UserVerdict` | app/utils/validation.ts:28-31 | the exact `User` result for string inputs: the record `{username, password}`, or one issue per failing field with its literal message, `username` first |
| `Validation.JokeAcceptsIff` | app/utils/validation.ts:23-26 | `Joke` accepts iff `name` and `content` are present with lengths at least 5 and 10 |
| `Validation.UserAcceptsIff` | app/utils/validation.ts:28-31 | `User` accepts iff `username` and `password` are present with lengths at least 3 and 6 |
| `Validation.UsernameAtMinimumPasses` | app/utils/validation.ts:29 | the boundary passes: username "abc" is accepted and returned unchanged |
| `Validation.UsernameBelowMinimumFails` | app/utils/validation.ts:29 | username "ab" fails with only "Usernames must be at least 3 characters long" |
| `Validation.ShortJokeFailsOnBothFields` | app/utils/validation.ts:24-25 | name "Hi" with content "short" gives both issues, with their messages, in declaration order |
| `Validation.JokeWithoutContentFails` | app/utils/validation.ts:23-26 | a joke with no `content` gives one missing-field issue for `content`, not a crash |
| `Validation.ErrorsOf` | app/utils/validation.ts:40-46 | the folded map's keys are exactly the fields named in the issues (so an empty list gives an empty map), and each value is the message of an issue for that field |
| `Validation.ErrorsOfLastWins` | app/utils/validation.ts:41-44 | a field's value in the map is the message of the last issue that names it |
| `Validation.FieldErrorsOfFailure` | app/utils/validation.ts:40-46 | for a schema with distinct fields, the error map of a failed validation has a key for exactly the failing fields, each holding that field's message |
| `Validation.IssuesOfPair` | app/utils/validation.ts:33-38 | a two-field schema reports the first field's issue (if it fails) and then the second's |
| `Validation.ErrorsOfPair` | app/utils/validation.ts:40-46 | the error map of a two-field schema has an entry for each failing field with its issue's message, the second field written last |
| `Validation.JokeFieldErrors` | app/utils/validation.ts:23-26 | the `Joke` error map has "name" -> "Joke name is too short" iff the name is shorter than 5, "content" -> "Joke content is too short" iff the content is shorter than 10, and nothing else |
| `Validation.UserFieldErrors` | app/utils/validation.ts:28-31 | the `User` error map has the username message iff the username is shorter than 3, the password message iff the password is shorter than 6, and nothing else |
| `Validation.FormValidatorErrors` | app/utils/validation.ts:40-46 | the accumulator loop computes exactly the fold `ErrorsOf`, and its keys are the fields the issues name |
| `Remix.Or` | app/routes/login.tsx:56 | `v \|\| fallback` is `fallback` when `v` is missing or the empty string, and `v` itself when it is a `File` or a non-empty string |
| `Remix.BadRequest` | app/routes/login.tsx:48-50 | a `badRequest` response has status 400 and carries the given data unchanged |
| `Login.ValidateUrl` | app/routes/login.tsx:39-46 | the result is always on the allow-list; an allowed url is returned itself and any other value gives "/jokes" |
| `Login.ValidateUrlIdempotent` | app/routes/login.tsx:41-45 | validating an already validated url changes nothing |
| `Login.RedirectTo` | app/routes/login.tsx:56 | a missing or empty `redirectTo` becomes "/jokes"; the target is always an allowed string |
| `Login.Credentials` | app/routes/login.tsx:69 | exactly `username` and `password` are handed to the validator, with the submitted values (for a form where `WellFormed`, the `typeof` guard of lines 58-63, holds) |
| `Login.Action` | app/routes/login.tsx:51-123 | every JSON response is a 400 (the messages include `UserAlreadyExists(username)` of line 92 and the echoed `FieldsOf(form)` of line 66), a session is opened only towards an allowed target, the action throws only after the form is well formed and the credentials have passed validation, and a value passes through unchanged only under "login" or "register" |
| `Login.ValidatedCredentials` | app/routes/login.tsx:69 | the data given to `login` and `register` is the submitted username and password, unchanged |
| `Login.MalformedFormRejected` | app/routes/login.tsx:58-65 | a non-string `loginType`, `username` or `password` gives a 400 with only "Form not submitted correctly." |
| `Login.ValidationFailureRejected` | app/routes/login.tsx:69-119 | failing credentials give a 400 with the fields echoed and `fieldErrors` equal to the fold of the issues, whatever the `loginType` and without any collaborator (see `Validation.UserFieldErrors` for which fields the map names) |
| `Login.InvalidLoginTypeRejected` | app/routes/login.tsx:107-112 | valid credentials with a `loginType` other than "login" or "register" give a 400 "Login type invalid" with the fields echoed |
| `Login.LoginOutcomes` | app/routes/login.tsx:72-84 | "login" with no matching user gives a 400 "Username/Password combination is incorrect"; with a matching user it opens that user's session towards the validated target, or passes the session promise's rejection through |
| `Login.RegisterOutcomes` | app/routes/login.tsx:85-106 | "register" with a taken username gives a 400 "User with username <username> already exists"; a null from `register` gives a 400 "Something goes wrong when creating user"; a new user gets a session, or the session promise's rejection passes through |
| `Login.CollaboratorErrorsRethrown` | app/routes/login.tsx:114-121 | the action raises a new error exactly when a collaborator it awaited inside the `try` rejected, and with that error's message |
| `Login.OpenSession` | app/routes/login.tsx:83 | `return createUserSession(id, redirectTo)` gives the session response, or passes the promise's rejection through unchanged |
| `Login.SessionRejectionsPassThrough` | app/routes/login.tsx:83-105 | a value passes through the action exactly when, after a successful `login` or `register`, the returned session promise rejected with it |
| `NewJoke.Submitted` | app/routes/jokes/new.tsx:49 | exactly `{name, content}` are handed to the validator, with the submitted values (for a form where `WellFormed`, the `typeof` guard of line 43, holds) |
| `NewJoke.NewJokeRecord` | app/routes/jokes/new.tsx:50-52 | the created record is the validated data plus `jokesterId` set to the user's id |
| `NewJoke.Action` | app/routes/jokes/new.tsx:38-64 | a JSON response is returned iff the form is malformed, and it is a 400; a redirect always goes to "/jokes/…"; a value passes through unchanged iff the form is well formed and `requireUserId` threw it; a new error is raised only after `requireUserId` succeeded |
| `NewJoke.MalformedFormRejected` | app/routes/jokes/new.tsx:43-45 | a non-string `name` or `content` gives a 400 "Form not submitted correctly.", decided before the user or the database is consulted |
| `NewJoke.UserRequiredBeforeValidation` | app/routes/jokes/new.tsx:43-49 | what `requireUserId` throws passes through the action unchanged (`PassThrough`), even for an invalid joke |
| `NewJoke.ValidationFailureReturned` | app/routes/jokes/new.tsx:55-61 | a failing joke gives a plain object (not a `badRequest`) with `fieldValues` equal to the submitted name and content and `fieldErrors` equal to the fold of the issues, and nothing is created (see `Validation.JokeFieldErrors` for which fields the map names) |
| `NewJoke.ValidJokeCreated` | app/routes/jokes/new.tsx:49-62 | a valid joke is created as `{name, content, jokesterId}` and the action redirects to "/jokes/<id>", or raises a new error with the database error's message (`Raise`) |

## Left out

- The unused `parse` helper (app/utils/validation.ts:11-21), because nothing calls it.
- The internals of zod. Only the minimum-length check, the missing-field issue and the order of the issue list are modelled. The text of zod's missing-field message (`RequiredMessage`) comes from zod, is not in the source, and no property depends on it.
- Issue paths with more than one segment. The schemas are flat, so an issue's `path[0]` is modelled as a single field name.
- The key order of the JavaScript error object. A Dafny `map` has no order, and the code that reads the object looks fields up by name.
- JavaScript objects treating names such as `__proto__` as special when `acc[issue.path[0]]` is assigned. No schema declares such a field.
- The database and session code (`db.user.findFirst`, `db.joke.create`, `login`, `register`, `requireUserId`, `createUserSession` in `session.server`, which is not part of this model). Each is a parameter saying how its promise settles. The response `createUserSession` resolves to is the opaque `UserSession(userId, redirectTo)`.
- A collaborator that throws a `ZodError` itself. The model assumes collaborator errors are never `ZodError`s, so they are always rethrown.
- The status code the framework gives the plain object that the new-joke action returns on a validation failure. The model keeps it as `Plain(data)`.
- The `console.log` in `validateUrl`, and `async`/`await` sequencing, because they are I/O and scheduling.
- Reading the form body (`request.formData()`, `Object.fromEntries`, `form.get`), which is framework code. Its results are the `FormValue` inputs.
- The loaders, `meta`, `links`, the error and catch boundaries, and every React component, because they are UI markup or ORM queries.
- The random joke selection in app/routes/jokes/index.tsx, because it is randomness plus database access.
