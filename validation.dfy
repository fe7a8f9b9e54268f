/** The form-validation layer: the two fixed schemas, `FormValidator`
    (a zod `object(...).parse` over string fields with minimum lengths)
    and `FormValidatorErrors` (the fold of the issue list into a
    field-to-message map). */
module Validation {

  /** JavaScript's `s.length`, which zod's `min` compares: the number of
      UTF-16 code units, so a character outside the Basic Multilingual
      Plane counts twice. */
  function Utf16Length(s: string): (n: nat)
    ensures |s| <= n <= 2 * |s|
  {
    if s == [] then 0 else CodeUnits(s[0]) + Utf16Length(s[1..])
  }

  function CodeUnits(c: char): nat
  {
    if c as int > 0xFFFF then 2 else 1
  }

  /** For text within the Basic Multilingual Plane the JavaScript length is
      the number of characters. */
  lemma {:induction false} Utf16LengthOfBmp(s: string)
    requires forall i :: 0 <= i < |s| ==> s[i] as int <= 0xFFFF
    ensures Utf16Length(s) == |s|
  {
    if s != [] {
      assert forall i :: 0 <= i < |s[1..]| ==> s[1..][i] == s[i + 1];
      Utf16LengthOfBmp(s[1..]);
    }
  }

  /** One field of a schema: `field: z.string().min(min, message)`. */
  datatype Rule = Rule(field: string, min: nat, message: string)

  /** A `z.object({...})` of string fields, in declaration order. */
  type Schema = seq<Rule>

  const Joke: Schema := [
    Rule("name", 5, "Joke name is too short"),
    Rule("content", 10, "Joke content is too short")
  ]

  const User: Schema := [
    Rule("username", 3, "Usernames must be at least 3 characters long"),
    Rule("password", 6, "Passwords must be at least 6 characters long")
  ]

  /** zod's own message for a declared field that is not present. */
  const RequiredMessage: string := "Required"

  /** The `InputFields` record handed to the validator: the fields that are
      present, each with its string value. */
  type Input = map<string, string>

  /** A zod issue of a flat schema: the field it concerns (`path[0]`) and
      its message. */
  datatype Issue = Issue(path: string, message: string)

  /** What `schema.parse(input)` does: return the parsed record, or throw a
      `ZodError` holding its issues. */
  datatype Parsed = Ok(data: map<string, string>) | ZodError(issues: seq<Issue>)

  function Fields(schema: Schema): set<string>
  {
    set k | 0 <= k < |schema| :: schema[k].field
  }

  predicate DistinctFields(schema: Schema)
  {
    forall a, b :: 0 <= a < b < |schema| ==> schema[a].field != schema[b].field
  }

  /** A field passes its rule when it is present and at least `min` long. */
  predicate Passes(rule: Rule, input: Input)
  {
    rule.field in input && Utf16Length(input[rule.field]) >= rule.min
  }

  /** The issue zod reports for a field that does not pass. */
  function IssueFor(rule: Rule, input: Input): (i: Issue)
    ensures i.path == rule.field
    ensures rule.field in input ==> i.message == rule.message
    ensures rule.field !in input ==> i.message == RequiredMessage
  {
    Issue(rule.field, if rule.field in input then rule.message else RequiredMessage)
  }

  /** The issues of every field of `schema`, in declaration order: zod
      checks each field and does not stop at the first failure. */
  function Issues(schema: Schema, input: Input): (issues: seq<Issue>)
    ensures |issues| <= |schema|
    ensures forall k :: 0 <= k < |schema| && !Passes(schema[k], input) ==>
      IssueFor(schema[k], input) in issues
    ensures forall i :: i in issues ==>
      exists k :: 0 <= k < |schema| && !Passes(schema[k], input) && i == IssueFor(schema[k], input)
  {
    if schema == [] then []
    else (if Passes(schema[0], input) then [] else [IssueFor(schema[0], input)]) + Issues(schema[1..], input)
  }

  /** Declaration order: the issues of a schema made of two parts are those
      of the first part followed by those of the second. */
  lemma {:induction false} IssuesOfConcat(a: Schema, b: Schema, input: Input)
    ensures Issues(a + b, input) == Issues(a, input) + Issues(b, input)
  {
    if a != [] {
      assert (a + b)[1..] == a[1..] + b;
      IssuesOfConcat(a[1..], b, input);
    } else {
      assert a + b == b;
    }
  }

  /** `FormValidator(schema, input)`: on success exactly the declared
      fields with their values unchanged; otherwise the non-empty list of
      issues. */
  function FormValidator(schema: Schema, input: Input): (r: Parsed)
    ensures r.Ok? <==> forall k :: 0 <= k < |schema| ==> Passes(schema[k], input)
    ensures r.Ok? ==> r.data.Keys == Fields(schema)
    ensures r.Ok? ==> forall f :: f in r.data ==> f in input && r.data[f] == input[f]
    ensures r.ZodError? ==> r.issues == Issues(schema, input) && r.issues != []
  {
    var issues := Issues(schema, input);
    if issues == [] then
      assert forall k :: 0 <= k < |schema| ==> Passes(schema[k], input);
      Ok(map f | f in Fields(schema) && f in input :: input[f])
    else
      assert issues[0] in issues;
      ZodError(issues)
  }

  /** The restriction of `input` to the keys in `keys`. */
  function Restrict(input: Input, keys: set<string>): (r: Input)
    ensures r.Keys == input.Keys * keys
    ensures forall f :: f in r ==> r[f] == input[f]
  {
    map f | f in input && f in keys :: input[f]
  }

  lemma {:induction false} IssuesIgnoreUndeclared(schema: Schema, input: Input, keys: set<string>)
    requires Fields(schema) <= keys
    ensures Issues(schema, input) == Issues(schema, Restrict(input, keys))
  {
    if schema != [] {
      assert schema[0].field in Fields(schema);
      assert Fields(schema[1..]) <= Fields(schema) by {
        forall f | f in Fields(schema[1..]) ensures f in Fields(schema) {
          var k :| 0 <= k < |schema[1..]| && schema[1..][k].field == f;
          assert schema[k + 1].field == f;
        }
      }
      IssuesIgnoreUndeclared(schema[1..], input, keys);
    }
  }

  /** Schema isolation: the validator looks only at the fields its schema
      declares; anything else in the input makes no difference. */
  lemma FormValidatorIgnoresUndeclared(schema: Schema, input: Input)
    ensures FormValidator(schema, input) == FormValidator(schema, Restrict(input, Fields(schema)))
  {
    IssuesIgnoreUndeclared(schema, input, Fields(schema));
  }

  /** The field names the two schemas declare. */
  lemma SchemaFields()
    ensures Fields(Joke) == {"name", "content"}
    ensures Fields(User) == {"username", "password"}
    ensures DistinctFields(Joke) && DistinctFields(User)
  {
    assert Joke[0].field == "name" && Joke[1].field == "content";
    assert User[0].field == "username" && User[1].field == "password";
  }

  /** Whatever the input, the result speaks only of declared fields. */
  lemma ReportsOnlyDeclaredFields(schema: Schema, input: Input)
    ensures FormValidator(schema, input).Ok? ==> FormValidator(schema, input).data.Keys == Fields(schema)
    ensures FormValidator(schema, input).ZodError? ==>
      forall i :: i in FormValidator(schema, input).issues ==> i.path in Fields(schema)
  {
    var r := FormValidator(schema, input);
    if r.ZodError? {
      forall i | i in r.issues ensures i.path in Fields(schema) {
        var k :| 0 <= k < |schema| && !Passes(schema[k], input) && i == IssueFor(schema[k], input);
      }
    }
  }

  /** Validating against `User` never yields or reports `name` or
      `content`. */
  lemma UserIgnoresJokeFields(input: Input)
    ensures FormValidator(User, input).Ok? ==>
      "name" !in FormValidator(User, input).data && "content" !in FormValidator(User, input).data
    ensures FormValidator(User, input).ZodError? ==>
      forall i :: i in FormValidator(User, input).issues ==> i.path != "name" && i.path != "content"
  {
    SchemaFields();
    ReportsOnlyDeclaredFields(User, input);
  }

  /** Validating against `Joke` never yields or reports `username` or
      `password`. */
  lemma JokeIgnoresUserFields(input: Input)
    ensures FormValidator(Joke, input).Ok? ==>
      "username" !in FormValidator(Joke, input).data && "password" !in FormValidator(Joke, input).data
    ensures FormValidator(Joke, input).ZodError? ==>
      forall i :: i in FormValidator(Joke, input).issues ==> i.path != "username" && i.path != "password"
  {
    SchemaFields();
    ReportsOnlyDeclaredFields(Joke, input);
  }

  /** `Joke` checks `name` against 5 and `content` against 10, reporting
      every failing field with its own message, `name` first. */
  lemma JokeVerdict(input: Input)
    requires "name" in input && "content" in input
    ensures var nameOk := Utf16Length(input["name"]) >= 5;
      var contentOk := Utf16Length(input["content"]) >= 10;
      FormValidator(Joke, input) ==
        if nameOk && contentOk then Ok(map["name" := input["name"], "content" := input["content"]])
        else ZodError((if nameOk then [] else [Issue("name", "Joke name is too short")]) +
                      (if contentOk then [] else [Issue("content", "Joke content is too short")]))
  {
    assert Joke == [Joke[0], Joke[1]];
    IssuesOfPair(Joke[0], Joke[1], input);
    SchemaFields();
  }

  /** `User` checks `username` against 3 and `password` against 6,
      reporting every failing field with its own message, `username`
      first. */
  lemma UserVerdict(input: Input)
    requires "username" in input && "password" in input
    ensures var userOk := Utf16Length(input["username"]) >= 3;
      var passOk := Utf16Length(input["password"]) >= 6;
      FormValidator(User, input) ==
        if userOk && passOk then Ok(map["username" := input["username"], "password" := input["password"]])
        else ZodError((if userOk then [] else [Issue("username", "Usernames must be at least 3 characters long")]) +
                      (if passOk then [] else [Issue("password", "Passwords must be at least 6 characters long")]))
  {
    assert User == [User[0], User[1]];
    IssuesOfPair(User[0], User[1], input);
    SchemaFields();
  }

  /** `Joke` accepts exactly the inputs whose name is at least 5 and whose
      content is at least 10 long; the minimum itself passes. */
  lemma JokeAcceptsIff(input: Input)
    ensures FormValidator(Joke, input).Ok? <==>
      "name" in input && "content" in input &&
      Utf16Length(input["name"]) >= 5 && Utf16Length(input["content"]) >= 10
  {
    assert Passes(Joke[0], input) <==> "name" in input && Utf16Length(input["name"]) >= 5;
    assert Passes(Joke[1], input) <==> "content" in input && Utf16Length(input["content"]) >= 10;
  }

  /** `User` accepts exactly the inputs whose username is at least 3 and
      whose password is at least 6 long; the minimum itself passes. */
  lemma UserAcceptsIff(input: Input)
    ensures FormValidator(User, input).Ok? <==>
      "username" in input && "password" in input &&
      Utf16Length(input["username"]) >= 3 && Utf16Length(input["password"]) >= 6
  {
    assert Passes(User[0], input) <==> "username" in input && Utf16Length(input["username"]) >= 3;
    assert Passes(User[1], input) <==> "password" in input && Utf16Length(input["password"]) >= 6;
  }

  /** A username of exactly three characters passes. */
  lemma UsernameAtMinimumPasses()
    ensures FormValidator(User, map["username" := "abc", "password" := "secret"]) ==
      Ok(map["username" := "abc", "password" := "secret"])
  {
    Utf16LengthOfBmp("abc");
    Utf16LengthOfBmp("secret");
    UserVerdict(map["username" := "abc", "password" := "secret"]);
  }

  /** A username of two characters fails, with the username message only. */
  lemma UsernameBelowMinimumFails()
    ensures FormValidator(User, map["username" := "ab", "password" := "secret"]) ==
      ZodError([Issue("username", "Usernames must be at least 3 characters long")])
  {
    Utf16LengthOfBmp("ab");
    Utf16LengthOfBmp("secret");
    UserVerdict(map["username" := "ab", "password" := "secret"]);
  }

  /** A joke whose name and content are both short is reported on both
      fields, name first. */
  lemma ShortJokeFailsOnBothFields()
    ensures FormValidator(Joke, map["name" := "Hi", "content" := "short"]) ==
      ZodError([Issue("name", "Joke name is too short"), Issue("content", "Joke content is too short")])
  {
    Utf16LengthOfBmp("Hi");
    Utf16LengthOfBmp("short");
    JokeVerdict(map["name" := "Hi", "content" := "short"]);
  }

  /** A joke without content is reported as a missing field, not as a
      crash. */
  lemma JokeWithoutContentFails()
    ensures FormValidator(Joke, map["name" := "Chicken"]) == ZodError([Issue("content", RequiredMessage)])
  {
    var chicken := map["name" := "Chicken"];
    Utf16LengthOfBmp("Chicken");
    assert Joke == [Joke[0], Joke[1]];
    IssuesOfPair(Joke[0], Joke[1], chicken);
  }

  /** The field names an issue list mentions. */
  function Paths(issues: seq<Issue>): set<string>
  {
    set k | 0 <= k < |issues| :: issues[k].path
  }

  /** The reduction in `FormValidatorErrors`, as a left fold: starting from
      an empty object, each issue in turn assigns its message to its
      field. Its keys are exactly the fields the issues name, and each
      value is the message of some issue for that field. */
  function ErrorsOf(issues: seq<Issue>): (errors: map<string, string>)
    ensures errors.Keys == Paths(issues)
    ensures forall f :: f in errors ==> Issue(f, errors[f]) in issues
  {
    if issues == [] then map[]
    else
      var front, last := issues[..|issues| - 1], issues[|issues| - 1];
      assert issues == front + [last];
      assert Paths(issues) == Paths(front) + {last.path} by {
        forall f | f in Paths(issues) ensures f in Paths(front) + {last.path} {
          var k :| 0 <= k < |issues| && issues[k].path == f;
          if k < |front| { assert front[k] == issues[k]; }
        }
        forall f | f in Paths(front) ensures f in Paths(issues) {
          var k :| 0 <= k < |front| && front[k].path == f;
          assert issues[k] == front[k];
        }
      }
      ErrorsOf(front)[last.path := last.message]
  }

  /** Last write wins: a field gets the message of the last issue that
      names it. */
  lemma {:induction false} ErrorsOfLastWins(issues: seq<Issue>, k: nat)
    requires k < |issues|
    requires forall j :: k < j < |issues| ==> issues[j].path != issues[k].path
    ensures issues[k].path in ErrorsOf(issues)
    ensures ErrorsOf(issues)[issues[k].path] == issues[k].message
  {
    var front := issues[..|issues| - 1];
    if k < |issues| - 1 {
      assert front[k] == issues[k];
      forall j | k < j < |front| ensures front[j].path != front[k].path {
        assert front[j] == issues[j];
      }
      ErrorsOfLastWins(front, k);
    }
  }

  /** Of a failed validation against a schema with distinct field names,
      the error map has a key for exactly the failing fields, each with the
      message that field's rule reports. */
  lemma FieldErrorsOfFailure(schema: Schema, input: Input)
    requires DistinctFields(schema)
    ensures var errors := ErrorsOf(Issues(schema, input));
      forall k :: 0 <= k < |schema| ==>
        (schema[k].field in errors <==> !Passes(schema[k], input)) &&
        (schema[k].field in errors ==> errors[schema[k].field] == IssueFor(schema[k], input).message)
  {
    var issues := Issues(schema, input);
    var errors := ErrorsOf(issues);
    forall k | 0 <= k < |schema|
      ensures schema[k].field in errors <==> !Passes(schema[k], input)
      ensures schema[k].field in errors ==> errors[schema[k].field] == IssueFor(schema[k], input).message
    {
      var f := schema[k].field;
      if !Passes(schema[k], input) {
        var j :| 0 <= j < |issues| && issues[j] == IssueFor(schema[k], input);
        assert f in Paths(issues);
      }
      if f in errors {
        assert Issue(f, errors[f]) in issues;
        var k' :| 0 <= k' < |schema| && !Passes(schema[k'], input) && Issue(f, errors[f]) == IssueFor(schema[k'], input);
        assert k' == k;
      }
    }
  }

  /** The issues of a two-field schema: the first field's, then the
      second's. */
  lemma IssuesOfPair(first: Rule, second: Rule, input: Input)
    ensures Issues([first, second], input) ==
      (if Passes(first, input) then [] else [IssueFor(first, input)]) +
      (if Passes(second, input) then [] else [IssueFor(second, input)])
  {
    assert [first, second][1..] == [second];
    assert [second][1..] == [];
  }

  /** The error map of a two-field schema: an entry for each failing
      field, the second field's written last. */
  lemma ErrorsOfPair(first: Rule, second: Rule, input: Input)
    ensures var m1, m2 := IssueFor(first, input).message, IssueFor(second, input).message;
      ErrorsOf(Issues([first, second], input)) ==
        if Passes(first, input) && Passes(second, input) then map[]
        else if Passes(first, input) then map[second.field := m2]
        else if Passes(second, input) then map[first.field := m1]
        else map[first.field := m1][second.field := m2]
  {
    IssuesOfPair(first, second, input);
    var i1, i2 := IssueFor(first, input), IssueFor(second, input);
    ErrorsOfShort(i1, i2);
    ErrorsOfShort(i2, i1);
    if Passes(first, input) && Passes(second, input) {
      assert Issues([first, second], input) == [];
    } else if Passes(first, input) {
      assert Issues([first, second], input) == [i2];
    } else if Passes(second, input) {
      assert Issues([first, second], input) == [i1];
    } else {
      assert Issues([first, second], input) == [i1, i2];
    }
  }

  /** The fold of no, one and two issues. */
  lemma ErrorsOfShort(first: Issue, second: Issue)
    ensures ErrorsOf([]) == map[]
    ensures ErrorsOf([first]) == map[first.path := first.message]
    ensures ErrorsOf([first, second]) == map[first.path := first.message][second.path := second.message]
  {
    assert [first][..0] == [];
    assert [first, second][..1] == [first];
  }

  /** The field errors of a `Joke` validation: one entry per field that is
      too short, holding that field's message, and nothing else. */
  lemma JokeFieldErrors(input: Input)
    requires "name" in input && "content" in input
    ensures var ok1, ok2 := Utf16Length(input["name"]) >= 5, Utf16Length(input["content"]) >= 10;
      ErrorsOf(Issues(Joke, input)) ==
        if ok1 && ok2 then map[]
        else if ok1 then map["content" := "Joke content is too short"]
        else if ok2 then map["name" := "Joke name is too short"]
        else map["name" := "Joke name is too short", "content" := "Joke content is too short"]
  {
    ErrorsOfPair(Joke[0], Joke[1], input);
    assert Joke == [Joke[0], Joke[1]];
  }

  /** The field errors of a `User` validation: one entry per field that is
      too short, holding that field's message, and nothing else. */
  lemma UserFieldErrors(input: Input)
    requires "username" in input && "password" in input
    ensures var ok1, ok2 := Utf16Length(input["username"]) >= 3, Utf16Length(input["password"]) >= 6;
      ErrorsOf(Issues(User, input)) ==
        if ok1 && ok2 then map[]
        else if ok1 then map["password" := "Passwords must be at least 6 characters long"]
        else if ok2 then map["username" := "Usernames must be at least 3 characters long"]
        else map["username" := "Usernames must be at least 3 characters long", "password" := "Passwords must be at least 6 characters long"]
  {
    ErrorsOfPair(User[0], User[1], input);
    assert User == [User[0], User[1]];
  }

  /** `FormValidatorErrors(error)`: the `reduce` over the issues, written as
      the loop it performs over an accumulator. */
  method FormValidatorErrors(issues: seq<Issue>) returns (errors: map<string, string>)
    ensures errors == ErrorsOf(issues)
    ensures errors.Keys == Paths(issues)
  {
    errors := map[];
    var i := 0;
    while i < |issues|
      invariant 0 <= i <= |issues|
      invariant errors == ErrorsOf(issues[..i])
    {
      assert issues[..i + 1][..i] == issues[..i];
      errors := errors[issues[i].path := issues[i].message];
      i := i + 1;
    }
    assert issues[..|issues|] == issues;
  }
}
