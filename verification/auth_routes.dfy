/** The authentication routes: each body schema runs before its controller. */
module AuthRoutes {
  import opened Wrappers
  import opened Text
  import opened Environment
  import opened Schema
  import opened Responses
  import opened AuthController

  const RegisterKeys: set<string> := {"name", "email", "password"}
  const LoginKeys: set<string> := {"email", "password"}
  const NameMax: nat := 80
  const PasswordMin: nat := 6
  const PasswordMax: nat := 72

  /** Register: name absent, "" or at most 80 characters; e-mail present and
      well formed; password of 6..72 characters; nothing else. */
  ghost predicate RegisterAccepts(e: Env, b: Body) {
    && b.Keys <= RegisterKeys
    && ("name" in b ==> b["name"].Text? && JsLength(b["name"].s) <= NameMax)
    && "email" in b && b["email"].Text? && b["email"].s != "" && e.isEmail(b["email"].s)
    && "password" in b && b["password"].Text? && PasswordMin <= JsLength(b["password"].s) <= PasswordMax
  }

  /** Login: the same e-mail and password rules, and no name. */
  ghost predicate LoginAccepts(e: Env, b: Body) {
    && b.Keys <= LoginKeys
    && "email" in b && b["email"].Text? && b["email"].s != "" && e.isEmail(b["email"].s)
    && "password" in b && b["password"].Text? && PasswordMin <= JsLength(b["password"].s) <= PasswordMax
  }

  function CredentialErrors(e: Env, b: Body): seq<FieldError> {
    EmailErrors("email", Get(b, "email"), e.isEmail)
    + StringErrors("password", Get(b, "password"), true, false, PasswordMin, PasswordMax)
  }

  function ValidateRegister(e: Env, b: Body): (errs: seq<FieldError>)
    ensures errs == [] <==> RegisterAccepts(e, b)
  {
    StringErrors("name", Get(b, "name"), false, true, 0, NameMax) + CredentialErrors(e, b)
    + UnknownKeyErrors(b, RegisterKeys)
  }

  function ValidateLogin(e: Env, b: Body): (errs: seq<FieldError>)
    ensures errs == [] <==> LoginAccepts(e, b)
  {
    CredentialErrors(e, b) + UnknownKeyErrors(b, LoginKeys)
  }

  /** A body that logs in is also a body that registers (with the default name). */
  lemma LoginBodyRegisters(e: Env, b: Body)
    requires ValidateLogin(e, b) == []
    ensures ValidateRegister(e, b) == []
  {
  }

  /** A login body that names the user is refused. */
  lemma LoginRefusesName(e: Env, b: Body)
    requires "name" in b
    ensures ValidateLogin(e, b) != []
  {
  }

  datatype AuthRoute = RegisterRoute | LoginRoute

  /** One request through its route: the schema first, the controller only for
      an accepted body. `freshId` is the identifier the store assigns to a new user. */
  function HandleAuthRequest(e: Env, users: Users, route: AuthRoute, b: Body, freshId: string)
    : (out: (Users, Outcome))
    ensures route.RegisterRoute? && ValidateRegister(e, b) != [] ==> out == (users, SchemaRejected(ValidateRegister(e, b)))
    ensures route.LoginRoute? && ValidateLogin(e, b) != [] ==> out == (users, SchemaRejected(ValidateLogin(e, b)))
    ensures route.RegisterRoute? && ValidateRegister(e, b) == [] ==>
      var (users', r) := Register(e, users, TextOf(Get(b, "name")), b["email"].s, b["password"].s, freshId);
      out == (users', Reply(r))
    ensures route.LoginRoute? && ValidateLogin(e, b) == [] ==>
      out == (users, Reply(Login(e, users, b["email"].s, b["password"].s)))
  {
    match route
    case RegisterRoute =>
      var errs := ValidateRegister(e, b);
      if errs != [] then (users, SchemaRejected(errs))
      else
        var (users', r) := Register(e, users, TextOf(Get(b, "name")), b["email"].s, b["password"].s, freshId);
        (users', Reply(r))
    case LoginRoute =>
      var errs := ValidateLogin(e, b);
      if errs != [] then (users, SchemaRejected(errs))
      else (users, Reply(Login(e, users, b["email"].s, b["password"].s)))
  }
}
