/**
 * The routes under `/auth`: sign-up validates e-mail, password and name;
 * login validates nothing. Neither route runs `isAuth`.
 */
module AuthRoutes {
  import opened Wrappers
  import opened Strings
  import opened Validators
  import opened Routing

  datatype AuthHandler = Signup | Login

  const InvalidEmailMessage: string := "Please, enter a valid email"
  const EmailTakenMessage: string := "Email is taken"

  /** `body('email').isEmail().withMessage(...).custom(lookup).normalizeEmail()`. */
  const EmailChain: FieldChain :=
    Body("email", [Validate(IsEmail, InvalidEmailMessage), Validate(EmailNotTaken, EmailTakenMessage), Sanitize(NormalizeEmail)])

  /** `body('password').trim().isLength({min: 5})`. */
  const PasswordChain: FieldChain := Body("password", [Sanitize(TrimSpace), Validate(IsLength(5, None), DefaultMessage)])

  /** `body('name').trim().not().isEmpty()`. */
  const NameChain: FieldChain := Body("name", [Sanitize(TrimSpace), Validate(NotEmpty, DefaultMessage)])

  const SignupRules: seq<FieldChain> := [EmailChain, PasswordChain, NameChain]

  const SignupRoute: Route<AuthHandler> := Route(Put, "/signup", [Validation(SignupRules)], Signup)
  const LoginRoute: Route<AuthHandler> := Route(Post, "/login", [], Login)

  const Routes: seq<Route<AuthHandler>> := [SignupRoute, LoginRoute]

  /** The route that runs `handler`: each handler has exactly one route, and none of them runs `isAuth`. */
  function RouteOf(handler: AuthHandler): (r: Route<AuthHandler>)
    ensures r in Routes && r.handler == handler
    ensures forall q :: q in Routes && q.handler == handler ==> q == r
    ensures IsAuth !in r.middleware
  {
    match handler
    case Signup => SignupRoute
    case Login => LoginRoute
  }

  /** The errors the sign-up chains report, as a reference list in chain order. */
  function SignupErrors(email: string, password: string, name: string, env: Env): seq<FieldError> {
    ((if env.isEmail(email) then [] else [FieldError("email", InvalidEmailMessage)])
     + (if email in env.registeredEmails then [FieldError("email", EmailTakenMessage)] else []))
    + ((if |Trim(password)| >= 5 then [] else [FieldError("password", DefaultMessage)])
       + (if Trim(name) != "" then [] else [FieldError("name", DefaultMessage)]))
  }

  lemma EmailChainRuns(v: string, env: Env)
    ensures RunSteps(EmailChain.steps, "email", v, env)
         == Checked(env.normalizeEmail(v),
                    (if env.isEmail(v) then [] else [FieldError("email", InvalidEmailMessage)])
                    + (if v in env.registeredEmails then [FieldError("email", EmailTakenMessage)] else []))
  {
    var steps := EmailChain.steps;
    assert steps[1..][1..][1..] == [];
    var n := env.normalizeEmail(v);
    assert RunSteps(steps[1..][1..], "email", v, env) == Checked(n, []);
  }

  lemma PasswordChainRuns(v: string, env: Env)
    ensures RunSteps(PasswordChain.steps, "password", v, env)
         == Checked(Trim(v), if |Trim(v)| >= 5 then [] else [FieldError("password", DefaultMessage)])
  {
    TrimThenCheck("password", IsLength(5, None), DefaultMessage, v, env);
  }

  lemma NameChainRuns(v: string, env: Env)
    ensures RunSteps(NameChain.steps, "name", v, env)
         == Checked(Trim(v), if Trim(v) != "" then [] else [FieldError("name", DefaultMessage)])
  {
    TrimThenCheck("name", NotEmpty, DefaultMessage, v, env);
  }

  /** The three sign-up chains, run on `body`. */
  lemma SignupChainsRun(body: map<string, string>, env: Env)
    ensures var email, password, name := FieldValue(body, "email"), FieldValue(body, "password"), FieldValue(body, "name");
      RunChains(SignupRules, body, env)
        == Validated(body["email" := env.normalizeEmail(email)]["password" := Trim(password)]["name" := Trim(name)],
                     SignupErrors(email, password, name, env))
  {
    var email, password, name := FieldValue(body, "email"), FieldValue(body, "password"), FieldValue(body, "name");
    var one := RunSteps(EmailChain.steps, "email", email, env);
    var b1 := body["email" := one.value];
    var two := RunSteps(PasswordChain.steps, "password", password, env);
    var b2 := b1["password" := two.value];
    var three := RunSteps(NameChain.steps, "name", name, env);
    assert RunChains(SignupRules, body, env) == Validated(b2["name" := three.value], one.errors + (two.errors + three.errors)) by {
      assert EmailChain.field == "email" && PasswordChain.field == "password" && NameChain.field == "name";
      assert FieldValue(b1, "password") == password && FieldValue(b2, "name") == name;
      ThreeChains(EmailChain, PasswordChain, NameChain, body, env);
    }
    var e1 := (if env.isEmail(email) then [] else [FieldError("email", InvalidEmailMessage)])
              + (if email in env.registeredEmails then [FieldError("email", EmailTakenMessage)] else []);
    var e2 := if |Trim(password)| >= 5 then [] else [FieldError("password", DefaultMessage)];
    var e3 := if Trim(name) != "" then [] else [FieldError("name", DefaultMessage)];
    assert one == Checked(env.normalizeEmail(email), e1) by {
      EmailChainRuns(email, env);
    }
    assert two == Checked(Trim(password), e2) by {
      PasswordChainRuns(password, env);
    }
    assert three == Checked(Trim(name), e3) by {
      NameChainRuns(name, env);
    }
  }

  /**
   * Sign-up hands the controller the normalised e-mail, the trimmed password
   * and the trimmed name, with exactly the errors of `SignupErrors`; it does
   * not attach a user id.
   */
  lemma SignupValidation(route: Route<AuthHandler>, body: map<string, string>, env: Env)
    requires route in Routes && route.handler == Signup
    ensures var p := Dispatch(route, None, body, env);
      var email, password, name := FieldValue(body, "email"), FieldValue(body, "password"), FieldValue(body, "name");
      && p.Reached? && p.userId == None
      && p.body == body["email" := env.normalizeEmail(email)]["password" := Trim(password)]["name" := Trim(name)]
      && p.errors == SignupErrors(email, password, name, env)
  {
    var v := RunChains(SignupRules, body, env);
    assert Dispatch(route, None, body, env) == Reached(None, v.body, v.errors) by {
      var ms := route.middleware;
      assert ms == [Validation(SignupRules)];
      assert ms[1..] == [];
      assert RunMiddleware(ms[1..], None, None, v.body, [] + v.errors, env) == Reached(None, v.body, v.errors);
    }
    SignupChainsRun(body, env);
  }

  /** Sign-up reports "Email is taken" exactly when some user already has that e-mail. */
  lemma EmailTakenIff(email: string, password: string, name: string, env: Env)
    ensures FieldError("email", EmailTakenMessage) in SignupErrors(email, password, name, env)
        <==> email in env.registeredEmails
  {
    var errs := SignupErrors(email, password, name, env);
    if email !in env.registeredEmails {
      assert forall i :: 0 <= i < |errs| ==> errs[i].msg != EmailTakenMessage;
    }
  }

  /** Sign-up reports "Please, enter a valid email" exactly when the e-mail predicate fails. */
  lemma InvalidEmailIff(email: string, password: string, name: string, env: Env)
    ensures FieldError("email", InvalidEmailMessage) in SignupErrors(email, password, name, env)
        <==> !env.isEmail(email)
  {
    var errs := SignupErrors(email, password, name, env);
    if env.isEmail(email) {
      assert forall i :: 0 <= i < |errs| ==> errs[i].msg != InvalidEmailMessage;
    }
  }

  /** A password shorter than five characters after trimming is rejected, and only then. */
  lemma ShortPasswordIff(email: string, password: string, name: string, env: Env)
    ensures FieldError("password", DefaultMessage) in SignupErrors(email, password, name, env)
        <==> |Trim(password)| < 5
  {
    var errs := SignupErrors(email, password, name, env);
    if |Trim(password)| >= 5 {
      assert forall i :: 0 <= i < |errs| ==> errs[i].param != "password";
    }
  }

  /** A name that is empty after trimming is rejected, and only then. */
  lemma BlankNameIff(email: string, password: string, name: string, env: Env)
    ensures FieldError("name", DefaultMessage) in SignupErrors(email, password, name, env)
        <==> AllWhitespace(name)
  {
    TrimEmptyIff(name);
    var errs := SignupErrors(email, password, name, env);
    if Trim(name) != "" {
      assert forall i :: 0 <= i < |errs| ==> errs[i].param != "name";
    }
  }

  /** Sign-up passes validation exactly when all four rules hold. */
  lemma SignupAcceptedIff(email: string, password: string, name: string, env: Env)
    ensures SignupErrors(email, password, name, env) == []
        <==> env.isEmail(email) && email !in env.registeredEmails && |Trim(password)| >= 5 && Trim(name) != ""
  {
  }

  /** Login has no validators: its body reaches the controller as sent, without errors. */
  lemma LoginUnvalidated(route: Route<AuthHandler>, body: map<string, string>, env: Env)
    requires route in Routes && route.handler == Login
    ensures Dispatch(route, None, body, env) == Reached(None, body, [])
  {
  }
}
