/**
 * A route of the router: a verb, a path, the middleware that runs before the
 * controller and the controller itself. `isAuth` is opaque; the model receives
 * what it decided, the caller's user id or nothing.
 */
module Routing {
  import opened Wrappers
  import opened Validators

  datatype Verb = Get | Post | Put | Delete

  datatype Middleware = IsAuth | Validation(chains: seq<FieldChain>)

  datatype Route<H> = Route(verb: Verb, path: string, middleware: seq<Middleware>, handler: H)

  /**
   * Either `isAuth` rejected the request, or the controller is reached with
   * the user id `isAuth` attached, the sanitised body and what
   * `validationResult(req)` reports.
   */
  datatype Pipeline = Rejected | Reached(userId: Option<nat>, body: map<string, string>, errors: seq<FieldError>)

  /** Runs the middleware in order; `auth` is what `isAuth` would decide for this request. */
  function RunMiddleware(ms: seq<Middleware>, auth: Option<nat>, userId: Option<nat>,
                         body: map<string, string>, errors: seq<FieldError>, env: Env): (r: Pipeline)
    ensures auth.Some? ==> r.Reached? && r.userId == if IsAuth in ms then auth else userId
    ensures auth.None? && IsAuth in ms ==> r == Rejected
  {
    if ms == [] then Reached(userId, body, errors)
    else match ms[0]
      case IsAuth =>
        if auth.None? then Rejected
        else RunMiddleware(ms[1..], auth, auth, body, errors, env)
      case Validation(chains) =>
        var v := RunChains(chains, body, env);
        RunMiddleware(ms[1..], auth, userId, v.body, errors + v.errors, env)
  }

  /** `isAuth` alone hands the body over untouched. */
  lemma AuthOnly(caller: nat, body: map<string, string>, env: Env)
    ensures RunMiddleware([IsAuth], Some(caller), None, body, [], env) == Reached(Some(caller), body, [])
  {
    assert [IsAuth][1..] == [];
  }

  /** `isAuth` followed by one list of chains hands over what the chains produce. */
  lemma AuthThenValidation(chains: seq<FieldChain>, caller: nat, body: map<string, string>, env: Env)
    ensures var v := RunChains(chains, body, env);
      RunMiddleware([IsAuth, Validation(chains)], Some(caller), None, body, [], env)
        == Reached(Some(caller), v.body, v.errors)
  {
    var ms := [IsAuth, Validation(chains)];
    assert ms[1..] == [Validation(chains)];
    assert ms[1..][1..] == [];
    var v := RunChains(chains, body, env);
    assert RunMiddleware(ms[1..], Some(caller), Some(caller), body, [], env)
        == RunMiddleware([], Some(caller), Some(caller), v.body, [] + v.errors, env);
    assert [] + v.errors == v.errors;
  }

  /** What the controller of `route` sees for a request carrying `body`. */
  function Dispatch<H>(route: Route<H>, auth: Option<nat>, body: map<string, string>, env: Env): Pipeline {
    RunMiddleware(route.middleware, auth, None, body, [], env)
  }
}
