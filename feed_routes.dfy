/** The routes under `/feed`. */
module FeedRoutes {
  import opened Wrappers
  import opened Strings
  import opened Validators
  import opened Routing

  datatype FeedHandler = GetPosts | CreatePost | GetPost | EditPost | DeletePost | GetStatus | UpdateStatus

  /** `body(field).trim().isLength({min: 5})`. */
  function TrimmedAtLeastFive(field: string): FieldChain {
    Body(field, [Sanitize(TrimSpace), Validate(IsLength(5, None), DefaultMessage)])
  }

  /** The chains of POST `/post` and PUT `/post/:postId`. */
  const PostRules: seq<FieldChain> := [TrimmedAtLeastFive("title"), TrimmedAtLeastFive("content")]

  /** `body('status').trim().isString().isLength({min: 5, max: 50})`. */
  const StatusRules: seq<FieldChain> :=
    [Body("status", [Sanitize(TrimSpace), Validate(IsString, DefaultMessage), Validate(IsLength(5, Some(50)), DefaultMessage)])]

  const GetPostsRoute: Route<FeedHandler> := Route(Get, "/posts", [IsAuth], GetPosts)
  const CreatePostRoute: Route<FeedHandler> := Route(Post, "/post", [IsAuth, Validation(PostRules)], CreatePost)
  const GetPostRoute: Route<FeedHandler> := Route(Get, "/post/:postId", [IsAuth], GetPost)
  const EditPostRoute: Route<FeedHandler> := Route(Put, "/post/:postId", [IsAuth, Validation(PostRules)], EditPost)
  const DeletePostRoute: Route<FeedHandler> := Route(Delete, "/post/:postId", [IsAuth], DeletePost)
  const GetStatusRoute: Route<FeedHandler> := Route(Get, "/status", [IsAuth], GetStatus)
  const UpdateStatusRoute: Route<FeedHandler> := Route(Post, "/status", [IsAuth, Validation(StatusRules)], UpdateStatus)

  /** The route table of `/feed`, in the order the router tries it. */
  const Routes: seq<Route<FeedHandler>> := [GetPostsRoute, CreatePostRoute, GetPostRoute, EditPostRoute,
                                            DeletePostRoute, GetStatusRoute, UpdateStatusRoute]

  /** The route that runs `handler`: every handler of the table has exactly one route, guarded by `isAuth`. */
  function RouteOf(handler: FeedHandler): (r: Route<FeedHandler>)
    ensures r in Routes && r.handler == handler
    ensures forall q :: q in Routes && q.handler == handler ==> q == r
    ensures |r.middleware| >= 1 && r.middleware[0] == IsAuth
  {
    match handler
    case GetPosts => GetPostsRoute
    case CreatePost => CreatePostRoute
    case GetPost => GetPostRoute
    case EditPost => EditPostRoute
    case DeletePost => DeletePostRoute
    case GetStatus => GetStatusRoute
    case UpdateStatus => UpdateStatusRoute
  }

  /** The reference rule for a post body: trimmed title and content of at least five characters. */
  predicate PostFieldsAccepted(title: string, content: string) {
    |Trim(title)| >= 5 && |Trim(content)| >= 5
  }

  /** The reference rule for a status: trimmed length between 5 and 50. */
  predicate StatusAccepted(status: string) {
    5 <= |Trim(status)| <= 50
  }

  /** No handler of `/feed` runs for a request that `isAuth` rejects. */
  lemma EveryRouteGuarded(route: Route<FeedHandler>, body: map<string, string>, env: Env)
    requires route in Routes
    ensures Dispatch(route, None, body, env) == Rejected
  {
    assert IsAuth in route.middleware;
  }

  /** An authenticated request reaches its handler with the caller's id attached. */
  lemma AuthenticatedReachesHandler(route: Route<FeedHandler>, caller: nat, body: map<string, string>, env: Env)
    requires route in Routes
    ensures Dispatch(route, Some(caller), body, env).Reached?
    ensures Dispatch(route, Some(caller), body, env).userId == Some(caller)
  {
    assert IsAuth in route.middleware;
  }

  /** Listing, reading, deleting and reading the status validate nothing and leave the body alone. */
  lemma NoBodyValidators(route: Route<FeedHandler>, caller: nat, body: map<string, string>, env: Env)
    requires route in Routes && route.handler in {GetPosts, GetPost, DeletePost, GetStatus}
    ensures Dispatch(route, Some(caller), body, env) == Reached(Some(caller), body, [])
  {
    assert route.middleware == [IsAuth];
    AuthOnly(caller, body, env);
  }

  lemma TrimmedAtLeastFiveRuns(field: string, v: string, env: Env)
    ensures RunSteps(TrimmedAtLeastFive(field).steps, field, v, env)
         == Checked(Trim(v), if |Trim(v)| >= 5 then [] else [FieldError(field, DefaultMessage)])
  {
    TrimThenCheck(field, IsLength(5, None), DefaultMessage, v, env);
  }

  /**
   * Creating and editing a post: the handler sees the trimmed title and
   * content, one error for each of them that is shorter than five characters
   * after trimming, and no other error.
   */
  lemma PostValidation(route: Route<FeedHandler>, caller: nat, body: map<string, string>, env: Env)
    requires route in Routes && route.handler in {CreatePost, EditPost}
    ensures var p := Dispatch(route, Some(caller), body, env);
      var title, content := FieldValue(body, "title"), FieldValue(body, "content");
      && p.Reached? && p.userId == Some(caller)
      && p.body == body["title" := Trim(title)]["content" := Trim(content)]
      && p.errors == (if |Trim(title)| >= 5 then [] else [FieldError("title", DefaultMessage)])
                   + (if |Trim(content)| >= 5 then [] else [FieldError("content", DefaultMessage)])
      && (p.errors == [] <==> PostFieldsAccepted(title, content))
  {
    var r := route;
    var v := RunChains(PostRules, body, env);
    assert Dispatch(r, Some(caller), body, env) == Reached(Some(caller), v.body, v.errors) by {
      assert r.middleware == [IsAuth, Validation(PostRules)];
      AuthThenValidation(PostRules, caller, body, env);
    }
    var title, content := FieldValue(body, "title"), FieldValue(body, "content");
    var b1 := body["title" := Trim(title)];
    var e1 := if |Trim(title)| >= 5 then [] else [FieldError("title", DefaultMessage)];
    var e2 := if |Trim(content)| >= 5 then [] else [FieldError("content", DefaultMessage)];
    assert v == Validated(b1["content" := Trim(content)], e1 + e2) by {
      TwoChains(TrimmedAtLeastFive("title"), TrimmedAtLeastFive("content"), body, env);
      TrimmedAtLeastFiveRuns("title", title, env);
      assert FieldValue(b1, "content") == content;
      TrimmedAtLeastFiveRuns("content", content, env);
    }
  }

  /** A title of four characters after trimming fails, one of five passes, and there is no upper bound. */
  lemma TitleBoundary(title: string, content: string)
    requires |Trim(content)| >= 5
    ensures |Trim(title)| == 4 ==> !PostFieldsAccepted(title, content)
    ensures |Trim(title)| >= 5 ==> PostFieldsAccepted(title, content)
  {
  }

  lemma StatusChainRuns(v: string, env: Env)
    ensures RunSteps(StatusRules[0].steps, "status", v, env)
         == Checked(Trim(v), if StatusAccepted(v) then [] else [FieldError("status", DefaultMessage)])
  {
    var t := Trim(v);
    var steps := StatusRules[0].steps;
    assert steps[1..][1..][1..] == [];
    assert RunSteps(steps[1..][1..][1..], "status", t, env) == Checked(t, []);
    assert RunSteps(steps[1..][1..], "status", t, env)
        == Checked(t, if 5 <= |t| <= 50 then [] else [FieldError("status", DefaultMessage)]);
    assert RunSteps(steps[1..], "status", t, env) == RunSteps(steps[1..][1..], "status", t, env);
  }

  /**
   * Updating the status: the handler sees the trimmed status and exactly one
   * error when its trimmed length is outside 5..50.
   */
  lemma StatusValidation(route: Route<FeedHandler>, caller: nat, body: map<string, string>, env: Env)
    requires route in Routes && route.handler == UpdateStatus
    ensures var p := Dispatch(route, Some(caller), body, env);
      var status := FieldValue(body, "status");
      && p.Reached? && p.userId == Some(caller)
      && p.body == body["status" := Trim(status)]
      && p.errors == (if StatusAccepted(status) then [] else [FieldError("status", DefaultMessage)])
  {
    var r := route;
    var v := RunChains(StatusRules, body, env);
    assert Dispatch(r, Some(caller), body, env) == Reached(Some(caller), v.body, v.errors) by {
      assert r.middleware == [IsAuth, Validation(StatusRules)];
      AuthThenValidation(StatusRules, caller, body, env);
    }
    var status := FieldValue(body, "status");
    var one := RunSteps(StatusRules[0].steps, "status", status, env);
    assert v == Validated(body["status" := one.value], one.errors) by {
      assert StatusRules == [StatusRules[0]];
      OneChain(StatusRules[0], body, env);
    }
    assert one == Checked(Trim(status), if StatusAccepted(status) then [] else [FieldError("status", DefaultMessage)]) by {
      StatusChainRuns(status, env);
    }
  }
}
