/**
 * Requests end to end: the route's middleware (`isAuth` and the validator
 * chains of `server/routes/feed.js`) runs first, and the controller works on
 * what it hands over. The caller is taken as authenticated.
 */
module Api {
  import opened Wrappers
  import opened Strings
  import opened Validators
  import opened Routing
  import opened FeedRoutes
  import opened FeedModel
  import opened Listing
  import opened Upload
  import opened Feed

  /** A trimmed status that passed validation is never empty, so it can be read back. */
  lemma AcceptedStatusNonEmpty(raw: string)
    requires StatusAccepted(raw)
    ensures Trim(raw) != []
  {
  }

  /**
   * `POST /feed/post`: the post is stored with the trimmed title and content
   * exactly when both are long enough and an image was uploaded.
   */
  method CreatePostRequest(store: FeedStore, caller: UserId, body: map<string, string>, file: Option<StoredFile>, env: Env)
    returns (r: Outcome)
    requires store.Valid()
    modifies store
    ensures store.Valid()
    ensures var title, content := FieldValue(body, "title"), FieldValue(body, "content");
      !PostFieldsAccepted(title, content) ==> r == Fail(422, ValidationFailedMessage) && unchanged(store)
    ensures var title, content := FieldValue(body, "title"), FieldValue(body, "content");
      PostFieldsAccepted(title, content) && file.Some? ==>
        && old(store.clock) !in old(store.posts)
        && store.ids == old(store.ids) + [old(store.clock)]
        && store.posts == old(store.posts)[old(store.clock) :=
             FeedModel.Post(old(store.clock), Trim(title), Trim(content), file.value.Path(), caller, old(store.clock))]
  {
    var route := CreatePostRoute;
    assert route in Routes && route.handler == CreatePost;
    PostValidation(route, caller, body, env);
    var p := Dispatch(route, Some(caller), body, env);
    r := store.CreatePost(caller, p.errors, FieldValue(p.body, "title"), FieldValue(p.body, "content"), file);
  }

  /** The `image` field of a request body, when it is there. */
  function BodyImage(body: map<string, string>): Option<string> {
    if "image" in body then Some(body["image"]) else None
  }

  /**
   * `PUT /feed/post/:postId`: the caller's own post is rewritten with the
   * trimmed title and content exactly when both are long enough and an image
   * URL resolves; a request that fails validation changes nothing.
   */
  method EditPostRequest(store: FeedStore, caller: UserId, postId: PostId, body: map<string, string>,
                         file: Option<StoredFile>, env: Env)
    returns (r: Outcome)
    requires store.Valid()
    modifies store
    ensures store.Valid()
    ensures var title, content := FieldValue(body, "title"), FieldValue(body, "content");
      !PostFieldsAccepted(title, content) ==> r == Fail(422, ValidationFailedMessage) && unchanged(store)
    ensures var title, content := FieldValue(body, "title"), FieldValue(body, "content");
      var url := ResolvedImage(BodyImage(body), file);
      PostFieldsAccepted(title, content) && url != "" && postId in old(store.posts)
      && old(store.posts)[postId].creator in old(store.users) && old(store.posts)[postId].creator == caller ==>
        var q := old(store.posts)[postId].(title := Trim(title), content := Trim(content), imageUrl := url);
        && store.posts == old(store.posts)[postId := q]
        && store.ids == old(store.ids)
        && r == Ok(200, "Updated successfully", OnePost(q))
  {
    var route := EditPostRoute;
    assert route in Routes && route.handler == EditPost;
    PostValidation(route, caller, body, env);
    var p := Dispatch(route, Some(caller), body, env);
    assert BodyImage(p.body) == BodyImage(body);
    r := store.EditPost(caller, postId, p.errors, FieldValue(p.body, "title"), FieldValue(p.body, "content"),
                        BodyImage(p.body), file);
  }

  /** `POST /feed/status`: the trimmed status is stored exactly when its trimmed length is within 5..50. */
  method UpdateStatusRequest(store: FeedStore, caller: UserId, body: map<string, string>, env: Env)
    returns (r: Outcome)
    requires store.Valid()
    modifies store
    ensures store.Valid()
    ensures store.posts == old(store.posts) && store.events == old(store.events)
    ensures var raw := FieldValue(body, "status");
      !StatusAccepted(raw) ==> r == Fail(422, ValidationFailedMessage) && store.users == old(store.users)
    ensures var raw := FieldValue(body, "status");
      StatusAccepted(raw) && caller in old(store.users) ==>
        && r == Ok(200, "Status updated", NoPayload)
        && store.users == old(store.users)[caller := old(store.users)[caller].(status := Trim(raw))]
  {
    var route := UpdateStatusRoute;
    assert route in Routes && route.handler == UpdateStatus;
    StatusValidation(route, caller, body, env);
    var p := Dispatch(route, Some(caller), body, env);
    r := store.UpdateStatus(caller, p.errors, FieldValue(p.body, "status"));
  }

  /** An accepted status update followed by `GET /feed/status` returns the trimmed status. */
  method StatusRoundTrip(store: FeedStore, caller: UserId, body: map<string, string>, env: Env)
    returns (updated: Outcome, read: Outcome)
    requires store.Valid() && caller in store.users
    requires StatusAccepted(FieldValue(body, "status"))
    modifies store
    ensures updated == Ok(200, "Status updated", NoPayload)
    ensures read == Ok(200, "Success retrieving status", StatusText(Trim(FieldValue(body, "status"))))
  {
    updated := UpdateStatusRequest(store, caller, body, env);
    AcceptedStatusNonEmpty(FieldValue(body, "status"));
    read := store.GetStatus(caller);
  }

  /** A post just created is the first entry of page 1 of the listing. */
  method CreateThenList(store: FeedStore, caller: UserId, body: map<string, string>, file: StoredFile, env: Env)
    returns (created: Outcome, listed: Outcome)
    requires store.Valid()
    requires PostFieldsAccepted(FieldValue(body, "title"), FieldValue(body, "content"))
    modifies store
    ensures listed.Ok? && listed.payload.PostsPage? && listed.payload.totalItems == |old(store.posts)| + 1
    ensures |listed.payload.posts| >= 1 && listed.payload.posts[0].id == old(store.clock)
    ensures listed.payload.posts[0].creator == caller
  {
    ghost var c := store.clock;
    ghost var before := store.posts;
    created := CreatePostRequest(store, caller, body, Some(file), env);
    assert |store.posts| == |before| + 1 by {
      assert store.posts.Keys == before.Keys + {c};
    }
    listed := store.GetPosts(None);
    assert store.ids[|store.ids| - 1] == c;
    NewestHeadsFirstPage(store.posts, store.ids);
  }

  /** Deleting one's own post succeeds once; a second attempt finds no post and gets 500. */
  method DeleteTwice(store: FeedStore, caller: UserId, postId: PostId) returns (first: Outcome, second: Outcome)
    requires store.Valid()
    requires postId in store.posts && store.posts[postId].creator == caller
    modifies store
    ensures first == Ok(200, "Successfully deleted", NoPayload)
    ensures second == Fail(500, PostNotFoundMessage)
    ensures postId !in store.posts
  {
    first := store.DeletePost(caller, postId);
    second := store.DeletePost(caller, postId);
  }
}
