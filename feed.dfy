/**
 * The feed controller of `server/controllers/feed.js` over an in-memory
 * stand-in for the document store. Each handler is a method that returns the
 * response it sends, or the error it passes on with the status its catch
 * block gives it; broadcasting appends to `events` and unlinking an image
 * appends its path to `deletedFiles`.
 */
module Feed {
  import opened Wrappers
  import opened FeedModel
  import opened Listing
  import opened Socket
  import opened Upload
  import opened Validators

  /**
   * `imageUrl` in `editPost`: the uploaded file's path when there is one,
   * otherwise the `image` field of the body; a missing field reads as "",
   * which is as falsy as an empty one.
   */
  function ResolvedImage(bodyImage: Option<string>, file: Option<StoredFile>): string {
    if file.Some? then file.value.Path()
    else if bodyImage.Some? then bodyImage.value
    else ""
  }

  /** The URL is missing exactly when there is no upload and the body names no image. */
  lemma ResolvedImageMissing(bodyImage: Option<string>, file: Option<StoredFile>)
    ensures ResolvedImage(bodyImage, file) == "" <==> file.None? && (bodyImage.None? || bodyImage.value == "")
    ensures file.Some? ==> ResolvedImage(bodyImage, file) == file.value.Path()
    ensures file.None? && bodyImage.Some? ==> ResolvedImage(bodyImage, file) == bodyImage.value
  {
    if file.Some? {
      PathUnderImages(file.value);
    }
  }

  class FeedStore {
    /** The `posts` collection, by id. */
    var posts: map<PostId, Post>
    /** The ids of the stored posts, oldest first. */
    var ids: seq<PostId>
    /** The `users` collection, by id. */
    var users: map<UserId, User>
    /** The next creation time; also the next post id. */
    var clock: nat
    /** Every payload emitted on the `posts` channel, in order. */
    var events: seq<Event>
    /** Every image path handed to `deleteFile`, in order. */
    var deletedFiles: seq<string>
    /** The socket module the handlers broadcast through. */
    const hub: SocketRegistry

    ghost predicate Valid()
      reads this`posts, this`ids, this`users, this`clock
    {
      StoreInvariant(posts, ids, users, clock)
    }

    /** A store with the given users, none of whom has a post yet. */
    constructor (users0: map<UserId, User>, hub: SocketRegistry)
      requires forall u :: u in users0 ==> users0[u].posts == []
      ensures Valid()
      ensures posts == map[] && ids == [] && users == users0 && clock == 0
      ensures events == [] && deletedFiles == [] && this.hub == hub
    {
      posts := map[];
      ids := [];
      users := users0;
      clock := 0;
      events := [];
      deletedFiles := [];
      this.hub := hub;
    }

    /** `deleteFile(path)`: schedules the image for unlinking. */
    method DeleteFile(path: string)
      modifies this
      ensures deletedFiles == old(deletedFiles) + [path]
      ensures posts == old(posts) && ids == old(ids) && users == old(users)
      ensures clock == old(clock) && events == old(events)
    {
      deletedFiles := deletedFiles + [path];
    }

    /**
     * `getPosts`: page `page` (1 when absent) of all posts, newest first, two
     * per page, with the number of all stored posts. Changes nothing.
     */
    method GetPosts(page: Option<nat>) returns (r: Outcome)
      requires Valid()
      requires page.Some? ==> page.value >= 1
      ensures r.Ok? && r.status == 200 && r.message == "Retrieving posts success"
      ensures r.payload == PostsPage(Page(NewestFirst(posts, ids), PageNumber(page)), |posts|)
      ensures |r.payload.posts| <= PerPage && r.payload.totalItems == |posts|
      ensures Descending(r.payload.posts)
      ensures forall p :: p in r.payload.posts ==> p in posts.Values
    {
      var k := PageNumber(page);
      PageOfStore(posts, ids, k);
      r := Ok(200, "Retrieving posts success", PostsPage(Page(NewestFirst(posts, ids), k), |posts|));
    }

    /**
     * `createPost`: with validation errors or without an uploaded image it
     * answers 422 and changes nothing. Otherwise it saves the post (creator
     * the caller, image the upload's path), appends it to the caller's list
     * and emits one `create` event. A caller without a user record gets 500
     * with the post already saved; a socket that is not initialised gets 500
     * after both saves.
     */
    method CreatePost(caller: UserId, errors: seq<FieldError>, title: string, content: string, file: Option<StoredFile>)
      returns (r: Outcome)
      requires Valid()
      modifies this
      ensures Valid()
      ensures deletedFiles == old(deletedFiles)
      ensures errors != [] ==> r == Fail(422, ValidationFailedMessage) && unchanged(this)
      ensures errors == [] && file.None? ==> r == Fail(422, NoImageMessage) && unchanged(this)
      ensures errors == [] && file.Some? ==>
        var p := Post(old(clock), title, content, file.value.Path(), caller, old(clock));
        && p.id !in old(posts)
        && posts == old(posts)[p.id := p] && ids == old(ids) + [p.id] && clock == old(clock) + 1
        && (caller !in old(users) ==>
              r == Fail(500, NullRecordMessage) && users == old(users) && events == old(events))
        && (caller in old(users) ==>
              var u := old(users)[caller];
              && users == old(users)[caller := u.(posts := u.posts + [p.id])]
              && (hub.io.Some? ==>
                    && r == Ok(201, "Post created successfully", PostCreated(p, caller, u.name))
                    && events == old(events) + [Created(p, caller, u.name)])
              && (hub.io.None? ==> r == Fail(500, UninitializedMessage) && events == old(events)))
    {
      if errors != [] {
        return Catch(Thrown(ValidationFailedMessage, Some(422)));
      }
      if file.None? {
        return Catch(Thrown(NoImageMessage, Some(422)));
      }
      PathUnderImages(file.value);
      r := SaveNewPost(Post(clock, title, content, file.value.Path(), caller, clock));
    }

    /**
     * The tail of `createPost`: saves the post, then pushes it on its
     * creator's list, then emits one `create` event and answers 201. A
     * missing creator record stops it after the first save, an uninitialised
     * socket after the second.
     */
    method SaveNewPost(p: Post) returns (r: Outcome)
      requires Valid()
      requires p.id == clock && p.createdAt == clock && p.imageUrl != ""
      modifies this
      ensures Valid()
      ensures p.id !in old(posts)
      ensures posts == old(posts)[p.id := p] && ids == old(ids) + [p.id] && clock == old(clock) + 1
      ensures deletedFiles == old(deletedFiles)
      ensures p.creator !in old(users) ==>
        r == Fail(500, NullRecordMessage) && users == old(users) && events == old(events)
      ensures p.creator in old(users) ==>
        users == old(users)[p.creator := old(users)[p.creator].(posts := old(users)[p.creator].posts + [p.id])]
      ensures p.creator in old(users) && hub.io.Some? ==>
        && r == Ok(201, "Post created successfully", PostCreated(p, p.creator, old(users)[p.creator].name))
        && events == old(events) + [Created(p, p.creator, old(users)[p.creator].name)]
      ensures p.creator in old(users) && hub.io.None? ==>
        r == Fail(500, UninitializedMessage) && events == old(events)
    {
      CreateKeeps(posts, ids, users, clock, p);
      posts := posts[p.id := p];
      ids := ids + [p.id];
      clock := clock + 1;
      if p.creator !in users {
        return Catch(Thrown(NullRecordMessage, None));
      }
      var u := users[p.creator];
      users := users[p.creator := u.(posts := u.posts + [p.id])];
      var handle := hub.GetIO();
      if handle.Failure? {
        return Catch(Thrown(handle.error, None));
      }
      events := events + [Created(p, p.creator, u.name)];
      r := Ok(201, "Post created successfully", PostCreated(p, p.creator, u.name));
    }

    /** `getPost`: the stored post, or 404. Changes nothing. */
    method GetPost(postId: PostId) returns (r: Outcome)
      requires Valid()
      ensures postId in posts ==> r == Ok(200, "Retrieving post success", OnePost(posts[postId]))
      ensures postId !in posts ==> r == Fail(404, PostNotFoundMessage)
      ensures r.Ok? ==> r.payload.post in posts.Values && r.payload.post.id == postId
    {
      if postId !in posts {
        return Catch(Thrown(PostNotFoundMessage, Some(404)));
      }
      r := Ok(200, "Retrieving post success", OnePost(posts[postId]));
    }

    /**
     * `editPost`: 422 for validation errors, then 422 when no image URL can
     * be resolved, both before the post is looked up; 500 for a missing post
     * (its error carries no status) or a post whose creator has no user
     * record; 403 when the caller is not the creator. All of these change
     * nothing. Otherwise the old image is scheduled for deletion only when
     * the URL changed, title, content and image are overwritten, and one
     * `update` event is emitted once the socket is initialised; the client
     * has its 200 either way.
     */
    method EditPost(caller: UserId, postId: PostId, errors: seq<FieldError>, title: string, content: string,
                    bodyImage: Option<string>, file: Option<StoredFile>)
      returns (r: Outcome)
      requires Valid()
      modifies this
      ensures Valid()
      ensures ids == old(ids) && users == old(users) && clock == old(clock)
      ensures errors != [] ==> r == Fail(422, ValidationFailedMessage) && unchanged(this)
      ensures var url := ResolvedImage(bodyImage, file);
        errors == [] && url == "" ==> r == Fail(422, NoImageMessage) && unchanged(this)
      ensures var url := ResolvedImage(bodyImage, file);
        errors == [] && url != "" && postId !in old(posts) ==>
          r == Fail(500, PostNotFoundMessage) && unchanged(this)
      ensures var url := ResolvedImage(bodyImage, file);
        errors == [] && url != "" && postId in old(posts) && old(posts)[postId].creator !in old(users) ==>
          r == Fail(500, NullRecordMessage) && unchanged(this)
      ensures var url := ResolvedImage(bodyImage, file);
        errors == [] && url != "" && postId in old(posts) && old(posts)[postId].creator in old(users)
        && old(posts)[postId].creator != caller ==>
          r == Fail(403, NotAuthorizedMessage) && unchanged(this)
      ensures var url := ResolvedImage(bodyImage, file);
        errors == [] && url != "" && postId in old(posts) && old(posts)[postId].creator in old(users)
        && old(posts)[postId].creator == caller ==>
          var p := old(posts)[postId];
          var q := p.(title := title, content := content, imageUrl := url);
          && posts == old(posts)[postId := q]
          && deletedFiles == old(deletedFiles) + (if url != p.imageUrl then [p.imageUrl] else [])
          && r == Ok(200, "Updated successfully", OnePost(q))
          && events == old(events) + (if hub.io.Some? then [Updated(q)] else [])
    {
      if errors != [] {
        return Catch(Thrown(ValidationFailedMessage, Some(422)));
      }
      var imageUrl := if bodyImage.Some? then bodyImage.value else "";
      if file.Some? {
        imageUrl := file.value.Path();
      }
      if imageUrl == "" {
        return Catch(Thrown(NoImageMessage, Some(422)));
      }
      if postId !in posts {
        return Catch(Thrown(PostNotFoundMessage, None));
      }
      var p := posts[postId];
      if p.creator !in users {
        return Catch(Thrown(NullRecordMessage, None));
      }
      if p.creator != caller {
        return Catch(Thrown(NotAuthorizedMessage, Some(403)));
      }
      if imageUrl != p.imageUrl {
        DeleteFile(p.imageUrl);
      }
      r := SaveEdit(p.(title := title, content := content, imageUrl := imageUrl));
    }

    /**
     * The tail of `editPost`: saves the rewritten post, answers 200 with it
     * and then emits one `update` event once the socket is initialised.
     */
    method SaveEdit(q: Post) returns (r: Outcome)
      requires Valid()
      requires q.id in posts && q.creator == posts[q.id].creator && q.createdAt == posts[q.id].createdAt
      requires q.imageUrl != ""
      modifies this
      ensures Valid()
      ensures posts == old(posts)[q.id := q]
      ensures ids == old(ids) && users == old(users) && clock == old(clock) && deletedFiles == old(deletedFiles)
      ensures r == Ok(200, "Updated successfully", OnePost(q))
      ensures events == old(events) + (if hub.io.Some? then [Updated(q)] else [])
    {
      EditKeeps(posts, ids, users, clock, q);
      posts := posts[q.id := q];
      r := Ok(200, "Updated successfully", OnePost(q));
      var handle := hub.GetIO();
      if handle.Success? {
        events := events + [Updated(q)];
      }
    }

    /**
     * `deletePost`: 500 for a missing post, 403 when the caller is not its
     * creator, both changing nothing. Otherwise the image is scheduled for
     * deletion, the post leaves the store (its id stays on the creator's
     * list) and one `delete` event is emitted once the socket is initialised.
     */
    method DeletePost(caller: UserId, postId: PostId) returns (r: Outcome)
      requires Valid()
      modifies this
      ensures Valid()
      ensures users == old(users) && clock == old(clock)
      ensures postId !in old(posts) ==> r == Fail(500, PostNotFoundMessage) && unchanged(this)
      ensures postId in old(posts) && old(posts)[postId].creator != caller ==>
        r == Fail(403, NotAuthorizedMessage) && unchanged(this)
      ensures postId in old(posts) && old(posts)[postId].creator == caller ==>
        && posts == old(posts) - {postId}
        && (exists k :: 0 <= k < |old(ids)| && old(ids)[k] == postId && ids == old(ids)[..k] + old(ids)[k + 1..])
        && deletedFiles == old(deletedFiles) + [old(posts)[postId].imageUrl]
        && r == Ok(200, "Successfully deleted", NoPayload)
        && events == old(events) + (if hub.io.Some? then [Deleted(postId)] else [])
    {
      if postId !in posts {
        return Catch(Thrown(PostNotFoundMessage, None));
      }
      var p := posts[postId];
      if p.creator != caller {
        return Catch(Thrown(NotAuthorizedMessage, Some(403)));
      }
      DeleteFile(p.imageUrl);
      var k :| 0 <= k < |ids| && ids[k] == postId;
      DeleteKeeps(posts, ids, users, clock, k);
      posts := posts - {postId};
      ids := ids[..k] + ids[k + 1..];
      r := Ok(200, "Successfully deleted", NoPayload);
      var handle := hub.GetIO();
      if handle.Success? {
        events := events + [Deleted(postId)];
      }
    }

    /** `getStatus`: the caller's status; 404 without a user record or with an empty status. Changes nothing. */
    method GetStatus(caller: UserId) returns (r: Outcome)
      ensures caller !in users ==> r == Fail(404, UserNotFoundMessage)
      ensures caller in users && users[caller].status == "" ==> r == Fail(404, StatusNotFoundMessage)
      ensures caller in users && users[caller].status != "" ==>
        r == Ok(200, "Success retrieving status", StatusText(users[caller].status))
    {
      if caller !in users {
        return Catch(Thrown(UserNotFoundMessage, Some(404)));
      }
      var status := users[caller].status;
      if status == "" {
        return Catch(Thrown(StatusNotFoundMessage, Some(404)));
      }
      r := Ok(200, "Success retrieving status", StatusText(status));
    }

    /**
     * `updateStatus`: 422 for validation errors, 404 without a user record,
     * both changing nothing; otherwise only the caller's status changes, and
     * nothing is emitted.
     */
    method UpdateStatus(caller: UserId, errors: seq<FieldError>, status: string) returns (r: Outcome)
      requires Valid()
      modifies this
      ensures Valid()
      ensures posts == old(posts) && ids == old(ids) && clock == old(clock)
      ensures events == old(events) && deletedFiles == old(deletedFiles)
      ensures errors != [] ==> r == Fail(422, ValidationFailedMessage) && users == old(users)
      ensures errors == [] && caller !in old(users) ==> r == Fail(404, UserNotFoundMessage) && users == old(users)
      ensures errors == [] && caller in old(users) ==>
        && users == old(users)[caller := old(users)[caller].(status := status)]
        && r == Ok(200, "Status updated", NoPayload)
    {
      if errors != [] {
        return Catch(Thrown(ValidationFailedMessage, Some(422)));
      }
      if caller !in users {
        return Catch(Thrown(UserNotFoundMessage, Some(404)));
      }
      StatusKeeps(posts, ids, users, clock, caller, status);
      users := users[caller := users[caller].(status := status)];
      r := Ok(200, "Status updated", NoPayload);
    }
  }
}
