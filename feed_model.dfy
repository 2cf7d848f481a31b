/**
 * The values the feed controller works on: posts and users as the document
 * store holds them, the events it broadcasts on the `posts` channel, the
 * outcome of a handler, the invariant of the store and the newest-first,
 * two-per-page listing.
 */
module FeedModel {
  import opened Wrappers

  type UserId = nat
  type PostId = nat

  datatype Post = Post(id: PostId, title: string, content: string, imageUrl: string, creator: UserId, createdAt: nat)

  /** A user record; `posts` lists the ids of its posts in the order they were created. */
  datatype User = User(name: string, email: string, status: string, posts: seq<PostId>)

  /** The payload of an `emit('posts', ...)`; `Action()` is its `action` field. */
  datatype Event =
    | Created(post: Post, creatorId: UserId, creatorName: string)
    | Updated(post: Post)
    | Deleted(postId: PostId)
  {
    function Action(): (a: string)
      ensures a == "create" <==> this.Created?
      ensures a == "update" <==> this.Updated?
      ensures a == "delete" <==> this.Deleted?
    {
      match this
      case Created(_, _, _) => "create"
      case Updated(_) => "update"
      case Deleted(_) => "delete"
    }
  }

  datatype Payload =
    | PostsPage(posts: seq<Post>, totalItems: nat)
    | PostCreated(post: Post, creatorId: UserId, creatorName: string)
    | OnePost(post: Post)
    | StatusText(status: string)
    | NoPayload

  /** A handler's answer: a success response, or the error it passes to `next`. */
  datatype Outcome = Ok(status: int, message: string, payload: Payload) | Fail(status: int, message: string)

  /** An error as thrown inside a handler; plain `Error`s carry no status code. */
  datatype Thrown = Thrown(message: string, statusCode: Option<int>)

  /**
   * The catch block of every handler: an error whose status code is unset or
   * zero (falsy) gets 500, any other status code is kept.
   */
  function Catch(t: Thrown): (r: Outcome)
    ensures r.Fail? && r.message == t.message
    ensures t.statusCode.None? ==> r.status == 500
    ensures t.statusCode == Some(0) ==> r.status == 500
    ensures t.statusCode.Some? && t.statusCode.value != 0 ==> r.status == t.statusCode.value
  {
    Fail(if t.statusCode.None? || t.statusCode.value == 0 then 500 else t.statusCode.value, t.message)
  }

  const ValidationFailedMessage: string := "Validation failed, entered data is incorrect"
  const NoImageMessage: string := "Validation failed, no image provided"
  const PostNotFoundMessage: string := "Post is not found"
  const NotAuthorizedMessage: string := "Not authorized for this action"
  const UserNotFoundMessage: string := "User not found"
  const StatusNotFoundMessage: string := "Status field not found"
  /**
   * Stands for the message of the `TypeError` a property read on a missing
   * record throws; the engine's real text names the property and varies
   * between Node versions.
   */
  const NullRecordMessage: string := "Cannot read property of null"

  // ---------------------------------------------------------------------------
  // The store invariant

  /** Every post is filed under its own id, has an image, and was issued before `clock`. */
  ghost predicate PostsWellFormed(posts: map<PostId, Post>, clock: nat) {
    forall id :: id in posts ==>
      posts[id].id == id && id < clock && posts[id].createdAt < clock && posts[id].imageUrl != ""
  }

  /** `ids` lists every stored post exactly once, oldest first. */
  ghost predicate InCreationOrder(posts: map<PostId, Post>, ids: seq<PostId>) {
    && (forall i :: 0 <= i < |ids| ==> ids[i] in posts)
    && (forall id :: id in posts ==> id in ids)
    && (forall i, j :: 0 <= i < j < |ids| ==> posts[ids[i]].createdAt < posts[ids[j]].createdAt)
  }

  /** A user's list holds only ids already issued, so a stale entry never names a later post. */
  ghost predicate ListsIssued(users: map<UserId, User>, clock: nat) {
    forall u, i :: u in users && 0 <= i < |users[u].posts| ==> users[u].posts[i] < clock
  }

  /** A user's list names only posts that user created... */
  ghost predicate ListsOwnPosts(posts: map<PostId, Post>, users: map<UserId, User>) {
    forall u, i :: u in users && 0 <= i < |users[u].posts| && users[u].posts[i] in posts ==>
      posts[users[u].posts[i]].creator == u
  }

  /** ...and every post whose creator exists is on the creator's list. */
  ghost predicate OwnersListPosts(posts: map<PostId, Post>, users: map<UserId, User>) {
    forall id :: id in posts && posts[id].creator in users ==> id in users[posts[id].creator].posts
  }

  ghost predicate StoreInvariant(posts: map<PostId, Post>, ids: seq<PostId>, users: map<UserId, User>, clock: nat) {
    && PostsWellFormed(posts, clock)
    && InCreationOrder(posts, ids)
    && ListsIssued(users, clock)
    && ListsOwnPosts(posts, users)
    && OwnersListPosts(posts, users)
  }

  /** Creating post `p` at time `clock` and listing it for its creator keeps the invariant. */
  lemma CreateKeeps(posts: map<PostId, Post>, ids: seq<PostId>, users: map<UserId, User>, clock: nat, p: Post)
    requires StoreInvariant(posts, ids, users, clock)
    requires p.id == clock && p.createdAt == clock && p.imageUrl != ""
    ensures clock !in posts
    ensures var users' := if p.creator in users
                          then users[p.creator := users[p.creator].(posts := users[p.creator].posts + [clock])]
                          else users;
      StoreInvariant(posts[clock := p], ids + [clock], users', clock + 1)
  {
    var c := p.creator;
    var posts', ids' := posts[clock := p], ids + [clock];
    var users' := if c in users then users[c := users[c].(posts := users[c].posts + [clock])] else users;
    assert InCreationOrder(posts', ids') by {
      forall i, j | 0 <= i < j < |ids'| ensures posts'[ids'[i]].createdAt < posts'[ids'[j]].createdAt {
        assert ids'[i] == ids[i] && ids[i] in posts;
      }
      forall id | id in posts' ensures id in ids' {
        if id != clock { assert id in ids; }
        else { assert ids'[|ids|] == clock; }
      }
    }
    assert ListsOwnPosts(posts', users') by {
      forall u, i | u in users' && 0 <= i < |users'[u].posts| && users'[u].posts[i] in posts'
        ensures posts'[users'[u].posts[i]].creator == u
      {
        if u == c && i == |users[c].posts| {
        } else {
          assert users'[u].posts[i] == users[u].posts[i] < clock;
        }
      }
    }
    assert OwnersListPosts(posts', users') by {
      forall id | id in posts' && posts'[id].creator in users'
        ensures id in users'[posts'[id].creator].posts
      {
        if id == clock {
          assert users'[c].posts[|users[c].posts|] == clock;
        } else {
          var u := posts[id].creator;
          var i :| 0 <= i < |users[u].posts| && users[u].posts[i] == id;
          assert users'[u].posts[i] == id;
        }
      }
    }
  }

  /** Rewriting the title, content and image of a post keeps the invariant. */
  lemma EditKeeps(posts: map<PostId, Post>, ids: seq<PostId>, users: map<UserId, User>, clock: nat, q: Post)
    requires StoreInvariant(posts, ids, users, clock)
    requires q.id in posts && q.creator == posts[q.id].creator && q.createdAt == posts[q.id].createdAt
    requires q.imageUrl != ""
    ensures StoreInvariant(posts[q.id := q], ids, users, clock)
  {
    var posts' := posts[q.id := q];
    assert InCreationOrder(posts', ids) by {
      forall i, j | 0 <= i < j < |ids| ensures posts'[ids[i]].createdAt < posts'[ids[j]].createdAt {
        assert posts'[ids[i]].createdAt == posts[ids[i]].createdAt;
        assert posts'[ids[j]].createdAt == posts[ids[j]].createdAt;
      }
    }
  }

  /** Where the elements of `s` go when position `k` is cut out. */
  lemma CutAt<T>(s: seq<T>, k: nat)
    requires k < |s|
    ensures |s[..k] + s[k + 1..]| == |s| - 1
    ensures forall i :: 0 <= i < k ==> (s[..k] + s[k + 1..])[i] == s[i]
    ensures forall i :: k < i < |s| ==> (s[..k] + s[k + 1..])[i - 1] == s[i]
  {
  }

  /** `cut` is `ids` with position `k` left out. */
  ghost predicate IsCut(ids: seq<PostId>, k: nat, cut: seq<PostId>) {
    && k < |ids| && |cut| == |ids| - 1
    && (forall i :: 0 <= i < k ==> cut[i] == ids[i])
    && (forall i :: k < i < |ids| ==> cut[i - 1] == ids[i])
  }

  lemma CutStillStored(posts: map<PostId, Post>, ids: seq<PostId>, k: nat, cut: seq<PostId>)
    requires InCreationOrder(posts, ids) && IsCut(ids, k, cut)
    ensures forall i :: 0 <= i < |cut| ==> cut[i] in posts && cut[i] != ids[k]
  {
    forall i | 0 <= i < |cut| ensures cut[i] in posts && cut[i] != ids[k] {
      var oi := if i < k then i else i + 1;
      assert cut[i] == ids[oi];
      if oi < k { assert posts[ids[oi]].createdAt < posts[ids[k]].createdAt; }
      else { assert posts[ids[k]].createdAt < posts[ids[oi]].createdAt; }
    }
  }

  lemma CutStillComplete(posts: map<PostId, Post>, ids: seq<PostId>, k: nat, cut: seq<PostId>)
    requires InCreationOrder(posts, ids) && IsCut(ids, k, cut)
    ensures forall id :: id in posts && id != ids[k] ==> id in cut
  {
    forall id | id in posts && id != ids[k] ensures id in cut {
      var i :| 0 <= i < |ids| && ids[i] == id;
      if i < k { assert cut[i] == id; } else { assert cut[i - 1] == id; }
    }
  }

  lemma CutStillOrdered(posts: map<PostId, Post>, ids: seq<PostId>, k: nat, cut: seq<PostId>)
    requires InCreationOrder(posts, ids) && IsCut(ids, k, cut)
    requires forall i :: 0 <= i < |cut| ==> cut[i] in posts
    ensures forall i, j :: 0 <= i < j < |cut| ==> posts[cut[i]].createdAt < posts[cut[j]].createdAt
  {
    forall i, j | 0 <= i < j < |cut| ensures posts[cut[i]].createdAt < posts[cut[j]].createdAt {
      var oi, oj := if i < k then i else i + 1, if j < k then j else j + 1;
      assert cut[i] == ids[oi] && cut[j] == ids[oj];
    }
  }

  lemma CutOrder(posts: map<PostId, Post>, ids: seq<PostId>, k: nat, cut: seq<PostId>)
    requires InCreationOrder(posts, ids) && IsCut(ids, k, cut)
    ensures InCreationOrder(posts - {ids[k]}, cut)
  {
    var posts' := posts - {ids[k]};
    CutStillStored(posts, ids, k, cut);
    forall i | 0 <= i < |cut| ensures cut[i] in posts' && posts'[cut[i]] == posts[cut[i]] {
    }
    CutStillComplete(posts, ids, k, cut);
    forall id | id in posts' ensures id in cut {
      assert id in posts && id != ids[k];
    }
    CutStillOrdered(posts, ids, k, cut);
    forall i, j | 0 <= i < j < |cut| ensures posts'[cut[i]].createdAt < posts'[cut[j]].createdAt {
      assert posts'[cut[i]] == posts[cut[i]] && posts'[cut[j]] == posts[cut[j]];
    }
  }

  /** Cutting the post at position `k` out of the creation order, and out of the store, keeps the order. */
  lemma CutKeepsOrder(posts: map<PostId, Post>, ids: seq<PostId>, k: nat)
    requires InCreationOrder(posts, ids)
    requires k < |ids|
    ensures InCreationOrder(posts - {ids[k]}, ids[..k] + ids[k + 1..])
  {
    CutAt(ids, k);
    assert IsCut(ids, k, ids[..k] + ids[k + 1..]);
    CutOrder(posts, ids, k, ids[..k] + ids[k + 1..]);
  }

  /**
   * Removing the post at position `k` of the creation order keeps the
   * invariant; the users' lists are left as they are, so they may name a
   * post that no longer exists.
   */
  lemma DeleteKeeps(posts: map<PostId, Post>, ids: seq<PostId>, users: map<UserId, User>, clock: nat, k: nat)
    requires StoreInvariant(posts, ids, users, clock)
    requires k < |ids|
    ensures StoreInvariant(posts - {ids[k]}, ids[..k] + ids[k + 1..], users, clock)
  {
    CutKeepsOrder(posts, ids, k);
  }

  /** Changing a user's status keeps the invariant. */
  lemma StatusKeeps(posts: map<PostId, Post>, ids: seq<PostId>, users: map<UserId, User>, clock: nat, u: UserId, status: string)
    requires StoreInvariant(posts, ids, users, clock)
    requires u in users
    ensures StoreInvariant(posts, ids, users[u := users[u].(status := status)], clock)
  {
    var users' := users[u := users[u].(status := status)];
    assert forall v :: v in users' ==> users'[v].posts == users[v].posts;
  }
}
