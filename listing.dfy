/**
 * `GET /feed/posts`: all posts, newest first, two per page. The query
 * `find().sort({createdAt: -1}).skip((page - 1) * 2).limit(2)` is modelled
 * by a newest-first sequence, `Skip` and `Limit`.
 */
module Listing {
  import opened Wrappers
  import opened FeedModel

  const PerPage: nat := 2

  /**
   * `req.query.page || 1`: an absent page, and an empty `?page=`, which is
   * falsy, both read as `None` and give page 1.
   */
  function PageNumber(page: Option<nat>): nat {
    match page
    case None => 1
    case Some(p) => p
  }

  /** The stored posts, newest first: the creation order read backwards. */
  function NewestFirst(posts: map<PostId, Post>, ids: seq<PostId>): (r: seq<Post>)
    requires forall i :: 0 <= i < |ids| ==> ids[i] in posts
    ensures |r| == |ids|
    ensures forall k :: 0 <= k < |r| ==> r[k] == posts[ids[|ids| - 1 - k]]
  {
    if ids == [] then []
    else [posts[ids[|ids| - 1]]] + NewestFirst(posts, ids[..|ids| - 1])
  }

  /** `skip(n)`: the first `n` entries are dropped, and skipping past the end leaves nothing. */
  function Skip<T>(s: seq<T>, n: nat): (r: seq<T>)
    ensures |r| == if n >= |s| then 0 else |s| - n
    ensures forall i :: 0 <= i < |r| ==> r[i] == s[n + i]
  {
    if n >= |s| then [] else s[n..]
  }

  /**
   * `limit(n)`: the first `n` entries, or all of them when there are fewer.
   * Only a positive `n` is meant: the query calls `limit(2)`, and the store's
   * `limit(0)`, which means no limit, is not modelled.
   */
  function Limit<T>(s: seq<T>, n: nat): (r: seq<T>)
    ensures |r| == if |s| <= n then |s| else n
    ensures forall i :: 0 <= i < |r| ==> r[i] == s[i]
  {
    if |s| <= n then s else s[..n]
  }

  /** Page `k` of a listing. */
  function Page<T>(s: seq<T>, k: nat): seq<T>
    requires k >= 1
  {
    Limit(Skip(s, (k - 1) * PerPage), PerPage)
  }

  /** Newest first: creation times strictly decrease along the listing. */
  ghost predicate Descending(s: seq<Post>) {
    forall i, j :: 0 <= i < j < |s| ==> s[i].createdAt > s[j].createdAt
  }

  /** The listing is sorted by `createdAt`, newest first. */
  lemma NewestFirstDescending(posts: map<PostId, Post>, ids: seq<PostId>)
    requires InCreationOrder(posts, ids)
    ensures Descending(NewestFirst(posts, ids))
  {
    var r := NewestFirst(posts, ids);
    forall i, j | 0 <= i < j < |r| ensures r[i].createdAt > r[j].createdAt {
      assert r[i] == posts[ids[|ids| - 1 - i]] && r[j] == posts[ids[|ids| - 1 - j]];
    }
  }

  /** Distinct elements: the set of a sequence has as many elements as the sequence. */
  lemma {:induction false} DistinctCard<T>(s: seq<T>)
    requires forall i, j :: 0 <= i < j < |s| ==> s[i] != s[j]
    ensures |set x: T | x in s| == |s|
  {
    if s != [] {
      var t := s[..|s| - 1];
      DistinctCard(t);
      var last := s[|s| - 1];
      assert (set x | x in s) == (set x | x in t) + {last};
      assert last !in (set x | x in t);
    }
  }

  /** Creation order has no repeated id. */
  lemma IdsDistinct(posts: map<PostId, Post>, ids: seq<PostId>)
    requires InCreationOrder(posts, ids)
    ensures forall i, j :: 0 <= i < j < |ids| ==> ids[i] != ids[j]
  {
    forall i, j | 0 <= i < j < |ids| ensures ids[i] != ids[j] {
      assert posts[ids[i]].createdAt < posts[ids[j]].createdAt;
    }
  }

  /** As many posts are listed as are stored. */
  lemma ListedCount(posts: map<PostId, Post>, ids: seq<PostId>)
    requires InCreationOrder(posts, ids)
    ensures |ids| == |posts|
  {
    IdsDistinct(posts, ids);
    var listed := set x: PostId | x in ids;
    DistinctCard<PostId>(ids);
    assert |listed| == |ids|;
    forall x | x in listed ensures x in posts.Keys {
      var i :| 0 <= i < |ids| && ids[i] == x;
    }
    forall x | x in posts.Keys ensures x in listed {
      assert x in ids;
    }
    assert listed == posts.Keys;
    assert |posts.Keys| == |posts|;
  }

  /** The listing holds every stored post, once each, and nothing else. */
  lemma NewestFirstComplete(posts: map<PostId, Post>, ids: seq<PostId>)
    requires InCreationOrder(posts, ids)
    ensures |NewestFirst(posts, ids)| == |posts|
    ensures forall p :: p in NewestFirst(posts, ids) <==> p in posts.Values
  {
    ListedCount(posts, ids);
    var r := NewestFirst(posts, ids);
    forall p | p in posts.Values ensures p in r {
      var id :| id in posts && posts[id] == p;
      var i :| 0 <= i < |ids| && ids[i] == id;
      assert r[|ids| - 1 - i] == p;
    }
    forall p | p in r ensures p in posts.Values {
      var k :| 0 <= k < |r| && r[k] == p;
      assert ids[|ids| - 1 - k] in posts;
    }
  }

  /** The head of a newest-first sequence is newer than every other entry. */
  lemma HeadIsNewest(s: seq<Post>, p: Post)
    requires Descending(s) && p in s
    ensures p == s[0] || s[0].createdAt > p.createdAt
  {
    var i :| 0 <= i < |s| && s[i] == p;
  }

  /**
   * The newest-first order is the only one: any sequence that is sorted
   * newest first and holds the same posts is the listing.
   */
  lemma {:induction false} DescendingUnique(a: seq<Post>, b: seq<Post>)
    requires Descending(a) && Descending(b)
    requires forall p :: p in a <==> p in b
    ensures a == b
  {
    assert a == [] <==> b == [] by {
      if a != [] { assert a[0] in b; }
      if b != [] { assert b[0] in a; }
    }
    if a != [] {
      HeadIsNewest(b, a[0]);
      HeadIsNewest(a, b[0]);
      forall p ensures p in a[1..] <==> p in b[1..] {
        if p in a[1..] {
          var k :| 1 <= k < |a| && a[k] == p;
          assert a[0].createdAt > p.createdAt;
          assert p in a && p in b;
          var m :| 0 <= m < |b| && b[m] == p;
          assert m != 0;
          assert b[1..][m - 1] == p;
        }
        if p in b[1..] {
          var k :| 1 <= k < |b| && b[k] == p;
          assert b[0].createdAt > p.createdAt;
          assert p in b && p in a;
          var m :| 0 <= m < |a| && a[m] == p;
          assert m != 0;
          assert a[1..][m - 1] == p;
        }
      }
      DescendingUnique(a[1..], b[1..]);
      assert a == [a[0]] + a[1..] && b == [b[0]] + b[1..];
    }
  }

  /**
   * Page `k` is the slice of the listing that starts at `(k - 1) * 2`: it has
   * at most two entries, and entry `i` is entry `(k - 1) * 2 + i` of the
   * listing.
   */
  lemma PageIsSlice<T>(s: seq<T>, k: nat)
    requires k >= 1
    ensures var start := (k - 1) * PerPage;
      && |Page(s, k)| <= PerPage
      && |Page(s, k)| == (if start >= |s| then 0 else if |s| - start < PerPage then |s| - start else PerPage)
      && forall i :: 0 <= i < |Page(s, k)| ==> Page(s, k)[i] == s[start + i]
  {
  }

  /** Every entry of the listing is found on page `i / 2 + 1`, at position `i % 2`. */
  lemma EntryOnItsPage<T>(s: seq<T>, i: nat)
    requires i < |s|
    ensures i % PerPage < |Page(s, i / PerPage + 1)| && Page(s, i / PerPage + 1)[i % PerPage] == s[i]
  {
    var k := i / PerPage + 1;
    assert (k - 1) * PerPage == i - i % PerPage;
    PageIsSlice(s, k);
  }

  /** A page of a newest-first listing is itself newest first. */
  lemma PageDescending(s: seq<Post>, k: nat)
    requires Descending(s) && k >= 1
    ensures Descending(Page(s, k))
  {
    var start := (k - 1) * PerPage;
    var pg := Page(s, k);
    PageIsSlice(s, k);
    forall i, j | 0 <= i < j < |pg| ensures pg[i].createdAt > pg[j].createdAt {
      assert pg[i] == s[start + i] && pg[j] == s[start + j];
    }
  }

  /** The most recently created post heads page 1 of the listing. */
  lemma NewestHeadsFirstPage(posts: map<PostId, Post>, ids: seq<PostId>)
    requires forall i :: 0 <= i < |ids| ==> ids[i] in posts
    requires ids != []
    ensures |Page(NewestFirst(posts, ids), 1)| >= 1
    ensures Page(NewestFirst(posts, ids), 1)[0] == posts[ids[|ids| - 1]]
  {
    PageIsSlice(NewestFirst(posts, ids), 1);
  }

  /** A page holds nothing the listing does not. */
  lemma PageWithin<T>(s: seq<T>, k: nat)
    requires k >= 1
    ensures forall x :: x in Page(s, k) ==> x in s
  {
    var pg := Page(s, k);
    PageIsSlice(s, k);
    forall x | x in pg ensures x in s {
      var i :| 0 <= i < |pg| && pg[i] == x;
      assert s[(k - 1) * PerPage + i] == x;
    }
  }

  /** The listing holds stored posts only. */
  lemma NewestFirstStored(posts: map<PostId, Post>, ids: seq<PostId>)
    requires forall i :: 0 <= i < |ids| ==> ids[i] in posts
    ensures forall p :: p in NewestFirst(posts, ids) ==> p in posts.Values
  {
    var all := NewestFirst(posts, ids);
    forall p | p in all ensures p in posts.Values {
      var n :| 0 <= n < |all| && all[n] == p;
      assert ids[|ids| - 1 - n] in posts;
    }
  }

  /**
   * Page `k` of the listing of a store: at most two posts, newest first, all
   * of them stored.
   */
  lemma PageOfStore(posts: map<PostId, Post>, ids: seq<PostId>, k: nat)
    requires InCreationOrder(posts, ids) && k >= 1
    ensures var pg := Page(NewestFirst(posts, ids), k);
      && |pg| <= PerPage
      && Descending(pg)
      && forall p :: p in pg ==> p in posts.Values
  {
    var all := NewestFirst(posts, ids);
    var pg := Page(all, k);
    assert |pg| <= PerPage by {
      PageIsSlice(all, k);
    }
    assert Descending(pg) by {
      NewestFirstDescending(posts, ids);
      PageDescending(all, k);
    }
    assert forall p :: p in pg ==> p in posts.Values by {
      PageWithin(all, k);
      NewestFirstStored(posts, ids);
    }
  }
}
