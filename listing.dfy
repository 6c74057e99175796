/** The two listing queries, `Post.find({ postedBy: ... }).sort({ createdAt: -1 })`:
    the collection in its natural (creation) order, a filter on the author, and
    a sort on `createdAt`, newest first. */
module Listing {
  import opened Domain

  /** Every post is stored under its own id. */
  ghost predicate Keyed(posts: map<PostId, Post>)
  {
    forall k :: k in posts ==> posts[k].id == k
  }

  /** Ids strictly increase along the sequence: the collection's natural order. */
  ghost predicate IdsAscending(s: seq<Post>)
  {
    forall i, j :: 0 <= i < j < |s| ==> s[i].id < s[j].id
  }

  /** No post occurs twice. */
  ghost predicate Distinct(s: seq<Post>)
  {
    forall i, j :: 0 <= i < j < |s| ==> s[i] != s[j]
  }

  /** Sorted by `createdAt`, non-increasing. */
  ghost predicate NewestFirst(s: seq<Post>)
  {
    forall i, j :: 0 <= i < j < |s| ==> s[i].createdAt >= s[j].createdAt
  }

  /** The stored posts with id below `n`, in id order. */
  function Collect(posts: map<PostId, Post>, n: nat): (r: seq<Post>)
    requires Keyed(posts)
    ensures forall i :: 0 <= i < |r| ==> r[i].id < n && r[i].id in posts && posts[r[i].id] == r[i]
    ensures forall k :: k < n && k in posts ==> posts[k] in r
    ensures IdsAscending(r)
  {
    if n == 0 then []
    else Collect(posts, n - 1) + (if n - 1 in posts then [posts[n - 1]] else [])
  }

  /** `find({ postedBy: { $in: authors } })` over a listing; ascending id order is kept. */
  function Filter(s: seq<Post>, authors: set<UserId>): (r: seq<Post>)
    ensures forall p :: p in r <==> p in s && p.postedBy in authors
    ensures IdsAscending(s) ==> IdsAscending(r)
  {
    if s == [] then []
    else
      var rest := Filter(s[1..], authors);
      assert forall p :: p in rest ==> p in s[1..];
      if s[0].postedBy in authors then [s[0]] + rest else rest
  }

  /** Places `p` before the first post that is not newer than it. */
  function Insert(p: Post, s: seq<Post>): (r: seq<Post>)
    ensures multiset(r) == multiset(s) + multiset{p}
    ensures r[0] == p || r[0] == s[0]
  {
    if s == [] then [p]
    else if p.createdAt >= s[0].createdAt then [p] + s
    else
      assert s == [s[0]] + s[1..];
      [s[0]] + Insert(p, s[1..])
  }

  /** Every post of `Insert(p, s)` is `p` or a post of `s`. */
  lemma InsertMembers(p: Post, s: seq<Post>)
    ensures forall q :: q in Insert(p, s) ==> q == p || q in s
  {
  }

  lemma {:induction false} InsertNewestFirst(p: Post, s: seq<Post>)
    requires NewestFirst(s)
    ensures NewestFirst(Insert(p, s))
  {
    if s != [] && p.createdAt < s[0].createdAt {
      var rest := Insert(p, s[1..]);
      InsertNewestFirst(p, s[1..]);
      assert rest[0].createdAt <= s[0].createdAt;
      var r := [s[0]] + rest;
      forall i, j | 0 <= i < j < |r| ensures r[i].createdAt >= r[j].createdAt {
        if i == 0 {
          assert r[j] == rest[j - 1];
          assert rest[0].createdAt >= rest[j - 1].createdAt;
        } else {
          assert r[i] == rest[i - 1] && r[j] == rest[j - 1];
        }
      }
    }
  }

  lemma {:induction false} InsertDistinct(p: Post, s: seq<Post>)
    requires Distinct(s) && p !in s
    ensures Distinct(Insert(p, s))
  {
    if s != [] && p.createdAt < s[0].createdAt {
      assert s == [s[0]] + s[1..];
      InsertDistinct(p, s[1..]);
      var rest := Insert(p, s[1..]);
      InsertMembers(p, s[1..]);
      assert s[0] !in s[1..];
      assert s[0] !in rest;
      var r := [s[0]] + rest;
      forall i, j | 0 <= i < j < |r| ensures r[i] != r[j] {
        assert r[j] == rest[j - 1];
        if i > 0 {
          assert r[i] == rest[i - 1];
        }
      }
    }
  }

  /** `sort({ createdAt: -1 })`: a newest-first permutation of the input. */
  function Sort(s: seq<Post>): (r: seq<Post>)
    ensures multiset(r) == multiset(s)
    ensures NewestFirst(r)
  {
    if s == [] then []
    else
      assert s == [s[0]] + s[1..];
      var rest := Sort(s[1..]);
      assert s[0] in rest <==> s[0] in multiset(s[1..]);
      InsertNewestFirst(s[0], rest);
      Insert(s[0], rest)
  }

  /** Sorting a listing without repeats yields none. */
  lemma {:induction false} SortKeepsDistinct(s: seq<Post>)
    requires Distinct(s)
    ensures Distinct(Sort(s))
  {
    if s != [] {
      assert s == [s[0]] + s[1..];
      SortKeepsDistinct(s[1..]);
      var rest := Sort(s[1..]);
      assert s[0] !in s[1..];
      assert s[0] !in rest by {
        assert s[0] in rest <==> s[0] in multiset(s[1..]);
      }
      InsertDistinct(s[0], rest);
    }
  }

  /** Ascending ids make every post distinct. */
  lemma AscendingIsDistinct(s: seq<Post>)
    requires IdsAscending(s)
    ensures Distinct(s)
  {
  }

  /** The query result: exactly the posts whose author is in `authors`, each once, newest first. */
  function Query(posts: map<PostId, Post>, n: nat, authors: set<UserId>): (r: seq<Post>)
    requires Keyed(posts)
    requires forall k :: k in posts ==> k < n
    ensures forall p :: p in r <==> p in posts.Values && p.postedBy in authors
    ensures NewestFirst(r)
    ensures Distinct(r)
    ensures authors == {} ==> r == []
  {
    var matching := Filter(Collect(posts, n), authors);
    var r := Sort(matching);
    assert forall p :: p in r <==> p in matching by {
      forall p ensures p in r <==> p in matching {
        assert p in r <==> p in multiset(r);
      }
    }
    AscendingIsDistinct(matching);
    SortKeepsDistinct(matching);
    r
  }
}
