/** The seven post handlers over an in-memory post collection and a read-only
    user directory. Each handler answers with an HTTP status code and changes
    the collection only on success. The image host is reached through two
    functions the caller supplies: `upload` (None when the upload throws) and
    `destroy` (false when the deletion throws). */
module PostController {
  import opened Domain
  import opened Likes
  import opened Listing
  import opened ImageKeys

  /** What every stored post keeps: text of 1 to 500 characters, no repeated
      like, and replies with non-empty text. */
  ghost predicate WellFormed(p: Post)
  {
    && 0 < |p.text| <= MAX_TEXT_LENGTH
    && NoDup(p.likes)
    && (forall r :: r in p.replies ==> r.text != "")
  }

  class PostStore {
    /** The post collection, by id. */
    var posts: map<PostId, Post>
    /** The user directory; these handlers only read it. */
    const users: map<UserId, User>
    /** The id the next created post receives; ids grow with creation time. */
    var nextId: PostId

    ghost predicate Valid()
      reads this
    {
      && Keyed(posts)
      && (forall k :: k in posts ==> k < nextId && WellFormed(posts[k]))
    }

    constructor (users: map<UserId, User>)
      ensures Valid()
      ensures posts == map[] && this.users == users
    {
      posts := map[];
      this.users := users;
      nextId := 0;
    }

    /** `createPost`: 400 for a missing author or text, then 404 for an unknown
        author, then 401 when the caller is not the author, then 400 for text
        over 500 characters; an upload that throws gives 500. On success one
        new post is added and 201 returned. */
    method CreatePost(principal: UserId, postedBy: Option<UserId>, text: Option<string>,
                      img: Option<string>, upload: string -> Option<string>, now: int)
      returns (status: int, post: Option<Post>)
      requires Valid()
      modifies this
      ensures Valid()
      ensures postedBy.None? || !Truthy(text) ==> status == STATUS_BAD_REQUEST
      ensures postedBy.Some? && Truthy(text) && postedBy.value !in users ==> status == STATUS_NOT_FOUND
      ensures postedBy.Some? && Truthy(text) && postedBy.value in users && principal != postedBy.value
              ==> status == STATUS_UNAUTHORIZED
      ensures postedBy == Some(principal) && principal in users && Truthy(text) && |text.value| > MAX_TEXT_LENGTH
              ==> status == STATUS_BAD_REQUEST
      ensures postedBy == Some(principal) && principal in users && Truthy(text) && |text.value| <= MAX_TEXT_LENGTH
              && Truthy(img) && upload(img.value).None?
              ==> status == STATUS_SERVER_ERROR
      ensures status == STATUS_CREATED <==>
              && postedBy == Some(principal) && principal in users
              && Truthy(text) && |text.value| <= MAX_TEXT_LENGTH
              && (Truthy(img) ==> upload(img.value).Some?)
      ensures status != STATUS_CREATED ==> post.None? && posts == old(posts) && nextId == old(nextId)
      ensures status == STATUS_CREATED ==>
              && post.Some? && post.value.id !in old(posts)
              && posts == old(posts)[post.value.id := post.value]
              && post.value.postedBy == principal
              && post.value.text == text.value
              && post.value.img == (if Truthy(img) then upload(img.value) else img)
              && post.value.likes == [] && post.value.replies == []
              && post.value.createdAt == now
    {
      if postedBy.None? || !Truthy(text) {
        return STATUS_BAD_REQUEST, None;
      }
      var author := postedBy.value;
      if author !in users {
        return STATUS_NOT_FOUND, None;
      }
      if principal != author {
        return STATUS_UNAUTHORIZED, None;
      }
      if |text.value| > MAX_TEXT_LENGTH {
        return STATUS_BAD_REQUEST, None;
      }
      var stored := img;
      if Truthy(img) {
        var uploaded := upload(img.value);
        if uploaded.None? {
          return STATUS_SERVER_ERROR, None;
        }
        stored := uploaded;
      }
      var p := Post(nextId, author, text.value, stored, [], [], now);
      posts := posts[nextId := p];
      nextId := nextId + 1;
      return STATUS_CREATED, Some(p);
    }

    /** `getPost`: the post under `id`, or 404. */
    method GetPost(id: PostId) returns (status: int, post: Option<Post>)
      ensures status == STATUS_OK <==> id in posts
      ensures status == STATUS_OK ==> post == Some(posts[id])
      ensures status != STATUS_OK ==> status == STATUS_NOT_FOUND && post.None?
    {
      if id !in posts {
        return STATUS_NOT_FOUND, None;
      }
      return STATUS_OK, Some(posts[id]);
    }

    /** `deletePost`: 404 for an absent post, 401 unless the caller wrote it.
        For the owner, the image key is derived and destroyed first (500 and
        nothing deleted if that throws), then exactly that post is removed. */
    method DeletePost(principal: UserId, id: PostId, destroy: string -> bool)
      returns (status: int, destroyed: Option<string>)
      requires Valid()
      modifies this
      ensures Valid()
      ensures nextId == old(nextId)
      ensures id !in old(posts) ==> status == STATUS_NOT_FOUND && destroyed.None?
      ensures id in old(posts) && principal != old(posts)[id].postedBy
              ==> status == STATUS_UNAUTHORIZED && destroyed.None?
      ensures id in old(posts) && principal == old(posts)[id].postedBy ==>
              && destroyed == (if Truthy(old(posts)[id].img) then Some(ImageKey(old(posts)[id].img.value)) else None)
              && status == (if destroyed.Some? && !destroy(destroyed.value) then STATUS_SERVER_ERROR else STATUS_OK)
      ensures status == STATUS_OK ==> posts == old(posts) - {id}
      ensures status != STATUS_OK ==> posts == old(posts)
    {
      if id !in posts {
        return STATUS_NOT_FOUND, None;
      }
      var post := posts[id];
      if principal != post.postedBy {
        return STATUS_UNAUTHORIZED, None;
      }
      destroyed := None;
      if Truthy(post.img) {
        var key := ImageKey(post.img.value);
        destroyed := Some(key);
        if !destroy(key) {
          return STATUS_SERVER_ERROR, destroyed;
        }
      }
      posts := posts - {id};
      status := STATUS_OK;
    }

    /** `likeUnlikePost`: 404 for an absent post; otherwise the caller's like is
        pulled when present and pushed when absent, and the message names the
        new state. Nothing else changes. */
    method LikeUnlikePost(principal: UserId, postId: PostId) returns (status: int, message: string)
      requires Valid()
      modifies this
      ensures Valid()
      ensures nextId == old(nextId)
      ensures postId !in old(posts) ==> status == STATUS_NOT_FOUND && message == "Post not found" && posts == old(posts)
      ensures postId in old(posts) ==>
              && status == STATUS_OK
              && posts == old(posts)[postId := old(posts)[postId].(likes := Toggle(old(posts)[postId].likes, principal))]
              && message == (if principal in posts[postId].likes then "Post liked" else "Post unliked")
    {
      if postId !in posts {
        return STATUS_NOT_FOUND, "Post not found";
      }
      var post := posts[postId];
      if principal in post.likes {
        ToggleKeepsNoDup(post.likes, principal);
        posts := posts[postId := post.(likes := Pull(post.likes, principal))];
        return STATUS_OK, "Post unliked";
      } else {
        ToggleKeepsNoDup(post.likes, principal);
        posts := posts[postId := post.(likes := post.likes + [principal])];
        return STATUS_OK, "Post liked";
      }
    }

    /** `replyToPost`: 400 for empty text before the post is looked up, then 404;
        otherwise one reply snapshot of the caller is appended. */
    method ReplyToPost(principal: Principal, postId: PostId, text: Option<string>)
      returns (status: int, post: Option<Post>)
      requires Valid()
      modifies this
      ensures Valid()
      ensures nextId == old(nextId)
      ensures !Truthy(text) ==> status == STATUS_BAD_REQUEST && post.None? && posts == old(posts)
      ensures Truthy(text) && postId !in old(posts) ==> status == STATUS_NOT_FOUND && post.None? && posts == old(posts)
      ensures Truthy(text) && postId in old(posts) ==>
              && status == STATUS_OK
              && post == Some(old(posts)[postId].(replies := old(posts)[postId].replies
                   + [Reply(principal.id, text.value, principal.profilePic, principal.username)]))
              && posts == old(posts)[postId := post.value]
    {
      if !Truthy(text) {
        return STATUS_BAD_REQUEST, None;
      }
      if postId !in posts {
        return STATUS_NOT_FOUND, None;
      }
      var reply := Reply(principal.id, text.value, principal.profilePic, principal.username);
      var updated := posts[postId].(replies := posts[postId].replies + [reply]);
      posts := posts[postId := updated];
      return STATUS_OK, Some(updated);
    }

    /** `getFeedPosts`: 404 for an unknown caller; otherwise every post by a
        followed user, each once, newest first. */
    method GetFeedPosts(principal: UserId) returns (status: int, feed: seq<Post>)
      requires Valid()
      ensures principal !in users ==> status == STATUS_NOT_FOUND && feed == []
      ensures principal in users ==>
              && status == STATUS_OK
              && (forall p :: p in feed <==> p in posts.Values && p.postedBy in users[principal].following)
              && NewestFirst(feed)
              && Distinct(feed)
              && (users[principal].following == {} ==> feed == [])
    {
      if principal !in users {
        return STATUS_NOT_FOUND, [];
      }
      return STATUS_OK, Query(posts, nextId, users[principal].following);
    }

    /** `getUserPosts`: 404 when no user has that username; otherwise every
        post by a user of that name, each once, newest first. */
    method GetUserPosts(username: string) returns (status: int, list: seq<Post>)
      requires Valid()
      ensures status == STATUS_NOT_FOUND <==> forall uid :: uid in users ==> users[uid].username != username
      ensures status == STATUS_NOT_FOUND ==> list == []
      ensures status != STATUS_NOT_FOUND ==>
              && status == STATUS_OK
              && exists uid :: && uid in users && users[uid].username == username
                               && (forall p :: p in list <==> p in posts.Values && p.postedBy == uid)
                               && NewestFirst(list)
                               && Distinct(list)
    {
      if !(exists uid | uid in users :: users[uid].username == username) {
        return STATUS_NOT_FOUND, [];
      }
      var uid :| uid in users && users[uid].username == username;
      list := Query(posts, nextId, {uid});
      status := STATUS_OK;
    }
  }

  /** A session: create, like, unlike, reply, a delete by another user
      refused, a delete by the author accepted. */
  method ExampleSession()
  {
    var users := map[1 := User("u1", "", {}), 2 := User("u2", "", {1}), 3 := User("u3", "pic3", {})];
    var store := new PostStore(users);
    var upload := (payload: string) => Some("https://img.example/" + payload);
    var status, created := store.CreatePost(1, Some(1), Some("hello"), None, upload, 10);
    assert status == STATUS_CREATED;
    var a := created.value;
    assert a.likes == [] && a.replies == [];
    var message;
    status, message := store.LikeUnlikePost(2, a.id);
    assert store.posts[a.id].likes == [2] && message == "Post liked";
    status, message := store.LikeUnlikePost(2, a.id);
    assert [2][1..] == [];
    assert store.posts[a.id].likes == [] && message == "Post unliked";
    var replied;
    status, replied := store.ReplyToPost(Principal(3, "u3", "pic3"), a.id, Some("nice"));
    assert status == STATUS_OK && store.posts[a.id].replies == [Reply(3, "nice", "pic3", "u3")];
    var feed;
    status, feed := store.GetFeedPosts(2);
    assert status == STATUS_OK && store.posts[a.id] in feed;
    var destroyed;
    status, destroyed := store.DeletePost(2, a.id, (key: string) => true);
    assert status == STATUS_UNAUTHORIZED && a.id in store.posts;
    status, destroyed := store.DeletePost(1, a.id, (key: string) => true);
    assert status == STATUS_OK;
    var found;
    status, found := store.GetPost(a.id);
    assert status == STATUS_NOT_FOUND;
  }
}
