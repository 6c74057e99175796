/** Entities of the post service: users (owned by the user directory), posts and
    their embedded replies, the authenticated caller, and the HTTP status codes
    the handlers answer with. */
module Domain {

  type UserId = nat
  type PostId = nat

  datatype Option<T> = None | Some(value: T)

  /** A user as the directory returns it; `following` is the set of followed user ids. */
  datatype User = User(username: string, profilePic: string, following: set<UserId>)

  /** The authenticated caller (`req.user`), trusted as given. */
  datatype Principal = Principal(id: UserId, username: string, profilePic: string)

  /** A reply is a snapshot of the replying user taken at reply time. */
  datatype Reply = Reply(userId: UserId, text: string, userProfilePic: string, username: string)

  datatype Post = Post(
    id: PostId,
    postedBy: UserId,
    text: string,
    img: Option<string>,
    likes: seq<UserId>,
    replies: seq<Reply>,
    createdAt: int)

  const MAX_TEXT_LENGTH: nat := 500

  const STATUS_OK: int := 200
  const STATUS_CREATED: int := 201
  const STATUS_BAD_REQUEST: int := 400
  const STATUS_UNAUTHORIZED: int := 401
  const STATUS_NOT_FOUND: int := 404
  const STATUS_SERVER_ERROR: int := 500

  /** JavaScript truthiness of an optional string field: absent and "" are both falsy. */
  predicate Truthy(s: Option<string>)
  {
    s.Some? && s.value != ""
  }

  /** No user id occurs twice in a likes list. */
  predicate NoDup(s: seq<UserId>)
  {
    forall i, j :: 0 <= i < j < |s| ==> s[i] != s[j]
  }
}
