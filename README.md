# Post service of threads-backend, modelled in Dafny

This project models the post controller of a Threads-like backend. The controller has seven request handlers: create a post, fetch one, delete one, like/unlike, reply, the caller's feed, and a user's posts. The database becomes an in-memory store, the class `PostController.PostStore`:

- `posts: map<PostId, Post>` holds the post collection.
- `users: map<UserId, User>` is the user directory. These handlers only read it.
- `nextId` is the id of the next created post.

Each handler is a method that returns the HTTP status code the source sends. It changes `posts` only on success. The store's invariant `Valid()` says five things about every stored post: it sits under its own id, that id is below `nextId`, its text has 1 to 500 characters, no user id appears twice in its `likes`, and every reply has non-empty text. Every handler preserves it.

The pure parts are functions with lemmas:

- `ImageKeys` derives the image host's resource key from an image URL (`url.split('/').pop().split('.')[0]`).
- `Likes` models the `$pull`/`$push` toggle on the `likes` array.
- `Listing` models the two queries. They read the collection in its natural order, filter it by author and sort it by `createdAt`, newest first.

The image host is passed in as two functions:

- `upload(payload)` gives `Some(url)`, or `None` when the upload throws.
- `destroy(key)` gives `false` when the deletion throws.

The creation time is passed to `CreatePost` as `now`.

- The length check comes last, after the 404 and 401 checks (`controllers/postController.js:24-29`), so an over-long post from the wrong caller gets 401.
- The error message says the text "must be less than 500 characters". The test is `text.length > 500`, so exactly 500 characters is accepted. The model follows the test.
- `likes` is an array, not a set. Unlike-then-like moves the user to the end, so it restores the likes as a multiset but not their order (`Likes.UnlikeThenLikeReorders`).

## Model

| member | source | states |
|---|---|---|
| `PostController.PostStore.CreatePost` | controllers/postController.js:5-45 | The checks apply in this order: 400 for a missing `postedBy` or falsy `text`, then 404 for an unknown user, then 401 when the caller is not that user, then 400 for text over 500 characters. A failed upload gives 500. On any failure the store is unchanged. Success gives 201 and adds exactly one post under a fresh id. Its author and text are the given ones, its `img` is the uploaded URL when an image was given and otherwise the given value, its likes and replies are empty, and it carries the given creation time. |
| `PostController.PostStore.GetPost` | controllers/postController.js:47-61 | 200 with the stored post exactly when the id is present, otherwise 404 and no post. |
| `PostController.PostStore.DeletePost` | controllers/postController.js:63-88 | 404 for an absent post and 401 for a caller who is not `postedBy`; in both cases nothing is destroyed and the store is unchanged. For the owner, a truthy `img` has its key `ImageKey(img)` destroyed first. If that throws, the answer is 500 and the post stays. Otherwise exactly that post is removed and the answer is 200. |
| `PostController.PostStore.LikeUnlikePost` | controllers/postController.js:90-120 | 404 and no change for an absent post. Otherwise 200, and only that post's `likes` changes, to `Toggle(likes, caller)`. The message is "Post liked" exactly when the caller is in the new `likes`. |
| `PostController.PostStore.ReplyToPost` | controllers/postController.js:122-150 | Falsy text gives 400 before any lookup, so also for a missing post. An absent post gives 404. Otherwise 200, and the returned post is the stored one with exactly one reply `{userId, text, userProfilePic, username}` taken from the caller appended after the earlier replies. No other post or field changes. |
| `PostController.PostStore.GetFeedPosts` | controllers/postController.js:152-174 | 404 and an empty list for an unknown caller. Otherwise 200 with exactly the stored posts whose author the caller follows, each once, newest first. Following nobody gives an empty list. |
| `PostController.PostStore.GetUserPosts` | controllers/postController.js:176-193 | 404 exactly when no user has the username. Otherwise 200 with exactly the stored posts by one user of that name, each once, newest first. |
| `ImageKeys.LastSegment` | controllers/postController.js:77 | `split('/').pop()` gives the longest suffix without a '/'. It contains no '/', and when it is shorter than the URL the character before it is a '/'. |
| `ImageKeys.BeforeFirstDot` | controllers/postController.js:77 | `split('.')[0]` gives the longest prefix without a '.'. It contains no '.', and when it is shorter than its input the character after it is a '.'. |
| `ImageKeys.ImageKey` | controllers/postController.js:77 | The derived key contains neither '/' nor '.' and is no longer than the URL. |
| `ImageKeys.LastSegmentAfterSlash` | controllers/postController.js:77 | For `a + "/" + b` with no '/' in `b`, the last segment is exactly `b`. |
| `ImageKeys.BeforeFirstDotOf` | controllers/postController.js:77 | For `a + "." + b` with no '.' in `a`, the part before the first dot is exactly `a`. |
| `ImageKeys.ImageKeyOfUploadUrl` | controllers/postController.js:76-78 | A URL `<base>/<name>.<ext>` has key `name`, when the host's id `name` contains no '/' (no folder) and no '.'. |
| `ImageKeys.ImageKeyExample` | controllers/postController.js:77 | `https://cdn/v1/abc.jpg` has key `abc`. |
| `Likes.Pull` | controllers/postController.js:105-107 | `$pull` removes every occurrence of the id and keeps every other id with its count. It leaves a list without the id unchanged. |
| `Likes.PullMembers` | controllers/postController.js:105-107 | After `$pull` the list holds exactly the other users' ids that were there before. |
| `Likes.PullKeepsNoDup` | controllers/postController.js:105-107 | `$pull` keeps a duplicate-free list duplicate-free. |
| `Likes.Toggle` | controllers/postController.js:101-115 | The caller's membership in `likes` flips. The membership of every other user is kept. |
| `Likes.ToggleAtMostOnce` | controllers/postController.js:101-115 | After the toggle the caller's id occurs at most once, whatever the list held before. |
| `Likes.ToggleKeepsNoDup` | controllers/postController.js:101-115 | A duplicate-free `likes` stays duplicate-free. |
| `Likes.LikeThenUnlike` | controllers/postController.js:101-115 | Like then unlike by the same user restores `likes` exactly. |
| `Likes.UnlikeThenLike` | controllers/postController.js:101-115 | Unlike then like restores a duplicate-free `likes` as a multiset. |
| `Likes.UnlikeThenLikeReorders` | controllers/postController.js:105-113 | `[1, 2]` toggled twice by user 1 becomes `[2, 1]`, so the order is not restored. |
| `Likes.ToggleParity` | controllers/postController.js:101-115 | After `n` toggles by one user, that user has liked the post exactly when the initial state was flipped an odd number of times. |
| `Listing.Collect` | controllers/postController.js:163 | The natural-order listing holds every stored post (below the id bound), only stored posts, in ascending id order. |
| `Listing.Filter` | controllers/postController.js:163 | The `postedBy: { $in: authors }` filter keeps exactly the posts whose author is in the set, and keeps ascending id order. |
| `Listing.Sort` | controllers/postController.js:163-165 | `sort({ createdAt: -1 })` gives a permutation of its input (same multiset) in non-increasing `createdAt`. |
| `Listing.SortKeepsDistinct` | controllers/postController.js:163-165 | Sorting a listing without repeated posts introduces none. |
| `Listing.Query` | controllers/postController.js:163-165 | A query result holds exactly the stored posts with an author in the set, each once, newest first. It is empty for an empty author set. |

## Left out

- The `catch` blocks that answer 500 for database failures, including a malformed id that the database cannot cast. The only 500 paths modelled are the image host's: a failed upload in `createPost` and a failed destroy in `deletePost`. The logging is not modelled.
- Concurrency: the atomicity of `$push`/`$pull` and of the reply save under concurrent requests. Every handler runs alone on the store.
- Mongoose schema validation and defaults. The post and user schemas (`models/postModel.js`, `models/userModel.js`) are not part of this model. So `img` keeps whatever falsy value was given, and replies have no length limit.
- Text length is counted in Dafny characters. JavaScript counts UTF-16 code units, so text with characters outside the Basic Multilingual Plane can measure differently.
- Response bodies are reduced to status codes. The exceptions are the returned post and list, and the like/unlike message.
- The clock: `createdAt` is the `now` argument. `updatedAt` is not modelled.
- Ids: a post's id comes from a counter, so the natural order of the collection is creation order. A real ObjectId is only roughly time-ordered.
- PostController.PostStore.GetUserPosts: `findOne({ username })` returns the first match in the collection's order. The model promises only some user with that username, so it is weaker when usernames repeat.
- Listing.Sort: posts with equal `createdAt` come out in one fixed order. The database leaves their order unspecified, and the contract says nothing about it.
- The commented-out `populate` calls and the HTTP routing.
