# Social app posts: a Dafny model

This project models the post logic of a small social-networking backend.
Users create posts that may carry text, an image or a video; other users like
and unlike them and comment on them; the post list shows the newest posts.
The model covers the route handlers of `routes/posts.js` and the Post schema
of `models/Post.js`:

- `JsString` (`js_string.dfy`) models JavaScript's `trim`, with the exact
  ECMAScript whitespace set, and `startsWith`.
- `PostModel` (`post_model.dfy`) covers the schema: the Post, Comment and Like
  documents, the trim setter, the defaults and the required fields. It also
  has the 500-character text limit and the pre-save hook. `Validate` is what
  `save` checks, with the schema validators first and the hook second.
  `WellFormed` is what every stored post satisfies.
- `LikeToggle` (`like_toggle.dfy`) covers the sequence side of the like
  handler. `findIndex` is a recursive search that also models the exception its
  callback throws on a like without a `user`. Then the first match is
  spliced out, or a like is pushed.
- `RecentPosts` (`recent_posts.dfy`) models the listing: newest `createdAt`
  first, at most 50 posts.
- `PostRoutes` (`post_routes.dfy`) holds the create-post logic. That is the
  upload-error status, the image/video classification by the `video/` prefix,
  the route's empty-post check and building the document. The module also has
  `PostStore`, a class over `posts: map<PostId, Post>`. Its methods are the
  handlers that change the collection: like, comment, create. Each handler
  reads a post, changes it, and keeps the result only if `save` accepts it.
  `PostSession` checks a sample session (create, like, unlike, comment,
  list) against the handler contracts alone.

Three behaviours of the code are worth noting:

- The create route answers 400 with "Post must contain text, image, or
  video" only when the raw text is absent or empty and there is no file
  (routes/posts.js:53-56). The schema's trim setter (models/Post.js:35) then
  trims the text, and the pre-save hook (models/Post.js:79) looks at the
  trimmed text. So whitespace-only text with no file passes the route's
  check, the hook refuses it, and the request ends in the create route's 500
  handler (`WhitespaceOnlyPostFailsAtHook`).
- The like search is `findIndex` with `like.user.toString()`. It stops at the
  first match. It throws, which gives a 500, on a like without a user, which
  the schema allows (`FindLikeFrom`). A store that only this code has written
  never holds such a like, because `LikesKeyed` is part of `WellFormed`.
- A required string in the schema must be non-empty. So `save` refuses a like
  or comment whose `username` is empty. The handler answers 500 and the
  collection is unchanged.

## Model

| member | source | states |
|---|---|---|
| `JsString.Trim` | routes/posts.js:136 | the result has no whitespace at either end, is no longer than the input, and is empty exactly when the input is all whitespace |
| `JsString.TrimStart` | routes/posts.js:136 | the result is the suffix of the input after a run of whitespace, and it does not start with whitespace |
| `JsString.TrimEnd` | routes/posts.js:136 | the result is the prefix of the input before a run of whitespace, and it does not end with whitespace |
| `JsString.TrimIsTrimEndOfTrimStart` | routes/posts.js:136 | `trim` equals dropping the leading whitespace and then the trailing whitespace |
| `JsString.TrimIdempotent` | routes/posts.js:148 | trimming twice equals trimming once, so the schema's trim setter leaves the route-trimmed comment text unchanged |
| `JsString.TrimOfTrimmed` | models/Post.js:16 | trim leaves a string with no whitespace at either end unchanged |
| `PostModel.NewPost` | models/Post.js:24-76 | a new post's text is the given text after `trim`, so it is trimmed and empty exactly when the given text is all whitespace; its image, video and their public ids are the given ones; it has no likes and no comments, both counters at 0 and in agreement, and both timestamps at creation time |
| `PostModel.SchemaValid` | models/Post.js:9-63 | the validators of models/Post.js:9-16, 30-37 and 60-63: a required username on the post, on each like and on each comment, non-empty comment text, and post text of at most 500 characters |
| `PostModel.HasContent` | models/Post.js:79 | the hook's condition: the post has text, an image or a video |
| `PostModel.NewComment` | models/Post.js:3-22 | a new comment's text is the given text after `trim`, so it is trimmed and empty exactly when the given text is all whitespace; it takes its author and `createdAt` from the inputs |
| `PostModel.WithComment` | routes/posts.js:151-152 | the post after pushing the comment, with `commentsCount` set to the new length and the save's timestamp |
| `PostModel.Validate` | models/Post.js:4-84 | with the validators of models/Post.js:4-16, 30-37 and 60-63 run before the hook of models/Post.js:78-84, save accepts a post exactly when the schema validators pass (required usernames, non-empty comment text, text at most 500) and it has text, image or video; the hook's error is reported exactly for a schema-valid post without all three |
| `PostModel.HookRejectsEmptyPost` | models/Post.js:78-84 | a post whose text, image and video are all empty is refused by save, by the hook when the validators pass |
| `PostModel.NewPostWellFormed` | models/Post.js:24-84 | a new post by a named author, with trimmed text of at most 500 characters and some content, is well formed: it passes save, its texts are trimmed, its counters agree and its likes are keyed |
| `PostModel.CommentSave` | routes/posts.js:145-154 | pushing a comment with trimmed, non-empty text onto a well-formed post and setting `commentsCount` to the new length: save accepts the result exactly when the commenter has a name, and an accepted result is well formed |
| `LikeToggle.FindLikeFrom` | routes/posts.js:104-106 | a found index is the first like by the user from that position on, every earlier like has a different user; -1 means no like there is by the user; a throw means there is a like without a user and every like before it names another user |
| `LikeToggle.FindLike` | routes/posts.js:104-106 | the same facts for the whole likes array |
| `LikeToggle.ToggledLikes` | routes/posts.js:104-116 | the toggle: the first like by the user is spliced out when the search finds one, a like by the user is pushed when it reports -1, and the likes stay as they were when it throws; its properties are the lemmas below |
| `LikeToggle.WithToggledLike` | routes/posts.js:108-117 | the post after the toggle, with `likesCount` set to the new length and the save's timestamp |
| `LikeToggle.RemoveAt` | routes/posts.js:109 | `splice(i, 1)` drops exactly element i and keeps the rest in order |
| `LikeToggle.KeyedSearch` | routes/posts.js:104-108 | when every like names a user, the search never throws, and it finds a like exactly when the user has liked the post |
| `LikeToggle.SearchMissesAbsentUser` | routes/posts.js:104-106 | with every like naming another user, the search reports -1 |
| `LikeToggle.SearchFindsAppended` | routes/posts.js:104-116 | after a -1 search and a push, the search finds the pushed like at the last index |
| `LikeToggle.TogglePreservesKeyed` | routes/posts.js:104-116 | if every like names a user and no user appears twice before a toggle, the same holds after it |
| `LikeToggle.ToggleFlipsLiked` | routes/posts.js:108-124 | a toggle flips whether the user likes the post, so `isLiked` is true exactly when the user had no like; the length drops by one on an unlike and grows by one on a like |
| `LikeToggle.ToggleTwiceFromUnliked` | routes/posts.js:104-117 | two toggles from not-liked give back exactly the original likes |
| `LikeToggle.ToggleTwiceFromLiked` | routes/posts.js:104-117 | two toggles from liked give back the count and the set of users; the user's like has moved from its first position to the end |
| `LikeToggle.ToggleAddsOnlyOwnLike` | routes/posts.js:108-117 | every like after a toggle was there before or is the user's own new like |
| `LikeToggle.LikeSave` | routes/posts.js:104-119 | toggling a like on a well-formed post: save accepts the result unless it would push a like with an empty username, and an accepted result is well formed |
| `LikeToggle.LikersAfterMove` | routes/posts.js:109-115 | splicing out a like and pushing one by the same user keeps the set of users |
| `RecentPosts.ConsNewestFirst` | routes/posts.js:86 | a post no older than the head of a newest-first sequence can go in front of it |
| `RecentPosts.InsertByNewest` | routes/posts.js:86 | inserting into a newest-first sequence keeps it newest first and adds exactly that post |
| `RecentPosts.SortNewestFirst` | routes/posts.js:86 | the result is newest first by `createdAt` and a permutation of the documents |
| `RecentPosts.ListRecent` | routes/posts.js:85-88 | the listing has min(n, 50) posts, newest first, drawn from the documents, and no post left out is newer than any post listed |
| `RecentPosts.PrefixHoldsNewest` | routes/posts.js:86-88 | the first k posts of a newest-first sequence stay newest first, are drawn from it, and no post after them is newer than one of them |
| `PostRoutes.UploadErrorStatus` | routes/posts.js:38 | the status is 413 exactly when the upload error code is `LIMIT_FILE_SIZE`, else 400 |
| `PostRoutes.UploadErrorMessage` | routes/posts.js:40-42 | the reply carries the upload error's message when it has one, otherwise "Image upload failed" |
| `PostRoutes.IsVideo` | routes/posts.js:47 | a file is a video when it has a mimetype that starts with `video/` |
| `JsString.StartsWith` | routes/posts.js:47 | `startsWith`: the string begins with the prefix |
| `PostRoutes.Classify` | routes/posts.js:47-51 | a file whose mimetype starts with `video/` fills the video fields (path and filename) and leaves the image fields empty, any other file does the reverse, and no file leaves all four empty; image and video are never both set |
| `PostRoutes.RouteRejectsEmpty` | routes/posts.js:53 | the route's check: the raw text is absent or empty and there is no image and no video |
| `PostRoutes.TextOrEmpty` | routes/posts.js:62 | absent text becomes the empty string, present text is kept as it is |
| `PostRoutes.PlanCreate` | routes/posts.js:35-74 | an upload error is answered with its mapped status and message; the route's empty-post check gives 400; otherwise the post is created exactly when the author has a name, the trimmed text is at most 500 characters, and the trimmed text, image or video is non-empty. The created post is well formed, carries the trimmed text and the classified media, and has no likes or comments |
| `PostRoutes.CreateReply.Status` | routes/posts.js:35-81 | the create route's status: the mapped upload-error status, 400 for the route's empty-post check, 500 for a refused save, 201 for a created post |
| `PostRoutes.CreateReply.Message` | routes/posts.js:35-81 | the create route's message: the upload error's message, "Post must contain text, image, or video", "Server error creating post", or "Post created successfully" |
| `PostRoutes.AfterCreate` | routes/posts.js:69 | the collection after the create: the new post stored under its id when it was created, otherwise unchanged |
| `PostRoutes.CreateWithoutContentRejected` | routes/posts.js:53-57 | absent or empty text with no file is rejected with 400 |
| `PostRoutes.CreateWithTextSucceeds` | routes/posts.js:59-74 | text that is not all whitespace and fits the limit, by a named author and with no file, creates the post (201) |
| `PostRoutes.WhitespaceOnlyPostFailsAtHook` | routes/posts.js:53-78 | whitespace-only text with no file passes the route check, but the hook refuses the trimmed empty text and the request ends in 500 |
| `PostRoutes.CommentTextMissing` | routes/posts.js:136 | the comment route's check: the text is absent or trims to the empty string |
| `PostRoutes.CommentTextMissingIff` | routes/posts.js:136-138 | a comment is rejected for its text exactly when the text is absent or all whitespace |
| `PostRoutes.StoreKeepsWellFormed` | routes/posts.js:69 | storing a well-formed post keeps every post of the collection well formed |
| `PostRoutes.PostStore.CreatePost` | routes/posts.js:35-81 | the reply is the planned one; a created post is stored under the new id, and otherwise the collection is unchanged; the store invariant is kept |
| `PostRoutes.LikeReply.Status` | routes/posts.js:97-130 | 404 for an unknown post, 500 for a thrown search or a refused save, 200 for a toggle |
| `PostRoutes.CommentReply.Status` | routes/posts.js:132-167 | 400 for absent or blank text, 404 for an unknown post, 500 for a refused save, 201 for an added comment |
| `PostRoutes.CommentsReply.Status` | routes/posts.js:169-181 | 404 for an unknown post, 200 with the comments otherwise |
| `PostRoutes.PostStore.ToggleLike` | routes/posts.js:97-130 | 404 exactly for an unknown post, 500 exactly when a like by an empty username would be pushed, and the store is unchanged on both; otherwise only that post changes, to the toggled likes with `likesCount` equal to their length; `isLiked` says whether the user now likes it, the message matches, and the store invariant is kept |
| `PostRoutes.PostStore.AddComment` | routes/posts.js:132-167 | 400 exactly for absent or blank text, checked before the lookup; 404 for an unknown post; 500 for an empty username; the store is unchanged on all three; otherwise exactly one comment with the trimmed text is appended to that post only, the count grows by one and equals the length, and the reply carries that last comment |
| `PostRoutes.PostStore.GetComments` | routes/posts.js:169-181 | 404 exactly for an unknown post, otherwise the post's comments in insertion order |

## Left out

- Cloudinary and multer (routes/posts.js:10-33, 36) are not modelled. The
  allowed formats, the 50 MB limit and the 800x600 resize happen inside those
  libraries. The upload's outcome is an input: no file, a stored file (its
  mimetype, path and filename), or an error (code and message).
- Mongoose persistence is not modelled: `findById`, the write itself, and
  ObjectId allocation. The collection is a map. A new post's id is an input
  and must be fresh. A comment's own `_id` is not modelled.
- An `:id` that is not a valid ObjectId makes `findById` throw a CastError,
  which the like, comment and comments routes answer with 500
  (routes/posts.js:126-128, 163-165, 177-179). `PostId` stands only for
  well-formed ObjectIds, so the model's 404 covers only well-formed ids that
  name no post.
- `Date.now` and the `timestamps` option are not modelled: the time is an
  input to each handler.
- `ListRecent` takes the documents in the order the collection returns them.
  MongoDB leaves the order of posts with equal `createdAt` open; among posts
  with equal `createdAt` the model keeps the order in which the collection
  returned them. `populate('user', 'username')`
  (routes/posts.js:87) and `select('comments')` (routes/posts.js:171) shape
  the reply and are not modelled.
- The auth middleware is not part of this model: `(user, username)` is an
  input, and its 401 path is left out.
- 500 replies caused by database or network failures are left out, and so is
  `console.error` logging. Only the 500s that come from the code and the
  schema are modelled: a thrown like search, and a save the validators or the
  hook refuse.
- Concurrent requests, and the read-modify-write race on likes and comments,
  are left out. Each handler runs atomically.
- Request bodies whose `text` is not a string are left out. `text` is either
  absent or a string.
- `maxlength` counts UTF-16 code units, while the model counts characters.
  Text with characters outside the Basic Multilingual Plane can be within
  the limit in the model and over it in the source.
- The validators' detailed error messages are collapsed into
  `ValidationFailed`, and save validates the whole document.
- `server.js` (app setup, CORS, connection, `listen`) is not modelled.
