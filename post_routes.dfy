/**
 * The post routes: create a post (after the upload step), toggle a like, add
 * a comment, list a post's comments. `PostStore` holds the post collection and
 * its methods are the handlers; each one reads a post, changes it in memory
 * and saves it, and a save that the schema refuses leaves the collection as it
 * was.
 */
module PostRoutes {
  import opened JsString
  import opened PostModel
  import opened LikeToggle

  /** The file the upload step stored, as it reaches the handler. */
  datatype UploadedFile = UploadedFile(mimetype: Option<string>, path: string, filename: string)

  /** The error the upload step reports. */
  datatype UploadFailure = UploadFailure(code: Option<string>, message: string)

  /** What the upload step produced for the request. */
  datatype Upload = NoFile | Stored(file: UploadedFile) | Rejected(failure: UploadFailure)

  /** `req.file`: the stored file, if any. */
  function FileOf(upload: Upload): Option<UploadedFile> {
    match upload
    case Stored(f) => Some(f)
    case _ => None
  }

  /** The status of an upload error: 413 for a file over the size limit, 400 for anything else. */
  function UploadErrorStatus(code: Option<string>): (status: int)
    ensures status == 413 || status == 400
    ensures status == 413 <==> code == Some("LIMIT_FILE_SIZE")
  {
    if code == Some("LIMIT_FILE_SIZE") then 413 else 400
  }

  /** The message of an upload error, with a fixed fallback when it has none. */
  function UploadErrorMessage(f: UploadFailure): (message: string)
    ensures message != []
    ensures f.message != [] ==> message == f.message
    ensures f.message == [] ==> message == "Image upload failed"
  {
    if f.message != [] then f.message else "Image upload failed"
  }

  /** A file is a video when its mimetype starts with `video/`. */
  predicate IsVideo(f: UploadedFile) {
    f.mimetype.Some? && StartsWith(f.mimetype.value, "video/")
  }

  /** The media fields a new post receives. */
  datatype Media = Media(image: string, imagePublicId: string, video: string, videoPublicId: string)

  /**
   * A video's path and filename go to the video fields, any other file's to
   * the image fields, and no file leaves all four empty: never both an image
   * and a video.
   */
  function Classify(file: Option<UploadedFile>): (m: Media)
    ensures m.image == [] || m.video == []
    ensures m.imagePublicId == [] || m.videoPublicId == []
    ensures m.video != [] ==> file.Some? && IsVideo(file.value) && m.video == file.value.path
    ensures m.image != [] ==> file.Some? && !IsVideo(file.value) && m.image == file.value.path
    ensures file.None? ==> m == Media("", "", "", "")
    ensures file.Some? && IsVideo(file.value) ==>
              m.video == file.value.path && m.videoPublicId == file.value.filename &&
              m.image == [] && m.imagePublicId == []
    ensures file.Some? && !IsVideo(file.value) ==>
              m.image == file.value.path && m.imagePublicId == file.value.filename &&
              m.video == [] && m.videoPublicId == []
  {
    match file
    case None => Media("", "", "", "")
    case Some(f) =>
      if IsVideo(f) then Media("", "", f.path, f.filename)
      else Media(f.path, f.filename, "", "")
  }

  /** The route's own empty-post check, on the raw (untrimmed) text. */
  predicate RouteRejectsEmpty(text: Option<string>, m: Media) {
    (text == None || text == Some("")) && m.image == [] && m.video == []
  }

  /** The text a new post is built from: absent text becomes the empty string. */
  function TextOrEmpty(text: Option<string>): string {
    if text.Some? then text.value else ""
  }

  datatype CreateReply =
    | UploadRejected(status: int, message: string)
    | EmptyPostRejected
    | SaveFailed(error: SaveError)
    | Created(post: Post)
  {
    function Status(): int {
      match this
      case UploadRejected(status, _) => status
      case EmptyPostRejected => 400
      case SaveFailed(_) => 500
      case Created(_) => 201
    }

    function Message(): string {
      match this
      case UploadRejected(_, message) => message
      case EmptyPostRejected => "Post must contain text, image, or video"
      case SaveFailed(_) => "Server error creating post"
      case Created(_) => "Post created successfully"
    }
  }

  /**
   * The create-post handler up to the point where the new document is
   * written: the upload error, the route's empty-post check, building the
   * document, and the checks `save` makes.
   */
  function PlanCreate(user: UserId, username: string, text: Option<string>, upload: Upload, now: int): (r: CreateReply)
    ensures r.UploadRejected? <==> upload.Rejected?
    ensures r.UploadRejected? ==>
              r.status == UploadErrorStatus(upload.failure.code) && r.message == UploadErrorMessage(upload.failure)
    ensures r.EmptyPostRejected? <==>
              !upload.Rejected? && RouteRejectsEmpty(text, Classify(FileOf(upload)))
    ensures var m, t := Classify(FileOf(upload)), Trim(TextOrEmpty(text));
            r.Created? <==>
              !upload.Rejected? && !RouteRejectsEmpty(text, m) &&
              username != [] && |t| <= MaxTextLength && (t != [] || m.image != [] || m.video != [])
    ensures r.Created? ==> WellFormed(r.post) && r.post.likes == [] && r.post.comments == []
    ensures var m := Classify(FileOf(upload));
            r.Created? ==>
              r.post.image == m.image && r.post.imagePublicId == m.imagePublicId &&
              r.post.video == m.video && r.post.videoPublicId == m.videoPublicId
    ensures r.Created? ==> r.post.image == [] || r.post.video == []
    ensures r.Created? ==> r.post.user == user && r.post.username == username && r.post.text == Trim(TextOrEmpty(text))
    ensures r.Created? ==> r.post.createdAt == now && r.post.updatedAt == now
  {
    match upload
    case Rejected(f) => UploadRejected(UploadErrorStatus(f.code), UploadErrorMessage(f))
    case _ =>
      var m := Classify(FileOf(upload));
      if RouteRejectsEmpty(text, m) then EmptyPostRejected
      else
        var p := NewPost(user, username, TextOrEmpty(text), m.image, m.imagePublicId, m.video, m.videoPublicId, now);
        match Validate(p)
        case Some(e) => SaveFailed(e)
        case None => Created(p)
  }

  /** With no file and no text (absent or empty) the route answers 400. */
  lemma CreateWithoutContentRejected(user: UserId, username: string, text: Option<string>, now: int)
    requires text == None || text == Some("")
    ensures PlanCreate(user, username, text, NoFile, now) == EmptyPostRejected
    ensures PlanCreate(user, username, text, NoFile, now).Status() == 400
  {
    assert Classify(FileOf(NoFile)) == Media("", "", "", "");
  }

  /**
   * Text that is not all whitespace and at most 500 characters once trimmed,
   * by an author with a name, and no file: the post is created with that
   * trimmed text.
   */
  lemma CreateWithTextSucceeds(user: UserId, username: string, text: string, now: int)
    requires !AllWhitespace(text) && |Trim(text)| <= MaxTextLength && username != []
    ensures PlanCreate(user, username, Some(text), NoFile, now).Created?
    ensures PlanCreate(user, username, Some(text), NoFile, now).Status() == 201
  {
    var m := Classify(FileOf(NoFile));
    assert m == Media("", "", "", "");
    assert text != [];
    assert !RouteRejectsEmpty(Some(text), m);
    var p := NewPost(user, username, text, "", "", "", "", now);
    assert p.text != [] && p.likes == [] && p.comments == [];
    assert SchemaValid(p) && HasContent(p);
    assert PlanCreate(user, username, Some(text), NoFile, now) == Created(p);
  }

  /**
   * Whitespace-only text and no file pass the route's check, since the route
   * looks at the raw text, but the pre-save hook sees the trimmed, empty text
   * and refuses the post: the request ends in 500, not 400.
   */
  lemma WhitespaceOnlyPostFailsAtHook(user: UserId, username: string, text: string, now: int)
    requires text != [] && AllWhitespace(text) && username != []
    ensures !RouteRejectsEmpty(Some(text), Classify(None))
    ensures PlanCreate(user, username, Some(text), NoFile, now) == SaveFailed(MissingContent)
    ensures PlanCreate(user, username, Some(text), NoFile, now).Status() == 500
  {
    var p := NewPost(user, username, text, "", "", "", "", now);
    assert p.text == [];
  }

  /** The route rejects a comment when the text is absent, empty, or only whitespace. */
  predicate CommentTextMissing(text: Option<string>) {
    text == None || text.value == [] || Trim(text.value) == []
  }

  /** Rejected comment texts are exactly the absent and the all-whitespace ones. */
  lemma CommentTextMissingIff(text: Option<string>)
    ensures CommentTextMissing(text) <==> text == None || AllWhitespace(text.value)
  {
  }

  datatype LikeReply =
    | LikeNotFound
    | LikeFailed
    | LikeToggled(message: string, likesCount: int, isLiked: bool)
  {
    function Status(): int {
      match this
      case LikeNotFound => 404
      case LikeFailed => 500
      case LikeToggled(_, _, _) => 200
    }
  }

  datatype CommentReply =
    | CommentTextRequired
    | CommentNotFound
    | CommentFailed
    | CommentAdded(message: string, comment: Comment, commentsCount: int)
  {
    function Status(): int {
      match this
      case CommentTextRequired => 400
      case CommentNotFound => 404
      case CommentFailed => 500
      case CommentAdded(_, _, _) => 201
    }
  }

  datatype CommentsReply = CommentsNotFound | CommentsListed(comments: seq<Comment>)
  {
    function Status(): int {
      match this
      case CommentsNotFound => 404
      case CommentsListed(_) => 200
    }
  }

  /** Every post in the collection is well formed. */
  predicate AllWellFormed(posts: map<PostId, Post>) {
    forall id :: id in posts ==> WellFormed(posts[id])
  }

  /** Storing a well-formed post keeps the whole collection well formed. */
  lemma StoreKeepsWellFormed(posts: map<PostId, Post>, id: PostId, p: Post)
    requires AllWellFormed(posts) && WellFormed(p)
    ensures AllWellFormed(posts[id := p])
  {
  }

  /** The collection after a create: the new post under `id` when it was created, else unchanged. */
  function AfterCreate(posts: map<PostId, Post>, id: PostId, reply: CreateReply): map<PostId, Post> {
    if reply.Created? then posts[id := reply.post] else posts
  }

  class PostStore {
    var posts: map<PostId, Post>

    /** Every stored post passed `save`, is trimmed, has counters in agreement and likes keyed by user. */
    ghost predicate Valid()
      reads this
    {
      AllWellFormed(posts)
    }

    constructor ()
      ensures Valid() && posts == map[]
    {
      posts := map[];
    }

    /** `POST /posts`: on success the new document is stored under the freshly allocated `id`. */
    method CreatePost(id: PostId, user: UserId, username: string, text: Option<string>, upload: Upload, now: int)
      returns (reply: CreateReply)
      requires Valid() && id !in posts
      modifies this
      ensures Valid()
      ensures reply == PlanCreate(user, username, text, upload, now)
      ensures posts == AfterCreate(old(posts), id, reply)
    {
      reply := PlanCreate(user, username, text, upload, now);
      if reply.Created? {
        StoreKeepsWellFormed(posts, id, reply.post);
      }
      posts := AfterCreate(posts, id, reply);
    }

    /**
     * `POST /posts/:id/like`: 404 for an unknown post; otherwise the user's
     * first like is spliced out, or a like is pushed at the end, and
     * `likesCount` is set to the new length. The save refuses a pushed like
     * whose username is empty (500, nothing stored).
     */
    method ToggleLike(id: PostId, user: UserId, username: string, now: int) returns (reply: LikeReply)
      requires Valid()
      modifies this
      ensures Valid()
      ensures reply.LikeNotFound? <==> id !in old(posts)
      ensures reply.LikeFailed? <==> id in old(posts) && !Liked(old(posts)[id].likes, user) && username == []
      ensures !reply.LikeToggled? ==> posts == old(posts)
      ensures reply.LikeToggled? ==> id in old(posts) && posts == old(posts)[id := WithToggledLike(old(posts)[id], user, username, now)]
      ensures reply.LikeToggled? ==> reply.isLiked == !Liked(old(posts)[id].likes, user)
      ensures reply.LikeToggled? ==> reply.isLiked == Liked(posts[id].likes, user)
      ensures reply.LikeToggled? ==> reply.likesCount == |posts[id].likes|
      ensures reply.LikeToggled? ==> reply.message == if reply.isLiked then "Post liked" else "Post unliked"
    {
      if id !in posts {
        return LikeNotFound;
      }
      var post := posts[id];
      var likeIndex := FindLike(post.likes, user);
      var likes := post.likes;
      match likeIndex {
        case Crashed =>
          KeyedSearch(post.likes, user);
          return LikeFailed;
        case Found(i) =>
          likes := likes[..i] + likes[i + 1..];
        case Missing =>
          likes := likes + [Like(Some(user), username)];
      }
      var updated := post.(likes := likes, likesCount := |likes|, updatedAt := now);
      assert updated == WithToggledLike(post, user, username, now);
      LikeSave(post, user, username, now);
      if Validate(updated).Some? {
        return LikeFailed;
      }
      KeyedSearch(post.likes, user);
      ToggleFlipsLiked(post.likes, user, username);
      StoreKeepsWellFormed(posts, id, updated);
      posts := posts[id := updated];
      var unliked := likeIndex.Found?;
      reply := LikeToggled(if unliked then "Post unliked" else "Post liked", updated.likesCount, !unliked);
    }

    /**
     * `POST /posts/:id/comment`: 400 for missing or blank text before the
     * post is looked up, 404 for an unknown post; otherwise exactly one
     * comment with the trimmed text is pushed, `commentsCount` is set to the
     * new length, and the reply carries the last comment. The save refuses a
     * comment whose username is empty (500, nothing stored).
     */
    method AddComment(id: PostId, user: UserId, username: string, text: Option<string>, now: int)
      returns (reply: CommentReply)
      requires Valid()
      modifies this
      ensures Valid()
      ensures reply.CommentTextRequired? <==> CommentTextMissing(text)
      ensures reply.CommentNotFound? <==> !CommentTextMissing(text) && id !in old(posts)
      ensures reply.CommentFailed? <==> !CommentTextMissing(text) && id in old(posts) && username == []
      ensures !reply.CommentAdded? ==> posts == old(posts)
      ensures reply.CommentAdded? ==> text.Some? && id in old(posts)
      ensures reply.CommentAdded? ==> reply.comment == Comment(user, username, Trim(text.value), now)
      ensures reply.CommentAdded? ==> posts == old(posts)[id := WithComment(old(posts)[id], reply.comment, now)]
      ensures reply.CommentAdded? ==> reply.commentsCount == |old(posts)[id].comments| + 1 == |posts[id].comments|
      ensures reply.CommentAdded? ==> reply.message == "Comment added successfully"
    {
      if CommentTextMissing(text) {
        reply := CommentTextRequired;
      } else if id !in posts {
        reply := CommentNotFound;
      } else {
        var post := posts[id];
        var trimmed := Trim(text.value);
        TrimIdempotent(text.value);
        var comment := NewComment(user, username, trimmed, now);
        assert comment == Comment(user, username, trimmed, now) && comment.text != [];
        var updated := post.(comments := post.comments + [comment], updatedAt := now);
        updated := updated.(commentsCount := |updated.comments|);
        assert updated == WithComment(post, comment, now);
        CommentSave(post, comment, now);
        if Validate(updated).Some? {
          reply := CommentFailed;
        } else {
          StoreKeepsWellFormed(posts, id, updated);
          posts := posts[id := updated];
          var saved := updated.comments[|updated.comments| - 1];
          reply := CommentAdded("Comment added successfully", saved, updated.commentsCount);
        }
      }
    }

    /** `GET /posts/:id/comments`: every comment in insertion order, or 404. */
    method GetComments(id: PostId) returns (reply: CommentsReply)
      ensures reply.CommentsNotFound? <==> id !in posts
      ensures reply.CommentsListed? ==> reply.comments == posts[id].comments
    {
      if id !in posts {
        return CommentsNotFound;
      }
      reply := CommentsListed(posts[id].comments);
    }
  }
}

/**
 * Sessions against the handlers' contracts alone: create a text post, like
 * and unlike it, comment on it and list its comments.
 */
module PostSession {
  import opened JsString
  import opened PostModel
  import opened LikeToggle
  import opened PostRoutes

  method CreateTextPost() returns (store: PostStore, p1: PostId)
    ensures store.Valid() && p1 in store.posts
    ensures store.posts[p1].likes == [] && store.posts[p1].comments == []
  {
    var u1 := UserId("u1");
    p1 := PostId("p1");
    assert !AllWhitespace("hi") by { assert "hi"[0] == 'h'; }
    CreateWithTextSucceeds(u1, "alice", "hi", 1);
    store := new PostStore();
    var created := store.CreatePost(p1, u1, "alice", Some("hi"), NoFile, 1);
    assert created.Created? && created.Status() == 201;
  }

  method LikeThenUnlike(store: PostStore, p1: PostId, u1: UserId)
    requires store.Valid() && p1 in store.posts && store.posts[p1].likes == []
    modifies store
  {
    ghost var one := [Like(Some(u1), "alice")];
    assert ToggledLikes([], u1, "alice") == one;
    assert FindLikeFrom(one, u1, 0) == Found(0);
    assert ToggledLikes(one, u1, "alice") == [];
    assert Liked(one, u1) by { assert one[0].user == Some(u1); }

    var liked := store.ToggleLike(p1, u1, "alice", 2);
    assert liked.LikeToggled? && store.posts[p1].likes == one;
    assert liked == LikeToggled("Post liked", 1, true);

    var unliked := store.ToggleLike(p1, u1, "alice", 3);
    assert unliked.LikeToggled? && store.posts[p1].likes == [];
    assert unliked == LikeToggled("Post unliked", 0, false);
  }

  method CommentThenList(store: PostStore, p1: PostId, u2: UserId)
    requires store.Valid() && p1 in store.posts && store.posts[p1].comments == []
    modifies store
  {
    assert !AllWhitespace("nice") by { assert "nice"[0] == 'n'; }
    var commented := store.AddComment(p1, u2, "bob", Some("nice"), 4);
    assert commented.CommentAdded? && commented.commentsCount == 1;

    var listed := store.GetComments(p1);
    assert listed.CommentsListed? && listed.comments == [commented.comment];
  }
}
