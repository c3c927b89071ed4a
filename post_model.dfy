/**
 * The Post document and its embedded Comment and Like sub-documents, as the
 * schema declares them: which fields are required, which are trimmed on
 * assignment, the 500-character limit on post text, the defaults a new
 * document receives, and the pre-save hook that refuses a post without text,
 * image and video.
 */
module PostModel {
  import opened JsString

  datatype Option<T> = None | Some(value: T)

  /** A user's ObjectId, compared through its hex string. */
  datatype UserId = UserId(hex: string)

  /** A post's ObjectId; only well-formed ObjectIds are represented. */
  datatype PostId = PostId(hex: string)

  const MaxTextLength: nat := 500

  /** A like: `user` is not required by the schema, `username` is. */
  datatype Like = Like(user: Option<UserId>, username: string)

  datatype Comment = Comment(user: UserId, username: string, text: string, createdAt: int)

  datatype Post = Post(
    user: UserId,
    username: string,
    text: string,
    image: string,
    imagePublicId: string,
    video: string,
    videoPublicId: string,
    likes: seq<Like>,
    comments: seq<Comment>,
    likesCount: int,
    commentsCount: int,
    createdAt: int,
    updatedAt: int)

  /** Why `save` refused a document: a schema validator, or the pre-save hook. */
  datatype SaveError = ValidationFailed | MissingContent

  /**
   * A new Post document: `text` goes through the trim setter, likes and
   * comments start empty, both counters start at 0 and both timestamps at `now`.
   */
  function NewPost(user: UserId, username: string, text: string, image: string, imagePublicId: string,
                   video: string, videoPublicId: string, now: int): (p: Post)
    ensures p.text == Trim(text) && IsTrimmed(p.text) && (p.text == [] <==> AllWhitespace(text))
    ensures p.image == image && p.imagePublicId == imagePublicId && p.video == video && p.videoPublicId == videoPublicId
    ensures CountsAgree(p) && LikesKeyed(p.likes) && p.likesCount == 0 && p.commentsCount == 0
    ensures p.user == user && p.username == username && p.createdAt == now && p.updatedAt == now
  {
    Post(user, username, Trim(text), image, imagePublicId, video, videoPublicId, [], [], 0, 0, now, now)
  }

  /** A new Comment sub-document: `text` goes through the trim setter, `createdAt` defaults to `now`. */
  function NewComment(user: UserId, username: string, text: string, now: int): (c: Comment)
    ensures c.text == Trim(text) && IsTrimmed(c.text) && (c.text == [] <==> AllWhitespace(text))
    ensures c.user == user && c.username == username && c.createdAt == now
  {
    Comment(user, username, Trim(text), now)
  }

  /**
   * The schema validators: a required string must be non-empty (so a
   * comment's trimmed text cannot be empty), and post text is at most 500
   * characters. Required ObjectIds are always present in this model.
   */
  predicate SchemaValid(p: Post) {
    p.username != [] && |p.text| <= MaxTextLength &&
    (forall l :: l in p.likes ==> l.username != []) &&
    (forall c :: c in p.comments ==> c.username != [] && c.text != [])
  }

  /** The condition the pre-save hook demands. */
  predicate HasContent(p: Post) {
    p.text != [] || p.image != [] || p.video != []
  }

  /** What `save` does before writing: validators first, then the pre-save hook. */
  function Validate(p: Post): (r: Option<SaveError>)
    ensures r == None <==> SchemaValid(p) && HasContent(p)
    ensures r == Some(MissingContent) <==> SchemaValid(p) && p.text == [] && p.image == [] && p.video == []
  {
    if !SchemaValid(p) then Some(ValidationFailed)
    else if !HasContent(p) then Some(MissingContent)
    else None
  }

  /** The cached counters agree with the sequences they count. */
  predicate CountsAgree(p: Post) {
    p.likesCount == |p.likes| && p.commentsCount == |p.comments|
  }

  /** Every like names a user, and no user likes a post twice. */
  predicate LikesKeyed(likes: seq<Like>) {
    (forall i :: 0 <= i < |likes| ==> likes[i].user.Some?) &&
    (forall i, j :: 0 <= i < j < |likes| ==> likes[i].user != likes[j].user)
  }

  /** The trim setter has been applied to every text field. */
  predicate TextsTrimmed(p: Post) {
    IsTrimmed(p.text) && forall c :: c in p.comments ==> IsTrimmed(c.text)
  }

  /** What every stored post satisfies. */
  predicate WellFormed(p: Post) {
    Validate(p) == None && TextsTrimmed(p) && CountsAgree(p) && LikesKeyed(p.likes)
  }

  /** The pre-save hook refuses a post whose text, image and video are all empty. */
  lemma HookRejectsEmptyPost(p: Post)
    requires p.text == [] && p.image == [] && p.video == []
    ensures Validate(p).Some?
    ensures SchemaValid(p) ==> Validate(p) == Some(MissingContent)
  {
  }

  /**
   * A new post that `save` accepts is well formed: trimmed, counters in
   * agreement, no likes, and it carries text, an image or a video.
   */
  lemma NewPostWellFormed(user: UserId, username: string, text: string, image: string, imagePublicId: string,
                          video: string, videoPublicId: string, now: int)
    requires username != [] && |Trim(text)| <= MaxTextLength
    requires !AllWhitespace(text) || image != [] || video != []
    ensures WellFormed(NewPost(user, username, text, image, imagePublicId, video, videoPublicId, now))
  {
  }

  /** The post after `comments.push(c)`, `commentsCount` set to the new length, and the save's timestamp. */
  function WithComment(p: Post, c: Comment, now: int): Post {
    p.(comments := p.comments + [c], commentsCount := |p.comments| + 1, updatedAt := now)
  }

  /**
   * Pushing a comment with trimmed, non-empty text onto a well-formed post:
   * `save` accepts the result exactly when the commenter has a name, and an
   * accepted result is well formed.
   */
  lemma CommentSave(p: Post, c: Comment, now: int)
    requires WellFormed(p)
    requires c.text != [] && IsTrimmed(c.text)
    ensures Validate(WithComment(p, c, now)) == None <==> c.username != []
    ensures c.username != [] ==> WellFormed(WithComment(p, c, now))
  {
    var q := WithComment(p, c, now);
    assert c in q.comments;
    assert forall d :: d in q.comments ==> d in p.comments || d == c;
  }
}
