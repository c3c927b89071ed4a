/**
 * The sequence side of the like handler: `findIndex` over `post.likes`, then
 * either `splice` of the first match or `push` of a new like. The handler in
 * PostRoutes applies this to a stored post.
 */
module LikeToggle {
  import opened PostModel

  /** What `findIndex` yields: an index, -1, or an exception thrown by the callback. */
  datatype LikeSearch = Found(index: nat) | Missing | Crashed

  /**
   * `findIndex` from position `from` on, with the callback
   * `like.user.toString() === userId.toString()`: it throws on a like that has
   * no user, so a userless like before any match aborts the search.
   */
  function FindLikeFrom(likes: seq<Like>, user: UserId, from: nat): (r: LikeSearch)
    requires from <= |likes|
    ensures r.Found? ==> from <= r.index < |likes| && likes[r.index].user == Some(user)
    ensures r.Found? ==> forall j :: from <= j < r.index ==> likes[j].user.Some? && likes[j].user != Some(user)
    ensures r.Missing? ==> forall j :: from <= j < |likes| ==> likes[j].user.Some? && likes[j].user != Some(user)
    ensures r.Crashed? ==>
              exists j :: from <= j < |likes| && likes[j].user == None &&
                forall k :: from <= k < j ==> likes[k].user.Some? && likes[k].user != Some(user)
    decreases |likes| - from
  {
    if from == |likes| then Missing
    else if likes[from].user == None then Crashed
    else if likes[from].user == Some(user) then Found(from)
    else FindLikeFrom(likes, user, from + 1)
  }

  /** `post.likes.findIndex(...)`: the first like by `user`, if the scan gets that far. */
  function FindLike(likes: seq<Like>, user: UserId): (r: LikeSearch)
    ensures r.Found? ==> r.index < |likes| && likes[r.index].user == Some(user)
    ensures r.Found? ==> forall j :: 0 <= j < r.index ==> likes[j].user.Some? && likes[j].user != Some(user)
    ensures r.Missing? ==> forall j :: 0 <= j < |likes| ==> likes[j].user.Some? && likes[j].user != Some(user)
    ensures r.Crashed? ==>
              exists j :: 0 <= j < |likes| && likes[j].user == None &&
                forall k :: 0 <= k < j ==> likes[k].user.Some? && likes[k].user != Some(user)
  {
    FindLikeFrom(likes, user, 0)
  }

  /** The user has a like on the post. */
  predicate Liked(likes: seq<Like>, user: UserId) {
    exists i :: 0 <= i < |likes| && likes[i].user == Some(user)
  }

  /** The users that have liked the post. */
  function Likers(likes: seq<Like>): set<Option<UserId>> {
    set l | l in likes :: l.user
  }

  /** `splice(i, 1)`. */
  function RemoveAt(s: seq<Like>, i: nat): (r: seq<Like>)
    requires i < |s|
    ensures |r| == |s| - 1
    ensures forall k :: 0 <= k < |r| ==> r[k] == if k < i then s[k] else s[k + 1]
  {
    s[..i] + s[i + 1..]
  }

  /** The likes after one toggle by `user`; unchanged when the search throws. */
  function ToggledLikes(likes: seq<Like>, user: UserId, username: string): seq<Like> {
    match FindLike(likes, user)
    case Found(i) => RemoveAt(likes, i)
    case Missing => likes + [Like(Some(user), username)]
    case Crashed => likes
  }

  /** The post after the toggle, `likesCount` set to the new length, and the save's timestamp. */
  function WithToggledLike(p: Post, user: UserId, username: string, now: int): Post {
    var likes := ToggledLikes(p.likes, user, username);
    p.(likes := likes, likesCount := |likes|, updatedAt := now)
  }

  /** When every like names a user, the search never throws, and it finds a like exactly when the user has one. */
  lemma KeyedSearch(likes: seq<Like>, user: UserId)
    requires LikesKeyed(likes)
    ensures !FindLike(likes, user).Crashed?
    ensures FindLike(likes, user).Found? <==> Liked(likes, user)
  {
  }

  /** With no like by `user` from `from` on, and every like naming a user, the search reports -1. */
  lemma {:induction false} SearchMissesAbsentUser(likes: seq<Like>, user: UserId, from: nat)
    requires from <= |likes|
    requires forall j :: from <= j < |likes| ==> likes[j].user.Some? && likes[j].user != Some(user)
    ensures FindLikeFrom(likes, user, from) == Missing
    decreases |likes| - from
  {
    if from < |likes| {
      SearchMissesAbsentUser(likes, user, from + 1);
    }
  }

  /** A like appended after a scan that found none is found at the end. */
  lemma {:induction false} SearchFindsAppended(likes: seq<Like>, user: UserId, username: string, from: nat)
    requires from <= |likes|
    requires FindLikeFrom(likes, user, from) == Missing
    ensures FindLikeFrom(likes + [Like(Some(user), username)], user, from) == Found(|likes|)
    decreases |likes| - from
  {
    var longer := likes + [Like(Some(user), username)];
    if from < |likes| {
      assert longer[from] == likes[from];
      SearchFindsAppended(likes, user, username, from + 1);
    }
  }

  /** A toggle keeps every like named and every user at most once. */
  lemma TogglePreservesKeyed(likes: seq<Like>, user: UserId, username: string)
    requires LikesKeyed(likes)
    ensures LikesKeyed(ToggledLikes(likes, user, username))
  {
    var r := ToggledLikes(likes, user, username);
    match FindLike(likes, user)
    case Found(i) =>
      forall a, b | 0 <= a < b < |r| ensures r[a].user != r[b].user {
        var a' := if a < i then a else a + 1;
        var b' := if b < i then b else b + 1;
        assert r[a] == likes[a'] && r[b] == likes[b'];
      }
    case Missing =>
    case Crashed =>
  }

  /**
   * A toggle flips whether the user likes the post, and moves the count by
   * one: down when a like is removed, up when one is added.
   */
  lemma ToggleFlipsLiked(likes: seq<Like>, user: UserId, username: string)
    requires LikesKeyed(likes)
    ensures Liked(ToggledLikes(likes, user, username), user) == !Liked(likes, user)
    ensures |ToggledLikes(likes, user, username)| == if Liked(likes, user) then |likes| - 1 else |likes| + 1
  {
    var r := ToggledLikes(likes, user, username);
    match FindLike(likes, user)
    case Found(i) =>
    case Missing =>
      assert r[|likes|].user == Some(user);
    case Crashed =>
  }

  /** Two toggles from "not liked": the exact original likes come back. */
  lemma ToggleTwiceFromUnliked(likes: seq<Like>, user: UserId, username: string, username': string)
    requires FindLike(likes, user) == Missing
    ensures ToggledLikes(ToggledLikes(likes, user, username), user, username') == likes
  {
    SearchFindsAppended(likes, user, username, 0);
    assert (likes + [Like(Some(user), username)])[..|likes|] == likes;
  }

  /**
   * Two toggles from "liked": the count and the set of users come back, but
   * the user's like has moved from its old place to the end, carrying the
   * username given on the second toggle.
   */
  lemma ToggleTwiceFromLiked(likes: seq<Like>, user: UserId, username: string)
    requires LikesKeyed(likes) && FindLike(likes, user).Found?
    ensures ToggledLikes(ToggledLikes(likes, user, username), user, username)
            == RemoveAt(likes, FindLike(likes, user).index) + [Like(Some(user), username)]
    ensures |ToggledLikes(ToggledLikes(likes, user, username), user, username)| == |likes|
    ensures Likers(ToggledLikes(ToggledLikes(likes, user, username), user, username)) == Likers(likes)
  {
    var i := FindLike(likes, user).index;
    var once := RemoveAt(likes, i);
    assert ToggledLikes(likes, user, username) == once;
    forall j | 0 <= j < |once| ensures once[j].user.Some? && once[j].user != Some(user) {
      var j' := if j < i then j else j + 1;
      assert once[j] == likes[j'];
    }
    SearchMissesAbsentUser(once, user, 0);
    assert ToggledLikes(once, user, username) == once + [Like(Some(user), username)];
    LikersAfterMove(likes, i, Like(Some(user), username));
  }

  /** Moving a like to the end, under the same user, keeps the set of users. */
  lemma LikersAfterMove(likes: seq<Like>, i: nat, l: Like)
    requires i < |likes| && likes[i].user == l.user
    ensures Likers(RemoveAt(likes, i) + [l]) == Likers(likes)
  {
    var once := RemoveAt(likes, i);
    var moved := once + [l];
    forall u | u in Likers(likes) ensures u in Likers(moved) {
      var k :| 0 <= k < |likes| && likes[k].user == u;
      if k < i {
        assert moved[k] == likes[k];
      } else if k == i {
        assert moved[|once|] == l;
      } else {
        assert moved[k - 1] == likes[k];
      }
    }
    forall u | u in Likers(moved) ensures u in Likers(likes) {
      var k :| 0 <= k < |moved| && moved[k].user == u;
      if k < |once| {
        var k' := if k < i then k else k + 1;
        assert likes[k'] == moved[k];
      } else {
        assert likes[i].user == u;
      }
    }
  }

  /** A toggle adds no like other than the user's own. */
  lemma ToggleAddsOnlyOwnLike(likes: seq<Like>, user: UserId, username: string)
    ensures forall l :: l in ToggledLikes(likes, user, username) ==> l in likes || l == Like(Some(user), username)
  {
    match FindLike(likes, user)
    case Found(i) =>
      var r := RemoveAt(likes, i);
      forall l | l in r ensures l in likes {
        var k :| 0 <= k < |r| && r[k] == l;
        var k' := if k < i then k else k + 1;
        assert likes[k'] == l;
      }
    case Missing =>
    case Crashed =>
  }

  /**
   * Toggling a like on a well-formed post: `save` accepts the result unless
   * it would push a like with an empty username, and an accepted result is
   * well formed.
   */
  lemma LikeSave(p: Post, user: UserId, username: string, now: int)
    requires WellFormed(p)
    ensures Validate(WithToggledLike(p, user, username, now)) == None <==> Liked(p.likes, user) || username != []
    ensures Validate(WithToggledLike(p, user, username, now)) == None ==> WellFormed(WithToggledLike(p, user, username, now))
  {
    var q := WithToggledLike(p, user, username, now);
    KeyedSearch(p.likes, user);
    TogglePreservesKeyed(p.likes, user, username);
    ToggleAddsOnlyOwnLike(p.likes, user, username);
    if !Liked(p.likes, user) {
      assert q.likes[|p.likes|] == Like(Some(user), username);
    }
  }
}
