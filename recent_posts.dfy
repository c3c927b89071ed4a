/**
 * The post listing: every post, newest `createdAt` first, at most 50 of them.
 * The order in which the collection hands back its documents is an input.
 */
module RecentPosts {
  import opened PostModel

  const RecentLimit: nat := 50

  predicate NewestFirst(s: seq<Post>) {
    forall i, j :: 0 <= i < j < |s| ==> s[i].createdAt >= s[j].createdAt
  }

  /** A post no older than the head of a newest-first sequence can go in front of it. */
  lemma ConsNewestFirst(p: Post, s: seq<Post>)
    requires NewestFirst(s)
    requires s == [] || s[0].createdAt <= p.createdAt
    ensures NewestFirst([p] + s)
  {
    var r := [p] + s;
    forall i, j | 0 <= i < j < |r| ensures r[i].createdAt >= r[j].createdAt {
      if i == 0 {
        assert r[j] == s[j - 1];
      } else {
        assert r[i] == s[i - 1] && r[j] == s[j - 1];
      }
    }
  }

  /** Places `p` in a newest-first sequence, ahead of every post that is not newer. */
  function InsertByNewest(p: Post, s: seq<Post>): (r: seq<Post>)
    requires NewestFirst(s)
    ensures NewestFirst(r)
    ensures multiset(r) == multiset(s) + multiset{p}
    ensures |r| == |s| + 1 && (r[0] == p || (s != [] && r[0] == s[0]))
  {
    if s == [] || s[0].createdAt <= p.createdAt then
      ConsNewestFirst(p, s);
      [p] + s
    else
      var rest := InsertByNewest(p, s[1..]);
      assert s == [s[0]] + s[1..];
      ConsNewestFirst(s[0], rest);
      [s[0]] + rest
  }

  /** `sort({ createdAt: -1 })`: a newest-first permutation of the documents. */
  function SortNewestFirst(docs: seq<Post>): (r: seq<Post>)
    ensures NewestFirst(r)
    ensures multiset(r) == multiset(docs) && |r| == |docs|
  {
    if docs == [] then []
    else
      assert docs == [docs[0]] + docs[1..];
      InsertByNewest(docs[0], SortNewestFirst(docs[1..]))
  }

  /**
   * Cutting a newest-first sequence after `k` posts keeps it newest first,
   * keeps only posts of the sequence, and leaves out no post newer than one
   * kept.
   */
  lemma PrefixHoldsNewest(s: seq<Post>, k: nat)
    requires NewestFirst(s) && k <= |s|
    ensures NewestFirst(s[..k])
    ensures multiset(s[..k]) <= multiset(s)
    ensures forall d, q :: d in multiset(s) - multiset(s[..k]) && q in s[..k] ==> d.createdAt <= q.createdAt
  {
    assert s == s[..k] + s[k..];
    forall d, q | d in multiset(s) - multiset(s[..k]) && q in s[..k] ensures d.createdAt <= q.createdAt {
      assert d in multiset(s[k..]);
      var j :| k <= j < |s| && s[j] == d;
      var i :| 0 <= i < k && s[i] == q;
    }
  }

  /**
   * `find().sort({ createdAt: -1 }).limit(50)`: the 50 newest posts (all of
   * them when there are fewer), newest first, and no post left out is newer
   * than any post listed.
   */
  function ListRecent(docs: seq<Post>): (r: seq<Post>)
    ensures |r| == if |docs| < RecentLimit then |docs| else RecentLimit
    ensures NewestFirst(r)
    ensures multiset(r) <= multiset(docs)
    ensures forall d, q :: d in multiset(docs) - multiset(r) && q in r ==> d.createdAt <= q.createdAt
  {
    var s := SortNewestFirst(docs);
    var k := if |s| <= RecentLimit then |s| else RecentLimit;
    PrefixHoldsNewest(s, k);
    s[..k]
  }
}
