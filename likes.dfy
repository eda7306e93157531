/**
 * The like list of a post card: records `{userId, postId}`, the `liked`
 * derivation, and the list that `onLike` computes in each of its two branches.
 */
module Likes {

  type UserId = int
  type PostId = int

  /** One like record, as stored in `likes` and in a post's `postLikes`. */
  datatype Like = Like(userId: UserId, postId: PostId)

  /** `likes.filter(like => like.userId != user)`: the unlike branch. */
  function Without(likes: seq<Like>, user: UserId): (r: seq<Like>)
    ensures |r| <= |likes|
    ensures forall i :: 0 <= i < |r| ==> r[i].userId != user
    ensures forall x :: x in r <==> x in likes && x.userId != user
  {
    if likes == [] then []
    else if likes[0].userId != user then [likes[0]] + Without(likes[1..], user)
    else Without(likes[1..], user)
  }

  /** `likes.filter(like => like.userId == user)`: the records of one user. */
  function LikesOf(likes: seq<Like>, user: UserId): (r: seq<Like>)
    ensures |r| <= |likes|
    ensures forall i :: 0 <= i < |r| ==> r[i].userId == user
    ensures forall x :: x in r <==> x in likes && x.userId == user
  {
    if likes == [] then []
    else if likes[0].userId == user then [likes[0]] + LikesOf(likes[1..], user)
    else LikesOf(likes[1..], user)
  }

  /**
   * `liked`: the first record of the user's filter is truthy. A record is an
   * object, hence truthy, so this is "the filter is non-empty".
   */
  predicate HasLiked(likes: seq<Like>, user: UserId): (b: bool)
    ensures b <==> exists i :: 0 <= i < |likes| && likes[i].userId == user
  {
    var mine := LikesOf(likes, user);
    assert forall i :: 0 <= i < |likes| && likes[i].userId == user ==> likes[i] in mine;
    assert |mine| > 0 ==> mine[0] in likes;
    |mine| > 0
  }

  /** `r` occurs in `s` in the same relative order (greedy matching). */
  predicate IsSubsequence(r: seq<Like>, s: seq<Like>)
    decreases |s|
  {
    if r == [] then true
    else if s == [] then false
    else if r[0] == s[0] then IsSubsequence(r[1..], s[1..])
    else IsSubsequence(r, s[1..])
  }

  /** The list `onLike` installs: unlike when liked, otherwise append one record. */
  function Toggle(likes: seq<Like>, user: UserId, post: PostId): (r: seq<Like>)
    ensures HasLiked(r, user) == !HasLiked(likes, user)
  {
    if HasLiked(likes, user) then Without(likes, user)
    else
      var r := likes + [Like(user, post)];
      assert r[|likes|].userId == user;
      r
  }

  /** `n` successive calls of `onLike`, each applied atomically. */
  function ToggleTimes(likes: seq<Like>, user: UserId, post: PostId, n: nat): seq<Like>
  {
    if n == 0 then likes else Toggle(ToggleTimes(likes, user, post, n - 1), user, post)
  }

  /** The two filters split the list: together they hold every record exactly as often. */
  lemma {:induction false} Partition(likes: seq<Like>, user: UserId)
    ensures multiset(Without(likes, user)) + multiset(LikesOf(likes, user)) == multiset(likes)
    ensures |Without(likes, user)| + |LikesOf(likes, user)| == |likes|
  {
    if likes != [] {
      Partition(likes[1..], user);
      assert likes == [likes[0]] + likes[1..];
    }
  }

  /** Filtering keeps the relative order of the surviving records. */
  lemma {:induction false} WithoutKeepsOrder(likes: seq<Like>, user: UserId)
    ensures IsSubsequence(Without(likes, user), likes)
  {
    if likes != [] {
      WithoutKeepsOrder(likes[1..], user);
      if likes[0].userId != user {
        assert ([likes[0]] + Without(likes[1..], user))[1..] == Without(likes[1..], user);
      } else {
        var r := Without(likes[1..], user);
        if r != [] {
          assert r[0] in r;
          assert r[0] != likes[0];
        }
      }
    }
  }

  /** Filtering a list with no record of the user leaves it as it is. */
  lemma {:induction false} WithoutNoOp(likes: seq<Like>, user: UserId)
    requires !HasLiked(likes, user)
    ensures Without(likes, user) == likes
  {
    if likes != [] {
      assert likes[0].userId != user;
      assert !HasLiked(likes[1..], user) by {
        forall i | 0 <= i < |likes[1..]| ensures likes[1..][i].userId != user {
          assert likes[1..][i] == likes[i + 1];
        }
      }
      WithoutNoOp(likes[1..], user);
      assert likes == [likes[0]] + likes[1..];
    }
  }

  /** Filtering distributes over concatenation. */
  lemma {:induction false} WithoutAppend(a: seq<Like>, b: seq<Like>, user: UserId)
    ensures Without(a + b, user) == Without(a, user) + Without(b, user)
  {
    if a != [] {
      WithoutAppend(a[1..], b, user);
      assert (a + b)[1..] == a[1..] + b;
      assert (a + b)[0] == a[0];
    } else {
      assert a + b == b;
    }
  }

  /**
   * Unlike branch: afterwards no record of the user remains, every record of
   * another user is kept as often as before and in its original order, and the
   * list shrinks by exactly the user's records.
   */
  lemma UnlikeBranch(likes: seq<Like>, user: UserId, post: PostId)
    requires HasLiked(likes, user)
    ensures !HasLiked(Toggle(likes, user, post), user)
    ensures forall x: Like :: x.userId != user ==>
      multiset(Toggle(likes, user, post))[x] == multiset(likes)[x]
    ensures IsSubsequence(Toggle(likes, user, post), likes)
    ensures |Toggle(likes, user, post)| == |likes| - |LikesOf(likes, user)| < |likes|
  {
    var mine := LikesOf(likes, user);
    Partition(likes, user);
    WithoutKeepsOrder(likes, user);
    forall x: Like | x.userId != user
      ensures multiset(Toggle(likes, user, post))[x] == multiset(likes)[x]
    {
      assert x !in mine;
    }
    var i :| 0 <= i < |likes| && likes[i].userId == user;
    assert likes[i] in mine;
  }

  /**
   * Like branch: the new list is the old one with exactly one record of the
   * user for this post appended at the end.
   */
  lemma LikeBranch(likes: seq<Like>, user: UserId, post: PostId)
    requires !HasLiked(likes, user)
    ensures Toggle(likes, user, post)[..|likes|] == likes
    ensures |Toggle(likes, user, post)| == |likes| + 1
    ensures Toggle(likes, user, post)[|likes|] == Like(user, post)
  {
  }

  /** From the unliked state, two successive toggles give back the original list. */
  lemma ToggleTwiceFromUnliked(likes: seq<Like>, user: UserId, post: PostId)
    requires !HasLiked(likes, user)
    ensures Toggle(Toggle(likes, user, post), user, post) == likes
  {
    var x := Like(user, post);
    WithoutAppend(likes, [x], user);
    WithoutNoOp(likes, user);
    assert Without([x], user) == [];
  }

  /**
   * From the liked state two toggles need not restore the list: every record of
   * the user is dropped and a single fresh one is appended at the end.
   */
  lemma ToggleTwiceFromLiked(likes: seq<Like>, user: UserId, post: PostId)
    requires HasLiked(likes, user)
    ensures Toggle(Toggle(likes, user, post), user, post) == Without(likes, user) + [Like(user, post)]
  {
  }

  /** After `n` toggles the user has liked exactly when the start state XOR `n` is odd. */
  lemma {:induction false} ToggleParity(likes: seq<Like>, user: UserId, post: PostId, n: nat)
    ensures HasLiked(ToggleTimes(likes, user, post, n), user) == (HasLiked(likes, user) != (n % 2 == 1))
  {
    if n > 0 {
      var before := ToggleTimes(likes, user, post, n - 1);
      ToggleParity(likes, user, post, n - 1);
      assert HasLiked(Toggle(before, user, post), user) == !HasLiked(before, user);
      assert (n % 2 == 1) == !((n - 1) % 2 == 1);
    }
  }
}
