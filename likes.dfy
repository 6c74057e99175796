/** The like/unlike toggle on a post's `likes` array: `$pull` removes every
    occurrence of the caller's id, `$push` appends it. */
module Likes {
  import opened Domain

  /** `$pull: { likes: u }`: the list without any occurrence of `u`, others in order. */
  function Pull(likes: seq<UserId>, u: UserId): (r: seq<UserId>)
    ensures multiset(r) == multiset(likes)[u := 0]
    ensures u !in likes ==> r == likes
  {
    if likes == [] then []
    else
      assert likes == [likes[0]] + likes[1..];
      if likes[0] == u then Pull(likes[1..], u)
      else [likes[0]] + Pull(likes[1..], u)
  }

  /** Pulling keeps exactly the other users' likes. */
  lemma PullMembers(likes: seq<UserId>, u: UserId)
    ensures forall v :: v in Pull(likes, u) <==> v in likes && v != u
  {
  }

  /** Pulling keeps a duplicate-free list duplicate-free. */
  lemma {:induction false} PullKeepsNoDup(likes: seq<UserId>, u: UserId)
    requires NoDup(likes)
    ensures NoDup(Pull(likes, u))
  {
    if likes != [] {
      var tail := likes[1..];
      assert NoDup(tail);
      PullKeepsNoDup(tail, u);
      if likes[0] != u {
        var rest := Pull(tail, u);
        PullMembers(tail, u);
        assert likes[0] !in tail;
        var r := [likes[0]] + rest;
        forall i, j | 0 <= i < j < |r| ensures r[i] != r[j] {
          assert r[j] == rest[j - 1];
          if i > 0 {
            assert r[i] == rest[i - 1];
          }
        }
      }
    }
  }

  /** The new `likes` after the handler runs: pull when present, push when absent. */
  function Toggle(likes: seq<UserId>, u: UserId): (r: seq<UserId>)
    ensures u in r <==> u !in likes
    ensures forall v :: v != u ==> (v in r <==> v in likes)
  {
    PullMembers(likes, u);
    if u in likes then Pull(likes, u) else likes + [u]
  }

  /** `n` successive toggles by the same user. */
  function ToggleTimes(likes: seq<UserId>, u: UserId, n: nat): seq<UserId>
  {
    if n == 0 then likes else Toggle(ToggleTimes(likes, u, n - 1), u)
  }

  lemma PullAppend(a: seq<UserId>, b: seq<UserId>, u: UserId)
    ensures Pull(a + b, u) == Pull(a, u) + Pull(b, u)
  {
    if a == [] {
      assert a + b == b;
    } else {
      assert (a + b)[1..] == a[1..] + b;
      PullAppend(a[1..], b, u);
    }
  }

  /** In a duplicate-free list a present id occurs exactly once. */
  lemma {:induction false} NoDupCountsOnce(s: seq<UserId>, u: UserId)
    requires NoDup(s) && u in s
    ensures multiset(s)[u] == 1
  {
    assert s == [s[0]] + s[1..];
    if s[0] == u {
      assert u !in s[1..];
    } else {
      NoDupCountsOnce(s[1..], u);
    }
  }

  /** The toggle never lets the caller's id occur twice, whatever the list held. */
  lemma ToggleAtMostOnce(likes: seq<UserId>, u: UserId)
    ensures multiset(Toggle(likes, u))[u] <= 1
  {
  }

  /** A duplicate-free list stays duplicate-free. */
  lemma ToggleKeepsNoDup(likes: seq<UserId>, u: UserId)
    requires NoDup(likes)
    ensures NoDup(Toggle(likes, u))
  {
    if u in likes {
      PullKeepsNoDup(likes, u);
    } else {
      var r := likes + [u];
      forall i, j | 0 <= i < j < |r| ensures r[i] != r[j] {
        if j == |likes| {
          assert r[i] == likes[i];
        }
      }
    }
  }

  /** Like then unlike by the same user gives back the list exactly. */
  lemma LikeThenUnlike(likes: seq<UserId>, u: UserId)
    requires u !in likes
    ensures Toggle(Toggle(likes, u), u) == likes
  {
    assert u in likes + [u];
    PullAppend(likes, [u], u);
    assert Pull([u], u) == [];
  }

  /** Unlike then like gives back the same likes, possibly in another order. */
  lemma UnlikeThenLike(likes: seq<UserId>, u: UserId)
    requires NoDup(likes) && u in likes
    ensures multiset(Toggle(Toggle(likes, u), u)) == multiset(likes)
  {
    NoDupCountsOnce(likes, u);
    var pulled := Pull(likes, u);
    PullMembers(likes, u);
    assert Toggle(pulled, u) == pulled + [u];
  }

  /** Unlike then like moves the caller's id to the end, so the order is not kept. */
  lemma UnlikeThenLikeReorders()
    ensures Toggle(Toggle([1, 2], 1), 1) == [2, 1]
  {
  }

  /** Proof step for `ToggleParity`: one more toggle flips the parity of the count. */
  lemma OddStep(n: nat)
    requires n > 0
    ensures (n % 2 == 1) <==> !((n - 1) % 2 == 1)
  {
  }

  /** After `n` toggles the user has liked the post iff that flipped the start an odd number of times. */
  lemma {:induction false} ToggleParity(likes: seq<UserId>, u: UserId, n: nat)
    ensures u in ToggleTimes(likes, u, n) <==> (u in likes) != (n % 2 == 1)
  {
    if n > 0 {
      ToggleParity(likes, u, n - 1);
      var before := ToggleTimes(likes, u, n - 1);
      var liked := u in before;
      assert u in ToggleTimes(likes, u, n) <==> !liked;
      assert (n % 2 == 1) <==> !((n - 1) % 2 == 1) by {
        OddStep(n);
      }
    }
  }
}
