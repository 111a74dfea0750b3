/**
 * The post collection of the posts viewer and the one way it is ever
 * changed after loading: removal of every post with a given id, which keeps
 * the survivors in their original order.
 */
module Posts {

  /** Number of posts shown on one page; a fixed literal in the list and in the pagination control. */
  const PageSize: nat := 6

  /** One post as the remote API delivers it (its `userId` is never read). */
  datatype Post = Post(id: int, title: string, body: string)

  /** True when `posts` holds a post whose id is `id`. */
  predicate HasId(posts: seq<Post>, id: int)
  {
    exists i :: 0 <= i < |posts| && posts[i].id == id
  }

  /** True when no two posts share an id, as for a collection the API delivered. */
  predicate UniqueIds(posts: seq<Post>)
  {
    forall i, j :: 0 <= i < j < |posts| ==> posts[i].id != posts[j].id
  }

  /** Number of posts in `posts` whose id is `id`. */
  function CountId(posts: seq<Post>, id: int): (n: nat)
    ensures n <= |posts|
    ensures n == 0 <==> !HasId(posts, id)
  {
    if posts == [] then 0
    else
      assert HasId(posts, id) <==> posts[0].id == id || HasId(posts[1..], id) by {
        if HasId(posts[1..], id) {
          var i :| 0 <= i < |posts[1..]| && posts[1..][i].id == id;
          assert posts[i + 1].id == id;
        }
      }
      (if posts[0].id == id then 1 else 0) + CountId(posts[1..], id)
  }

  /**
   * The filter behind `removePost`: keep exactly the posts whose id differs
   * from `id`. Nothing is kept that was not there, nothing with that id is
   * kept, and every other post survives.
   */
  function Remove(posts: seq<Post>, id: int): (r: seq<Post>)
    ensures |r| <= |posts|
    ensures forall p :: p in r ==> p in posts && p.id != id
    ensures forall p :: p in posts && p.id != id ==> p in r
  {
    if posts == [] then []
    else if posts[0].id != id then [posts[0]] + Remove(posts[1..], id)
    else Remove(posts[1..], id)
  }

  /** Removal works post by post: filtering a concatenation is concatenating the filtered parts, so relative order is kept. */
  lemma {:induction false} RemoveAppend(a: seq<Post>, b: seq<Post>, id: int)
    ensures Remove(a + b, id) == Remove(a, id) + Remove(b, id)
  {
    if a == [] {
      assert a + b == b;
    } else {
      assert (a + b)[0] == a[0];
      assert (a + b)[1..] == a[1..] + b;
      RemoveAppend(a[1..], b, id);
    }
  }

  /** Removing an id that no post carries leaves the collection exactly as it was. */
  lemma {:induction false} RemoveAbsent(posts: seq<Post>, id: int)
    requires !HasId(posts, id)
    ensures Remove(posts, id) == posts
  {
    if posts != [] {
      assert posts[0].id != id;
      forall k | 0 <= k < |posts[1..]| ensures posts[1..][k].id != id {
        assert posts[1..][k] == posts[k + 1];
      }
      RemoveAbsent(posts[1..], id);
      assert [posts[0]] + posts[1..] == posts;
    }
  }

  /**
   * Removal as a change of contents: every post with another id keeps its
   * multiplicity, every post with this id is gone, and the length drops by
   * exactly the number of posts that carried the id.
   */
  lemma {:induction false} RemoveContents(posts: seq<Post>, id: int)
    ensures forall p: Post :: p.id != id ==> multiset(Remove(posts, id))[p] == multiset(posts)[p]
    ensures forall p: Post :: p.id == id ==> multiset(Remove(posts, id))[p] == 0
    ensures |Remove(posts, id)| == |posts| - CountId(posts, id)
  {
    if posts != [] {
      var rest := posts[1..];
      RemoveContents(rest, id);
      assert posts == [posts[0]] + rest;
      assert multiset(posts) == multiset{posts[0]} + multiset(rest);
      if posts[0].id != id {
        assert multiset(Remove(posts, id)) == multiset{posts[0]} + multiset(Remove(rest, id));
      } else {
        assert Remove(posts, id) == Remove(rest, id);
      }
    }
  }

  /** Removing the same id twice is the same as removing it once. */
  lemma {:induction false} RemoveIdempotent(posts: seq<Post>, id: int)
    ensures Remove(Remove(posts, id), id) == Remove(posts, id)
  {
    if posts != [] {
      RemoveIdempotent(posts[1..], id);
      if posts[0].id != id {
        var rest := Remove(posts[1..], id);
        assert ([posts[0]] + rest)[0] == posts[0];
        assert ([posts[0]] + rest)[1..] == rest;
      }
    }
  }

  /**
   * On a collection with distinct ids, removal drops one post when the id is
   * present and none when it is absent, and the ids stay distinct.
   */
  lemma {:induction false} RemoveUnique(posts: seq<Post>, id: int)
    requires UniqueIds(posts)
    ensures |Remove(posts, id)| == |posts| - (if HasId(posts, id) then 1 else 0)
    ensures UniqueIds(Remove(posts, id))
  {
    RemoveContents(posts, id);
    CountAtMostOne(posts, id);
    UniqueSurvives(posts, id);
  }

  lemma {:induction false} CountAtMostOne(posts: seq<Post>, id: int)
    requires UniqueIds(posts)
    ensures CountId(posts, id) <= 1
  {
    if posts != [] {
      CountAtMostOne(posts[1..], id);
      if posts[0].id == id {
        forall k | 0 <= k < |posts[1..]| ensures posts[1..][k].id != id {
          assert posts[1..][k] == posts[k + 1];
        }
      }
    }
  }

  lemma {:induction false} UniqueSurvives(posts: seq<Post>, id: int)
    requires UniqueIds(posts)
    ensures UniqueIds(Remove(posts, id))
  {
    if posts != [] {
      UniqueSurvives(posts[1..], id);
      var rest := Remove(posts[1..], id);
      if posts[0].id != id {
        var r := [posts[0]] + rest;
        forall i, j | 0 <= i < j < |r| ensures r[i].id != r[j].id {
          if i == 0 {
            assert r[j] in rest;
            var k :| 0 <= k < |posts[1..]| && posts[1..][k] == r[j];
            assert posts[k + 1] == r[j];
          } else {
            assert r[i] == rest[i - 1] && r[j] == rest[j - 1];
          }
        }
      }
    }
  }
}
