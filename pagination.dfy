/**
 * The pagination control: the page count derived from the collection size,
 * the updaters behind the Prev and Next buttons, and the page-number buttons.
 */
module Pagination {
  import opened Posts
  import opened PostsList

  /**
   * `Math.ceil(posts.length / 6)`: the fewest pages of six that hold `count`
   * posts, so zero for an empty collection.
   */
  function TotalPages(count: nat): (t: nat)
    ensures t * PageSize >= count
    ensures count > 0 ==> (t - 1) * PageSize < count
    ensures count == 0 ==> t == 0
  {
    (count + PageSize - 1) / PageSize
  }

  /** The Prev updater `max(prev - 1, 1)`: one page back, but never below page 1. */
  function PrevPage(prev: int): (r: int)
    ensures r >= 1
    ensures r <= prev || prev < 1
    ensures prev > 1 ==> r == prev - 1
    ensures prev <= 1 ==> r == 1
  {
    if prev - 1 > 1 then prev - 1 else 1
  }

  /**
   * The Next updater `min(prev + 1, totalPages)`: one page forward, but never
   * beyond the last page. With no posts the last page is 0, so Next yields 0.
   */
  function NextPage(prev: int, totalPages: nat): (r: int)
    ensures r <= totalPages
    ensures r >= prev || prev > totalPages
    ensures prev < totalPages ==> r == prev + 1
  {
    if prev + 1 < totalPages then prev + 1 else totalPages
  }

  /** The page each page-number button jumps to: button `i` (from 0) goes to page `i + 1`. */
  function JumpTargets(totalPages: nat): (targets: seq<int>)
    ensures |targets| == totalPages
    ensures forall p :: p in targets <==> 1 <= p <= totalPages
    ensures forall i, j :: 0 <= i < j < |targets| ==> targets[i] < targets[j]
  {
    var targets := seq(totalPages, i => i + 1);
    assert forall p :: 1 <= p <= totalPages ==> p in targets by {
      forall p | 1 <= p <= totalPages ensures p in targets {
        assert targets[p - 1] == p;
      }
    }
    targets
  }

  /** Prev on the first page stays on the first page (its button is disabled there, and would change nothing). */
  lemma PrevAtFirst()
    ensures PrevPage(1) == 1
  {
  }

  /** Next on the last page stays there (its button is disabled there, and would change nothing). */
  lemma NextAtLast(totalPages: nat)
    ensures NextPage(totalPages, totalPages) == totalPages
  {
  }

  /** As written, Next on an empty collection moves to page 0, below the first page. */
  lemma NextOnEmpty(prev: int)
    requires prev >= 0
    ensures NextPage(prev, TotalPages(0)) == 0
  {
  }

  /** From a page at or past the last one (a page left stranded by removals), Next moves to the last page. */
  lemma NextFromPastEnd(prev: int, totalPages: nat)
    requires prev >= totalPages
    ensures NextPage(prev, totalPages) == totalPages
  {
  }

  /** Prev and Next undo each other inside the page range. */
  lemma PrevNextInverse(p: int, totalPages: nat)
    ensures 1 <= p < totalPages ==> PrevPage(NextPage(p, totalPages)) == p
    ensures 1 < p <= totalPages ==> NextPage(PrevPage(p), totalPages) == p
  {
  }

  /** Every navigation step keeps a page that is within 1..totalPages inside that range. */
  lemma NavigationKeepsRange(p: int, totalPages: nat, i: nat)
    requires 1 <= p <= totalPages
    requires i < totalPages
    ensures 1 <= PrevPage(p) <= totalPages
    ensures 1 <= NextPage(p, totalPages) <= totalPages
    ensures 1 <= JumpTargets(totalPages)[i] <= totalPages
  {
    assert JumpTargets(totalPages)[i] in JumpTargets(totalPages);
  }

  /** The posts of pages 1 to `k`, one page after the other. */
  function PagesUpTo(posts: seq<Post>, k: nat): seq<Post>
  {
    if k == 0 then [] else PagesUpTo(posts, k - 1) + PageSlice(posts, k)
  }

  /** Pages 1 to `k` together are the first `6 * k` posts (or all of them). */
  lemma {:induction false} PagesUpToPrefix(posts: seq<Post>, k: nat)
    ensures PagesUpTo(posts, k) == posts[..Min(k * PageSize, |posts|)]
  {
    if k > 0 {
      PagesUpToPrefix(posts, k - 1);
      var a := Min((k - 1) * PageSize, |posts|);
      var b := Min(k * PageSize, |posts|);
      assert StartIndex(k) == (k - 1) * PageSize;
      assert PageSlice(posts, k) == posts[a..b];
      assert posts[..a] + posts[a..b] == posts[..b];
    }
  }

  /**
   * The pages 1 to totalPages, read in order, reproduce the collection
   * exactly: every post is shown on exactly one page, in collection order.
   */
  lemma PagesReassemble(posts: seq<Post>)
    ensures PagesUpTo(posts, TotalPages(|posts|)) == posts
  {
    PagesUpToPrefix(posts, TotalPages(|posts|));
    assert posts[..|posts|] == posts;
  }

  /** Every page from 1 to totalPages is non-empty, and the pages after it are empty. */
  lemma PagesInRangeNonEmpty(posts: seq<Post>, page: int)
    ensures 1 <= page <= TotalPages(|posts|) ==> PageSlice(posts, page) != []
    ensures page > TotalPages(|posts|) ==> PageSlice(posts, page) == []
  {
    if 1 <= page <= TotalPages(|posts|) {
      assert StartIndex(page) < |posts|;
      assert posts[StartIndex(page)] == PageSlice(posts, page)[0];
    }
  }

  /** Every page but the last holds a full six posts; the last holds what is left. */
  lemma PageSizes(posts: seq<Post>, page: int)
    requires 1 <= page <= TotalPages(|posts|)
    ensures page < TotalPages(|posts|) ==> |PageSlice(posts, page)| == PageSize
    ensures page == TotalPages(|posts|) ==> |PageSlice(posts, page)| == |posts| - (page - 1) * PageSize
  {
  }
}
