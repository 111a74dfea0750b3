/**
 * The posts store: the one object that owns the post collection, the loading
 * flag and the current page, and the only place they are changed. Every user
 * action ends in one of its methods; the list and the pagination control only
 * derive their views from its fields.
 */
module PostsProvider {
  import opened Posts
  import opened PostsList
  import opened Pagination

  class PostsStore {
    var posts: seq<Post>
    var loading: bool
    var currentPage: int

    /**
     * What every reachable state keeps: the current page is never negative.
     * It can be 0 (Next on an empty collection) and it can lie past the last
     * page (after removals), because nothing clamps it.
     */
    ghost predicate Valid()
      reads this
    {
      currentPage >= 0
    }

    /** The page count the pagination control shows for the current collection. */
    function PageCount(): nat
      reads this
    {
      TotalPages(|posts|)
    }

    /** The posts the list view shows for the current state. */
    function Visible(): seq<Post>
      reads this
    {
      PageSlice(posts, currentPage)
    }

    /** Initial state: no posts, loading, on page 1. */
    constructor ()
      ensures Valid()
      ensures posts == [] && loading && currentPage == 1
    {
      posts := [];
      loading := true;
      currentPage := 1;
    }

    /**
     * Completion of the fetch: the collection is replaced wholesale by what
     * the API returned, here the parameter `data`. The page is left alone.
     */
    method FetchPosts(data: seq<Post>)
      requires Valid()
      modifies this`posts
      ensures Valid()
      ensures posts == data
      ensures currentPage == old(currentPage) && loading == old(loading)
    {
      posts := data;
    }

    /** The loading flag the application shell raises before and clears after its delayed fetch. */
    method SetLoading(value: bool)
      requires Valid()
      modifies this`loading
      ensures Valid()
      ensures loading == value
      ensures posts == old(posts) && currentPage == old(currentPage)
    {
      loading := value;
    }

    /**
     * `removePost(id)`: drop every post carrying `id`, keep the rest in
     * order. Only the collection changes; the current page is not re-clamped
     * and may now lie past the last page.
     */
    method RemovePost(id: int)
      requires Valid()
      modifies this`posts
      ensures Valid()
      ensures posts == Remove(old(posts), id)
      ensures currentPage == old(currentPage) && loading == old(loading)
    {
      posts := Remove(posts, id);
    }

    /** The Prev button: move to `max(currentPage - 1, 1)`. */
    method Prev()
      requires Valid()
      modifies this`currentPage
      ensures Valid()
      ensures currentPage == PrevPage(old(currentPage))
      ensures posts == old(posts) && loading == old(loading)
    {
      currentPage := PrevPage(currentPage);
    }

    /** The Next button: move to `min(currentPage + 1, totalPages)`. */
    method Next()
      requires Valid()
      modifies this`currentPage
      ensures Valid()
      ensures currentPage == NextPage(old(currentPage), TotalPages(|posts|))
      ensures posts == old(posts) && loading == old(loading)
    {
      currentPage := NextPage(currentPage, TotalPages(|posts|));
    }

    /** The page-number button with index `i` (only buttons 0 to totalPages - 1 exist): move to that page. */
    method GoTo(i: nat)
      requires Valid()
      requires i < TotalPages(|posts|)
      modifies this`currentPage
      ensures Valid()
      ensures currentPage == JumpTargets(TotalPages(|posts|))[i]
      ensures 1 <= currentPage <= TotalPages(|posts|)
      ensures posts == old(posts) && loading == old(loading)
    {
      var targets := JumpTargets(TotalPages(|posts|));
      assert targets[i] in targets;
      currentPage := targets[i];
    }
  }

  /**
   * Removal does not re-clamp the page: on a collection of `6 * m + 1`
   * posts with distinct ids, removing the single post of the last page
   * leaves the current page one past the new last page, showing nothing.
   */
  lemma {:induction false} RemoveCanStrandPage(posts: seq<Post>)
    requires UniqueIds(posts)
    requires |posts| % PageSize == 1
    ensures TotalPages(|Remove(posts, posts[|posts| - 1].id)|) == TotalPages(|posts|) - 1
    ensures PageSlice(Remove(posts, posts[|posts| - 1].id), TotalPages(|posts|)) == []
  {
    var id := posts[|posts| - 1].id;
    assert HasId(posts, id);
    RemoveUnique(posts, id);
  }

  /**
   * The walk-through of a 13-post collection: three pages of 6, 6 and 1
   * posts; page 3 shows one post; removing it leaves two pages while the
   * store stays on page 3, which now shows nothing.
   */
  method ThirteenPostsWalkthrough(data: seq<Post>)
    returns (pages: nat, lastPageSize: nat, pagesAfter: nat, pageAfter: int, visibleAfter: nat)
    requires |data| == 13 && UniqueIds(data)
    ensures pages == 3 && lastPageSize == 1
    ensures pagesAfter == 2 && pageAfter == 3 && visibleAfter == 0
  {
    var store := new PostsStore();
    store.FetchPosts(data);
    store.SetLoading(false);
    pages := store.PageCount();
    store.GoTo(2);
    lastPageSize := |store.Visible()|;
    assert store.Visible() == data[12..13];
    var last := store.Visible()[0];
    store.RemovePost(last.id);
    RemoveCanStrandPage(data);
    pagesAfter := store.PageCount();
    pageAfter := store.currentPage;
    visibleAfter := |store.Visible()|;
  }
}
