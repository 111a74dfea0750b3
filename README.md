# Posts viewer: store, page slicing and pagination

A Dafny model of the state logic of a small React posts viewer. The viewer
fetches a list of posts, shows them six to a page, lets the user remove a
post, and lets the user move between pages with Prev, Next and page-number
buttons.

- `posts.dfy`, module `Posts`: the `Post` record, the page size 6, and
  the filter behind `removePost`.
- `posts_list.dfy`, module `PostsList`: the list view's slice of the
  current page. It follows JavaScript's `Array.prototype.slice`, including
  the rule that a negative bound counts back from the end.
- `pagination.dfy`, module `Pagination`: `totalPages = Math.ceil(len / 6)`,
  the Prev and Next updaters, the page-number buttons, and the proof that
  pages 1 to totalPages together give back the whole collection.
- `posts_provider.dfy`, module `PostsProvider`: the store
  (`PostsProvider` in the source). It is a class whose fields are `posts`,
  `loading` and `currentPage`. Its methods stand for the fetch completion,
  the loading flag, `removePost`, Prev, Next and the page jumps. The module
  also walks through a 13-post collection end to end.

The model follows the code as written in three places where the code does
not guard an edge case:

- `removePost` does not re-clamp `currentPage`. After a removal the page
  may lie past the last page and show nothing (`RemoveCanStrandPage`).
- Next on an empty collection moves to page 0, because `totalPages` is 0
  (`NextOnEmpty`). Page 0 then shows nothing even after posts arrive,
  because its slice is `slice(-6, 0)` (`PageSlice`). Prev or Next from
  page 0 go back to page 1 once there are posts.
- Removal drops every post with the given id. The length is guaranteed to
  shrink by exactly one for a present id when ids are distinct, as they are
  in the API data (`RemoveUnique`); in general it shrinks by the number of
  matches (`RemoveContents`).

## Model

| member | source | states |
|---|---|---|
| `Posts.Remove` | App.jsx:20-23 | No kept post has the removed id. Every kept post came from the input, and every post with another id is kept. The result is never longer than the input. |
| `Posts.RemoveAppend` | App.jsx:21 | Filtering a concatenation is the concatenation of the filtered parts. So survivors keep their relative order. |
| `Posts.RemoveAbsent` | App.jsx:21-22 | Removing an id that no post carries leaves the collection unchanged. |
| `Posts.RemoveContents` | App.jsx:21 | Every post with a different id keeps its multiplicity, and no post with the id remains. The length drops by exactly the number of posts that carried the id. |
| `Posts.RemoveIdempotent` | App.jsx:21 | Removing the same id twice equals removing it once. |
| `Posts.RemoveUnique` | App.jsx:20-23 | With distinct ids, the length drops by 1 if the id was present and by 0 otherwise, and the ids stay distinct. |
| `PostsList.ClampIndex` | App.jsx:62 | How `slice` turns a bound into an index. A non-negative bound is capped at the length. A negative bound counts back from the end and is floored at 0. |
| `PostsList.JsSlice` | App.jsx:62 | For bounds `0 <= start <= end`, the result is the elements from `min(start, len)` to `min(end, len)`. It never holds more than `end - start` elements when the bounds have the same sign. An end bound of 0 gives nothing. |
| `PostsList.PageSlice` | App.jsx:61-62 | A page holds at most 6 posts. For page p >= 1 it is `posts[min((p-1)*6, len) .. min((p-1)*6+6, len)]`, element k being post `(p-1)*6 + k`. It is empty when `(p-1)*6 >= len`. Page 0 is always empty. `PostsList.StartIndex` is the list view's `startIndex`, and `PostsProvider.PostsStore.Visible` applies `PageSlice` to the store's state (`currentPosts`). |
| `Pagination.TotalPages` | App.jsx:76 | The ceiling of len/6: `t*6 >= len`, `(t-1)*6 < len` when `len > 0`, and 0 for an empty collection. `PostsProvider.PostsStore.PageCount` applies it to the store's collection. |
| `Pagination.PrevPage` | App.jsx:81 | Never below 1, never above the old page when that was at least 1, exactly one back from any page above 1, and exactly 1 from page 1, page 0 or below. |
| `Pagination.NextPage` | App.jsx:98-99 | Never above totalPages, never below the old page unless that was past the end, and exactly one forward from any page below totalPages. |
| `Pagination.JumpTargets` | App.jsx:86-89 | There are totalPages buttons, in increasing order, and a page is a target exactly when `1 <= p <= totalPages`. |
| `Pagination.PrevAtFirst` | App.jsx:81-82 | Prev on page 1 stays on page 1, so the disabled button would change nothing. |
| `Pagination.NextAtLast` | App.jsx:98-101 | Next on the last page stays there, so the disabled button would change nothing. |
| `Pagination.NextOnEmpty` | App.jsx:98-99 | On an empty collection, Next from any page >= 0 yields page 0. |
| `Pagination.NextFromPastEnd` | App.jsx:98-99 | From a page at or past the last page, Next moves to the last page. |
| `Pagination.PrevNextInverse` | App.jsx:81-99 | Inside 1..totalPages, Prev undoes Next and Next undoes Prev. |
| `Pagination.NavigationKeepsRange` | App.jsx:81-99 | From a page in 1..totalPages, Prev, Next and every page jump land in 1..totalPages. |
| `Pagination.PagesUpToPrefix` | App.jsx:61-76 | Pages 1 to k, concatenated, are the first `min(6k, len)` posts. |
| `Pagination.PagesReassemble` | App.jsx:61-76 | Pages 1 to totalPages, concatenated in order, reproduce the collection exactly. |
| `Pagination.PagesInRangeNonEmpty` | App.jsx:61-76 | Each page from 1 to totalPages shows at least one post. Every page after totalPages shows none. |
| `Pagination.PageSizes` | App.jsx:61-76 | Every page before the last holds exactly 6 posts. The last page holds the remaining `len - (totalPages-1)*6`. |
| `PostsProvider.PostsStore.constructor` | App.jsx:10-12 | Initial state: no posts, loading, page 1. |
| `PostsProvider.PostsStore.FetchPosts` | App.jsx:14-18 | The collection is replaced by the fetched data. The page and the loading flag are unchanged. |
| `PostsProvider.PostsStore.SetLoading` | App.jsx:118-121 | Only the loading flag changes. |
| `PostsProvider.PostsStore.RemovePost` | App.jsx:20-23 | The new collection is `Remove(old posts, id)`. The page and the loading flag keep their values; the page is not re-clamped. |
| `PostsProvider.PostsStore.Prev` | App.jsx:81 | The page becomes `PrevPage(old page)`. Nothing else changes, and the page stays non-negative. |
| `PostsProvider.PostsStore.Next` | App.jsx:98-99 | The page becomes `NextPage(old page, totalPages)`. Nothing else changes, and the page stays non-negative. |
| `PostsProvider.PostsStore.GoTo` | App.jsx:86-89 | Button i moves to page `i + 1`, which lies in 1..totalPages. Nothing else changes. |
| `PostsProvider.RemoveCanStrandPage` | App.jsx:20-23 | Take `6m + 1` posts with distinct ids and remove the last one. The page count drops by one, and the old last page now shows nothing. |
| `PostsProvider.ThirteenPostsWalkthrough` | App.jsx:59-99 | With 13 posts there are 3 pages and page 3 shows 1 post. After that post is removed there are 2 pages, the store is still on page 3, and it shows 0 posts. |

## Left out

- The network request and JSON parsing of `fetchPosts` are left out. Its effect is modelled as `FetchPosts(data)`, which replaces the collection with an arbitrary sequence. Failures are not modelled, because the source has no error branch.
- The `useEffect` and `setTimeout` start-up sequence and its 5-second delay are left out. This includes `fetchPosts` resolving after `setLoading(false)`. The store's methods may be called in any order, which covers every interleaving of these asynchronous steps.
- Rendering is left out: the React context, the components' markup, the bold active page, the `ReactDOM` mount and the `styles` object. The disabled attribute on Prev and Next is also left out. Each button is disabled exactly where its updater changes nothing (`PrevAtFirst`, `NextAtLast`), so this does not change any state.
- The context also exposes the raw setters `setPosts`, `setLoading` and `setCurrentPage`. The components only use them through fetch completion, the shell's loading flag, and the Prev, Next and page-number updaters. Only those uses are modelled.
- `Pagination.TotalPages`: `Math.ceil` on a floating-point quotient is modelled as integer ceiling division. This is exact for every collection length below 2^53.
- `Pagination.NextPage`: the source's updater reads `totalPages` as captured at the last render. The model reads it from the current collection. These agree because every change of `posts` re-renders the control before the next click.
