/**
 * The list view's derivation of the visible posts: page `p` shows the slice
 * of the collection that starts at `(p - 1) * 6` and holds the next six
 * posts. The slice follows JavaScript's `Array.prototype.slice`, whose
 * negative bounds count back from the end of the array.
 */
module PostsList {
  import opened Posts

  function Min(a: int, b: int): int { if a < b then a else b }

  /**
   * How `Array.prototype.slice` turns one of its arguments into an index of
   * an array of length `len`: a non-negative argument is capped at `len`, a
   * negative one counts back from the end and is floored at 0.
   */
  function ClampIndex(rel: int, len: nat): (k: nat)
    ensures k <= len
    ensures 0 <= rel ==> k == Min(rel, len)
    ensures rel < 0 && 0 <= len + rel ==> k == len + rel
    ensures len + rel < 0 ==> k == 0
  {
    if rel < 0 then (if len + rel < 0 then 0 else len + rel)
    else if rel < len then rel
    else len
  }

  /**
   * `s.slice(start, end)`: the elements between the two clamped indices, or
   * nothing when the first clamped index is not below the second.
   */
  function JsSlice<T>(s: seq<T>, start: int, end: int): (r: seq<T>)
    ensures |r| <= |s|
    ensures 0 <= start <= end ==> r == s[Min(start, |s|)..Min(end, |s|)]
    ensures (0 <= start) == (0 <= end) ==> |r| <= if start < end then end - start else 0
    ensures end == 0 ==> r == []
  {
    var from := ClampIndex(start, |s|);
    var to := ClampIndex(end, |s|);
    if from < to then s[from..to] else []
  }

  /** `startIndex` of the list view: where page `page` begins in the collection. */
  function StartIndex(page: int): int
  {
    (page - 1) * PageSize
  }

  /**
   * The posts the list view shows on page `page`. For a page of at least 1
   * they are the posts from `(page - 1) * 6` up to six further, cut at the
   * end of the collection, in collection order; past the end the page is
   * empty. Page 0 (reached by Next on an empty collection) shows nothing
   * whatever the collection holds, because its bounds are -6 and 0.
   */
  function PageSlice(posts: seq<Post>, page: int): (r: seq<Post>)
    ensures |r| <= PageSize
    ensures page >= 1 ==>
      r == posts[Min(StartIndex(page), |posts|)..Min(StartIndex(page) + PageSize, |posts|)]
    ensures page >= 1 ==> forall k :: 0 <= k < |r| ==>
      StartIndex(page) + k < |posts| && r[k] == posts[StartIndex(page) + k]
    ensures page >= 1 && StartIndex(page) >= |posts| ==> r == []
    ensures page == 0 ==> r == []
  {
    JsSlice(posts, StartIndex(page), StartIndex(page) + PageSize)
  }
}
