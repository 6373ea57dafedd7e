/** The list machinery repeated on the Auditing, Users, WebServices and Templates pages:
    page count, the rows of a page, the `goToPage` clamp, the five-button page window
    with its first/last shortcuts, and the list state that search changes reset. */
module Paging {

  /** `list.filter(keep)`: the elements that pass, in list order. */
  function Filter<T>(list: seq<T>, keep: T -> bool): (r: seq<T>)
    ensures |r| <= |list|
    ensures forall i :: 0 <= i < |r| ==> r[i] in list && keep(r[i])
    ensures forall i :: 0 <= i < |list| && keep(list[i]) ==> list[i] in r
  {
    if list == [] then []
    else (if keep(list[0]) then [list[0]] else []) + Filter(list[1..], keep)
  }

  /** Filtering a list extended by one element extends the filtered list by that element
      when it passes. */
  lemma {:induction false} FilterAppend<T>(list: seq<T>, x: T, keep: T -> bool)
    ensures Filter(list + [x], keep) == Filter(list, keep) + (if keep(x) then [x] else [])
  {
    if list == [] {
      assert [] + [x] == [x];
    } else {
      assert (list + [x])[0] == list[0];
      assert (list + [x])[1..] == list[1..] + [x];
      FilterAppend(list[1..], x, keep);
    }
  }

  /** When every element passes, the filter returns the list itself. */
  lemma {:induction false} FilterKeepsAll<T>(list: seq<T>, keep: T -> bool)
    requires forall i :: 0 <= i < |list| ==> keep(list[i])
    ensures Filter(list, keep) == list
  {
    if list != [] {
      assert list == [list[0]] + list[1..];
      FilterKeepsAll(list[1..], keep);
    }
  }

  /** When no element passes, the filter is empty. */
  lemma {:induction false} FilterDropsAll<T>(list: seq<T>, keep: T -> bool)
    requires forall i :: 0 <= i < |list| ==> !keep(list[i])
    ensures Filter(list, keep) == []
  {
    if list != [] {
      FilterDropsAll(list[1..], keep);
    }
  }

  /** Every element passes a filter or its negation, never both. */
  lemma {:induction false} FilterPartition<T>(list: seq<T>, keep: T -> bool, drop: T -> bool)
    requires forall x :: drop(x) <==> !keep(x)
    ensures |Filter(list, keep)| + |Filter(list, drop)| == |list|
  {
    if list != [] {
      FilterPartition(list[1..], keep, drop);
    }
  }

  /** A selection of ids with every occurrence of `id` removed. */
  function Without(ids: seq<string>, id: string): (r: seq<string>)
    ensures id !in r
    ensures forall x :: x in r <==> x in ids && x != id
  {
    Filter(ids, (x: string) => x != id)
  }

  /** Clicking an id in a multiple selection: removed when it is selected, appended otherwise. */
  function Toggle(selected: seq<string>, id: string): (r: seq<string>)
    ensures id in r <==> id !in selected
    ensures forall x :: x != id ==> (x in r <==> x in selected)
  {
    if id in selected then Without(selected, id) else selected + [id]
  }

  /** Selecting the same id twice restores the selection: exactly when the id was not selected,
      and as a set of ids in any case. */
  lemma ToggleTwice(selected: seq<string>, id: string)
    ensures id !in selected ==> Toggle(Toggle(selected, id), id) == selected
    ensures forall x :: x in Toggle(Toggle(selected, id), id) <==> x in selected
  {
    if id !in selected {
      FilterAppend(selected, id, (x: string) => x != id);
      FilterKeepsAll(selected, (x: string) => x != id);
    }
  }

  /** `Math.ceil(count / perPage)`. */
  function TotalPages(count: nat, perPage: nat): (t: nat)
    requires perPage > 0
    ensures count <= t * perPage
    ensures t == 0 || (t - 1) * perPage < count
  {
    (count + perPage - 1) / perPage
  }

  /** `list.slice((page - 1) * perPage, page * perPage)`; slice clamps both ends. */
  function PageRows<T>(list: seq<T>, page: int, perPage: nat): (rows: seq<T>)
    requires page >= 1 && perPage > 0
    ensures |rows| <= perPage
    ensures forall i :: 0 <= i < |rows| ==> rows[i] in list
  {
    var start := (page - 1) * perPage;
    var end := start + perPage;
    var lo := if start <= |list| then start else |list|;
    var hi := if end <= |list| then end else |list|;
    list[lo..hi]
  }

  /** Every row of the list is on page `i / perPage + 1`, at offset `i % perPage`,
      and that page is within `TotalPages`. */
  lemma RowOnItsPage<T>(list: seq<T>, perPage: nat, i: nat)
    requires perPage > 0 && i < |list|
    ensures 1 <= i / perPage + 1 <= TotalPages(|list|, perPage)
    ensures var rows := PageRows(list, i / perPage + 1, perPage);
            i % perPage < |rows| && rows[i % perPage] == list[i]
  {
    var p, r := i / perPage, i % perPage;
    DivMod(i, perPage);
    var start := p * perPage;
    assert (p + 1 - 1) * perPage == start;
    var t := TotalPages(|list|, perPage);
    assert start < t * perPage;
    MulMonotone(t, p, perPage);
  }

  lemma DivMod(i: nat, n: nat)
    requires n > 0
    ensures i == (i / n) * n + i % n && 0 <= i % n < n
  {
  }

  lemma MulMonotone(a: nat, b: nat, k: nat)
    ensures a <= b ==> a * k <= b * k
  {
  }

  /** `Math.max(1, Math.min(page, totalPages))`. */
  function GoToPage(page: int, totalPages: nat): (r: int)
    ensures r >= 1
    ensures totalPages >= 1 ==> r <= totalPages
    ensures 1 <= page <= totalPages ==> r == page
    ensures page < 1 ==> r == 1
    ensures totalPages >= 1 && page > totalPages ==> r == totalPages
  {
    var m := if page < totalPages then page else totalPages;
    if m < 1 then 1 else m
  }

  /** The pager is rendered only when there is more than one page. */
  function ShowPager(totalPages: nat): (shown: bool)
  {
    totalPages > 1
  }

  /** Button `i` of the window (`Array.from({length: Math.min(5, totalPages)}, (_, i) => ...)`);
      the empty sequence stands for a `null` entry. */
  function WindowEntry(current: int, totalPages: nat, i: nat): seq<int>
  {
    var t: int := totalPages;
    var raw := if current - 2 + i < t then current - 2 + i else t;
    var pageNum := if raw < 1 then 1 else raw;
    if pageNum < 1 || pageNum > t then []
    else if current <= 3 then
      (if i + 1 > t then [] else [i + 1])
    else if current >= t - 2 then
      (var page := t - 4 + i; if page < 1 || page > t then [] else [page])
    else [pageNum]
  }

  function WindowFrom(current: int, totalPages: nat, i: nat, len: nat): seq<int>
    decreases len - i
  {
    if i >= len then [] else WindowEntry(current, totalPages, i) + WindowFrom(current, totalPages, i + 1, len)
  }

  /** The numbered buttons between the shortcuts. */
  function PageWindow(current: int, totalPages: nat): seq<int>
  {
    WindowFrom(current, totalPages, 0, if totalPages < 5 then totalPages else 5)
  }

  /** The page shortcut "1" and its ellipsis, and the last-page shortcut and its ellipsis. */
  function FirstShortcut(current: int): bool { current > 3 }
  function FirstEllipsis(current: int): bool { current > 4 }
  function LastShortcut(current: int, totalPages: nat): bool { current < totalPages - 2 }
  function LastEllipsis(current: int, totalPages: nat): bool { current < totalPages - 3 }

  /** The consecutive pages `lo..hi`. */
  function Range(lo: int, hi: int): (r: seq<int>)
    ensures |r| == if lo <= hi then hi - lo + 1 else 0
    ensures forall k :: 0 <= k < |r| ==> r[k] == lo + k
    decreases hi - lo + 1
  {
    if lo > hi then [] else [lo] + Range(lo + 1, hi)
  }

  lemma {:induction false} LowWindow(current: int, totalPages: nat, i: nat, len: nat)
    requires current <= 3 && len <= totalPages && i <= len
    ensures WindowFrom(current, totalPages, i, len) == Range(i + 1, len)
    decreases len - i
  {
    if i < len {
      LowEntry(current, totalPages, i);
      LowWindow(current, totalPages, i + 1, len);
      assert Range(i + 1, len) == [i + 1] + Range(i + 2, len);
    }
  }

  lemma LowEntry(current: int, totalPages: nat, i: nat)
    requires current <= 3 && i < totalPages
    ensures WindowEntry(current, totalPages, i) == [i + 1]
  {
  }

  lemma {:induction false} MiddleWindow(current: int, totalPages: nat, i: nat)
    requires 3 < current < totalPages - 2 && i <= 5
    ensures WindowFrom(current, totalPages, i, 5) == Range(current - 2 + i, current + 2)
    decreases 5 - i
  {
    if i < 5 {
      MiddleWindow(current, totalPages, i + 1);
    }
  }

  lemma {:induction false} HighWindow(current: int, totalPages: nat, i: nat, len: nat)
    requires current > 3 && current >= totalPages - 2 && len <= 5 && len <= totalPages && i <= len
    ensures WindowFrom(current, totalPages, i, len)
         == Range(if totalPages - 4 + i < 1 then 1 else totalPages - 4 + i, totalPages - 5 + len)
    decreases len - i
  {
    if i < len {
      HighWindow(current, totalPages, i + 1, len);
    }
  }

  /** The three shapes of the window. Near the start it is `1..min(5, T)`; in the middle it is
      `c-2..c+2`; near the end it is the last `min(5, T)` page numbers shifted down to `T-4`,
      so with fewer than five pages it stops at `2T-5` and can leave the current page out. */
  lemma PageWindowShape(current: int, totalPages: nat)
    ensures var len := if totalPages < 5 then totalPages else 5;
            var w := PageWindow(current, totalPages);
            && (current <= 3 ==> w == Range(1, len))
            && (3 < current < totalPages - 2 ==> w == Range(current - 2, current + 2))
            && (current > 3 && current >= totalPages - 2 ==>
                  w == Range(if totalPages < 5 then 1 else totalPages - 4, totalPages - 5 + len))
  {
    var len := if totalPages < 5 then totalPages else 5;
    if current <= 3 {
      LowWindow(current, totalPages, 0, len);
    } else if current < totalPages - 2 {
      MiddleWindow(current, totalPages, 0);
    } else {
      HighWindow(current, totalPages, 0, len);
    }
  }

  /** Every number shown is a page that exists, there are at most `min(5, T)` of them,
      and they are strictly increasing. */
  lemma PageWindowBounds(current: int, totalPages: nat)
    ensures var w := PageWindow(current, totalPages);
            && |w| <= (if totalPages < 5 then totalPages else 5)
            && (forall k :: 0 <= k < |w| ==> 1 <= w[k] <= totalPages)
            && (forall k :: 0 <= k < |w| - 1 ==> w[k] < w[k + 1])
  {
    PageWindowShape(current, totalPages);
  }

  /** With four pages and the last one current, the window is 1, 2, 3: the end window
      `totalPages - 4 + i` starts at page 0, which the bounds filter drops, so the current
      page is not among the buttons. This is how the page list behaves as written, and
      `PageWindow` keeps it. */
  lemma CurrentPageCanBeMissing()
    ensures PageWindow(4, 4) == [1, 2, 3]
    ensures 4 !in PageWindow(4, 4)
  {
    PageWindowShape(4, 4);
  }

  /** When the first-page shortcut is shown (current > 3) and there are at most five pages,
      the window starts at 1 too, so a "1" button appears twice. This too is the page list as
      written, kept by `FirstShortcut` and `PageWindow`. */
  lemma FirstPageCanRepeat()
    ensures FirstShortcut(4) && PageWindow(4, 5) == [1, 2, 3, 4, 5]
  {
    PageWindowShape(4, 5);
  }

  /** The page list state each admin page keeps. */
  class ListState {
    var searchTerm: string
    var currentPage: int
    var itemsPerPage: nat

    ghost predicate Valid()
      reads this
    {
      currentPage >= 1 && itemsPerPage > 0
    }

    constructor ()
      ensures Valid()
      ensures searchTerm == "" && currentPage == 1 && itemsPerPage == 10
    {
      searchTerm, currentPage, itemsPerPage := "", 1, 10;
    }

    /** Typing in the search box; the effect on `[searchTerm]` sends the list back to page 1. */
    method SetSearch(term: string)
      requires Valid()
      modifies this
      ensures Valid()
      ensures searchTerm == term && currentPage == 1 && itemsPerPage == old(itemsPerPage)
    {
      searchTerm := term;
      currentPage := 1;
    }

    /** The items-per-page selector sets the size and goes back to page 1. */
    method SetItemsPerPage(n: nat)
      requires Valid() && n > 0
      modifies this
      ensures Valid()
      ensures itemsPerPage == n && currentPage == 1 && searchTerm == old(searchTerm)
    {
      itemsPerPage := n;
      currentPage := 1;
    }

    /** `setCurrentPage(1)` when a filter changes. */
    method ResetPage()
      requires Valid()
      modifies this
      ensures Valid()
      ensures currentPage == 1
      ensures searchTerm == old(searchTerm) && itemsPerPage == old(itemsPerPage)
    {
      currentPage := 1;
    }

    method GoTo(page: int, totalPages: nat)
      requires Valid()
      modifies this
      ensures Valid()
      ensures currentPage == GoToPage(page, totalPages)
      ensures searchTerm == old(searchTerm) && itemsPerPage == old(itemsPerPage)
    {
      currentPage := GoToPage(page, totalPages);
    }
  }
}
