/**
 * Pagination on the browse page: nine listings per page, the page shown is
 * a `slice` of the filtered and sorted list, the header reports the 1-based
 * range shown, and the page-number strip shows the first page, the last
 * page and the pages next to the current one, and an ellipsis for a page
 * two away from the current one that gets no button.
 */
module BrowsePagination {

  /** `domainsPerPage`. */
  const PageSize: nat := 9

  /** `Math.ceil(count / domainsPerPage)`. */
  function TotalPages(count: nat): (t: nat)
    ensures count == 0 <==> t == 0
    ensures count > 0 ==> PageSize * (t - 1) < count <= PageSize * t
  {
    (count + PageSize - 1) / PageSize
  }

  /** The index `Array.prototype.slice` clamps a bound to: counted from the end when negative. */
  function SliceIndex(len: nat, i: int): (k: nat)
    ensures k <= len
    ensures 0 <= i <= len ==> k == i
    ensures i > len ==> k == len
  {
    if i < 0 then (if len + i < 0 then 0 else len + i)
    else if i > len then len
    else i
  }

  /** `s.slice(begin, end)`. */
  function Slice<T>(s: seq<T>, begin: int, end: int): (r: seq<T>)
  {
    var from := SliceIndex(|s|, begin);
    var to := SliceIndex(|s|, end);
    if from < to then s[from..to] else []
  }

  /** `startIndex`. */
  function StartIndex(page: int): int
  {
    (page - 1) * PageSize
  }

  /** `paginatedDomains`: the slice shown on page `page`. */
  function PageSlice<T>(s: seq<T>, page: int): (r: seq<T>)
    ensures |r| <= PageSize
    ensures page >= 1 ==> forall i | 0 <= i < |r| :: StartIndex(page) + i < |s| && r[i] == s[StartIndex(page) + i]
  {
    Slice(s, StartIndex(page), StartIndex(page) + PageSize)
  }

  /** A page the buttons can reach shows the next nine listings, fewer on the last page, none past it. */
  lemma PageSliceContents<T>(s: seq<T>, page: int)
    requires page >= 1
    ensures var start := StartIndex(page);
      PageSlice(s, page) == (if start < |s| then s[start..if start + PageSize < |s| then start + PageSize else |s|] else [])
    ensures |PageSlice(s, page)| <= PageSize
    ensures PageSlice(s, page) != [] <==> page <= TotalPages(|s|)
  {
  }

  /** The pages before page `k + 1`, joined in order. */
  function PagesUpTo<T>(s: seq<T>, k: nat): seq<T>
  {
    if k == 0 then [] else PagesUpTo(s, k - 1) + PageSlice(s, k)
  }

  lemma {:induction false} PagesUpToPrefix<T>(s: seq<T>, k: nat)
    ensures PagesUpTo(s, k) == s[..if PageSize * k < |s| then PageSize * k else |s|]
  {
    if k > 0 {
      PagesUpToPrefix(s, k - 1);
      PageSliceContents(s, k);
      var a := if PageSize * (k - 1) < |s| then PageSize * (k - 1) else |s|;
      var b := if PageSize * k < |s| then PageSize * k else |s|;
      assert s[..a] + s[a..b] == s[..b];
    }
  }

  /** Every listing appears on exactly one page: the pages joined are the whole list. */
  lemma PagesCoverAll<T>(s: seq<T>)
    ensures PagesUpTo(s, TotalPages(|s|)) == s
  {
    PagesUpToPrefix(s, TotalPages(|s|));
  }

  /** The two numbers of "Showing {from}-{to} of {count} domains". */
  function ShowingRange(count: nat, page: int): (range: (int, int))
  {
    var start := StartIndex(page);
    (start + 1, if start + PageSize < count then start + PageSize else count)
  }

  /** On a page that has listings the header's range is exactly the positions shown. */
  lemma ShowingRangeMatchesSlice<T>(s: seq<T>, page: int)
    requires 1 <= page <= TotalPages(|s|)
    ensures ShowingRange(|s|, page).0 == StartIndex(page) + 1
    ensures ShowingRange(|s|, page).1 - ShowingRange(|s|, page).0 + 1 == |PageSlice(s, page)|
  {
    PageSliceContents(s, page);
  }

  /** 23 matches on page 3: positions 18 to 22, five listings, three pages. */
  lemma TwentyThreeOnPageThree<T>(s: seq<T>)
    requires |s| == 23
    ensures PageSlice(s, 3) == s[18..23]
    ensures |PageSlice(s, 3)| == 5
    ensures TotalPages(|s|) == 3
    ensures ShowingRange(|s|, 3) == (19, 23)
  {
  }

  /** The strip is rendered only when there is more than one page. */
  predicate ShowsPagination(total: nat)
  {
    total > 1
  }

  /** "Previous" is enabled unless on page 1; "Next" unless on the last page. */
  predicate PreviousEnabled(current: int)
  {
    current != 1
  }

  predicate NextEnabled(current: int, total: nat)
  {
    current != total
  }

  /** From a page in range, the enabled arrows lead to a page in range. */
  lemma ArrowsStayInRange(current: int, total: nat)
    requires 1 <= current <= total
    ensures PreviousEnabled(current) ==> 1 <= current - 1 <= total
    ensures NextEnabled(current, total) ==> 1 <= current + 1 <= total
    ensures ShowsPagination(total) ==> PreviousEnabled(current) || NextEnabled(current, total)
  {
  }

  /** An entry of the page-number strip: a page button, or an ellipsis keyed by the page it stands in for. */
  datatype PageItem = PageButton(page: int, active: bool) | Ellipsis(page: int)

  /** The button condition of the strip. */
  predicate ShowsButton(page: int, total: nat, current: int)
  {
    page == 1 || page == total || (current - 1 <= page <= current + 1)
  }

  /** What the strip renders for page `page`: a button, an ellipsis, or nothing. */
  function ItemFor(page: int, total: nat, current: int): (r: seq<PageItem>)
    ensures |r| <= 1
  {
    if ShowsButton(page, total, current) then [PageButton(page, current == page)]
    else if page == current - 2 || page == current + 2 then [Ellipsis(page)]
    else []
  }

  /** The entries for pages 1 to `k`, in order. */
  function WindowUpTo(k: nat, total: nat, current: int): seq<PageItem>
  {
    if k == 0 then [] else WindowUpTo(k - 1, total, current) + ItemFor(k, total, current)
  }

  /** The whole strip: `[...Array(totalPages)].map(...)` with the nulls dropped. */
  function Window(total: nat, current: int): seq<PageItem>
  {
    WindowUpTo(total, total, current)
  }

  /** Whether entry `item` belongs to the strip for page `item.page`. */
  predicate Rendered(item: PageItem, total: nat, current: int)
  {
    1 <= item.page <= total &&
    match item
    case PageButton(p, active) => ShowsButton(p, total, current) && active == (p == current)
    case Ellipsis(p) => !ShowsButton(p, total, current) && (p == current - 2 || p == current + 2)
  }

  lemma {:induction false} WindowUpToMembership(k: nat, total: nat, current: int, item: PageItem)
    requires k <= total
    ensures item in WindowUpTo(k, total, current) <==> item.page <= k && Rendered(item, total, current)
  {
    if k > 0 {
      WindowUpToMembership(k - 1, total, current, item);
    }
  }

  /** An entry is in the strip exactly when the strip's rule renders it. */
  lemma WindowMembership(total: nat, current: int, item: PageItem)
    ensures item in Window(total, current) <==> Rendered(item, total, current)
  {
    WindowUpToMembership(total, total, current, item);
  }

  lemma {:induction false} WindowUpToIncreasing(k: nat, total: nat, current: int)
    ensures forall i | 0 <= i < |WindowUpTo(k, total, current)| :: 1 <= WindowUpTo(k, total, current)[i].page <= k
    ensures forall i, j | 0 <= i < j < |WindowUpTo(k, total, current)| ::
      WindowUpTo(k, total, current)[i].page < WindowUpTo(k, total, current)[j].page
  {
    if k > 0 {
      WindowUpToIncreasing(k - 1, total, current);
      var w := WindowUpTo(k, total, current);
      var v := WindowUpTo(k - 1, total, current);
      assert w == v + ItemFor(k, total, current);
      assert forall i | 0 <= i < |v| :: w[i] == v[i];
      assert forall i | |v| <= i < |w| :: w[i].page == k;
      forall i, j | 0 <= i < j < |w| ensures w[i].page < w[j].page {
        if j < |v| {
          assert w[i] == v[i] && w[j] == v[j];
        } else {
          assert w[i] == v[i];
        }
      }
    }
  }

  /** The entries appear in increasing page order, each page at most once. */
  lemma WindowIncreasing(total: nat, current: int)
    ensures var w := Window(total, current);
      forall i, j | 0 <= i < j < |w| :: w[i].page < w[j].page
  {
    assert Window(total, current) == WindowUpTo(total, total, current);
    WindowUpToIncreasing(total, total, current);
  }

  /** With the current page in range, two ellipses are never next to each other. */
  lemma NoAdjacentEllipses(total: nat, current: int)
    requires 1 <= current <= total
    ensures var w := Window(total, current);
      forall i | 0 <= i < |w| - 1 :: !(w[i].Ellipsis? && w[i + 1].Ellipsis?)
  {
    var w := Window(total, current);
    WindowIncreasing(total, current);
    forall i | 0 <= i < |w| - 1 ensures !(w[i].Ellipsis? && w[i + 1].Ellipsis?) {
      if w[i].Ellipsis? && w[i + 1].Ellipsis? {
        WindowMembership(total, current, w[i]);
        WindowMembership(total, current, w[i + 1]);
        NothingBetween(w, i, current);
        WindowMembership(total, current, PageButton(current, true));
        assert false;
      }
    }
  }

  /** With the current page in range, consecutive buttons are consecutive pages: every hidden run has an ellipsis. */
  lemma NoSilentGap(total: nat, current: int)
    requires 1 <= current <= total
    ensures var w := Window(total, current);
      forall i | 0 <= i < |w| - 1 && w[i].PageButton? && w[i + 1].PageButton? :: w[i + 1].page == w[i].page + 1
  {
    var w := Window(total, current);
    WindowIncreasing(total, current);
    forall i | 0 <= i < |w| - 1 && w[i].PageButton? && w[i + 1].PageButton?
      ensures w[i + 1].page == w[i].page + 1
    {
      var p, q := w[i].page, w[i + 1].page;
      WindowMembership(total, current, w[i]);
      WindowMembership(total, current, w[i + 1]);
      if q != p + 1 {
        // some page strictly between p and q is rendered, yet nothing sits between w[i] and w[i + 1]
        var r := if current - 1 <= p <= current + 1 then p + 1
          else if current - 1 <= q <= current + 1 then q - 1
          else current;
        var item := if ShowsButton(r, total, current) then PageButton(r, current == r) else Ellipsis(r);
        NothingBetween(w, i, r);
        WindowMembership(total, current, item);
        assert false;
      }
    }
  }

  /** In a strictly increasing strip no entry has a page strictly between two neighbours' pages. */
  lemma NothingBetween(w: seq<PageItem>, i: int, r: int)
    requires forall i, j | 0 <= i < j < |w| :: w[i].page < w[j].page
    requires 0 <= i < |w| - 1 && w[i].page < r < w[i + 1].page
    ensures forall item | item in w :: item.page != r
  {
    forall item | item in w ensures item.page != r {
      var m :| 0 <= m < |w| && w[m] == item;
      if m <= i {
        assert m == i || w[m].page < w[i].page;
      } else {
        assert m == i + 1 || w[i + 1].page < w[m].page;
      }
    }
  }

  /** In a strictly increasing strip the first entry has the smallest page and the last the largest. */
  lemma FirstAndLast(w: seq<PageItem>, i: int)
    requires forall i, j | 0 <= i < j < |w| :: w[i].page < w[j].page
    requires 0 <= i < |w|
    ensures i > 0 ==> w[0].page < w[i].page
    ensures i < |w| - 1 ==> w[i].page < w[|w| - 1].page
  {
  }

  /** The strip starts at page 1 and ends at the last page, with no ellipsis beyond either. */
  lemma WindowEnds(total: nat, current: int)
    requires total >= 1
    ensures var w := Window(total, current);
      |w| >= 1 && w[0] == PageButton(1, current == 1) && w[|w| - 1] == PageButton(total, current == total)
  {
    var w := Window(total, current);
    assert w == WindowUpTo(total, total, current);
    WindowIncreasing(total, current);
    WindowMembership(total, current, PageButton(1, current == 1));
    WindowMembership(total, current, PageButton(total, current == total));
    WindowUpToIncreasing(total, total, current);
    var a :| 0 <= a < |w| && w[a] == PageButton(1, current == 1);
    var b :| 0 <= b < |w| && w[b] == PageButton(total, current == total);
    FirstAndLast(w, a);
    FirstAndLast(w, b);
  }

  /** Ten pages, current page 5: 1 … 4 5 6 … 10. */
  lemma TenPagesAtFive()
    ensures Window(10, 5) == [PageButton(1, false), Ellipsis(3), PageButton(4, false), PageButton(5, true),
                              PageButton(6, false), Ellipsis(7), PageButton(10, false)]
  {
  }
}
