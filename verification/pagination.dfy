/** The pagination bar of the listing page (src/app/homepage/page.tsx): the
    window of page links around the current page, the boundary links with
    their ellipses, and what each control does when clicked. */
module Pagination {
  import Listing

  function Max(a: int, b: int): int { if a >= b then a else b }
  function Min(a: int, b: int): int { if a <= b then a else b }

  /** The pages from `max(1, current - 2)` to `min(total, current + 2)`;
      empty when the current page lies beyond the last one. */
  function PageWindow(current: int, total: int): (w: seq<int>)
    ensures forall p :: p in w <==> 1 <= p <= total && current - 2 <= p <= current + 2
    ensures forall i :: 0 <= i < |w| - 1 ==> w[i + 1] == w[i] + 1
    ensures |w| <= 5
  {
    var start := Max(1, current - 2);
    var end := Min(total, current + 2);
    var w := if start <= end then seq(end - start + 1, i => start + i) else [];
    assert forall p :: p in w <==> start <= p <= end by {
      forall p | start <= p <= end ensures p in w {
        assert w[p - start] == p;
      }
    }
    w
  }

  /** On a page inside the range, the window holds the current page and
      runs between its clamped ends. */
  lemma WindowAroundCurrent(current: int, total: int)
    requires 1 <= current <= total
    ensures var w := PageWindow(current, total);
      && current in w
      && w[0] == Max(1, current - 2)
      && w[|w| - 1] == Min(total, current + 2)
  {
    var w := PageWindow(current, total);
    var start := Max(1, current - 2);
    assert w[current - start] == current;
  }

  /** One entry of the bar between the Previous and Next controls. */
  datatype PageItem = PageLink(page: int, active: bool) | Ellipsis

  /** The first-page link and its ellipsis, shown when the window starts
      after page 1. */
  function Head(first: int): seq<PageItem> {
    if first > 1 then [PageLink(1, false)] + (if first > 2 then [Ellipsis] else []) else []
  }

  /** The last-page link and its ellipsis, shown when the window ends
      before the last page. */
  function Tail(last: int, total: int): seq<PageItem> {
    if last < total then (if last < total - 1 then [Ellipsis] else []) + [PageLink(total, false)] else []
  }

  /** The window's links, the current page marked active. */
  function Links(w: seq<int>, current: int): (links: seq<PageItem>)
    ensures |links| == |w|
    ensures forall i :: 0 <= i < |w| ==> links[i] == PageLink(w[i], w[i] == current)
  {
    seq(|w|, i requires 0 <= i < |w| => PageLink(w[i], w[i] == current))
  }

  /** The first-page link, its ellipsis, the window, the last-page link and
      its ellipsis, as the bar renders them. */
  function PageItems(current: int, total: int): (items: seq<PageItem>)
    ensures PageWindow(current, total) == [] ==> items == []
    ensures |PageWindow(current, total)| <= |items| <= |PageWindow(current, total)| + 4
  {
    var w := PageWindow(current, total);
    if w == [] then []
    else Head(w[0]) + Links(w, current) + Tail(w[|w| - 1], total)
  }

  /** The pieces of the bar, for a page inside the range. */
  lemma {:induction false} BarPieces(current: int, total: int)
    requires 1 <= current <= total
    ensures var w := PageWindow(current, total);
      var items := PageItems(current, total);
      && w != []
      && (forall i :: 0 <= i < |w| ==> w[i] == w[0] + i)
      && 1 <= w[0] <= current <= w[|w| - 1] <= total
      && items == Head(w[0]) + Links(w, current) + Tail(w[|w| - 1], total)
  {
    WindowAroundCurrent(current, total);
    var w := PageWindow(current, total);
    forall i | 0 <= i < |w| ensures w[i] == w[0] + i {
      WindowStep(w, i);
    }
  }

  /** The bar starts at page 1 and ends at the last page. */
  lemma BarEnds(current: int, total: int)
    requires 1 <= current <= total
    ensures var items := PageItems(current, total);
      && |items| >= 1
      && items[0] == PageLink(1, current == 1)
      && items[|items| - 1] == PageLink(total, current == total)
  {
    BarPieces(current, total);
    var w := PageWindow(current, total);
    var items := PageItems(current, total);
    var head, mid, tail := Head(w[0]), Links(w, current), Tail(w[|w| - 1], total);
    assert items[0] == if head == [] then mid[0] else head[0];
    assert items[|items| - 1] == if tail == [] then mid[|mid| - 1] else tail[|tail| - 1];
  }

  /** An ellipsis stands exactly between two links that skip pages. */
  lemma EllipsisMarksAGap(current: int, total: int)
    requires 1 <= current <= total
    ensures var items := PageItems(current, total);
      forall k :: 0 <= k < |items| && items[k].Ellipsis? ==>
        0 < k < |items| - 1 && items[k - 1].PageLink? && items[k + 1].PageLink?
        && items[k + 1].page > items[k - 1].page + 1
  {
    BarPieces(current, total);
    var w := PageWindow(current, total);
    var items := PageItems(current, total);
    var head, mid, tail := Head(w[0]), Links(w, current), Tail(w[|w| - 1], total);
    forall k | 0 <= k < |items| && items[k].Ellipsis?
      ensures 0 < k < |items| - 1 && items[k - 1].PageLink? && items[k + 1].PageLink?
      ensures items[k + 1].page > items[k - 1].page + 1
    {
      if k < |head| {
        assert k == 1 && items[0] == head[0] && items[2] == mid[0];
      } else if k < |head| + |mid| {
        assert false;
      } else {
        assert k == |head| + |mid| && tail[0].Ellipsis?;
        assert items[k - 1] == mid[|mid| - 1] && items[k + 1] == tail[1];
      }
    }
  }

  /** Two links side by side are consecutive pages. */
  lemma AdjacentLinksAreConsecutive(current: int, total: int)
    requires 1 <= current <= total
    ensures var items := PageItems(current, total);
      forall k :: 0 <= k < |items| - 1 && items[k].PageLink? && items[k + 1].PageLink? ==>
        items[k + 1].page == items[k].page + 1
  {
    BarPieces(current, total);
    var w := PageWindow(current, total);
    var items := PageItems(current, total);
    var head, mid, tail := Head(w[0]), Links(w, current), Tail(w[|w| - 1], total);
    forall k | 0 <= k < |items| - 1 && items[k].PageLink? && items[k + 1].PageLink?
      ensures items[k + 1].page == items[k].page + 1
    {
      if k < |head| {
        assert k == 0 && |head| == 1 && items[1] == mid[0];
      } else if k < |head| + |mid| - 1 {
        assert items[k] == mid[k - |head|] && items[k + 1] == mid[k + 1 - |head|];
      } else if k == |head| + |mid| - 1 {
        assert items[k] == mid[|mid| - 1] && items[k + 1] == tail[0] && |tail| == 1;
      } else {
        assert false;
      }
    }
  }

  /** Only the current page's link is marked active. */
  lemma OnlyCurrentPageActive(current: int, total: int)
    requires 1 <= current <= total
    ensures var items := PageItems(current, total);
      forall k :: 0 <= k < |items| && items[k].PageLink? ==>
        (items[k].active <==> items[k].page == current)
  {
    BarPieces(current, total);
    var w := PageWindow(current, total);
    var items := PageItems(current, total);
    var head, mid, tail := Head(w[0]), Links(w, current), Tail(w[|w| - 1], total);
    forall k | 0 <= k < |items| && items[k].PageLink?
      ensures items[k].active <==> items[k].page == current
    {
      if k < |head| {
        assert items[k] == head[k];
      } else if k < |head| + |mid| {
        assert items[k] == mid[k - |head|];
      } else {
        assert items[k] == tail[k - |head| - |mid|];
      }
    }
  }

  lemma {:induction false} WindowStep(w: seq<int>, i: nat)
    requires forall j :: 0 <= j < |w| - 1 ==> w[j + 1] == w[j] + 1
    requires i < |w|
    ensures w[i] == w[0] + i
  {
    if i > 0 {
      WindowStep(w, i - 1);
    }
  }

  /** The example of a long listing: on page 5 of 10 the bar reads
      1 … 3 4 5 6 7 … 10. */
  lemma MiddlePageOfTen()
    ensures PageItems(5, 10) == [PageLink(1, false), Ellipsis,
      PageLink(3, false), PageLink(4, false), PageLink(5, true), PageLink(6, false), PageLink(7, false),
      Ellipsis, PageLink(10, false)]
  {
    var w := PageWindow(5, 10);
    assert w == [3, 4, 5, 6, 7];
  }

  /** The controls of the bar. */
  datatype NavAction = Previous | Next | FirstPage | LastPage | Goto(page: int)

  /** The page a click leads to: every control is inert while a fetch is
      loading; Previous and Next need a page on their side; a window link
      other than the current page jumps to it. */
  function Navigate(current: int, total: int, loading: bool, a: NavAction): (r: int)
    ensures loading ==> r == current
    ensures a == Goto(current) ==> r == current
    ensures 1 <= current <= total && (a.Goto? ==> a.page in PageWindow(current, total)) ==> 1 <= r <= total
    ensures a.Previous? ==> r == current || (r == current - 1 && current > 1)
    ensures a.Next? ==> r == current || (r == current + 1 && current < total)
    ensures !loading && a.Previous? ==> r == (if current > 1 then current - 1 else current)
    ensures !loading && a.Next? ==> r == (if current < total then current + 1 else current)
    ensures !loading && a.FirstPage? ==> r == 1
    ensures !loading && a.LastPage? ==> r == total
    ensures !loading && a.Goto? ==> r == a.page
  {
    if loading then current
    else match a
      case Previous => if current > 1 then current - 1 else current
      case Next => if current < total then current + 1 else current
      case FirstPage => 1
      case LastPage => total
      case Goto(p) => p
  }

  /** Every page of the listing can be reached from page 1 by Next clicks
      when nothing is loading. */
  lemma {:induction false} NextReachesEveryPage(total: int, n: nat)
    requires n < total
    ensures NextTimes(1, total, n) == 1 + n
  {
    if n > 0 {
      NextReachesEveryPage(total, n - 1);
    }
  }

  function NextTimes(current: int, total: int, n: nat): int {
    if n == 0 then current else Navigate(NextTimes(current, total, n - 1), total, false, Next)
  }

  /** Clicking any link the bar renders leaves the current page in range. */
  lemma ClickingARenderedLinkStaysInRange(current: int, total: int, k: int)
    requires 1 <= current <= total
    requires 0 <= k < |PageItems(current, total)| && PageItems(current, total)[k].PageLink?
    ensures 1 <= PageItems(current, total)[k].page <= total
  {
    BarEnds(current, total);
    EllipsisMarksAGap(current, total);
    AdjacentLinksAreConsecutive(current, total);
    LinksIncrease(PageItems(current, total), current, total);
  }

  /** Link pages rise strictly along the bar: the emitted page numbers
      are increasing. */
  lemma LinkPagesIncrease(current: int, total: int)
    requires 1 <= current <= total
    ensures var items := PageItems(current, total);
      forall i, j :: 0 <= i < j < |items| && items[i].PageLink? && items[j].PageLink? ==>
        items[i].page < items[j].page
  {
    EllipsisMarksAGap(current, total);
    AdjacentLinksAreConsecutive(current, total);
    var items := PageItems(current, total);
    forall i, j | 0 <= i < j < |items| && items[i].PageLink? && items[j].PageLink?
      ensures items[i].page < items[j].page
    {
      Rises(items, i, j);
    }
  }

  /** Link pages rise along the bar, so they all lie between its ends. */
  lemma LinksIncrease(items: seq<PageItem>, current: int, total: int)
    requires |items| >= 1 && items[0].PageLink? && items[|items| - 1].PageLink?
    requires forall k :: 0 <= k < |items| && items[k].Ellipsis? ==>
            0 < k < |items| - 1 && items[k - 1].PageLink? && items[k + 1].PageLink?
            && items[k + 1].page > items[k - 1].page + 1
    requires forall k :: 0 <= k < |items| - 1 && items[k].PageLink? && items[k + 1].PageLink? ==>
            items[k + 1].page == items[k].page + 1
    ensures forall k :: 0 <= k < |items| && items[k].PageLink? ==>
            items[0].page <= items[k].page <= items[|items| - 1].page
  {
    forall k | 0 <= k < |items| && items[k].PageLink?
      ensures items[0].page <= items[k].page <= items[|items| - 1].page
    {
      if 0 < k { Rises(items, 0, k); }
      if k < |items| - 1 { Rises(items, k, |items| - 1); }
    }
  }

  lemma {:induction false} Rises(items: seq<PageItem>, i: int, j: int)
    requires 0 <= i < j < |items| && items[i].PageLink? && items[j].PageLink?
    requires forall k :: 0 <= k < |items| && items[k].Ellipsis? ==>
            0 < k < |items| - 1 && items[k - 1].PageLink? && items[k + 1].PageLink?
            && items[k + 1].page > items[k - 1].page + 1
    requires forall k :: 0 <= k < |items| - 1 && items[k].PageLink? && items[k + 1].PageLink? ==>
            items[k + 1].page == items[k].page + 1
    ensures items[i].page < items[j].page
    decreases j - i
  {
    if items[j - 1].PageLink? {
      if i < j - 1 { Rises(items, i, j - 1); }
    } else {
      if i < j - 2 { Rises(items, i, j - 2); }
    }
  }

  /** The boundary markers: the first-page link precedes the window exactly
      when the window starts after page 1, with an ellipsis exactly when it
      starts after page 2; symmetrically at the last page. */
  lemma BoundaryMarkers(current: int, total: int)
    requires 1 <= current <= total
    ensures var w := PageWindow(current, total);
      var items := PageItems(current, total);
      var first, last := w[0], w[|w| - 1];
      && |items| == |w| + (if first > 1 then 1 else 0) + (if first > 2 then 1 else 0)
                        + (if last < total then 1 else 0) + (if last < total - 1 then 1 else 0)
      && (first > 1 ==> items[0] == PageLink(1, false))
      && (|items| > 1 && items[1] == Ellipsis <==> first > 2)
      && (last < total ==> items[|items| - 1] == PageLink(total, false))
      && (|items| > 1 && items[|items| - 2] == Ellipsis <==> last < total - 1)
  {
    BarPieces(current, total);
    var w := PageWindow(current, total);
    var items := PageItems(current, total);
    var head, mid, tail := Head(w[0]), Links(w, current), Tail(w[|w| - 1], total);
    if |items| > 1 {
      if |head| == 0 && |mid| > 1 { assert items[1] == mid[1]; }
      if |head| == 1 { assert items[1] == mid[0]; }
      if |tail| == 0 && |mid| > 1 { assert items[|items| - 2] == mid[|mid| - 2]; }
      if |tail| == 1 { assert items[|items| - 2] == mid[|mid| - 1]; }
    }
  }
}
