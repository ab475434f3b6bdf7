/** The page navigation of the story list (components/posts/StoryList.tsx)
    and of the completed-stories page (app/completed/page.tsx): the page
    count, which page buttons and ellipses are drawn, and the listing state
    the fetch effects update. Both components use the same rules. */
module Pagination {
  import opened Common
  import opened Types

  const ItemsPerPage := 9

  /** `Math.ceil(totalCount / ITEMS_PER_PAGE) || 1` for a non-negative
      count: enough pages for every item, and at least one. */
  function TotalPages(totalCount: nat): (r: int)
    ensures r >= 1
    ensures totalCount > 0 ==> (r - 1) * ItemsPerPage < totalCount <= r * ItemsPerPage
    ensures totalCount == 0 ==> r == 1
  {
    if totalCount == 0 then 1 else (totalCount + ItemsPerPage - 1) / ItemsPerPage
  }

  /** A single page of results never shows the page bar. */
  lemma {:induction false} OnePageIffFewItems(totalCount: nat)
    ensures TotalPages(totalCount) == 1 <==> totalCount <= ItemsPerPage
  {
  }

  /** What the page bar draws for one page number. */
  datatype PageItem = PageButton(page: int, active: bool) | Ellipsis | NoItem

  /** `showPage`: the first and the last page and the current page with its
      two neighbours. */
  predicate ShowPage(page: int, current: int, totalPages: int)
    ensures page == current || page == 1 || page == totalPages ==> ShowPage(page, current, totalPages)
    ensures ShowPage(page, current, totalPages) && 1 < page < totalPages ==> current - 1 <= page <= current + 1
  {
    page == 1 || page == totalPages || (current - 1 <= page <= current + 1)
  }

  /** The item drawn for `page`: a button when shown, an ellipsis for a
      hidden page two away from the current one, nothing otherwise. */
  function PageItemFor(page: int, current: int, totalPages: int): (r: PageItem)
    ensures page == current ==> r == PageButton(page, true)
    ensures r.PageButton? ==> r.page == page && (r.active <==> page == current)
    ensures r == Ellipsis ==> page == current - 2 || page == current + 2
  {
    if ShowPage(page, current, totalPages) then PageButton(page, page == current)
    else if page == current - 2 || page == current + 2 then Ellipsis
    else NoItem
  }

  /** `Array.from({ length: totalPages }, (_, i) => i + 1).map(...)`: the
      items for pages 1 to `totalPages`, in order. */
  function PageItems(current: int, totalPages: nat): (r: seq<PageItem>)
    ensures |r| == totalPages
    ensures forall i :: 0 <= i < totalPages ==> r[i] == PageItemFor(i + 1, current, totalPages)
  {
    ItemsUpTo(current, totalPages, totalPages)
  }

  /** The items for pages 1 to `n` of a bar of `totalPages`. */
  function ItemsUpTo(current: int, totalPages: int, n: nat): (r: seq<PageItem>)
    ensures |r| == n
    ensures forall i :: 0 <= i < n ==> r[i] == PageItemFor(i + 1, current, totalPages)
  {
    if n == 0 then [] else ItemsUpTo(current, totalPages, n - 1) + [PageItemFor(n, current, totalPages)]
  }

  /** The first and last page always have buttons, and the current page's
      button is the one active button. */
  lemma {:induction false} PageBarButtons(current: int, totalPages: nat)
    requires 1 <= current <= totalPages
    ensures var items := PageItems(current, totalPages);
      && items[0].PageButton? && items[totalPages - 1].PageButton?
      && items[current - 1] == PageButton(current, true)
      && forall i :: 0 <= i < totalPages && items[i].PageButton? && items[i].active ==> i == current - 1
  {
  }

  /** Every run of skipped pages is marked: a hidden page before the current
      one means an ellipsis two pages back, and one after it means an
      ellipsis two pages ahead. */
  lemma {:induction false} SkippedPagesAreMarked(current: int, totalPages: nat, page: int)
    requires 1 <= current <= totalPages && 1 <= page <= totalPages
    requires PageItems(current, totalPages)[page - 1] != PageButton(page, page == current)
    ensures page < current ==> PageItems(current, totalPages)[current - 3] == Ellipsis
    ensures page > current ==> PageItems(current, totalPages)[current + 1] == Ellipsis
  {
  }

  /** An ellipsis is drawn only for a page two away from the current one,
      and a button only for the first page, the last page and the current
      page with its neighbours, so the bar stays short however many pages
      there are. */
  lemma {:induction false} PageBarIsBounded(current: int, totalPages: nat)
    ensures forall i :: 0 <= i < totalPages && PageItems(current, totalPages)[i] == Ellipsis ==>
      i + 1 == current - 2 || i + 1 == current + 2
    ensures forall i :: 0 <= i < totalPages && PageItems(current, totalPages)[i].PageButton? ==>
      i + 1 in {1, totalPages, current - 1, current, current + 1}
  {
  }

  /** `stories.reduce((sum, s) => sum + s.totalLikes, 0)`: the likes of the
      stories on the current page. */
  function LikesOnPage(stories: seq<CompletedStory>): (r: int)
    ensures stories == [] ==> r == 0
    ensures |stories| == 1 ==> r == stories[0].totalLikes
  {
    if stories == [] then 0 else LikesOnPage(stories[..|stories| - 1]) + stories[|stories| - 1].totalLikes
  }

  /** The total is additive over the page, and never negative when no story
      has negative likes. */
  lemma {:induction false} LikesOnPageSplits(xs: seq<CompletedStory>, ys: seq<CompletedStory>)
    ensures LikesOnPage(xs + ys) == LikesOnPage(xs) + LikesOnPage(ys)
    decreases |ys|
  {
    if ys == [] {
      assert xs + ys == xs;
    } else {
      LikesOnPageSplits(xs, ys[..|ys| - 1]);
      assert (xs + ys)[..|xs + ys| - 1] == xs + ys[..|ys| - 1];
    }
  }

  lemma {:induction false} LikesOnPageNonNegative(stories: seq<CompletedStory>)
    requires forall k :: 0 <= k < |stories| ==> stories[k].totalLikes >= 0
    ensures LikesOnPage(stories) >= 0
  {
    if stories != [] {
      LikesOnPageNonNegative(stories[..|stories| - 1]);
    }
  }

  /** The fields of a listing reply; either may be missing. */
  datatype PageReply<T> = PageReply(stories: Option<seq<T>>, totalCount: Option<nat>)

  /** The listing state of either component: the page shown, the stories
      and count of the last reply, and whether a fetch is under way. */
  class Listing<T> {
    var currentPage: int
    var stories: seq<T>
    var totalCount: nat
    var isLoading: bool

    constructor ()
      ensures currentPage == 1 && stories == [] && totalCount == 0 && isLoading
    {
      currentPage := 1;
      stories := [];
      totalCount := 0;
      isLoading := true;
    }

    /** The page bar is drawn when the fetch is over, the page has stories
        and there is more than one page. */
    predicate PageBarShown()
      reads this
      ensures PageBarShown() ==> totalCount > ItemsPerPage && |stories| > 0
    {
      !isLoading && |stories| > 0 && TotalPages(totalCount) > 1
    }

    /** Whether "previous" is disabled: an enabled one never leads below
        page 1. */
    predicate PrevDisabled()
      reads this
      ensures !PrevDisabled() && currentPage >= 1 ==> currentPage - 1 >= 1
    {
      currentPage == 1
    }

    /** Whether "next" is disabled: an enabled one never leads past the
        last page, and both are disabled only when one page holds every
        item. */
    predicate NextDisabled()
      reads this
      ensures !NextDisabled() && currentPage <= TotalPages(totalCount) ==> currentPage + 1 <= TotalPages(totalCount)
      ensures NextDisabled() && PrevDisabled() ==> totalCount <= ItemsPerPage
    {
      currentPage == TotalPages(totalCount)
    }

    /** A change of genre, search or sort goes back to the first page. */
    method FiltersChanged()
      modifies this`currentPage
      ensures currentPage == 1 && PrevDisabled()
    {
      currentPage := 1;
    }

    /** `handlePageChange(page)` */
    method ChangePage(page: int)
      modifies this`currentPage
      ensures currentPage == page
    {
      currentPage := page;
    }

    method StartFetch()
      modifies this`isLoading
      ensures isLoading && !PageBarShown()
    {
      isLoading := true;
    }

    /** The end of a fetch: `reply` is the parsed body, `None` when the
        request or its parsing fails; a missing field counts as empty. A
        reply the story list has cancelled (its filters or page changed
        first) leaves everything as it was. */
    method FinishFetch(reply: Option<PageReply<T>>, cancelled: bool)
      modifies this`stories, this`totalCount, this`isLoading
      ensures cancelled ==> stories == old(stories) && totalCount == old(totalCount) && isLoading == old(isLoading)
      ensures !cancelled ==> !isLoading
      ensures !cancelled && reply.None? ==> stories == [] && totalCount == 0 && !PageBarShown()
      ensures !cancelled && reply.Some? ==>
        stories == reply.value.stories.GetOr([]) && totalCount == reply.value.totalCount.GetOr(0)
    {
      if !cancelled {
        if reply.None? {
          stories := [];
          totalCount := 0;
        } else {
          stories := reply.value.stories.GetOr([]);
          totalCount := reply.value.totalCount.GetOr(0);
        }
        isLoading := false;
      }
    }
  }
}
