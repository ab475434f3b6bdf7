/** The action bar under a story, components/posts/StoryActionBar.tsx: the
    optimistic story like with its rollback, the complete button and the
    summary panel. Each asynchronous handler is split at its `await` into
    the click, which returns whether the server is called, and the reply. */
module StoryActionBar {
  import opened Common

  /** The result of `toggleStoryLike` / `toggleTurnLike`. */
  datatype ToggleLikeResult = LikeToggled(liked: bool, likeCount: int) | ToggleFailed(error: string)

  /** How the summary request ended: a reply with an ok status and its
      `summary` field, a reply with another status and its `error` field,
      or a request or parse that threw. */
  datatype SummaryReply = SummaryOk(summary: Option<string>) | SummaryNotOk(error: Option<string>) | SummaryThrew

  const SummaryFailed := "요약 생성에 실패했습니다"
  const SummaryUnreachable := "요약을 불러오지 못했습니다"

  /** The count after a click, before the server answers. */
  function OptimisticCount(liked: bool, count: int): (r: int)
    ensures liked ==> r == count - 1
    ensures !liked ==> r == count + 1
  {
    if liked then count - 1 else count + 1
  }

  /** `data.error || "요약 생성에 실패했습니다"` */
  function SummaryError(error: Option<string>): (r: string)
    ensures r != ""
    ensures error.Some? && error.value != "" ==> r == error.value
  {
    if error.Some? && error.value != "" then error.value else SummaryFailed
  }

  class ActionBar {
    const roomId: string
    const canComplete: bool
    var likeCount: int
    var isLiked: bool
    var isPending: bool
    /** `prevLiked` of the like call in flight. */
    var prevLiked: bool
    /** The count before the click of the like call in flight. */
    ghost var prevCount: int
    var isCompleting: bool
    var showSummary: bool
    var summary: Option<string>
    var summaryLoading: bool
    var summaryError: Option<string>

    /** While a like call is in flight the flag and the count show its
        optimistic values. */
    ghost predicate Valid()
      reads this
    {
      isPending ==> isLiked == !prevLiked && likeCount == OptimisticCount(prevLiked, prevCount)
    }

    constructor (roomId: string, canComplete: bool, likeCount: int, isLiked: bool)
      ensures Valid()
      ensures this.roomId == roomId && this.canComplete == canComplete
      ensures this.likeCount == likeCount && this.isLiked == isLiked
      ensures !isPending && !isCompleting && !showSummary && summary.None? && !summaryLoading && summaryError.None?
    {
      this.roomId := roomId;
      this.canComplete := canComplete;
      this.likeCount := likeCount;
      this.isLiked := isLiked;
      isPending := false;
      prevLiked := isLiked;
      prevCount := likeCount;
      isCompleting := false;
      showSummary := false;
      summary := None;
      summaryLoading := false;
      summaryError := None;
    }

    /** A click on the like button: ignored while a call is pending;
        otherwise the flag flips and the count moves by one at once. */
    method LikeClicked() returns (callsServer: bool)
      requires Valid()
      modifies this`isPending, this`prevLiked, this`prevCount, this`isLiked, this`likeCount
      ensures Valid()
      ensures callsServer == !old(isPending)
      ensures old(isPending) ==> isLiked == old(isLiked) && likeCount == old(likeCount) && isPending
      ensures !old(isPending) ==>
        && isPending && isLiked == !old(isLiked) && likeCount == OptimisticCount(old(isLiked), old(likeCount))
        && prevLiked == old(isLiked) && prevCount == old(likeCount)
    {
      if isPending {
        return false;
      }
      isPending := true;
      prevLiked := isLiked;
      prevCount := likeCount;
      isLiked := !prevLiked;
      likeCount := if prevLiked then likeCount - 1 else likeCount + 1;
      callsServer := true;
    }

    /** The reply of the pending like call: a failure undoes the click by
        moving the count back by one, which restores both values from
        before the click; a success takes the server's values. */
    method LikeReplied(result: ToggleLikeResult)
      requires Valid() && isPending
      modifies this`isPending, this`isLiked, this`likeCount
      ensures Valid() && !isPending
      ensures result.ToggleFailed? ==> isLiked == prevLiked && likeCount == prevCount
      ensures result.LikeToggled? ==> isLiked == result.liked && likeCount == result.likeCount
    {
      isPending := false;
      if result.ToggleFailed? {
        isLiked := prevLiked;
        likeCount := if prevLiked then likeCount + 1 else likeCount - 1;
      } else {
        isLiked := result.liked;
        likeCount := result.likeCount;
      }
    }

    /** A click on "완성하기": nothing unless the story may be completed and
        no completion is in flight. */
    method CompleteClicked() returns (callsServer: bool)
      modifies this`isCompleting
      ensures callsServer == (canComplete && !old(isCompleting))
      ensures isCompleting == (old(isCompleting) || callsServer)
    {
      if !canComplete || isCompleting {
        return false;
      }
      isCompleting := true;
      callsServer := true;
    }

    /** The reply of `completeStory`: only a success goes on to the cover
        page. */
    method CompleteReplied(success: bool) returns (navigateTo: Option<string>)
      modifies this`isCompleting
      ensures !isCompleting
      ensures navigateTo.Some? <==> success
      ensures success ==> navigateTo.value == "/story/" + roomId + "/cover"
    {
      isCompleting := false;
      navigateTo := if success then Some("/story/" + roomId + "/cover") else None;
    }

    /** A click on the summary button: an open panel closes; a closed one
        opens, and the summary is requested only when none is cached. */
    method SummaryClicked() returns (fetches: bool)
      modifies this`showSummary, this`summaryLoading, this`summaryError
      ensures fetches <==> !old(showSummary) && summary.None?
      ensures showSummary == !old(showSummary)
      ensures fetches ==> summaryLoading && summaryError.None?
      ensures !fetches ==> summaryLoading == old(summaryLoading) && summaryError == old(summaryError)
    {
      if showSummary {
        showSummary := false;
        return false;
      }
      showSummary := true;
      if summary.Some? {
        return false;
      }
      summaryLoading := true;
      summaryError := None;
      fetches := true;
    }

    /** The end of the summary request: an ok reply caches its summary
        ("" when missing); any other outcome records an error and caches
        nothing, so the next opening asks again. */
    method SummaryReplied(reply: SummaryReply)
      modifies this`summary, this`summaryLoading, this`summaryError
      ensures !summaryLoading
      ensures reply.SummaryOk? ==> summary == Some(reply.summary.GetOr("")) && summaryError == old(summaryError)
      ensures reply.SummaryNotOk? ==> summary == old(summary) && summaryError == Some(SummaryError(reply.error))
      ensures reply.SummaryThrew? ==> summary == old(summary) && summaryError == Some(SummaryUnreachable)
    {
      match reply {
        case SummaryOk(s) =>
          summary := Some(s.GetOr(""));
        case SummaryNotOk(e) =>
          summaryError := Some(SummaryError(e));
        case SummaryThrew =>
          summaryError := Some(SummaryUnreachable);
      }
      summaryLoading := false;
    }
  }

  /** A click followed by a failed reply leaves the bar's like state as it
      was before the click. */
  method LikeRollsBack(bar: ActionBar, error: string)
    requires bar.Valid() && !bar.isPending
    modifies bar
    ensures bar.isLiked == old(bar.isLiked) && bar.likeCount == old(bar.likeCount) && !bar.isPending
  {
    var calls := bar.LikeClicked();
    bar.LikeReplied(ToggleFailed(error));
  }
}
