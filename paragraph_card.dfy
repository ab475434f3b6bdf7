/** One paragraph of a story, components/posts/ParagraphCard.tsx: its
    optimistic turn like. Unlike the story's action bar the card has no
    pending flag, so the click hands the values it captured to the reply
    that belongs to it. */
module ParagraphCard {
  import opened Common
  import StoryActionBar

  /** The values `handleLike` captures before its `await`. */
  datatype LikeClick = LikeClick(prevLiked: bool, prevCount: int)

  class Card {
    const turnId: Option<string>
    var isLiked: bool
    var likeCount: int

    /** A card starts unliked with no likes unless told otherwise. */
    constructor (turnId: Option<string>, likes: Option<int>, isLiked: Option<bool>)
      ensures this.turnId == turnId
      ensures this.likeCount == likes.GetOr(0) && this.isLiked == isLiked.GetOr(false)
    {
      this.turnId := turnId;
      this.likeCount := likes.GetOr(0);
      this.isLiked := isLiked.GetOr(false);
    }

    /** A click: a card without a turn id (missing or empty) does nothing;
        otherwise the flag flips and the count moves by one, and the click
        returns what it captured for its reply. */
    method LikeClicked() returns (click: Option<LikeClick>)
      modifies this`isLiked, this`likeCount
      ensures click.None? <==> turnId.None? || turnId.value == ""
      ensures click.None? ==> isLiked == old(isLiked) && likeCount == old(likeCount)
      ensures click.Some? ==>
        && click.value == LikeClick(old(isLiked), old(likeCount))
        && isLiked == !old(isLiked) && likeCount == StoryActionBar.OptimisticCount(old(isLiked), old(likeCount))
    {
      if turnId.None? || turnId.value == "" {
        return None;
      }
      var prevLiked, prevCount := isLiked, likeCount;
      isLiked := !prevLiked;
      likeCount := if prevLiked then prevCount - 1 else prevCount + 1;
      click := Some(LikeClick(prevLiked, prevCount));
    }

    /** The reply to `click`: a failure puts back exactly the values that
        click captured, a success takes the server's values. */
    method LikeReplied(click: LikeClick, result: StoryActionBar.ToggleLikeResult)
      modifies this`isLiked, this`likeCount
      ensures result.ToggleFailed? ==> isLiked == click.prevLiked && likeCount == click.prevCount
      ensures result.LikeToggled? ==> isLiked == result.liked && likeCount == result.likeCount
    {
      if result.ToggleFailed? {
        isLiked := click.prevLiked;
        likeCount := click.prevCount;
      } else {
        isLiked := result.liked;
        likeCount := result.likeCount;
      }
    }
  }

  /** A click whose reply fails leaves the card as it was. */
  method FailedLikeRestores(card: Card, error: string)
    requires card.turnId.Some? && card.turnId.value != ""
    modifies card
    ensures card.isLiked == old(card.isLiked) && card.likeCount == old(card.likeCount)
  {
    var click := card.LikeClicked();
    card.LikeReplied(click.value, StoryActionBar.ToggleFailed(error));
  }
}
