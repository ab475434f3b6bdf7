/** The badge an author profile shows, `getBadge` of
    components/profile/AuthorProfileContent.tsx, derived from the author's
    story and like totals. */
module AuthorBadge {
  import opened Common
  import AuthorQueries

  const Legend := "전설 작가"
  const Veteran := "베테랑 작가"
  const Popular := "인기 작가"

  /** `getBadge(storiesCount, totalLikes)`: the highest tier whose
      thresholds are met, checked from the top. */
  function GetBadge(storiesCount: int, totalLikes: int): (r: Option<string>)
    ensures r == Some(Legend) <==> storiesCount >= 10 && totalLikes >= 1000
    ensures r == Some(Veteran) <==> !(storiesCount >= 10 && totalLikes >= 1000) && storiesCount >= 5 && totalLikes >= 500
    ensures r == Some(Popular) <==> !(storiesCount >= 10 && totalLikes >= 1000) && !(storiesCount >= 5 && totalLikes >= 500)
                                    && (storiesCount >= 3 || totalLikes >= 200)
    ensures r.None? <==> storiesCount < 3 && totalLikes < 200
  {
    if storiesCount >= 10 && totalLikes >= 1000 then Some(Legend)
    else if storiesCount >= 5 && totalLikes >= 500 then Some(Veteran)
    else if storiesCount >= 3 || totalLikes >= 200 then Some(Popular)
    else None
  }

  /** A tier's rank in the popular-author list's badge order; no badge
      ranks below every tier. */
  function TierRank(b: Option<string>): int {
    if b.Some? then AuthorQueries.BadgeOrder(b.value) else 0
  }

  /** More stories or more likes never lower the tier. */
  lemma {:induction false} GetBadgeMonotone(s1: int, l1: int, s2: int, l2: int)
    requires s1 <= s2 && l1 <= l2
    ensures TierRank(GetBadge(s1, l1)) <= TierRank(GetBadge(s2, l2))
  {
  }

  /** The tiers this page derives are the three the badge table ranks, in
      the same order. */
  lemma {:induction false} TiersMatchBadgeOrder()
    ensures AuthorQueries.BadgeOrder(Legend) == 3
    ensures AuthorQueries.BadgeOrder(Veteran) == 2
    ensures AuthorQueries.BadgeOrder(Popular) == 1
  {
  }
}
