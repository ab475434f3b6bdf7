/** The epilogue queries of lib/queries/epilogue.ts: a room's epilogues
    with their authors, and which of them a user has liked. */
module EpilogueQueries {
  import opened Common
  import opened Types
  import Mappers
  import StoryQueries
  import ProfileQueries

  /** `formatRelativeTime(iso)`, with the clock reading `nowMs`, the
      timestamp's instant `dateMs` (`None` when it does not parse) and its
      locale rendering `dateLabel`. */
  function FormatRelativeTime(nowMs: int, dateMs: Option<int>, dateLabel: string): (r: string)
    ensures dateMs.None? ==> r == dateLabel
    ensures dateMs.Some? && nowMs - dateMs.value < 60000 ==> r == "방금 전"
    ensures dateMs.Some? && nowMs - dateMs.value >= 7 * 24 * 60 * 60000 ==> r == dateLabel
  {
    if dateMs.None? then dateLabel
    else
      var diffSec := (nowMs - dateMs.value) / 1000;
      var diffMin := diffSec / 60;
      var diffHour := diffMin / 60;
      var diffDay := diffHour / 24;
      if diffSec < 60 then "방금 전"
      else if diffMin < 60 then IntToString(diffMin) + "분 전"
      else if diffHour < 24 then IntToString(diffHour) + "시간 전"
      else if diffDay < 7 then IntToString(diffDay) + "일 전"
      else dateLabel
  }

  /** Under a minute reads "방금 전" (just now); from a minute on, the label
      is exactly the profile page's `formatLastActivity`, because flooring
      to seconds and then to minutes is flooring to minutes. */
  lemma {:induction false} RelativeTimeRefinesLastActivity(nowMs: int, dateMs: Option<int>, dateLabel: string)
    ensures dateMs.Some? && nowMs - dateMs.value < 60000 ==> FormatRelativeTime(nowMs, dateMs, dateLabel) == "방금 전"
    ensures dateMs.None? || nowMs - dateMs.value >= 60000 ==>
      FormatRelativeTime(nowMs, dateMs, dateLabel) == ProfileQueries.FormatLastActivity(nowMs, dateMs, dateLabel)
  {
    if dateMs.Some? {
      var d := nowMs - dateMs.value;
      var s := d / 1000;
      var m1 := s / 60;
      var m := d / 60000;
      assert s * 1000 <= d < (s + 1) * 1000;
      assert m1 * 60 <= s < (m1 + 1) * 60;
      assert m * 60000 <= d < (m + 1) * 60000;
      assert m1 * 60000 <= d < (m1 + 1) * 60000;
      assert m1 == m;
      assert s < 60 <==> d < 60000;
    }
  }

  /** One epilogue card: the author's trimmed name or "익명", the avatar
      when the profile has one, the like count as stored. */
  function EpilogueOf(e: DbEpilogue, profile: Option<DbProfile>, nowMs: int,
                      instant: string -> Option<int>, dateLabel: string -> string): (r: Epilogue)
    ensures r.id == e.id && r.authorId == Some(e.authorId) && r.content == e.content
    ensures r.likes == Some(e.likeCount)
    ensures r.author == Mappers.NameOr(if profile.Some? then profile.value.displayName else None, "익명")
    ensures r.authorAvatar == (if profile.Some? then profile.value.avatarUrl else None)
  {
    Epilogue(e.id, Mappers.NameOr(if profile.Some? then profile.value.displayName else None, "익명"),
             Some(e.authorId), if profile.Some? then profile.value.avatarUrl else None, e.content,
             FormatRelativeTime(nowMs, instant(e.createdAt), dateLabel(e.createdAt)), Some(e.likeCount))
  }

  /** `fetchEpilogues(roomId)`: `rows` is `None` on an error and in
      `created_at` order otherwise; `profiles` are the rows of the profile
      query. One epilogue per row, in row order, each with the profile the
      `profilesMap` loop keeps for its author. */
  method FetchEpilogues(rows: Option<seq<DbEpilogue>>, profiles: seq<DbProfile>, nowMs: int,
                        instant: string -> Option<int>, dateLabel: string -> string)
    returns (epilogues: seq<Epilogue>)
    ensures rows.None? || rows.value == [] ==> epilogues == []
    ensures rows.Some? ==> |epilogues| == |rows.value|
    ensures rows.Some? ==> forall i :: 0 <= i < |epilogues| ==>
      epilogues[i] == EpilogueOf(rows.value[i], StoryQueries.LastWithId(profiles, rows.value[i].authorId),
                                 nowMs, instant, dateLabel)
  {
    if rows.None? || rows.value == [] {
      return [];
    }
    var es := rows.value;
    var profilesMap := StoryQueries.ProfilesById(profiles);
    epilogues := seq(|es|, i requires 0 <= i < |es| =>
      EpilogueOf(es[i], if es[i].authorId in profilesMap then Some(profilesMap[es[i].authorId]) else None,
                 nowMs, instant, dateLabel));
  }

  /** Whether `fetchEpilogueLikeStatuses` queries at all, and the set it
      returns given the `epilogue_id`s the query finds. */
  datatype LikeStatuses = LikeStatuses(queried: bool, liked: set<string>)

  /** `fetchEpilogueLikeStatuses(epilogueIds, userId)`: with no user (an
      empty id reads as none) or no epilogues it answers the empty set
      without a query. */
  function EpilogueLikeStatuses(epilogueIds: seq<string>, userId: Option<string>, found: seq<string>): (r: LikeStatuses)
    ensures !r.queried <==> userId.None? || userId.value == "" || epilogueIds == []
    ensures !r.queried ==> r.liked == {}
    ensures r.queried ==> forall x :: x in r.liked <==> x in found
  {
    if userId.None? || userId.value == "" || epilogueIds == [] then LikeStatuses(false, {})
    else LikeStatuses(true, set x | x in found)
  }
}
