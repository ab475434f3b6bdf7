/** The row-to-record mappers of lib/mappers.ts. */
module Mappers {
  import opened Common
  import opened Types

  /** `name?.trim() || fallback`: the trimmed name when it is not blank,
      otherwise the fallback. */
  function NameOr(name: Option<string>, fallback: string): (r: string)
    ensures name.Some? && !AllSpace(name.value) ==> r == Trim(name.value) && r != []
    ensures (name.None? || AllSpace(name.value)) ==> r == fallback
  {
    TrimEmptyIffBlank(if name.Some? then name.value else "");
    if name.Some? && Trim(name.value) != [] then Trim(name.value) else fallback
  }

  /** A shown name never starts or ends with white space and is never
      empty, given a fallback with the same properties. */
  lemma {:induction false} NameOrClean(name: Option<string>, fallback: string)
    requires fallback != [] && !IsSpace(fallback[0]) && !IsSpace(fallback[|fallback| - 1])
    ensures var r := NameOr(name, fallback);
      r != [] && !IsSpace(r[0]) && !IsSpace(r[|r| - 1])
  {
    if name.Some? { TrimShape(name.value); }
  }

  /** `s.split("T")[0]`: the text before the first "T" (all of `s` when it
      has none). */
  function BeforeT(s: string): (r: string)
    ensures 'T' !in r
    ensures |r| <= |s| && r == s[..|r|]
    ensures |r| < |s| ==> s[|r|] == 'T'
  {
    if s == [] || s[0] == 'T' then [] else [s[0]] + BeforeT(s[1..])
  }

  /** For an ISO timestamp "date" + "T" + "time" the mapped date is the
      date part. */
  lemma {:induction false} BeforeTOfIso(date: string, time: string)
    requires 'T' !in date
    ensures BeforeT(date + "T" + time) == date
  {
    var s := date + "T" + time;
    if date != [] {
      assert s[1..] == date[1..] + "T" + time;
      BeforeTOfIso(date[1..], time);
    }
  }

  /** `mapRoomToStory` */
  function RoomToStory(room: DbStoryRoom, turnCount: int): (r: Story)
    ensures r.id == room.id && r.title == room.title && r.genre == room.genre
    ensures r.tags == room.tags.GetOr([])
    ensures r.likes == room.likeCount && r.turns == turnCount
    ensures r.preview == room.preview && r.coverImage == room.coverImage
    ensures r.isChallenge <==> room.challengeId.Some? && room.challengeId.value != ""
    ensures r.isCompleted == room.isCompleted
  {
    Story(room.id, room.title, room.genre, room.tags.GetOr([]), room.likeCount, turnCount,
          room.preview, room.challengeId.Some? && room.challengeId.value != "",
          room.isCompleted, room.coverImage)
  }

  /** `mapRoomToCompletedStory` */
  function RoomToCompletedStory(room: DbStoryRoom, totalTurns: Option<int>): (r: CompletedStory)
    ensures r.id == room.id && r.title == room.title && r.genre == room.genre
    ensures r.tags == room.tags.GetOr([])
    ensures r.totalTurns == (if totalTurns.Some? then totalTurns.value else 0)
    ensures r.totalAuthors == room.totalAuthors && r.totalLikes == room.likeCount
    ensures r.completedDate == (if room.completedAt.Some? then room.completedAt.value else room.updatedAt)
    ensures r.preview == (if room.preview.Some? then room.preview.value else "")
    ensures r.coverImage == room.coverImage
  {
    CompletedStory(room.id, room.title, room.genre, room.tags.GetOr([]), totalTurns.GetOr(0),
                   room.totalAuthors, room.likeCount,
                   room.completedAt.GetOr(room.updatedAt), room.preview.GetOr(""), room.coverImage)
  }

  /** `mapChallenge` */
  function MapChallenge(c: DbChallenge, storiesCount: int): (r: Challenge)
    ensures r.id == c.id && r.title == c.title && r.status == c.status
    ensures r.description == (if c.description.Some? then c.description.value else "")
    ensures r.theme == (if c.theme.Some? then c.theme.value else "자유")
    ensures r.startDate == BeforeT(c.startAt) && r.endDate == BeforeT(c.endAt)
    ensures 'T' !in r.startDate && StartsWith(c.startAt, r.startDate)
    ensures |r.startDate| < |c.startAt| ==> c.startAt[|r.startDate|] == 'T'
    ensures 'T' !in r.endDate && StartsWith(c.endAt, r.endDate)
    ensures |r.endDate| < |c.endAt| ==> c.endAt[|r.endDate|] == 'T'
    ensures r.participants == (if c.participants.Some? then c.participants.value else 0)
    ensures r.stories == storiesCount
  {
    Challenge(c.id, c.title, c.description.GetOr(""), c.theme.GetOr("자유"),
              BeforeT(c.startAt), BeforeT(c.endAt), c.participants.GetOr(0), storiesCount, c.status)
  }

  /** `mapTurnToParagraph`; a missing profile behaves like one without a
      name or an avatar. */
  function TurnToParagraph(turn: DbStoryTurn, profile: Option<DbProfile>): (r: Paragraph)
    ensures r.author == NameOr(if profile.Some? then profile.value.displayName else None, "익명")
    ensures r.authorId == Some(turn.authorId)
    ensures r.authorAvatar == (if profile.Some? then profile.value.avatarUrl else None)
    ensures r.content == turn.content && r.createdAt == turn.createdAt
    ensures r.turnNumber == turn.turnIndex && r.turnId == Some(turn.id)
    ensures r.likes == Some(turn.likeCount)
  {
    var name := if profile.Some? then profile.value.displayName else None;
    var avatar := if profile.Some? then profile.value.avatarUrl else None;
    Paragraph(NameOr(name, "익명"), Some(turn.authorId), avatar, turn.content,
              turn.turnIndex, turn.createdAt, Some(turn.likeCount), Some(turn.id))
  }

  /** The author shown on a paragraph is never blank. */
  lemma {:induction false} ParagraphAuthorNeverBlank(turn: DbStoryTurn, profile: Option<DbProfile>)
    ensures var a := TurnToParagraph(turn, profile).author;
      a != [] && !IsSpace(a[0]) && !IsSpace(a[|a| - 1])
  {
    NameOrClean(if profile.Some? then profile.value.displayName else None, "익명");
  }
}
