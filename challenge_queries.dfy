/** The challenge queries of lib/queries/challenge.ts: the challenge list
    with story counts, the banner's challenge, the award winners, one
    challenge, and a challenge's stories. */
module ChallengeQueries {
  import opened Common
  import opened Types
  import Mappers

  // ---------------------------------------------------------------------
  // fetchChallenges
  // ---------------------------------------------------------------------

  /** `fetchChallenges()`: `challenges` is `None` on an error (in
      `start_at` order otherwise); `linkChallengeIds` holds the
      `challenge_id` of every `challenge_stories` row found. */
  method FetchChallenges(challenges: Option<seq<DbChallenge>>, linkChallengeIds: seq<string>)
    returns (list: seq<Challenge>)
    ensures challenges.None? || challenges.value == [] ==> list == []
    ensures challenges.Some? ==> |list| == |challenges.value|
    ensures challenges.Some? ==> forall i :: 0 <= i < |list| ==>
      list[i] == Mappers.MapChallenge(challenges.value[i], CountOf(linkChallengeIds, challenges.value[i].id))
  {
    if challenges.None? || challenges.value == [] {
      return [];
    }
    var cs := challenges.value;
    var countByChallenge := CountByKey(linkChallengeIds);
    list := seq(|cs|, i requires 0 <= i < |cs| => Mappers.MapChallenge(cs[i], Lookup0(countByChallenge, cs[i].id)));
  }

  /** A challenge without links counts no stories, and the counts over the
      listed challenges never exceed the number of links. */
  lemma {:induction false} ChallengeCounts(cs: seq<DbChallenge>, linkChallengeIds: seq<string>, c: DbChallenge)
    requires c in cs
    ensures c.id !in linkChallengeIds ==> CountOf(linkChallengeIds, c.id) == 0
    ensures c.id in linkChallengeIds ==> CountOf(linkChallengeIds, c.id) >= 1
    ensures CountOf(linkChallengeIds, c.id) <= |linkChallengeIds|
  {
    CountOfPositiveIffPresent(linkChallengeIds, c.id);
    CountOfIsMultiplicity(linkChallengeIds, c.id);
    MultiplicityBound(linkChallengeIds, c.id);
  }

  lemma {:induction false} MultiplicityBound(xs: seq<string>, x: string)
    ensures multiset(xs)[x] <= |xs|
  {
    if xs != [] {
      MultiplicityBound(xs[1..], x);
      assert xs == [xs[0]] + xs[1..];
    }
  }

  // ---------------------------------------------------------------------
  // fetchBannerChallenge
  // ---------------------------------------------------------------------

  /** A challenge with the instant its countdown runs to. */
  datatype ActiveChallenge = ActiveChallenge(challenge: Challenge, endAt: string)

  /** The first of the rows with the smallest `instant(field(c))`: what
      `.order(field, ascending).limit(1)` returns (the database's choice
      among equal instants is not modelled; the first is taken). */
  function Earliest(cs: seq<DbChallenge>, field: DbChallenge -> string, instant: string -> int): (r: Option<DbChallenge>)
    ensures r.None? <==> cs == []
    ensures r.Some? ==> r.value in cs
    ensures r.Some? ==> forall c :: c in cs ==> instant(field(r.value)) <= instant(field(c))
  {
    if cs == [] then None
    else
      var rest := Earliest(cs[1..], field, instant);
      assert forall c :: c in cs ==> c == cs[0] || c in cs[1..];
      if rest.None? || instant(field(cs[0])) <= instant(field(rest.value)) then Some(cs[0]) else rest
  }

  function EndAt(c: DbChallenge): string { c.endAt }
  function StartAt(c: DbChallenge): string { c.startAt }

  function WithStatus(cs: seq<DbChallenge>, status: ChallengeStatus): (r: seq<DbChallenge>)
    ensures forall c :: c in r <==> c in cs && c.status == status
  {
    if cs == [] then []
    else
      assert forall c :: c in cs ==> c == cs[0] || c in cs[1..];
      (if cs[0].status == status then [cs[0]] else []) + WithStatus(cs[1..], status)
  }

  /** `fetchBannerChallenge()` over the `challenges` table: the active
      challenge ending first, counting down to its end; failing that (no
      active one, or the active query errs) the upcoming challenge starting
      first, counting down to its start; otherwise none. `links` holds the
      `challenge_id`s of the `challenge_stories` rows, `None` when the count
      query errs, which counts as 0. */
  function BannerChallenge(table: seq<DbChallenge>, activeFails: bool, upcomingFails: bool,
                           links: Option<seq<string>>, instant: string -> int): (r: Option<ActiveChallenge>)
    ensures !activeFails && WithStatus(table, Active) != [] ==>
      && r.Some? && r.value.challenge.status == Active
      && (exists c :: c in table && c.status == Active && r.value.endAt == c.endAt
            && r.value.challenge == Mappers.MapChallenge(c, StoryCount(links, c.id)))
      && forall c :: c in table && c.status == Active ==> instant(r.value.endAt) <= instant(c.endAt)
    ensures (activeFails || WithStatus(table, Active) == []) && !upcomingFails && WithStatus(table, Upcoming) != [] ==>
      && r.Some? && r.value.challenge.status == Upcoming
      && (exists c :: c in table && c.status == Upcoming && r.value.endAt == c.startAt
            && r.value.challenge == Mappers.MapChallenge(c, StoryCount(links, c.id)))
      && forall c :: c in table && c.status == Upcoming ==> instant(r.value.endAt) <= instant(c.startAt)
    ensures r.None? <==> (activeFails || WithStatus(table, Active) == []) && (upcomingFails || WithStatus(table, Upcoming) == [])
  {
    var active := if activeFails then None else Earliest(WithStatus(table, Active), EndAt, instant);
    if active.Some? then
      Some(ActiveChallenge(Mappers.MapChallenge(active.value, StoryCount(links, active.value.id)), active.value.endAt))
    else
      var upcoming := if upcomingFails then None else Earliest(WithStatus(table, Upcoming), StartAt, instant);
      if upcoming.Some? then
        Some(ActiveChallenge(Mappers.MapChallenge(upcoming.value, StoryCount(links, upcoming.value.id)), upcoming.value.startAt))
      else None
  }

  /** `count ?? 0` of a `count: "exact"` query over `challenge_stories`. */
  function StoryCount(links: Option<seq<string>>, id: string): nat {
    if links.Some? then CountOf(links.value, id) else 0
  }

  // ---------------------------------------------------------------------
  // fetchChallengeWinners
  // ---------------------------------------------------------------------

  const WinnersLimit := 9
  const ExcerptLength := 100

  /** A row of `challenge_winners.select("challenge_id, room_id, rank")`. */
  datatype WinnerRow = WinnerRow(challengeId: string, roomId: string, rank: int)
  /** A row of `story_rooms.select("id, title, preview, like_count, created_by")`. */
  datatype WinnerRoom = WinnerRoom(id: string, title: string, preview: Option<string>, likeCount: Option<int>,
                                   createdBy: Option<string>)
  /** A row of `challenges.select("id, title")`. */
  datatype ChallengeTitle = ChallengeTitle(id: string, title: string)

  function RoomKey(r: WinnerRoom): string { r.id }
  function ChallengeKey(c: ChallengeTitle): string { c.id }
  function ProfileKey(p: DbProfile): string { p.id }

  /** `[...new Set(rooms.map((r) => r.created_by).filter(Boolean))]`: the
      non-empty creators, each once. */
  function CreatorIds(rooms: seq<WinnerRoom>): (r: seq<string>)
    ensures forall a :: a in r <==> exists k :: 0 <= k < |rooms| && rooms[k].createdBy == Some(a) && a != ""
  {
    var ids := CreatorsOf(rooms);
    Distinct(ids)
  }

  function CreatorsOf(rooms: seq<WinnerRoom>): (r: seq<string>)
    ensures forall a :: a in r <==> exists k :: 0 <= k < |rooms| && rooms[k].createdBy == Some(a) && a != ""
  {
    if rooms == [] then []
    else
      var rest := CreatorsOf(rooms[1..]);
      assert forall k :: 1 <= k < |rooms| ==> rooms[k] == rooms[1..][k - 1];
      (if rooms[0].createdBy.Some? && rooms[0].createdBy.value != "" then [rooms[0].createdBy.value] else []) + rest
  }

  /** One winner card: the room's title, likes and first 100 characters of
      its preview; the challenge's title; the creator's trimmed name or
      "익명". Missing rows read as "" and 0. */
  function WinnerOf(w: WinnerRow, rooms: seq<WinnerRoom>, challenges: seq<ChallengeTitle>,
                    profiles: seq<DbProfile>): (r: AwardWinnerStory)
    ensures r.id == w.roomId && r.rank == w.rank
    ensures LastWithKey(rooms, RoomKey, w.roomId).None? ==>
      r.title == "" && r.likes == 0 && r.excerpt == "" && r.author == "익명"
    ensures LastWithKey(rooms, RoomKey, w.roomId).Some? ==>
      var room := LastWithKey(rooms, RoomKey, w.roomId).value;
      && r.title == room.title && r.likes == room.likeCount.GetOr(0)
      && (room.preview.None? ==> r.excerpt == "")
      && (room.preview.Some? ==> |r.excerpt| <= ExcerptLength && StartsWith(room.preview.value, r.excerpt))
      && (room.preview.Some? ==> r.excerpt == Take(room.preview.value, ExcerptLength))
    ensures LastWithKey(rooms, RoomKey, w.roomId).Some? ==>
      var room := LastWithKey(rooms, RoomKey, w.roomId).value;
      room.createdBy.Some? && room.createdBy.value != "" ==>
        var p := LastWithKey(profiles, ProfileKey, room.createdBy.value);
        r.author == Mappers.NameOr(if p.Some? then p.value.displayName else None, "익명")
    ensures r.challengeName == if LastWithKey(challenges, ChallengeKey, w.challengeId).Some?
                               then LastWithKey(challenges, ChallengeKey, w.challengeId).value.title else ""
  {
    var room := LastWithKey(rooms, RoomKey, w.roomId);
    var challenge := LastWithKey(challenges, ChallengeKey, w.challengeId);
    // profiles are fetched only when some room has a creator
    var fetched := if CreatorIds(rooms) != [] then profiles else [];
    assert room.Some? && room.value.createdBy.Some? && room.value.createdBy.value != "" ==> fetched == profiles by {
      if room.Some? && room.value.createdBy.Some? && room.value.createdBy.value != "" {
        var k :| 0 <= k < |rooms| && rooms[k] == room.value;
        assert room.value.createdBy.value in CreatorIds(rooms);
      }
    }
    var profile := if room.Some? then LastWithKey(fetched, ProfileKey, room.value.createdBy.GetOr("")) else None;
    AwardWinnerStory(
      w.roomId,
      if room.Some? then room.value.title else "",
      Mappers.NameOr(if profile.Some? then profile.value.displayName else None, "익명"),
      if challenge.Some? then challenge.value.title else "",
      w.rank,
      if room.Some? then room.value.likeCount.GetOr(0) else 0,
      if room.Some? && room.value.preview.Some? then Take(room.value.preview.value, ExcerptLength) else "")
  }

  /** `fetchChallengeWinners()`: `winners` is `None` on an error, otherwise
      the at most nine rows by rank ascending; one card per row, in row
      order. */
  function ChallengeWinners(winners: Option<seq<WinnerRow>>, rooms: seq<WinnerRoom>, challenges: seq<ChallengeTitle>,
                            profiles: seq<DbProfile>): (r: seq<AwardWinnerStory>)
    ensures winners.None? ==> r == []
    ensures winners.Some? ==> |r| == |winners.value|
    ensures winners.Some? ==> forall i :: 0 <= i < |r| ==>
      r[i] == WinnerOf(winners.value[i], rooms, challenges, profiles)
  {
    if winners.None? then []
    else
      var ws := winners.value;
      seq(|ws|, i requires 0 <= i < |ws| => WinnerOf(ws[i], rooms, challenges, profiles))
  }

  /** Winner rows in rank order give cards in rank order, one per row and
      at most nine. */
  lemma {:induction false} WinnersInRankOrder(ws: seq<WinnerRow>, rooms: seq<WinnerRoom>, challenges: seq<ChallengeTitle>,
                           profiles: seq<DbProfile>)
    requires |ws| <= WinnersLimit
    requires forall i, j :: 0 <= i < j < |ws| ==> ws[i].rank <= ws[j].rank
    ensures var r := ChallengeWinners(Some(ws), rooms, challenges, profiles);
      && |r| <= WinnersLimit
      && (forall i, j :: 0 <= i < j < |r| ==> r[i].rank <= r[j].rank)
      && (forall i :: 0 <= i < |r| ==> r[i].id == ws[i].roomId)
  {
  }

  // ---------------------------------------------------------------------
  // fetchChallengeById / fetchChallengeStories
  // ---------------------------------------------------------------------

  /** `fetchChallengeById(id)`: `None` when the challenge is missing or the
      query errs; the story count is the count query's, 0 on its error. */
  function ChallengeById(challenge: Option<DbChallenge>, count: Option<int>): (r: Option<Challenge>)
    ensures r.None? <==> challenge.None?
    ensures r.Some? ==> r == Some(Mappers.MapChallenge(challenge.value, count.GetOr(0)))
  {
    if challenge.None? then None else Some(Mappers.MapChallenge(challenge.value, count.GetOr(0)))
  }

  /** A row of `story_rooms.select("id, title, genre, preview, like_count")`. */
  datatype ChallengeRoom = ChallengeRoom(id: string, title: string, genre: string, preview: Option<string>,
                                         likeCount: Option<int>)

  datatype ChallengeStory = ChallengeStory(id: string, title: string, genre: string, preview: Option<string>,
                                           turns: int, likes: int)

  /** `fetchChallengeStories(challengeId)`: `links` (the linked room ids)
      and `rooms` are `None` on an error; `turnRoomIds` holds the
      `room_id` of every turn row of the linked rooms. */
  method FetchChallengeStories(links: Option<seq<string>>, rooms: Option<seq<ChallengeRoom>>, turnRoomIds: seq<string>)
    returns (stories: seq<ChallengeStory>)
    ensures links.None? || links.value == [] || rooms.None? || rooms.value == [] ==> stories == []
    ensures links.Some? && links.value != [] && rooms.Some? ==> |stories| == |rooms.value|
    ensures links.Some? && links.value != [] && rooms.Some? ==> forall i :: 0 <= i < |stories| ==>
      var r := rooms.value[i];
      stories[i] == ChallengeStory(r.id, r.title, r.genre, r.preview, CountOf(turnRoomIds, r.id), r.likeCount.GetOr(0))
  {
    if links.None? || links.value == [] || rooms.None? || rooms.value == [] {
      return [];
    }
    var rs := rooms.value;
    var turnCounts := CountByKey(turnRoomIds);
    stories := seq(|rs|, i requires 0 <= i < |rs| =>
      ChallengeStory(rs[i].id, rs[i].title, rs[i].genre, rs[i].preview, Lookup0(turnCounts, rs[i].id),
                     rs[i].likeCount.GetOr(0)));
  }
}
