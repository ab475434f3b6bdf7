/** The profile queries of lib/queries/profile.ts: the signed-in user's
    counters, an author's counters, and the stories a user took part in or
    liked. The current instant and the parsing and locale rendering of
    timestamps are parameters. */
module ProfileQueries {
  import opened Common
  import opened Types
  import Mappers

  const MinuteMs := 60000

  /** `formatLastActivity(iso)`, with the clock reading `nowMs`, the
      timestamp's instant `dateMs` (`None` when it does not parse, where
      every comparison with NaN is false) and its locale rendering
      `dateLabel`. Every unit is a floor of the one below it. */
  function FormatLastActivity(nowMs: int, dateMs: Option<int>, dateLabel: string): (r: string)
    ensures dateMs.None? ==> r == dateLabel
    ensures dateMs.Some? && nowMs - dateMs.value < 60 * MinuteMs ==>
      r == IntToString((nowMs - dateMs.value) / MinuteMs) + "분 전"
  {
    if dateMs.None? then dateLabel
    else
      var diffMin := (nowMs - dateMs.value) / MinuteMs;
      var diffHour := diffMin / 60;
      var diffDay := diffHour / 24;
      if diffMin < 60 then IntToString(diffMin) + "분 전"
      else if diffHour < 24 then IntToString(diffHour) + "시간 전"
      else if diffDay < 7 then IntToString(diffDay) + "일 전"
      else dateLabel
  }

  /** The buckets by elapsed time: whole minutes under an hour, whole hours
      under a day, whole days under a week, the date from a week on; each
      number is the elapsed time rounded down to its unit. */
  lemma {:induction false} LastActivityBuckets(nowMs: int, dateMs: int, dateLabel: string)
    requires nowMs >= dateMs
    ensures var d, r := nowMs - dateMs, FormatLastActivity(nowMs, Some(dateMs), dateLabel);
      && (d < 3600000 ==> exists m: nat :: r == NatToString(m) + "분 전" && m * 60000 <= d < (m + 1) * 60000)
      && (3600000 <= d < 86400000 ==> exists h: nat :: r == NatToString(h) + "시간 전" && h * 3600000 <= d < (h + 1) * 3600000)
      && (86400000 <= d < 604800000 ==> exists n: nat :: r == NatToString(n) + "일 전" && n * 86400000 <= d < (n + 1) * 86400000)
      && (d >= 604800000 ==> r == dateLabel)
  {
    var d := nowMs - dateMs;
    var m := d / 60000;
    var h := m / 60;
    var n := h / 24;
    assert m * 60000 <= d < (m + 1) * 60000;
    assert h * 60 <= m < (h + 1) * 60;
    assert n * 24 <= h < (n + 1) * 24;
    assert h * 3600000 <= d < (h + 1) * 3600000;
    assert n * 86400000 <= d < (n + 1) * 86400000;
    var r := FormatLastActivity(nowMs, Some(dateMs), dateLabel);
    if d < 3600000 {
      assert r == NatToString(m) + "분 전";
    } else if d < 86400000 {
      assert r == NatToString(h) + "시간 전";
    } else if d < 604800000 {
      assert r == NatToString(n) + "일 전";
    }
  }

  // ---------------------------------------------------------------------
  // Counters
  // ---------------------------------------------------------------------

  /** A row of `story_turns.select("room_id, like_count")`. */
  datatype TurnLikeRow = TurnLikeRow(roomId: string, likeCount: Option<int>)

  datatype MyProfile = MyProfile(
    id: string, displayName: string, avatarUrl: Option<string>, bio: Option<string>,
    preferredGenres: seq<string>, totalTurns: nat, participatedCount: nat,
    likedCount: nat, receivedLikes: int)

  datatype AuthorProfile = AuthorProfile(
    id: string, displayName: string, avatarUrl: Option<string>, bio: Option<string>,
    preferredGenres: seq<string>, storiesCount: nat, totalLikes: int, totalTurns: nat)

  function RoomIdsOf(rows: seq<TurnLikeRow>): (r: seq<string>)
    ensures |r| == |rows| && forall k :: 0 <= k < |rows| ==> r[k] == rows[k].roomId
  {
    seq(|rows|, k requires 0 <= k < |rows| => rows[k].roomId)
  }

  /** `rows.reduce((acc, t) => acc + (t.like_count ?? 0), 0)` */
  function LikeSum(likes: seq<Option<int>>): (r: int)
    ensures (forall k :: 0 <= k < |likes| ==> likes[k].GetOr(0) >= 0) ==> r >= 0
  {
    if likes == [] then 0 else likes[0].GetOr(0) + LikeSum(likes[1..])
  }

  /** Likes add up across a split of the rows, and never go negative when
      no like count is negative. */
  lemma {:induction false} LikeSumAppend(a: seq<Option<int>>, b: seq<Option<int>>)
    ensures LikeSum(a + b) == LikeSum(a) + LikeSum(b)
  {
    if a == [] {
      assert a + b == b;
    } else {
      LikeSumAppend(a[1..], b);
      assert (a + b)[1..] == a[1..] + b;
    }
  }

  lemma {:induction false} LikeSumNonNegative(likes: seq<Option<int>>)
    requires forall k :: 0 <= k < |likes| ==> likes[k].GetOr(0) >= 0
    ensures LikeSum(likes) >= 0
  {
    if likes != [] {
      LikeSumNonNegative(likes[1..]);
    }
  }

  function LikesOf(rows: seq<TurnLikeRow>): seq<Option<int>> {
    seq(|rows|, k requires 0 <= k < |rows| => rows[k].likeCount)
  }

  /** The number of distinct rooms in the rows, as `[...new Set(ids)].length`
      counts them: the size of the set of room ids. */
  function RoomCount(rows: seq<TurnLikeRow>): (n: nat)
    ensures n == |set r | r in RoomIdsOf(rows)|
    ensures n <= |rows|
    ensures n == 0 <==> rows == []
  {
    var d := Distinct(RoomIdsOf(rows));
    DistinctCardinality(d);
    assert (set r | r in d) == (set r | r in RoomIdsOf(rows));
    assert rows != [] ==> RoomIdsOf(rows)[0] in d;
    |d|
  }

  /** `fetchMyProfile(userId)`: `profile` is `None` when the profile query
      fails or finds nothing; the other three are the rows of the three
      follow-up queries (`[]` on an error). A blank name shows as "사용자". */
  function FetchMyProfile(profile: Option<DbProfile>, turns: seq<TurnLikeRow>, likedRoomIds: seq<string>,
                          turnLikes: seq<Option<int>>): (r: Option<MyProfile>)
    ensures r.None? <==> profile.None?
    ensures r.Some? ==> r.value.id == profile.value.id
    ensures r.Some? ==> r.value.totalTurns == |turns| && r.value.likedCount == |likedRoomIds|
    ensures r.Some? ==> r.value.participatedCount == |set x | x in RoomIdsOf(turns)| <= r.value.totalTurns
    ensures r.Some? ==> r.value.receivedLikes == LikeSum(turnLikes)
    ensures r.Some? ==> r.value.displayName == Mappers.NameOr(profile.value.displayName, "사용자")
  {
    if profile.None? then None
    else
      var p := profile.value;
      Some(MyProfile(p.id, Mappers.NameOr(p.displayName, "사용자"), p.avatarUrl, p.bio, p.preferredGenres,
                     |turns|, RoomCount(turns), |likedRoomIds|, LikeSum(turnLikes)))
  }

  /** `fetchAuthorProfile(authorId)`: `None` when the profile is missing or
      either query fails; a blank name shows as "익명". */
  function FetchAuthorProfile(profile: Option<DbProfile>, turns: Option<seq<TurnLikeRow>>): (r: Option<AuthorProfile>)
    ensures r.None? <==> profile.None? || turns.None?
    ensures r.Some? ==> r.value.id == profile.value.id && r.value.totalTurns == |turns.value|
    ensures r.Some? ==> r.value.storiesCount == |set x | x in RoomIdsOf(turns.value)| <= r.value.totalTurns
    ensures r.Some? ==> r.value.totalLikes == LikeSum(LikesOf(turns.value))
    ensures r.Some? ==> r.value.displayName == Mappers.NameOr(profile.value.displayName, "익명")
  {
    if profile.None? || turns.None? then None
    else
      var p := profile.value;
      var rows := turns.value;
      Some(AuthorProfile(p.id, Mappers.NameOr(p.displayName, "익명"), p.avatarUrl, p.bio, p.preferredGenres,
                         RoomCount(rows), LikeSum(LikesOf(rows)), |rows|))
  }

  /** The own profile and the author profile of the same user over the same
      turn rows agree on every counter and differ only in the name shown
      for a blank display name. */
  lemma {:induction false} ProfilesAgree(profile: DbProfile, turns: seq<TurnLikeRow>, likedRoomIds: seq<string>)
    ensures var mine := FetchMyProfile(Some(profile), turns, likedRoomIds, LikesOf(turns)).value;
      var theirs := FetchAuthorProfile(Some(profile), Some(turns)).value;
      && mine.totalTurns == theirs.totalTurns && mine.participatedCount == theirs.storiesCount
      && mine.receivedLikes == theirs.totalLikes
      && (profile.displayName.Some? && !AllSpace(profile.displayName.value) ==> mine.displayName == theirs.displayName)
      && (profile.displayName.None? || AllSpace(profile.displayName.value) ==>
            mine.displayName == "사용자" && theirs.displayName == "익명")
  {
  }

  // ---------------------------------------------------------------------
  // fetchParticipatedStories / fetchLikedStories
  // ---------------------------------------------------------------------

  /** A row of `story_turns.select("room_id, created_at")`, newest first. */
  datatype MyTurnRow = MyTurnRow(roomId: string, createdAt: string)

  /** A row of `story_rooms.select("id, title, genre, like_count, updated_at, created_at")`. */
  datatype ProfileRoomRow = ProfileRoomRow(
    id: string, title: string, genre: string, likeCount: Option<int>,
    updatedAt: Option<string>, createdAt: Option<string>)

  function MyRoomIds(turns: seq<MyTurnRow>): (r: seq<string>)
    ensures |r| == |turns| && forall k :: 0 <= k < |turns| ==> r[k] == turns[k].roomId
  {
    seq(|turns|, k requires 0 <= k < |turns| => turns[k].roomId)
  }

  /** What `lastTurnByRoom[room]` holds after the loop: the first timestamp
      seen for the room, unless the one held is empty, which reads as
      absent and is overwritten. */
  function LastTurnOf(turns: seq<MyTurnRow>, room: string): (r: Option<string>)
    ensures r.Some? ==> MyTurnRow(room, r.value) in turns
  {
    if turns == [] then None
    else
      var prev := LastTurnOf(turns[..|turns| - 1], room);
      var t := turns[|turns| - 1];
      if t.roomId == room && (prev.None? || prev.value == "") then Some(t.createdAt) else prev
  }

  /** A room has a last-turn entry exactly when the user has a turn in it,
      and the entry is the first non-empty timestamp among that room's rows
      when one exists. */
  lemma {:induction false} LastTurnIsFirstSeen(turns: seq<MyTurnRow>, room: string)
    ensures LastTurnOf(turns, room).Some? <==> room in MyRoomIds(turns)
    ensures LastTurnOf(turns, room).Some? && LastTurnOf(turns, room).value != "" ==>
      exists i :: (0 <= i < |turns| && turns[i] == MyTurnRow(room, LastTurnOf(turns, room).value)
        && forall j :: 0 <= j < i && turns[j].roomId == room ==> turns[j].createdAt == "")
    ensures LastTurnOf(turns, room) == Some("") ==>
      forall j :: 0 <= j < |turns| && turns[j].roomId == room ==> turns[j].createdAt == ""
  {
    if turns != [] {
      var n := |turns| - 1;
      LastTurnIsFirstSeen(turns[..n], room);
      assert forall j :: 0 <= j < n ==> turns[..n][j] == turns[j];
      assert MyRoomIds(turns) == MyRoomIds(turns[..n]) + [turns[n].roomId];
      var prev := LastTurnOf(turns[..n], room);
      if prev.Some? && prev.value != "" {
        var i :| 0 <= i < n && turns[..n][i] == MyTurnRow(room, prev.value)
          && forall j :: 0 <= j < i && turns[..n][j].roomId == room ==> turns[..n][j].createdAt == "";
        assert turns[i] == MyTurnRow(room, prev.value);
      }
    }
  }

  /** Rows come newest first, so the entry kept for a room is its latest
      turn: no turn of the room is later (`instant` reads a timestamp). */
  lemma {:induction false} LastTurnIsLatest(turns: seq<MyTurnRow>, room: string, instant: string -> int)
    requires forall i, j :: 0 <= i < j < |turns| ==> instant(turns[i].createdAt) >= instant(turns[j].createdAt)
    requires LastTurnOf(turns, room).Some? && LastTurnOf(turns, room).value != ""
    ensures forall j :: 0 <= j < |turns| && turns[j].roomId == room && turns[j].createdAt != "" ==>
      instant(LastTurnOf(turns, room).value) >= instant(turns[j].createdAt)
  {
    LastTurnIsFirstSeen(turns, room);
    var v := LastTurnOf(turns, room).value;
    var i :| 0 <= i < |turns| && turns[i] == MyTurnRow(room, v)
      && forall j :: 0 <= j < i && turns[j].roomId == room ==> turns[j].createdAt == "";
    forall j | 0 <= j < |turns| && turns[j].roomId == room && turns[j].createdAt != ""
      ensures instant(v) >= instant(turns[j].createdAt)
    {
      assert j >= i;
      if j > i {
        assert instant(turns[i].createdAt) >= instant(turns[j].createdAt);
      }
    }
  }

  /** The loop over the user's turns filling `myTurnsByRoom` and
      `lastTurnByRoom`. */
  method MyTurnsByRoom(turns: seq<MyTurnRow>) returns (myTurns: map<string, nat>, lastTurn: map<string, string>)
    ensures forall r :: Lookup0(myTurns, r) == CountOf(MyRoomIds(turns), r)
    ensures forall r :: r in lastTurn <==> LastTurnOf(turns, r).Some?
    ensures forall r :: r in lastTurn ==> LastTurnOf(turns, r) == Some(lastTurn[r])
  {
    myTurns, lastTurn := map[], map[];
    var i := 0;
    while i < |turns|
      invariant 0 <= i <= |turns|
      invariant forall r :: Lookup0(myTurns, r) == CountOf(MyRoomIds(turns[..i]), r)
      invariant forall r :: r in lastTurn <==> LastTurnOf(turns[..i], r).Some?
      invariant forall r :: r in lastTurn ==> LastTurnOf(turns[..i], r) == Some(lastTurn[r])
    {
      var t := turns[i];
      var myTurns' := myTurns[t.roomId := Lookup0(myTurns, t.roomId) + 1];
      var lastTurn' := if t.roomId !in lastTurn || lastTurn[t.roomId] == "" then lastTurn[t.roomId := t.createdAt] else lastTurn;
      MyTurnsStep(turns, i, myTurns, lastTurn, myTurns', lastTurn');
      myTurns, lastTurn := myTurns', lastTurn';
      i := i + 1;
    }
    assert turns[..i] == turns;
  }

  /** One turn of the `MyTurnsByRoom` loop keeps its invariants. */
  lemma {:induction false} MyTurnsStep(turns: seq<MyTurnRow>, i: int, myTurns: map<string, nat>, lastTurn: map<string, string>,
                                       myTurns': map<string, nat>, lastTurn': map<string, string>)
    requires 0 <= i < |turns|
    requires forall r :: Lookup0(myTurns, r) == CountOf(MyRoomIds(turns[..i]), r)
    requires forall r :: r in lastTurn <==> LastTurnOf(turns[..i], r).Some?
    requires forall r :: r in lastTurn ==> LastTurnOf(turns[..i], r) == Some(lastTurn[r])
    requires var t := turns[i]; myTurns' == myTurns[t.roomId := Lookup0(myTurns, t.roomId) + 1]
    requires var t := turns[i];
      lastTurn' == if t.roomId !in lastTurn || lastTurn[t.roomId] == "" then lastTurn[t.roomId := t.createdAt] else lastTurn
    ensures forall r :: Lookup0(myTurns', r) == CountOf(MyRoomIds(turns[..i + 1]), r)
    ensures forall r :: r in lastTurn' <==> LastTurnOf(turns[..i + 1], r).Some?
    ensures forall r :: r in lastTurn' ==> LastTurnOf(turns[..i + 1], r) == Some(lastTurn'[r])
  {
    var t := turns[i];
    assert MyRoomIds(turns[..i + 1]) == MyRoomIds(turns[..i]) + [t.roomId];
    assert MyRoomIds(turns[..i + 1])[..i] == MyRoomIds(turns[..i]);
    forall r ensures (r in lastTurn' <==> LastTurnOf(turns[..i + 1], r).Some?)
      && (r in lastTurn' ==> LastTurnOf(turns[..i + 1], r) == Some(lastTurn'[r]))
    {
      LastTurnStep(turns, i, r);
    }
  }

  lemma {:induction false} LastTurnStep(turns: seq<MyTurnRow>, i: int, r: string)
    requires 0 <= i < |turns|
    ensures LastTurnOf(turns[..i + 1], r) ==
      var prev := LastTurnOf(turns[..i], r);
      if turns[i].roomId == r && (prev.None? || prev.value == "") then Some(turns[i].createdAt) else prev
  {
    assert turns[..i + 1][..i] == turns[..i];
  }

  /** The timestamp a participated story's activity is computed from:
      `lastTurnByRoom[r.id] ?? r.updated_at ?? r.id`. */
  function ParticipatedActivitySource(turns: seq<MyTurnRow>, room: ProfileRoomRow): string {
    var last := LastTurnOf(turns, room.id);
    if last.Some? then last.value else room.updatedAt.GetOr(room.id)
  }

  /** `fetchParticipatedStories(userId)`: `turns` and `rooms` are `None` on
      an error; `allTurnRoomIds` holds the `room_id` of each row of the
      turn-count query. Also returns the room ids the rooms are fetched
      with. */
  method FetchParticipatedStories(turns: Option<seq<MyTurnRow>>, rooms: Option<seq<ProfileRoomRow>>,
                                  allTurnRoomIds: seq<string>, nowMs: int,
                                  instant: string -> Option<int>, dateLabel: string -> string)
    returns (roomIds: seq<string>, stories: seq<ProfileStory>)
    ensures turns.None? || turns.value == [] ==> roomIds == [] && stories == []
    ensures turns.Some? && turns.value != [] ==> roomIds == Distinct(MyRoomIds(turns.value))
    ensures rooms.None? || rooms.value == [] ==> stories == []
    ensures turns.Some? && turns.value != [] && rooms.Some? ==> |stories| == |rooms.value|
    ensures turns.Some? && turns.value != [] && rooms.Some? ==> forall i :: 0 <= i < |stories| ==>
      var r := rooms.value[i];
      var src := ParticipatedActivitySource(turns.value, r);
      stories[i] == ProfileStory(r.id, r.title, r.genre, r.likeCount.GetOr(0), CountOf(allTurnRoomIds, r.id),
                                 Some(CountOf(MyRoomIds(turns.value), r.id)),
                                 FormatLastActivity(nowMs, instant(src), dateLabel(src)))
  {
    if turns.None? || turns.value == [] {
      return [], [];
    }
    var ts := turns.value;
    roomIds := Distinct(MyRoomIds(ts));
    var myTurns, lastTurn := MyTurnsByRoom(ts);
    if rooms.None? || rooms.value == [] {
      return roomIds, [];
    }
    var rs := rooms.value;
    var turnCounts := CountByKey(allTurnRoomIds);
    stories := seq(|rs|, i requires 0 <= i < |rs| =>
      var r := rs[i];
      var src := if r.id in lastTurn then lastTurn[r.id] else r.updatedAt.GetOr(r.id);
      ProfileStory(r.id, r.title, r.genre, r.likeCount.GetOr(0), Lookup0(turnCounts, r.id),
                   Some(Lookup0(myTurns, r.id)), FormatLastActivity(nowMs, instant(src), dateLabel(src))));
  }

  /** Every room the user wrote in counts at least one of their turns, and
      their turns across the requested rooms add up to all their rows. */
  lemma {:induction false} MyTurnsCoverRows(turns: seq<MyTurnRow>)
    ensures forall r :: r in Distinct(MyRoomIds(turns)) ==> CountOf(MyRoomIds(turns), r) >= 1
    ensures forall r :: r !in Distinct(MyRoomIds(turns)) ==> CountOf(MyRoomIds(turns), r) == 0
  {
    forall r
      ensures CountOf(MyRoomIds(turns), r) > 0 <==> r in MyRoomIds(turns)
    {
      CountOfPositiveIffPresent(MyRoomIds(turns), r);
    }
  }

  /** `fetchLikedStories(userId)`: `likedRoomIds` and `rooms` are `None` on
      an error. Activity comes from `r.updated_at ?? r.created_at ?? r.id`
      and no per-user turn count is given. */
  method FetchLikedStories(likedRoomIds: Option<seq<string>>, rooms: Option<seq<ProfileRoomRow>>,
                           allTurnRoomIds: seq<string>, nowMs: int,
                           instant: string -> Option<int>, dateLabel: string -> string)
    returns (stories: seq<ProfileStory>)
    ensures likedRoomIds.None? || likedRoomIds.value == [] || rooms.None? || rooms.value == [] ==> stories == []
    ensures likedRoomIds.Some? && likedRoomIds.value != [] && rooms.Some? ==> |stories| == |rooms.value|
    ensures likedRoomIds.Some? && likedRoomIds.value != [] && rooms.Some? ==> forall i :: 0 <= i < |stories| ==>
      var r := rooms.value[i];
      var src := r.updatedAt.GetOr(r.createdAt.GetOr(r.id));
      stories[i] == ProfileStory(r.id, r.title, r.genre, r.likeCount.GetOr(0), CountOf(allTurnRoomIds, r.id),
                                 None, FormatLastActivity(nowMs, instant(src), dateLabel(src)))
  {
    if likedRoomIds.None? || likedRoomIds.value == [] || rooms.None? || rooms.value == [] {
      return [];
    }
    var rs := rooms.value;
    var turnCounts := CountByKey(allTurnRoomIds);
    stories := seq(|rs|, i requires 0 <= i < |rs| =>
      var r := rs[i];
      var src := r.updatedAt.GetOr(r.createdAt.GetOr(r.id));
      ProfileStory(r.id, r.title, r.genre, r.likeCount.GetOr(0), Lookup0(turnCounts, r.id),
                   None, FormatLastActivity(nowMs, instant(src), dateLabel(src))));
  }
}
