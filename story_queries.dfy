/** The story queries of lib/queries/story.ts. Each fetch is split into
    the query it builds (a `RoomQuery` value: filters, order, row range)
    and what it does with the database's answer, which is passed in. */
module StoryQueries {
  import opened Common
  import opened Types
  import opened Mappers
  import GenreTables

  datatype StoriesOptions = StoriesOptions(
    genre: Option<string>, search: Option<string>, sort: Option<string>,
    page: Option<int>, limit: Option<int>)

  /** The options after the destructuring defaults. */
  datatype Resolved = Resolved(genre: string, search: string, sort: string, page: int, limit: int)

  datatype Order =
    | CreatedAtDesc
    | LikeCountDesc
    | ChallengeIdDescNullsLast
    | TotalAuthorsDesc
    | CompletedAtDescNullsLast

  /** `story_rooms` filtered by completion, genre label and search term,
      ordered, and limited to the rows `from..to` (inclusive) when a range
      is set. */
  datatype RoomQuery = RoomQuery(
    isCompleted: bool, genre: Option<string>, search: Option<string>,
    order: Order, range: Option<(int, int)>)

  /** The answer to a room query: an error, or the rows and the exact
      count of matching rows (which the client may lack). */
  datatype RoomsAnswer = RoomsError | Rooms(rows: seq<DbStoryRoom>, count: Option<int>)

  /** `{ genre = "all", search = "", sort = "latest", page = 1, limit = 9 }` */
  function Defaults(o: StoriesOptions): (r: Resolved)
    ensures o.genre.None? ==> r.genre == "all"
    ensures o.search.None? ==> r.search == ""
    ensures o.sort.None? ==> r.sort == "latest"
    ensures o.page.None? ==> r.page == 1
    ensures o.limit.None? ==> r.limit == 9
    ensures o.genre.Some? ==> r.genre == o.genre.value
    ensures o.search.Some? ==> r.search == o.search.value
    ensures o.sort.Some? ==> r.sort == o.sort.value
    ensures o.page.Some? ==> r.page == o.page.value
    ensures o.limit.Some? ==> r.limit == o.limit.value
  {
    Resolved(o.genre.GetOr("all"), o.search.GetOr(""), o.sort.GetOr("latest"), o.page.GetOr(1), o.limit.GetOr(9))
  }

  /** The genre filter: a known code other than "all" filters by its
      database label; the name of a property every object inherits finds
      that property, whose text no stored label equals, so the filter
      matches no room; "all" and other unknown codes add none. */
  function GenreFilter(genre: string): (r: Option<string>)
    ensures r.Some? <==> genre != "all" && (genre in GenreTables.UiCodes || genre in GenreTables.InheritedKeys)
    ensures r.Some? && genre in GenreTables.UiCodes ==>
      r.value in GenreTables.DbLabels && GenreTables.DbToValue(r.value) == Some(genre)
    ensures genre in GenreTables.InheritedKeys ==> r.Some? && r.value !in GenreTables.DbLabels
  {
    if genre == "all" then None
    else
      var dbGenre := GenreTables.LookupAsText(genre);
      if dbGenre.Some? then
        if genre in GenreTables.UiCodes then GenreTables.CodeRoundTrip(genre); dbGenre else dbGenre
      else None
  }

  /** The search filter: the trimmed term with every '#' removed, none
      when the term is blank. */
  function SearchFilter(search: string): (r: Option<string>)
    ensures r.None? <==> AllSpace(search)
    ensures r.Some? ==> r.value == Without(Trim(search), '#')
    ensures r.Some? ==> '#' !in r.value && |r.value| <= |search|
    ensures r.Some? ==> multiset(r.value) == multiset(Trim(search))['#' := 0]
  {
    TrimEmptyIffBlank(search);
    WithoutCounts(Trim(search), '#');
    if Trim(search) != "" then Some(Without(Trim(search), '#')) else None
  }

  /** `offset = (page - 1) * limit`; the range covers rows
      `offset .. offset + limit - 1`, i.e. `limit` rows. */
  function PageRange(page: int, limit: int): (r: (int, int))
    ensures r.1 - r.0 + 1 == limit
    ensures page >= 1 && limit >= 0 ==> r.0 >= 0
    ensures r.0 == (page - 1) * limit
  {
    var offset := (page - 1) * limit;
    (offset, offset + limit - 1)
  }

  /** Consecutive pages cover consecutive, non-overlapping row ranges. */
  lemma {:induction false} PagesTile(page: int, limit: int)
    ensures PageRange(page + 1, limit).0 == PageRange(page, limit).1 + 1
  {
  }

  /** The query `fetchStories` builds. */
  function StoriesQuery(o: StoriesOptions): (q: RoomQuery)
    ensures !q.isCompleted && q.range.Some?
    ensures q.range.value == PageRange(Defaults(o).page, Defaults(o).limit)
    ensures q.genre == GenreFilter(Defaults(o).genre) && q.search == SearchFilter(Defaults(o).search)
    ensures q.order == if Defaults(o).sort == "likes" then LikeCountDesc
                       else if Defaults(o).sort == "deadline" then ChallengeIdDescNullsLast
                       else CreatedAtDesc
  {
    var d := Defaults(o);
    var order := if d.sort == "likes" then LikeCountDesc
                 else if d.sort == "deadline" then ChallengeIdDescNullsLast
                 else CreatedAtDesc;
    RoomQuery(false, GenreFilter(d.genre), SearchFilter(d.search), order, Some(PageRange(d.page, d.limit)))
  }

  /** `fetchStories`, given the room query's answer and the `room_id` of
      every turn row the turn query returned. Each room becomes a story
      whose turn count is its number of turn rows (0 when it has none); an
      error gives no stories and a count of 0. */
  method FetchStories(answer: RoomsAnswer, turnRoomIds: seq<string>) returns (stories: seq<Story>, totalCount: int)
    ensures answer.RoomsError? ==> stories == [] && totalCount == 0
    ensures answer.Rooms? ==> totalCount == answer.count.GetOr(0)
    ensures answer.Rooms? ==> (|stories| == |answer.rows|
      && forall i :: 0 <= i < |stories| ==>
           stories[i] == RoomToStory(answer.rows[i], CountOf(turnRoomIds, answer.rows[i].id)))
  {
    if answer.RoomsError? {
      return [], 0;
    }
    var rooms := answer.rows;
    var turnCounts: map<string, nat> := map[];
    if |rooms| > 0 {
      turnCounts := CountByKey(turnRoomIds);
    }
    stories := seq(|rooms|, i requires 0 <= i < |rooms| => RoomToStory(rooms[i], Lookup0(turnCounts, rooms[i].id)));
    totalCount := answer.count.GetOr(0);
  }

  // ---------------------------------------------------------------------
  // fetchStoryDetail
  // ---------------------------------------------------------------------

  function ProfileId(p: DbProfile): string {
    p.id
  }

  /** The last profile with this id: the one `profilesMap[id] = p` keeps. */
  function LastWithId(profiles: seq<DbProfile>, id: string): (r: Option<DbProfile>)
    ensures r.Some? ==> r.value in profiles && r.value.id == id
    ensures r.None? <==> forall p :: p in profiles ==> p.id != id
  {
    LastWithKey(profiles, ProfileId, id)
  }

  /** The loop `for (const p of profiles) profilesMap[p.id] = p`. */
  method ProfilesById(profiles: seq<DbProfile>) returns (m: map<string, DbProfile>)
    ensures forall id :: (id in m <==> LastWithId(profiles, id).Some?)
    ensures forall id :: id in m ==> LastWithId(profiles, id) == Some(m[id])
  {
    m := map[];
    var i := 0;
    while i < |profiles|
      invariant 0 <= i <= |profiles|
      invariant forall id :: (id in m <==> LastWithId(profiles[..i], id).Some?)
      invariant forall id :: id in m ==> LastWithId(profiles[..i], id) == Some(m[id])
    {
      assert profiles[..i + 1][..i] == profiles[..i];
      m := m[profiles[i].id := profiles[i]];
      i := i + 1;
    }
    assert profiles[..i] == profiles;
  }

  predicate AscendingTurnIndex(turns: seq<DbStoryTurn>) {
    forall i, j :: 0 <= i < j < |turns| ==> turns[i].turnIndex <= turns[j].turnIndex
  }

  /** `fetchStoryDetail`: `room` is the room row (`None` when missing or
      on error), `turns` the room's turns in the query's ascending
      `turn_index` order (`None` on error), `profiles` the authors'
      profiles. The result is the detail and the room's creator. */
  method FetchStoryDetail(room: Option<DbStoryRoom>, turns: Option<seq<DbStoryTurn>>, profiles: seq<DbProfile>)
    returns (r: Option<(StoryDetail, Option<string>)>)
    ensures room.None? || turns.None? ==> r.None?
    ensures room.Some? && turns.Some? ==> (r.Some?
      && var (detail, createdBy) := r.value;
      && createdBy == room.value.createdBy
      && detail.story == RoomToStory(room.value, |turns.value|)
      && |detail.paragraphs| == |turns.value|
      && forall i :: 0 <= i < |turns.value| ==>
           detail.paragraphs[i] == TurnToParagraph(turns.value[i], LastWithId(profiles, turns.value[i].authorId)))
  {
    if room.None? || turns.None? {
      return None;
    }
    var ts := turns.value;
    var ids := seq(|ts|, i requires 0 <= i < |ts| => ts[i].authorId);
    var authorIds := Distinct(ids);
    assert |ts| > 0 ==> ids[0] in ids;
    var byId: map<string, DbProfile> := map[];
    if |authorIds| > 0 {
      byId := ProfilesById(profiles);
    }
    var paragraphs := seq(|ts|, i requires 0 <= i < |ts| =>
      TurnToParagraph(ts[i], if ts[i].authorId in byId then Some(byId[ts[i].authorId]) else None));
    var story := RoomToStory(room.value, |paragraphs|);
    return Some((StoryDetail(story, paragraphs), room.value.createdBy));
  }

  /** The paragraphs of a detail follow the turns' order, so turns in
      ascending `turn_index` give paragraphs in ascending turn number, and
      the story's turn count is the number of paragraphs. */
  lemma {:induction false} DetailParagraphsOrdered(room: DbStoryRoom, turns: seq<DbStoryTurn>, detail: StoryDetail, profiles: seq<DbProfile>)
    requires AscendingTurnIndex(turns)
    requires detail.story == RoomToStory(room, |turns|) && |detail.paragraphs| == |turns|
    requires forall i :: 0 <= i < |turns| ==>
      detail.paragraphs[i] == TurnToParagraph(turns[i], LastWithId(profiles, turns[i].authorId))
    ensures forall i, j :: 0 <= i < j < |detail.paragraphs| ==>
      detail.paragraphs[i].turnNumber <= detail.paragraphs[j].turnNumber
    ensures detail.story.turns == |detail.paragraphs|
  {
  }

  // ---------------------------------------------------------------------
  // fetchCompletedStories
  // ---------------------------------------------------------------------

  /** The query `fetchCompletedStories` builds. Sorting by turns orders by
      completion date in the database and leaves paging to the client. */
  function CompletedQuery(o: StoriesOptions): (q: RoomQuery)
    ensures q.isCompleted
    ensures q.genre == GenreFilter(Defaults(o).genre) && q.search == SearchFilter(Defaults(o).search)
    ensures Defaults(o).sort == "turns" <==> q.range.None?
    ensures q.range.Some? ==> q.range.value == PageRange(Defaults(o).page, Defaults(o).limit)
    ensures q.order == if Defaults(o).sort == "likes" then LikeCountDesc
                       else if Defaults(o).sort == "authors" then TotalAuthorsDesc
                       else CompletedAtDescNullsLast
  {
    var d := Defaults(o);
    var order := if d.sort == "likes" then LikeCountDesc
                 else if d.sort == "authors" then TotalAuthorsDesc
                 else CompletedAtDescNullsLast;
    var range := if d.sort == "turns" then None else Some(PageRange(d.page, d.limit));
    RoomQuery(true, GenreFilter(d.genre), SearchFilter(d.search), order, range)
  }

  /** The rooms of a completed page when sorting by turns: all matching
      rooms, stably sorted by turn count (most first), then the page's
      slice. */
  function TurnSortedPage(rooms: seq<DbStoryRoom>, turnRoomIds: seq<string>, page: int, limit: int): (r: seq<DbStoryRoom>)
    ensures |r| <= |rooms|
    ensures page >= 1 && limit >= 0 ==> |r| <= limit
  {
    var offset := (page - 1) * limit;
    var r := Slice(SortDesc(rooms, TurnKey(turnRoomIds)), offset, offset + limit);
    assert page >= 1 && limit >= 0 ==> |r| <= limit by {
      if page >= 1 && limit >= 0 {
        PageOffset(page, limit);
      }
    }
    r
  }

  /** The sort key of the turns sort: a room's number of turns. */
  function TurnKey(turnRoomIds: seq<string>): DbStoryRoom -> int {
    (r: DbStoryRoom) => CountOf(turnRoomIds, r.id)
  }

  /** A turn-sorted page is in non-increasing turn count, and it holds at
      most `limit` rooms, each one of the matching rooms. */
  lemma {:induction false} TurnSortedPageOrdered(rooms: seq<DbStoryRoom>, turnRoomIds: seq<string>, page: int, limit: int)
    requires page >= 1 && limit >= 0
    ensures var p := TurnSortedPage(rooms, turnRoomIds, page, limit);
      && |p| <= limit
      && (forall i, j :: 0 <= i < j < |p| ==> CountOf(turnRoomIds, p[i].id) >= CountOf(turnRoomIds, p[j].id))
      && (forall r :: r in p ==> r in rooms)
  {
    PageOffset(page, limit);
    TurnPageOrdered(rooms, turnRoomIds, (page - 1) * limit, limit);
  }

  lemma {:induction false} PageOffset(page: int, limit: int)
    requires page >= 1 && limit >= 0
    ensures (page - 1) * limit >= 0
  {
  }

  lemma {:induction false} TurnPageOrdered(rooms: seq<DbStoryRoom>, turnRoomIds: seq<string>, offset: nat, limit: nat)
    ensures var p := Slice(SortDesc(rooms, TurnKey(turnRoomIds)), offset, offset + limit);
      && |p| <= limit
      && (forall i, j :: 0 <= i < j < |p| ==> CountOf(turnRoomIds, p[i].id) >= CountOf(turnRoomIds, p[j].id))
      && (forall r :: r in p ==> r in rooms)
  {
    var key := TurnKey(turnRoomIds);
    var sorted := SortDesc(rooms, key);
    SortedPage(sorted, key, offset, limit);
    var p := Slice(sorted, offset, offset + limit);
    forall r | r in p ensures r in rooms {
      assert r in multiset(sorted);
    }
  }

  /** The rooms `fetchCompletedStories` maps: the answer's rows, or for the
      turns sort the page of the turn-sorted rows. */
  function CompletedPageRooms(o: StoriesOptions, rows: seq<DbStoryRoom>, turnRoomIds: seq<string>): (r: seq<DbStoryRoom>)
    ensures |r| <= |rows|
    ensures Defaults(o).sort != "turns" ==> r == rows
    ensures Defaults(o).sort == "turns" && Defaults(o).page >= 1 && Defaults(o).limit >= 0 ==> |r| <= Defaults(o).limit
  {
    var d := Defaults(o);
    if d.sort == "turns" then TurnSortedPage(rows, turnRoomIds, d.page, d.limit) else rows
  }

  /** `turnCounts[room.id]`, undefined for a room without turns. */
  function TurnCountOf(turnRoomIds: seq<string>, id: string): Option<int> {
    if id in turnRoomIds then Some(CountOf(turnRoomIds, id)) else None
  }

  /** The turns sort as the source runs it, keyed by the counted map. */
  function TurnPageFromCounts(rows: seq<DbStoryRoom>, counts: map<string, nat>, page: int, limit: int): seq<DbStoryRoom> {
    var offset := (page - 1) * limit;
    Slice(SortDesc(rows, (r: DbStoryRoom) => Lookup0(counts, r.id)), offset, offset + limit)
  }

  lemma {:induction false} TurnSortFromCounts(rows: seq<DbStoryRoom>, turnRoomIds: seq<string>, counts: map<string, nat>, page: int, limit: int)
    requires forall k :: Lookup0(counts, k) == CountOf(turnRoomIds, k)
    ensures TurnPageFromCounts(rows, counts, page, limit) == TurnSortedPage(rows, turnRoomIds, page, limit)
  {
    SortDescCongruent(rows, (r: DbStoryRoom) => Lookup0(counts, r.id), TurnKey(turnRoomIds));
  }

  /** `fetchCompletedStories`, given the room query's answer and the
      `room_id` of every turn row the turn query returned. Each room on the
      page becomes a completed story whose total turns is its number of
      turn rows (0 when it has none). */
  method FetchCompletedStories(o: StoriesOptions, answer: RoomsAnswer, turnRoomIds: seq<string>)
    returns (stories: seq<CompletedStory>, totalCount: int)
    ensures answer.RoomsError? ==> stories == [] && totalCount == 0
    ensures answer.Rooms? ==> totalCount == answer.count.GetOr(0)
    ensures answer.Rooms? ==>
      var rooms := CompletedPageRooms(o, answer.rows, turnRoomIds);
      |stories| == |rooms|
      && forall i :: 0 <= i < |stories| ==>
           stories[i] == RoomToCompletedStory(rooms[i], TurnCountOf(turnRoomIds, rooms[i].id))
  {
    if answer.RoomsError? {
      return [], 0;
    }
    totalCount := answer.count.GetOr(0);
    if |answer.rows| == 0 {
      NoRowsNoPage(o, turnRoomIds);
      return [], totalCount;
    }
    var turnCounts := CountByKey(turnRoomIds);
    var rooms := PageFromCounts(o, answer.rows, turnCounts);
    PageFromCountsAgrees(o, answer.rows, turnRoomIds, turnCounts);
    CountedTurnsAgree(turnRoomIds, turnCounts);
    stories := seq(|rooms|, i requires 0 <= i < |rooms| => RoomToCompletedStory(rooms[i], CountedTurns(turnCounts, rooms[i].id)));
  }

  lemma {:induction false} NoRowsNoPage(o: StoriesOptions, turnRoomIds: seq<string>)
    ensures CompletedPageRooms(o, [], turnRoomIds) == []
  {
    assert |SortDesc([], TurnKey(turnRoomIds))| == 0;
  }

  /** The page as the source computes it, sorting by the counted map. */
  function PageFromCounts(o: StoriesOptions, rows: seq<DbStoryRoom>, counts: map<string, nat>): seq<DbStoryRoom> {
    var d := Defaults(o);
    if d.sort == "turns" then TurnPageFromCounts(rows, counts, d.page, d.limit) else rows
  }

  lemma {:induction false} PageFromCountsAgrees(o: StoriesOptions, rows: seq<DbStoryRoom>, turnRoomIds: seq<string>, counts: map<string, nat>)
    requires forall k :: Lookup0(counts, k) == CountOf(turnRoomIds, k)
    ensures PageFromCounts(o, rows, counts) == CompletedPageRooms(o, rows, turnRoomIds)
  {
    var d := Defaults(o);
    if d.sort == "turns" {
      TurnSortFromCounts(rows, turnRoomIds, counts, d.page, d.limit);
    }
  }

  /** `turnCounts[room.id]` read from the counted map. */
  function CountedTurns(counts: map<string, nat>, id: string): Option<int> {
    if id in counts then Some(counts[id] as int) else None
  }

  lemma {:induction false} CountedTurnsAgree(turnRoomIds: seq<string>, counts: map<string, nat>)
    requires forall k :: Lookup0(counts, k) == CountOf(turnRoomIds, k)
    requires forall k :: k in counts <==> k in turnRoomIds
    ensures forall id :: CountedTurns(counts, id) == TurnCountOf(turnRoomIds, id)
  {
    forall id ensures CountedTurns(counts, id) == TurnCountOf(turnRoomIds, id) {
      assert Lookup0(counts, id) == CountOf(turnRoomIds, id);
    }
  }
}
