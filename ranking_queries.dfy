/** The ranking query of lib/queries/ranking.ts: rooms by likes, each
    with its turn count and its rank. */
module RankingQueries {
  import opened Common
  import opened Types

  datatype TimeRange = Weekly | Monthly | AllTime

  /** How far back `created_at` may go: a week or a month before the
      current instant, or no bound. The instant itself is not modelled. */
  datatype Since = WeekAgo | MonthAgo | Forever

  /** `story_rooms` ordered by `like_count` descending, at most `limit`
      rows, optionally one genre and a creation bound. */
  datatype RankingQuery = RankingQuery(genre: Option<string>, since: Since, limit: int)

  /** A row of `select("id, title, genre, like_count, created_at")`. */
  datatype RankingRow = RankingRow(id: string, title: string, genre: string, likeCount: Option<int>)

  /** The query `fetchRankingStories(genre, timeRange = "all", limit = 50)`
      builds: the genre filter applies only for a non-empty genre other
      than "전체" (all). */
  function RankingQueryFor(genre: Option<string>, timeRange: Option<TimeRange>, limit: Option<int>): (q: RankingQuery)
    ensures q.genre.Some? <==> genre.Some? && genre.value != "" && genre.value != "전체"
    ensures q.genre.Some? ==> q.genre == genre
    ensures q.limit == (if limit.Some? then limit.value else 50)
    ensures q.since == match timeRange.GetOr(AllTime)
                       case Weekly => WeekAgo
                       case Monthly => MonthAgo
                       case AllTime => Forever
  {
    var g := if genre.Some? && genre.value != "" && genre.value != "전체" then genre else None;
    var since := match timeRange.GetOr(AllTime)
                 case Weekly => WeekAgo
                 case Monthly => MonthAgo
                 case AllTime => Forever;
    RankingQuery(g, since, limit.GetOr(50))
  }

  function RankOf(row: RankingRow, turns: int, rank: int): RankingStory {
    RankingStory(row.id, row.title, row.genre, row.likeCount.GetOr(0), turns, rank)
  }

  /** `fetchRankingStories` after the room query: `rooms` is `None` on an
      error; `turnRoomIds` holds the `room_id` of each turn row the turn
      query returned. Each room keeps its position, gets rank position + 1
      and its number of turn rows; a missing like count reads as 0. */
  method FetchRankingStories(rooms: Option<seq<RankingRow>>, turnRoomIds: seq<string>) returns (ranking: seq<RankingStory>)
    ensures rooms.None? || rooms.value == [] ==> ranking == []
    ensures rooms.Some? ==> |ranking| == |rooms.value|
    ensures rooms.Some? ==> forall i :: 0 <= i < |ranking| ==>
      ranking[i] == RankOf(rooms.value[i], CountOf(turnRoomIds, rooms.value[i].id), i + 1)
  {
    if rooms.None? || rooms.value == [] {
      return [];
    }
    var rows := rooms.value;
    var turnsByRoom := CountByKey(turnRoomIds);
    ranking := seq(|rows|, i requires 0 <= i < |rows| => RankOf(rows[i], Lookup0(turnsByRoom, rows[i].id), i + 1));
  }

  /** Ranks run 1..n down the list, and rooms the database returned by
      likes descending keep that order. */
  lemma {:induction false} RankingOrder(rows: seq<RankingRow>, turnRoomIds: seq<string>, ranking: seq<RankingStory>)
    requires |ranking| == |rows|
    requires forall i :: 0 <= i < |ranking| ==> ranking[i] == RankOf(rows[i], CountOf(turnRoomIds, rows[i].id), i + 1)
    requires forall i, j :: 0 <= i < j < |rows| ==> rows[i].likeCount.GetOr(0) >= rows[j].likeCount.GetOr(0)
    ensures forall i :: 0 <= i < |ranking| ==> ranking[i].rank == i + 1 && ranking[i].turns >= 0
    ensures forall i, j :: 0 <= i < j < |ranking| ==> ranking[i].likes >= ranking[j].likes && ranking[i].rank < ranking[j].rank
    ensures forall i :: 0 <= i < |ranking| ==> ranking[i].id == rows[i].id
  {
  }
}
