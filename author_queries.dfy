/** The popular-author query of lib/queries/author.ts: per-author totals
    over every turn, the authors with the most likes, their profiles and
    their highest badge. */
module AuthorQueries {
  import opened Common
  import opened Types
  import Mappers
  import StoryQueries

  /** A row of `story_turns.select("author_id, room_id, like_count")`. */
  datatype TurnStatRow = TurnStatRow(authorId: string, roomId: string, likeCount: Option<int>)

  /** What the `byAuthor` map holds for one author. */
  datatype AuthorStats = AuthorStats(turns: nat, likes: int, rooms: set<string>)

  /** A row of `user_badges.select("user_id, badge_type")`. */
  datatype BadgeRow = BadgeRow(userId: string, badgeType: string)

  const NoStats := AuthorStats(0, 0, {})
  const Anonymous := "익명"

  /** `BADGE_ORDER[type] ?? 0`, as an exact match on the three tiers
      (inherited object members are not modelled). */
  function BadgeOrder(badgeType: string): (r: int)
    ensures 0 <= r <= 3
    ensures r > 0 <==> badgeType in {"전설 작가", "베테랑 작가", "인기 작가"}
  {
    if badgeType == "전설 작가" then 3
    else if badgeType == "베테랑 작가" then 2
    else if badgeType == "인기 작가" then 1
    else 0
  }

  function AuthorIds(rows: seq<TurnStatRow>): (r: seq<string>)
    ensures |r| == |rows| && forall k :: 0 <= k < |rows| ==> r[k] == rows[k].authorId
  {
    seq(|rows|, k requires 0 <= k < |rows| => rows[k].authorId)
  }

  /** One author's totals over `rows`: turns written, likes received (a
      missing like count adds 0) and the rooms written in. */
  function StatsOf(rows: seq<TurnStatRow>, a: string): (r: AuthorStats)
    ensures |r.rooms| <= r.turns <= |rows|
  {
    if rows == [] then NoStats
    else
      var s := StatsOf(rows[..|rows| - 1], a);
      var t := rows[|rows| - 1];
      if t.authorId == a then Counted(s, t) else s
  }

  /** The totals after one more turn by their author. */
  function Counted(s: AuthorStats, t: TurnStatRow): AuthorStats {
    AuthorStats(s.turns + 1, s.likes + t.likeCount.GetOr(0), s.rooms + {t.roomId})
  }

  lemma {:induction false} StatsOfAbsent(rows: seq<TurnStatRow>, a: string)
    requires a !in AuthorIds(rows)
    ensures StatsOf(rows, a) == NoStats
  {
    if rows != [] {
      var n := |rows| - 1;
      assert forall k :: 0 <= k < n ==> AuthorIds(rows[..n])[k] == AuthorIds(rows)[k];
      StatsOfAbsent(rows[..n], a);
    }
  }

  /** An author's turn total is the number of their rows, and they cannot
      have written in more rooms than they wrote turns. */
  lemma {:induction false} StatsCountTurns(rows: seq<TurnStatRow>, a: string)
    ensures StatsOf(rows, a).turns == CountOf(AuthorIds(rows), a)
    ensures |StatsOf(rows, a).rooms| <= StatsOf(rows, a).turns
  {
    if rows != [] {
      var n := |rows| - 1;
      StatsCountTurns(rows[..n], a);
      assert AuthorIds(rows)[..n] == AuthorIds(rows[..n]);
    }
  }

  lemma {:induction false} StatsStep(rows: seq<TurnStatRow>, i: int)
    requires 0 <= i < |rows|
    ensures forall a :: StatsOf(rows[..i + 1], a) == if rows[i].authorId == a then Counted(StatsOf(rows[..i], a), rows[i]) else StatsOf(rows[..i], a)
  {
    assert rows[..i + 1][..i] == rows[..i];
  }

  lemma {:induction false} DistinctStep(rows: seq<TurnStatRow>, i: int)
    requires 0 <= i < |rows|
    ensures Distinct(AuthorIds(rows[..i + 1])) ==
      var d := Distinct(AuthorIds(rows[..i]));
      if rows[i].authorId in d then d else d + [rows[i].authorId]
  {
    assert rows[..i + 1][..i] == rows[..i];
    assert AuthorIds(rows[..i + 1])[..i] == AuthorIds(rows[..i]);
  }

  /** What the `byAuthor` loop knows after the first `i` rows. */
  ghost predicate Aggregated(rows: seq<TurnStatRow>, i: int, order: seq<string>, stats: map<string, AuthorStats>)
    requires 0 <= i <= |rows|
  {
    && order == Distinct(AuthorIds(rows[..i]))
    && (forall a :: a in stats <==> a in order)
    && (forall a :: a in stats ==> stats[a] == StatsOf(rows[..i], a))
  }

  /** One turn of the loop keeps `Aggregated`. */
  lemma {:induction false} AggregateStep(rows: seq<TurnStatRow>, i: int, order: seq<string>, stats: map<string, AuthorStats>,
                      order': seq<string>, stats': map<string, AuthorStats>)
    requires 0 <= i < |rows| && Aggregated(rows, i, order, stats)
    requires var t := rows[i];
      stats' == stats[t.authorId := Counted(if t.authorId in stats then stats[t.authorId] else NoStats, t)]
    requires order' == if rows[i].authorId in order then order else order + [rows[i].authorId]
    ensures Aggregated(rows, i + 1, order', stats')
  {
    DistinctStep(rows, i);
    StatsUpdated(rows, i, stats, stats');
  }

  /** The totals part of `AggregateStep`. */
  lemma {:induction false} StatsUpdated(rows: seq<TurnStatRow>, i: int, stats: map<string, AuthorStats>, stats': map<string, AuthorStats>)
    requires 0 <= i < |rows|
    requires forall a :: a in stats ==> stats[a] == StatsOf(rows[..i], a)
    requires forall a :: a !in stats ==> a !in AuthorIds(rows[..i])
    requires var t := rows[i];
      stats' == stats[t.authorId := Counted(if t.authorId in stats then stats[t.authorId] else NoStats, t)]
    ensures forall a :: a in stats' ==> stats'[a] == StatsOf(rows[..i + 1], a)
  {
    var t := rows[i];
    StatsStep(rows, i);
    if t.authorId !in stats {
      StatsOfAbsent(rows[..i], t.authorId);
    }
  }

  /** The loop that fills `byAuthor`: the keys in the order of each
      author's first turn, and each author's totals. */
  method AggregateByAuthor(rows: seq<TurnStatRow>) returns (order: seq<string>, stats: map<string, AuthorStats>)
    ensures order == Distinct(AuthorIds(rows))
    ensures forall a :: a in stats <==> a in order
    ensures forall a :: a in stats ==> stats[a] == StatsOf(rows, a)
  {
    order, stats := [], map[];
    var i := 0;
    while i < |rows|
      invariant 0 <= i <= |rows|
      invariant Aggregated(rows, i, order, stats)
    {
      var t := rows[i];
      var cur := if t.authorId in stats then stats[t.authorId] else NoStats;
      var order' := if t.authorId in order then order else order + [t.authorId];
      AggregateStep(rows, i, order, stats, order', stats[t.authorId := Counted(cur, t)]);
      stats := stats[t.authorId := Counted(cur, t)];
      order := order';
      i := i + 1;
    }
    assert rows[..i] == rows;
  }

  /** `[...byAuthor.entries()]` */
  function Entries(rows: seq<TurnStatRow>): (r: seq<(string, AuthorStats)>)
    ensures forall e :: e in r ==> e.0 in AuthorIds(rows) && e.1 == StatsOf(rows, e.0)
    ensures forall i, j :: 0 <= i < j < |r| ==> r[i].0 != r[j].0
  {
    var d := Distinct(AuthorIds(rows));
    seq(|d|, k requires 0 <= k < |d| => (d[k], StatsOf(rows, d[k])))
  }

  function LikesKey(e: (string, AuthorStats)): int {
    e.1.likes
  }

  /** `.sort((a, b) => b[1].likes - a[1].likes).slice(0, limit)` */
  function TopAuthors(rows: seq<TurnStatRow>, limit: int): (r: seq<(string, AuthorStats)>)
    ensures limit >= 0 ==> |r| <= limit
    ensures |r| <= |Entries(rows)|
  {
    Slice(SortDesc(Entries(rows), LikesKey), 0, limit)
  }

  /** The winning badge per user after the `badgesByUser` loop: a badge
      replaces the one held when none is held, the held one is the empty
      string (which reads as absent), or the new one ranks strictly higher. */
  function BestBadge(badges: seq<BadgeRow>, u: string): (r: Option<string>)
    ensures r.None? <==> forall j :: 0 <= j < |badges| ==> badges[j].userId != u
    ensures r.Some? ==> BadgeRow(u, r.value) in badges
  {
    if badges == [] then None
    else
      var prev := BestBadge(badges[..|badges| - 1], u);
      var b := badges[|badges| - 1];
      assert forall j :: 0 <= j < |badges| - 1 ==> badges[..|badges| - 1][j] == badges[j];
      if b.userId != u then prev
      else if prev.None? || prev.value == "" || BadgeOrder(b.badgeType) > BadgeOrder(prev.value) then Some(b.badgeType)
      else prev
  }

  method BadgesByUser(badges: seq<BadgeRow>) returns (m: map<string, string>)
    ensures forall u :: u in m <==> BestBadge(badges, u).Some?
    ensures forall u :: u in m ==> BestBadge(badges, u) == Some(m[u])
  {
    m := map[];
    var i := 0;
    while i < |badges|
      invariant 0 <= i <= |badges|
      invariant forall u :: u in m <==> BestBadge(badges[..i], u).Some?
      invariant forall u :: u in m ==> BestBadge(badges[..i], u) == Some(m[u])
    {
      var b := badges[i];
      assert badges[..i + 1][..i] == badges[..i];
      var existing := if b.userId in m then Some(m[b.userId]) else None;
      var order := BadgeOrder(b.badgeType);
      var existingOrder := if existing.Some? && existing.value != "" then BadgeOrder(existing.value) else -1;
      if existing.None? || existing.value == "" || order > existingOrder {
        m := m[b.userId := b.badgeType];
      }
      i := i + 1;
    }
    assert badges[..i] == badges;
  }

  /** The badge a user gets ranks at least as high as every other they
      hold, and it is the empty string only when all of theirs are. */
  lemma {:induction false} BestBadgeFacts(badges: seq<BadgeRow>, u: string)
    ensures BestBadge(badges, u).Some? ==> forall j :: 0 <= j < |badges| && badges[j].userId == u ==>
      BadgeOrder(badges[j].badgeType) <= BadgeOrder(BestBadge(badges, u).value)
    ensures BestBadge(badges, u) == Some("") ==> forall j :: 0 <= j < |badges| && badges[j].userId == u ==>
      badges[j].badgeType == ""
  {
    if badges != [] {
      var n := |badges| - 1;
      var front, b := badges[..n], badges[n];
      var prev := BestBadge(front, u);
      BestBadgeFacts(front, u);
      assert forall j :: 0 <= j < n ==> front[j] == badges[j];
      assert badges == front + [b];
      if b.userId != u {
        assert BestBadge(badges, u) == prev;
      } else if prev.None? || prev.value == "" || BadgeOrder(b.badgeType) > BadgeOrder(prev.value) {
        assert BestBadge(badges, u) == Some(b.badgeType);
      } else {
        assert BestBadge(badges, u) == prev;
      }
    }
  }

  /** On a tie the earlier badge stays: the winner, when not empty, is the
      first of the user's non-empty badges of its rank, and every earlier
      non-empty one ranks strictly lower. */
  lemma {:induction false} BestBadgeFirstOfRank(badges: seq<BadgeRow>, u: string)
    requires BestBadge(badges, u).Some? && BestBadge(badges, u).value != ""
    ensures exists i :: (0 <= i < |badges| && badges[i] == BadgeRow(u, BestBadge(badges, u).value) &&
      (forall j :: 0 <= j < i && badges[j].userId == u && badges[j].badgeType != "" ==>
         BadgeOrder(badges[j].badgeType) < BadgeOrder(BestBadge(badges, u).value)))
  {
    var n := |badges| - 1;
    var b := BestBadge(badges, u).value;
    var prev := BestBadge(badges[..n], u);
    assert forall j :: 0 <= j < n ==> badges[..n][j] == badges[j];
    BestBadgeFacts(badges[..n], u);
    if badges[n].userId == u && (prev.None? || prev.value == "" || BadgeOrder(badges[n].badgeType) > BadgeOrder(prev.value)) {
      assert badges[n] == BadgeRow(u, b);
    } else {
      BestBadgeFirstOfRank(badges[..n], u);
      var i :| 0 <= i < n && badges[..n][i] == BadgeRow(u, b) &&
        forall j :: 0 <= j < i && badges[..n][j].userId == u && badges[..n][j].badgeType != "" ==>
          BadgeOrder(badges[..n][j].badgeType) < BadgeOrder(b);
      assert badges[i] == BadgeRow(u, b);
    }
  }

  /** One card of the list: the profile the `profiles` map keeps (the last
      with the id), the trimmed name or "익명", and the best badge. */
  function AuthorOf(e: (string, AuthorStats), profiles: seq<DbProfile>, badges: seq<BadgeRow>): (r: PopularAuthor)
    ensures r.id == e.0 && r.name != []
    ensures r.storiesCount == |e.1.rooms| && r.totalLikes == e.1.likes && r.totalTurns == e.1.turns
    ensures r.badge.None? <==> forall j :: 0 <= j < |badges| ==> badges[j].userId != e.0
    ensures r.badge.Some? ==> BadgeRow(e.0, r.badge.value) in badges
  {
    var p := StoryQueries.LastWithId(profiles, e.0);
    PopularAuthor(
      e.0,
      Mappers.NameOr(if p.Some? then p.value.displayName else None, Anonymous),
      if p.Some? then p.value.avatarUrl else None,
      |e.1.rooms|, e.1.likes, e.1.turns,
      BestBadge(badges, e.0))
  }

  /** The number of authors listed when the caller gives no limit. */
  const DefaultAuthorLimit := 12

  /** `fetchPopularAuthors(limit = 12)`: `limit` is `None` when the caller
      leaves it out; `turns` is `None` on an error; the profile and badge
      rows are what their queries returned (`[]` on an error). */
  method FetchPopularAuthors(limit: Option<int>, turns: Option<seq<TurnStatRow>>, profiles: seq<DbProfile>, badges: seq<BadgeRow>)
    returns (authors: seq<PopularAuthor>)
    ensures turns.None? || turns.value == [] ==> authors == []
    ensures turns.Some? ==> |authors| == |TopAuthors(turns.value, limit.GetOr(DefaultAuthorLimit))|
    ensures turns.Some? ==> forall i :: 0 <= i < |authors| ==>
      authors[i] == AuthorOf(TopAuthors(turns.value, limit.GetOr(DefaultAuthorLimit))[i], profiles, badges)
    ensures limit.None? ==> |authors| <= 12
  {
    if turns.None? || turns.value == [] {
      return [];
    }
    var limit := limit.GetOr(DefaultAuthorLimit);
    var rows := turns.value;
    var order, stats := AggregateByAuthor(rows);
    var entries := seq(|order|, k requires 0 <= k < |order| => (order[k], stats[order[k]]));
    assert entries == Entries(rows);
    var top := Slice(SortDesc(entries, LikesKey), 0, limit);
    if |top| == 0 {
      return [];
    }
    assert top == TopAuthors(rows, limit);
    authors := Cards(top, profiles, badges);
  }

  /** The cards of the top entries, from the `profiles` and `badgesByUser`
      maps. */
  method Cards(top: seq<(string, AuthorStats)>, profiles: seq<DbProfile>, badges: seq<BadgeRow>)
    returns (authors: seq<PopularAuthor>)
    ensures |authors| == |top|
    ensures forall i :: 0 <= i < |top| ==> authors[i] == AuthorOf(top[i], profiles, badges)
  {
    var profileMap := StoryQueries.ProfilesById(profiles);
    var badgeMap := BadgesByUser(badges);
    authors := seq(|top|, i requires 0 <= i < |top| => CardFrom(top[i], profileMap, badgeMap));
    forall i | 0 <= i < |top| ensures authors[i] == AuthorOf(top[i], profiles, badges) {
      CardFromAgrees(top[i], profileMap, badgeMap, profiles, badges);
    }
  }

  /** One card built from the `profiles` and `badgesByUser` maps. */
  function CardFrom(e: (string, AuthorStats), profileMap: map<string, DbProfile>, badgeMap: map<string, string>): PopularAuthor {
    var p := if e.0 in profileMap then Some(profileMap[e.0]) else None;
    PopularAuthor(
      e.0,
      Mappers.NameOr(if p.Some? then p.value.displayName else None, Anonymous),
      if p.Some? then p.value.avatarUrl else None,
      |e.1.rooms|, e.1.likes, e.1.turns,
      if e.0 in badgeMap then Some(badgeMap[e.0]) else None)
  }

  /** With maps that agree with the lookups on the card's author, the card
      built from the maps is the card `AuthorOf` describes. */
  lemma {:induction false} CardFromAgrees(e: (string, AuthorStats), profileMap: map<string, DbProfile>,
                                          badgeMap: map<string, string>, profiles: seq<DbProfile>, badges: seq<BadgeRow>)
    requires e.0 in profileMap <==> StoryQueries.LastWithId(profiles, e.0).Some?
    requires e.0 in profileMap ==> StoryQueries.LastWithId(profiles, e.0) == Some(profileMap[e.0])
    requires e.0 in badgeMap <==> BestBadge(badges, e.0).Some?
    requires e.0 in badgeMap ==> BestBadge(badges, e.0) == Some(badgeMap[e.0])
    ensures CardFrom(e, profileMap, badgeMap) == AuthorOf(e, profiles, badges)
  {
  }

  /** `slice(0, limit)` keeps a prefix of the sorted entries. */
  lemma {:induction false} TopIsPrefix(rows: seq<TurnStatRow>, limit: int)
    ensures var sorted := SortDesc(Entries(rows), LikesKey);
      TopAuthors(rows, limit) == sorted[..SliceIndex(limit, |sorted|)]
  {
  }

  /** The list holds at most `limit` authors, by likes descending, each
      once, each among the authors who wrote a turn. */
  lemma {:induction false} PopularAuthorsOrdered(rows: seq<TurnStatRow>, limit: int)
    ensures var top := TopAuthors(rows, limit);
      && (limit >= 0 ==> |top| <= limit)
      && SortedDesc(top, LikesKey)
      && (forall i, j :: 0 <= i < j < |top| ==> top[i].0 != top[j].0)
      && (forall e :: e in top ==> e in Entries(rows))
  {
    var entries := Entries(rows);
    var sorted := SortDesc(entries, LikesKey);
    TopIsPrefix(rows, limit);
    SortedPrefixFacts(entries, sorted, SliceIndex(limit, |sorted|));
  }

  /** A prefix of a reordering of entries with distinct ids, sorted by
      likes, is sorted, holds each id once and only those entries. */
  lemma {:induction false} SortedPrefixFacts(entries: seq<(string, AuthorStats)>, sorted: seq<(string, AuthorStats)>, m: nat)
    requires forall a, b :: 0 <= a < b < |entries| ==> entries[a].0 != entries[b].0
    requires multiset(sorted) == multiset(entries) && SortedDesc(sorted, LikesKey) && m <= |sorted|
    ensures var top := sorted[..m];
      && SortedDesc(top, LikesKey)
      && (forall i, j :: 0 <= i < j < |top| ==> top[i].0 != top[j].0)
      && (forall e :: e in top ==> e in entries)
  {
    var top := sorted[..m];
    assert forall x :: 0 <= x < m ==> top[x] == sorted[x];
    forall i, j | 0 <= i < j < |top|
      ensures top[i].0 != top[j].0
    {
      SortedIdsDistinct(entries, sorted, i, j);
    }
    forall e | e in top
      ensures e in entries
    {
      assert e in multiset(sorted);
    }
  }

  /** Every listed author wrote at least one turn, as many turns as they
      have rows, and in no more rooms than turns. */
  lemma {:induction false} PopularAuthorsCounts(rows: seq<TurnStatRow>, limit: int)
    ensures forall e :: e in TopAuthors(rows, limit) ==>
      e.1.turns == CountOf(AuthorIds(rows), e.0) >= 1 && |e.1.rooms| <= e.1.turns
  {
    PopularAuthorsOrdered(rows, limit);
    forall e | e in TopAuthors(rows, limit)
      ensures e.1.turns == CountOf(AuthorIds(rows), e.0) >= 1 && |e.1.rooms| <= e.1.turns
    {
      StatsCountTurns(rows, e.0);
      CountOfPositiveIffPresent(AuthorIds(rows), e.0);
    }
  }

  /** Nobody left out of the list has more likes than anybody on it. */
  lemma {:induction false} PopularAuthorsCutoff(rows: seq<TurnStatRow>, limit: int)
    requires limit >= 0
    ensures forall e, t :: e in Entries(rows) && e !in TopAuthors(rows, limit) && t in TopAuthors(rows, limit) ==>
      t.1.likes >= e.1.likes
  {
    var entries := Entries(rows);
    var sorted := SortDesc(entries, LikesKey);
    var m := SliceIndex(limit, |sorted|);
    TopIsPrefix(rows, limit);
    forall e, t | e in entries && e !in sorted[..m] && t in sorted[..m]
      ensures t.1.likes >= e.1.likes
    {
      assert e in multiset(entries);
      assert e in multiset(sorted);
      PrefixDominates(sorted, LikesKey, m, e, t);
    }
  }

  /** In a list sorted by descending key, what a prefix leaves out has a
      key no larger than anything the prefix keeps. */
  lemma {:induction false} PrefixDominates<T>(sorted: seq<T>, key: T -> int, m: int, e: T, t: T)
    requires SortedDesc(sorted, key) && 0 <= m <= |sorted|
    requires e in sorted && e !in sorted[..m] && t in sorted[..m]
    ensures key(t) >= key(e)
  {
    var k :| 0 <= k < |sorted| && sorted[k] == e;
    var j :| 0 <= j < m && sorted[..m][j] == t;
    assert forall x :: 0 <= x < m ==> sorted[..m][x] == sorted[x];
  }

  /** A reordering of a list of entries with distinct ids never holds the
      same id twice: equal ids mean equal entries, and each entry occurs
      once. */
  lemma {:induction false} SortedIdsDistinct(entries: seq<(string, AuthorStats)>, sorted: seq<(string, AuthorStats)>, i: int, j: int)
    requires forall a, b :: 0 <= a < b < |entries| ==> entries[a].0 != entries[b].0
    requires multiset(sorted) == multiset(entries)
    requires 0 <= i < j < |sorted|
    ensures sorted[i].0 != sorted[j].0
  {
    if sorted[i].0 == sorted[j].0 {
      assert sorted[i] in multiset(entries) && sorted[j] in multiset(entries);
      var a :| 0 <= a < |entries| && entries[a] == sorted[i];
      var b :| 0 <= b < |entries| && entries[b] == sorted[j];
      assert a == b;
      var x := sorted[i];
      assert sorted == sorted[..j] + sorted[j..];
      assert x in sorted[..j] && x in sorted[j..];
      assert multiset(sorted)[x] == multiset(sorted[..j])[x] + multiset(sorted[j..])[x];
      OccursOnce(entries, a);
      assert false;
    }
  }

  lemma {:induction false} OccursOnce<T>(s: seq<T>, a: int)
    requires forall i, j :: 0 <= i < j < |s| ==> s[i] != s[j]
    requires 0 <= a < |s|
    ensures multiset(s)[s[a]] == 1
  {
    var n := |s| - 1;
    assert s == s[..n] + [s[n]];
    if a == n {
      assert s[n] !in s[..n];
    } else {
      OccursOnce(s[..n], a);
    }
  }
}
