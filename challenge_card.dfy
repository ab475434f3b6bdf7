/** A challenge's card in the list, components/posts/ChallengeCard.tsx: the
    time-left label, the theme badge, and the labels and badges that depend
    on the challenge's status. */
module ChallengeCard {
  import opened Common
  import opened Types

  const MsPerDay := 86400000
  const MsPerHour := 3600000
  const MsPerMinute := 60000
  const Finished := "종료됨"

  /** The whole days, the hours left after them and the minutes left after
      those, in a positive span of milliseconds. */
  function SplitSpan(diff: int): (r: (int, int, int))
    requires diff > 0
    ensures r.0 >= 0 && 0 <= r.1 < 24 && 0 <= r.2 < 60
    ensures r.0 * MsPerDay + r.1 * MsPerHour + r.2 * MsPerMinute <= diff
    ensures diff < r.0 * MsPerDay + r.1 * MsPerHour + (r.2 + 1) * MsPerMinute
  {
    var days := diff / MsPerDay;
    var hours := (diff % MsPerDay) / MsPerHour;
    var minutes := (diff % MsPerHour) / MsPerMinute;
    SplitBounds(diff, days, hours, minutes);
    (days, hours, minutes)
  }

  lemma {:induction false} SplitBounds(diff: int, days: int, hours: int, minutes: int)
    requires diff > 0
    requires days == diff / MsPerDay && hours == (diff % MsPerDay) / MsPerHour
    requires minutes == (diff % MsPerHour) / MsPerMinute
    ensures days >= 0 && 0 <= hours < 24 && 0 <= minutes < 60
    ensures days * MsPerDay + hours * MsPerHour + minutes * MsPerMinute <= diff
    ensures diff < days * MsPerDay + hours * MsPerHour + (minutes + 1) * MsPerMinute
  {
    var rd := diff % MsPerDay;
    var rh := diff % MsPerHour;
    DivParts(diff, MsPerDay);
    DivParts(rd, MsPerHour);
    DivParts(rh, MsPerMinute);
    HourRemainder(diff, days, rd);
  }

  lemma {:induction false} DivParts(x: int, d: int)
    requires d > 0
    ensures x == (x / d) * d + x % d && 0 <= x % d < d
  {
  }

  /** Whole days are whole hours, so the span and its remainder by a day
      leave the same remainder by an hour. */
  lemma {:induction false} HourRemainder(diff: int, days: int, rd: int)
    requires diff == days * MsPerDay + rd && 0 <= rd
    ensures diff % MsPerHour == rd % MsPerHour
  {
    DivParts(rd, MsPerHour);
    DivParts(diff, MsPerHour);
    assert diff == (days * 24 + rd / MsPerHour) * MsPerHour + rd % MsPerHour;
  }

  /** `calculateTimeLeft()` for the span `diff` from now to the end:
      "종료됨" once it is over, days and hours while a day or more is left,
      and hours and minutes under a day. */
  function TimeLeftLabel(diff: int): (r: string)
    ensures diff <= 0 ==> r == Finished
  {
    if diff <= 0 then Finished
    else
      var (days, hours, minutes) := SplitSpan(diff);
      if days > 0 then NatToString(days) + "일 " + NatToString(hours) + "시간 남음"
      else NatToString(hours) + "시간 " + NatToString(minutes) + "분 남음"
  }

  /** The label says "종료됨" exactly when the span is over; a running
      span of a day or more names the days, a shorter one the minutes. */
  lemma {:induction false} TimeLeftLabelCases(diff: int)
    ensures TimeLeftLabel(diff) == Finished <==> diff <= 0
    ensures diff >= MsPerDay ==> TimeLeftLabel(diff) == NatToString(diff / MsPerDay) + "일 " + NatToString(SplitSpan(diff).1) + "시간 남음"
    ensures 0 < diff < MsPerDay ==> TimeLeftLabel(diff) == NatToString(SplitSpan(diff).1) + "시간 " + NatToString(SplitSpan(diff).2) + "분 남음"
  {
    if diff > 0 {
      var r := TimeLeftLabel(diff);
      assert |r| > 3;
    }
  }

  /** `theme || "자유"` */
  function DisplayTheme(theme: Option<string>): (r: string)
    ensures theme.Some? && theme.value != "" ==> r == theme.value
    ensures theme.None? || theme.value == "" ==> r == "자유"
    ensures r != ""
  {
    if theme.None? || theme.value == "" then "자유" else theme.value
  }

  /** `statusConfig[status].label` */
  function StatusLabel(status: ChallengeStatus): (r: string)
    ensures r != "" && r != ButtonLabel(status)
  {
    match status
    case Active => "진행 중"
    case Upcoming => "예정됨"
    case Ended => Finished
  }

  /** The label of the link to the challenge page. */
  function ButtonLabel(status: ChallengeStatus): (r: string)
    ensures r != ""
  {
    match status
    case Active => "참여 스토리 보기"
    case Upcoming => "자세히 보기"
    case Ended => "결과 보기"
  }

  /** The three statuses have three different badge labels and three
      different button labels, so the card tells them apart. */
  lemma {:induction false} LabelsTellStatusesApart(a: ChallengeStatus, b: ChallengeStatus)
    ensures StatusLabel(a) == StatusLabel(b) <==> a == b
    ensures ButtonLabel(a) == ButtonLabel(b) <==> a == b
  {
  }

  /** The award badge: only an ended challenge with at least one story. */
  predicate ShowsAward(status: ChallengeStatus, stories: int)
    ensures ShowsAward(status, stories) ==> StatusLabel(status) == Finished && stories >= 1
  {
    status == Ended && stories > 0
  }

  /** The card's time-left text, refreshed on mount and every minute. */
  class TimeLeftClock {
    var timeLeft: string

    constructor ()
      ensures timeLeft == ""
    {
      timeLeft := "";
    }

    /** One refresh at `nowMs` for a challenge ending at `endMs`. */
    method Refresh(nowMs: int, endMs: int)
      modifies this
      ensures timeLeft == TimeLeftLabel(endMs - nowMs)
      ensures timeLeft == Finished <==> endMs <= nowMs
    {
      TimeLeftLabelCases(endMs - nowMs);
      timeLeft := TimeLeftLabel(endMs - nowMs);
    }
  }
}
