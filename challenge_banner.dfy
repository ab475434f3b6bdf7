/** The home-page challenge banner of components/posts/ChallengeBanner.tsx:
    a days/hours/minutes/seconds countdown that one timer tick lowers by a
    second, borrowing from the larger units, and stops at zero. */
module ChallengeBanner {
  import opened Common

  /** The seconds a countdown stands for. */
  function Remaining(days: int, hours: int, minutes: int, seconds: int): int {
    days * 86400 + hours * 3600 + minutes * 60 + seconds
  }

  /** A countdown in canonical form: each unit below its carry limit. */
  predicate WellFormed(days: int, hours: int, minutes: int, seconds: int) {
    days >= 0 && 0 <= hours < 24 && 0 <= minutes < 60 && 0 <= seconds < 60
  }

  /** A canonical countdown is fixed by the seconds it stands for, so a
      tick's result is determined by `Remaining` alone. */
  lemma {:induction false} CanonicalIsUnique(d1: int, h1: int, m1: int, s1: int, d2: int, h2: int, m2: int, s2: int)
    requires WellFormed(d1, h1, m1, s1) && WellFormed(d2, h2, m2, s2)
    requires Remaining(d1, h1, m1, s1) == Remaining(d2, h2, m2, s2)
    ensures d1 == d2 && h1 == h2 && m1 == m2 && s1 == s2
  {
  }

  class Banner {
    var days: int
    var hours: int
    var minutes: int
    var seconds: int

    predicate Valid()
      reads this
    {
      WellFormed(days, hours, minutes, seconds)
    }

    function Left(): int
      reads this
    {
      Remaining(days, hours, minutes, seconds)
    }

    /** The banner starts at 2 days 14 hours 32 minutes 45 seconds. */
    constructor ()
      ensures Valid() && days == 2 && hours == 14 && minutes == 32 && seconds == 45
      ensures Left() == 225165
    {
      days, hours, minutes, seconds := 2, 14, 32, 45;
    }

    /** One second of the timer: take a second, borrow a minute, an hour
        and a day as each unit goes below zero, and clamp a countdown that
        has run out to all zeros. From a canonical state, a running
        countdown loses exactly one second and one at zero stays at zero;
        either way the state stays canonical. */
    method Tick()
      modifies this
      ensures old(Valid()) ==> Valid()
      ensures old(Valid()) && old(Left()) > 0 ==> Left() == old(Left()) - 1
      ensures old(Valid()) && old(Left()) == 0 ==> days == 0 && hours == 0 && minutes == 0 && seconds == 0
    {
      var d, h, m, s := days, hours, minutes, seconds;
      s := s - 1;
      if s < 0 {
        s := 59;
        m := m - 1;
      }
      if m < 0 {
        m := 59;
        h := h - 1;
      }
      if h < 0 {
        h := 23;
        d := d - 1;
      }
      if d < 0 {
        days, hours, minutes, seconds := 0, 0, 0, 0;
      } else {
        days, hours, minutes, seconds := d, h, m, s;
      }
    }

    /** Each unit as shown: `String(value).padStart(2, "0")`. */
    function Display(): (r: seq<string>)
      reads this
      requires Valid()
      ensures |r| == 4
    {
      [PadStart2(NatToString(days)), PadStart2(NatToString(hours)),
       PadStart2(NatToString(minutes)), PadStart2(NatToString(seconds))]
    }
  }

  /** A valid countdown's hours, minutes and seconds are shown as exactly
      two digits that read back as the value. */
  lemma {:induction false} DisplayReadsBack(b: Banner)
    requires b.Valid()
    ensures var r := b.Display();
      TwoDigitsOf(r[1], b.hours) && TwoDigitsOf(r[2], b.minutes) && TwoDigitsOf(r[3], b.seconds)
  {
    var r := b.Display();
    assert r[1] == PadStart2(NatToString(b.hours)) && r[2] == PadStart2(NatToString(b.minutes))
        && r[3] == PadStart2(NatToString(b.seconds));
    PadStart2Value(b.hours);
    PadStart2Value(b.minutes);
    PadStart2Value(b.seconds);
  }
}
