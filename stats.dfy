/** The statistics dashboard (StatsOverview): hours, days and left-over
    minutes from a minute total, the four achievements and the insight line. */
module Stats {

  /** `Math.floor(totalMinutes / 60)`: the whole hours in the total. */
  function TotalHours(totalMinutes: int): (hours: int)
    ensures hours * 60 <= totalMinutes < hours * 60 + 60
  {
    totalMinutes / 60
  }

  /** `Math.floor(totalHours / 24)`: the whole days in the total. */
  function TotalDays(totalMinutes: int): (days: int)
    ensures days * 24 <= TotalHours(totalMinutes) < days * 24 + 24
    ensures days * 1440 <= totalMinutes < days * 1440 + 1440
  {
    TotalHours(totalMinutes) / 24
  }

  /** JavaScript's `%` for a positive divisor: the remainder takes the sign
      of the dividend. */
  function JsRemainder(a: int, b: int): (r: int)
    requires b > 0
    ensures a >= 0 ==> 0 <= r < b
    ensures a < 0 ==> -b < r <= 0
    ensures a >= 0 ==> a == (a / b) * b + r
    ensures a < 0 ==> -a == ((-a) / b) * b - r
  {
    if a >= 0 then a % b else -((-a) % b)
  }

  /** `totalMinutes % 60`, shown next to the hours. */
  function MinutesPart(totalMinutes: int): int {
    JsRemainder(totalMinutes, 60)
  }

  /** For a non-negative total the dashboard's "h" and "m" figures add up to
      the total and the minutes stay below an hour. */
  lemma HoursAndMinutesRecombine(totalMinutes: int)
    requires totalMinutes >= 0
    ensures 0 <= MinutesPart(totalMinutes) < 60
    ensures TotalHours(totalMinutes) * 60 + MinutesPart(totalMinutes) == totalMinutes
  {
  }

  datatype Badge = FirstFocus | WeekWarrior | FocusMaster | ZenChampion

  /** The achievement rules: "First Focus" always, "Week Warrior" from a
      7-day streak, "Focus Master" from 100 hours, "Zen Champion" from a
      30-day streak. */
  predicate Earned(badge: Badge, streakDays: int, totalMinutes: int) {
    match badge
    case FirstFocus => true
    case WeekWarrior => streakDays >= 7
    case FocusMaster => TotalHours(totalMinutes) >= 100
    case ZenChampion => streakDays >= 30
  }

  /** 100 whole hours means 6000 minutes. */
  lemma FocusMasterInMinutes(streakDays: int, totalMinutes: int)
    ensures Earned(FocusMaster, streakDays, totalMinutes) <==> totalMinutes >= 6000
  {
    var h := TotalHours(totalMinutes);
    if h >= 100 {
      assert h * 60 >= 6000;
    } else {
      assert h * 60 <= 5940;
    }
  }

  /** A longer streak and more minutes never take an achievement away;
      "Zen Champion" in particular comes with "Week Warrior". */
  lemma EarnedMonotone(badge: Badge, s1: int, m1: int, s2: int, m2: int)
    requires s1 <= s2 && m1 <= m2 && Earned(badge, s1, m1)
    ensures Earned(badge, s2, m2)
    ensures Earned(ZenChampion, s1, m1) ==> Earned(WeekWarrior, s1, m1)
  {
    if badge == FocusMaster {
      FocusMasterInMinutes(s1, m1);
      FocusMasterInMinutes(s2, m2);
    }
  }

  datatype Achievement = Achievement(badge: Badge, earned: bool)

  /** The achievement row, in the order shown. */
  function Achievements(streakDays: int, totalMinutes: int): (r: seq<Achievement>)
    ensures |r| == 4
    ensures forall i :: 0 <= i < 4 ==> r[i].earned == Earned(r[i].badge, streakDays, totalMinutes)
    ensures (set i | 0 <= i < 4 :: r[i].badge) == {FirstFocus, WeekWarrior, FocusMaster, ZenChampion}
  {
    var r := [
      Achievement(FirstFocus, true),
      Achievement(WeekWarrior, streakDays >= 7),
      Achievement(FocusMaster, TotalHours(totalMinutes) >= 100),
      Achievement(ZenChampion, streakDays >= 30)
    ];
    assert r[0].badge == FirstFocus && r[1].badge == WeekWarrior;
    assert r[2].badge == FocusMaster && r[3].badge == ZenChampion;
    r
  }

  /** The insight line. */
  datatype Insight = StreakInsight(days: int) | HoursInsight(hours: int) | Encouragement

  /** The streak message wins from 7 days; otherwise the hours message from
      50 hours (3000 minutes); otherwise the encouragement. */
  function SelectInsight(streakDays: int, totalMinutes: int): (r: Insight)
    ensures r.StreakInsight? <==> streakDays >= 7
    ensures r.StreakInsight? ==> r.days == streakDays
    ensures r.HoursInsight? <==> streakDays < 7 && totalMinutes >= 3000
    ensures r.HoursInsight? ==> r.hours == TotalHours(totalMinutes) && r.hours >= 50
  {
    var totalHours := TotalHours(totalMinutes);
    if streakDays >= 7 then StreakInsight(streakDays)
    else if totalHours >= 50 then HoursInsight(totalHours)
    else Encouragement
  }
}
