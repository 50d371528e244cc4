/**
  The two estimators computed from a gamerscore: achievement counts and
  play time. Both are integer arithmetic on the score plus random draws;
  the rounded percentages and averages are kept as exact ratios.
*/
module Estimators {

  function Max(a: int, b: int): int { if a >= b then a else b }

  /** The achievements dictionary: `total`, `completed`, `rare` and `percentage`. */
  datatype Achievements = Achievements(total: int, completed: int, rare: int, percentage: real)

  /** The achievement total: one per 12 points, or a draw from 0..50 when the score is not positive. */
  function TotalFor(score: int, totalDraw: int): int
  {
    if score > 0 then score / 12 else totalDraw
  }

  /**
    The draws of `get_achievements`, in the ranges they are drawn from. The
    lower end of the completed draw, `int(total * 0.3)`, is a float
    computation; only `0 <= completed <= total` is required of it.
  */
  predicate AchievementDrawsFit(score: int, totalDraw: int, completed: int, rare: int)
  {
    && (score <= 0 ==> 0 <= totalDraw <= 50)
    && 0 <= completed <= TotalFor(score, totalDraw)
    && 0 <= rare <= completed / 5
  }

  /** `get_achievements`, with the draws made explicit and the percentage unrounded. */
  function AchievementsFor(score: int, totalDraw: int, completed: int, rare: int): (a: Achievements)
    requires AchievementDrawsFit(score, totalDraw, completed, rare)
    ensures 0 <= a.rare <= a.completed <= a.total
    ensures 5 * a.rare <= a.completed
    ensures score > 0 ==> 12 * a.total <= score < 12 * (a.total + 1)
    ensures score <= 0 ==> a.total <= 50
    ensures 0.0 <= a.percentage <= 100.0
    ensures a.total == 0 ==> a.percentage == 0.0
    ensures a.total > 0 ==> a.percentage * a.total as real == 100.0 * a.completed as real
  {
    var total := TotalFor(score, totalDraw);
    var pct := if total > 0 then completed as real / total as real * 100.0 else 0.0;
    PercentageBounds(completed, total);
    Achievements(total, completed, rare, pct)
  }

  lemma PercentageBounds(completed: int, total: int)
    requires 0 <= completed <= total
    ensures total > 0 ==> 0.0 <= completed as real / total as real * 100.0 <= 100.0
  {
    if total > 0 {
      var q := completed as real / total as real;
      assert q * total as real == completed as real;
      assert q <= 1.0;
    }
  }

  /** When every achievement is completed the percentage is 100. */
  lemma AllCompleted(score: int, rare: int)
    requires score >= 12 && 0 <= rare <= (score / 12) / 5
    ensures AchievementsFor(score, 0, score / 12, rare).percentage == 100.0
  {
  }

  /** The play time dictionary: `hours`, `days`, `avg` and `games`. */
  datatype Playtime = Playtime(hours: int, days: real, avg: real, games: int)

  /** `calculate_playtime`, with the jitter draw from -5..10 explicit and the ratios unrounded. */
  function PlaytimeFor(score: int, jitter: int): (p: Playtime)
    requires score != 0 ==> -5 <= jitter <= 10
    ensures score == 0 ==> p == Playtime(0, 0.0, 0.0, 0)
    ensures score != 0 ==> p.hours >= 0 && p.games >= 1
    ensures score != 0 ==> Max(0, score / 30 - 5) <= p.hours <= Max(0, score / 30 + 10)
    ensures score != 0 ==> p.games == Max(1, p.hours / 20)
    ensures p.days * 24.0 == p.hours as real
    ensures p.avg * 30.0 == p.hours as real
  {
    if score == 0 then Playtime(0, 0.0, 0.0, 0)
    else
      var hours := Max(0, score / 30 + jitter);
      Playtime(hours, hours as real / 24.0, if hours > 0 then hours as real / 30.0 else 0.0, Max(1, hours / 20))
  }

  /**
    For the same jitter a higher score never gives fewer hours or games, and
    the number of games is one per twenty hours, never fewer than one.
  */
  lemma PlaytimeMonotone(s1: int, s2: int, jitter: int)
    requires s1 != 0 && s2 != 0 && s1 <= s2 && -5 <= jitter <= 10
    ensures PlaytimeFor(s1, jitter).hours <= PlaytimeFor(s2, jitter).hours
    ensures PlaytimeFor(s1, jitter).games <= PlaytimeFor(s2, jitter).games
    ensures var p := PlaytimeFor(s2, jitter); p.games == 1 || 20 * p.games <= p.hours < 20 * (p.games + 1)
  {
    assert s1 / 30 <= s2 / 30;
  }
}
