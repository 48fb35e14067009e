/** The day streak: a small state machine over calendar days. */
module Streak {
  import opened Wrappers
  import opened Records

  /**
   * The gamification record after a visit on day `today`: a second visit the same day
   * changes nothing; a visit the day after the last one extends the streak; any other
   * visit, the first one included, starts a new streak of one.
   */
  function Visit(g: Gamification, today: Day): (r: Gamification)
    ensures r.xp == g.xp && r.completedChapters == g.completedChapters
    ensures r.lastVisit == Some(today)
    ensures g.lastVisit == Some(today) ==> r == g
    ensures g.lastVisit == Some(today - 1) ==> r.streak == g.streak + 1
    ensures g.lastVisit != Some(today) && g.lastVisit != Some(today - 1) ==> r.streak == 1
  {
    if g.lastVisit == Some(today) then g
    else if g.lastVisit == Some(today - 1) then g.(streak := g.streak + 1, lastVisit := Some(today))
    else g.(streak := 1, lastVisit := Some(today))
  }

  /** The record after visits on each of `days`, in order. */
  function VisitAll(g: Gamification, days: seq<Day>): Gamification
    decreases |days|
  {
    if days == [] then g else VisitAll(Visit(g, days[0]), days[1..])
  }

  /** The days `from`, `from + 1`, ..., `from + n - 1`. */
  function Consecutive(from: Day, n: nat): (days: seq<Day>)
    ensures |days| == n && forall i :: 0 <= i < n ==> days[i] == from + i
    decreases n
  {
    if n == 0 then [] else [from] + Consecutive(from + 1, n - 1)
  }

  /** Visiting on each of `n` days straight after the last visit raises the streak by exactly `n`. */
  lemma {:induction false} ConsecutiveVisits(g: Gamification, n: nat)
    requires g.lastVisit.Some?
    ensures VisitAll(g, Consecutive(g.lastVisit.value + 1, n)).streak == g.streak + n
    ensures n > 0 ==> VisitAll(g, Consecutive(g.lastVisit.value + 1, n)).lastVisit
                        == Some(g.lastVisit.value + n)
    decreases n
  {
    if n > 0 {
      var d := g.lastVisit.value;
      var days := Consecutive(d + 1, n);
      assert days[1..] == Consecutive(d + 2, n - 1);
      ConsecutiveVisits(Visit(g, d + 1), n - 1);
    }
  }

  /** Any number of further visits on the day of the last visit leave the record as it is. */
  lemma {:induction false} SameDayVisits(g: Gamification, today: Day, k: nat)
    ensures VisitAll(Visit(g, today), seq(k, _ => today)) == Visit(g, today)
  {
    if k > 0 {
      assert seq(k, _ => today)[1..] == seq(k - 1, _ => today);
      SameDayVisits(g, today, k - 1);
    }
  }

  /** The length of the run of consecutive days that ends a visit history (repeat visits in a day count once). */
  function TrailingRun(days: seq<Day>): (n: nat)
    requires days != []
    ensures 1 <= n <= |days|
  {
    if |days| == 1 then 1
    else
      var prev := days[..|days| - 1];
      var last := days[|days| - 1];
      if prev[|prev| - 1] == last then TrailingRun(prev)
      else if prev[|prev| - 1] == last - 1 then TrailingRun(prev) + 1
      else 1
  }

  lemma {:induction false} VisitAllSnoc(g: Gamification, days: seq<Day>, d: Day)
    ensures VisitAll(g, days + [d]) == Visit(VisitAll(g, days), d)
    decreases |days|
  {
    if days != [] {
      assert (days + [d])[1..] == days[1..] + [d];
      VisitAllSnoc(Visit(g, days[0]), days[1..], d);
    }
  }

  /**
   * Starting from the default record, the streak after a history of visits is the length of
   * the run of consecutive calendar days at its end.
   */
  lemma {:induction false} StreakIsTrailingRun(days: seq<Day>)
    requires days != []
    ensures VisitAll(DEFAULT_GAMIFICATION, days).streak == TrailingRun(days)
    ensures VisitAll(DEFAULT_GAMIFICATION, days).lastVisit == Some(days[|days| - 1])
  {
    if |days| > 1 {
      var prev := days[..|days| - 1];
      StreakIsTrailingRun(prev);
      assert days == prev + [days[|days| - 1]];
      VisitAllSnoc(DEFAULT_GAMIFICATION, prev, days[|days| - 1]);
    }
  }
}
