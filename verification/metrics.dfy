/** The derived metrics of a project (the arithmetic methods of
    `Trajectory::Project`).

    Every metric reads the project's stories collection; here that collection
    is passed in as `c`, the value the project's `stories` accessor returns.
    The source computes with Floats (`/ 7.0`, `.to_f`, `.ceil`, `.round(1)`);
    the model computes the same formulas exactly over `real`, and proves the
    day and iteration counts equal to integer ceiling divisions. */
module Metrics {
  import opened Wrappers
  import opened Errors
  import opened Sequences
  import opened StoryEntity
  import opened StoriesCollection
  import opened ProjectEntity

  /** `NUMBER_OF_WORKING_DAYS_BY_WEEK`. */
  const WorkingDaysPerWeek: int := 5

  /** The divisor of `estimated_velocity_per_day`. */
  const DaysPerWeek: int := 7

  // ---------------------------------------------------------------------------
  // Rounding
  // ---------------------------------------------------------------------------

  /** `Float#ceil`: the least integer not below `x`. */
  function Ceil(x: real): (r: int)
    ensures (r - 1) as real < x <= r as real
  {
    -((-x).Floor)
  }

  /** Ceiling of `a / b` on integers: the reference the Float formulas are
      checked against. */
  function CeilDiv(a: int, b: int): int
    requires b != 0
  {
    if b > 0 then (a + b - 1) / b else (-a - b - 1) / (-b)
  }

  /** `Float#round(1)`: round to one decimal, halves away from zero. The result
      is a multiple of 0.1 within 0.05 of `x`; a tie goes to the multiple
      further from zero. */
  function Round1(x: real): (r: real)
    ensures (r * 10.0).Floor as real == r * 10.0
    ensures 0.0 <= x ==> x - 0.05 < r <= x + 0.05
    ensures x < 0.0 ==> x - 0.05 <= r < x + 0.05
  {
    if x >= 0.0 then RoundHalfUp(x) else -RoundHalfUp(-x)
  }

  /** Rounding of a non-negative value to one decimal, halves upwards. */
  function RoundHalfUp(y: real): (r: real)
    requires y >= 0.0
    ensures (r * 10.0).Floor as real == r * 10.0
    ensures (-r * 10.0).Floor as real == -r * 10.0
    ensures y - 0.05 < r <= y + 0.05
  {
    var n := (y * 10.0 + 0.5).Floor;
    var r := n as real / 10.0;
    assert r * 10.0 == n as real;
    assert -r * 10.0 == (-n) as real;
    FloorOfInteger(n);
    FloorOfInteger(-n);
    r
  }

  lemma FloorOfInteger(n: int)
    ensures (n as real).Floor == n
  {
  }

  /** An integer bracketing `x` the way `Ceil` does is `Ceil(x)`. */
  lemma CeilUnique(x: real, n: int)
    requires (n - 1) as real < x <= n as real
    ensures Ceil(x) == n
  {
  }

  /** The exact quotient rounded up is the integer ceiling division. */
  lemma CeilOfQuotient(a: int, b: int)
    requires b != 0
    ensures Ceil(a as real / b as real) == CeilDiv(a, b)
  {
    if b > 0 {
      PositiveCeilOfQuotient(a, b);
    } else {
      PositiveCeilOfQuotient(-a, -b);
      assert a as real / b as real == (-a) as real / (-b) as real;
    }
  }

  lemma PositiveCeilOfQuotient(a: int, b: int)
    requires b > 0
    ensures Ceil(a as real / b as real) == (a + b - 1) / b
  {
    var q := (a + b - 1) / b;
    var m := (a + b - 1) % b;
    assert a + b - 1 == b * q + m && 0 <= m < b;
    assert a <= b * q;
    assert b * (q - 1) < a;
    var x := a as real / b as real;
    assert x * b as real == a as real;
    assert (b * q) as real == b as real * q as real;
    assert (b * (q - 1)) as real == b as real * (q - 1) as real;
    assert x <= q as real;
    assert (q - 1) as real < x;
    CeilUnique(x, q);
  }

  /** Rounding a percentage keeps it a percentage, and 0 and 100 are exact. */
  lemma Round1Bounds(x: real)
    requires 0.0 <= x <= 100.0
    ensures 0.0 <= Round1(x) <= 100.0
    ensures x == 0.0 ==> Round1(x) == 0.0
    ensures x == 100.0 ==> Round1(x) == 100.0
  {
    var n := (x * 10.0 + 0.5).Floor;
    assert n as real <= x * 10.0 + 0.5 < n as real + 1.0;
    assert 0 <= n <= 1000;
    if x == 0.0 {
      assert n == 0;
    }
    if x == 100.0 {
      assert n == 1000;
    }
  }

  // ---------------------------------------------------------------------------
  // Points
  // ---------------------------------------------------------------------------

  /** Every story carries a non-negative estimate (well-formed data). */
  ghost predicate NonNegativePoints(c: Stories)
  {
    forall i :: 0 <= i < |c.items| ==> Points(c.items[i]) >= 0
  }

  /** `total_points`: the points of all stories accumulated left to right
      (`inject(0)`); this is their sum, 0 for none, and never negative for
      well-formed data. */
  function TotalPoints(c: Stories): (r: int)
    ensures r == SumBy(c.items, Points)
    ensures NonNegativePoints(c) ==> r >= 0
  {
    InjectSumIsSum(0, c.items, Points);
    PointsSumNonNegative(c);
    InjectSum(0, c.items, Points)
  }

  lemma PointsSumNonNegative(c: Stories)
    ensures NonNegativePoints(c) ==> SumBy(c.items, Points) >= 0
  {
    if NonNegativePoints(c) {
      SumByNonNegative(c.items, Points);
    }
  }

  /** `remaining_points`: the points of the `not_completed` stories
      accumulated left to right; together with the points of the completed
      stories they make up the total. */
  function RemainingPoints(c: Stories, isCompleted: Story -> bool): (r: int)
    ensures r == SumBy(NotCompleted(c, isCompleted), Points)
    ensures r + SumBy(Completed(c, isCompleted), Points) == TotalPoints(c)
  {
    InjectSumIsSum(0, NotCompleted(c, isCompleted), Points);
    SumByPartition(c.items, isCompleted, Points);
    InjectSum(0, NotCompleted(c, isCompleted), Points)
  }

  /** `accepted_points`: total minus remaining, which is exactly the sum of the
      points of the completed stories; never negative for well-formed data. */
  function AcceptedPoints(c: Stories, isCompleted: Story -> bool): (r: int)
    ensures r + RemainingPoints(c, isCompleted) == TotalPoints(c)
    ensures r == SumBy(Completed(c, isCompleted), Points)
    ensures NonNegativePoints(c) ==> r >= 0
  {
    SumByPartition(c.items, isCompleted, Points);
    CompletedPointsNonNegative(c, isCompleted);
    TotalPoints(c) - RemainingPoints(c, isCompleted)
  }

  lemma CompletedPointsNonNegative(c: Stories, isCompleted: Story -> bool)
    ensures NonNegativePoints(c) ==> SumBy(Completed(c, isCompleted), Points) >= 0
  {
    if NonNegativePoints(c) {
      var done := Completed(c, isCompleted);
      forall i | 0 <= i < |done|
        ensures Points(done[i]) >= 0
      {
        assert done[i] in c.items;
      }
      SumByNonNegative(done, Points);
    }
  }

  /** With non-negative estimates, 0 <= remaining <= total. */
  lemma PointsBounds(c: Stories, isCompleted: Story -> bool)
    requires NonNegativePoints(c)
    ensures 0 <= RemainingPoints(c, isCompleted) <= TotalPoints(c)
    ensures TotalPoints(c) >= 0
  {
    var left := NotCompleted(c, isCompleted);
    forall i | 0 <= i < |left|
      ensures Points(left[i]) >= 0
    {
      assert left[i] in c.items;
    }
    SumByNonNegative(left, Points);
    var accepted := AcceptedPoints(c, isCompleted);
  }

  // ---------------------------------------------------------------------------
  // Completion
  // ---------------------------------------------------------------------------

  /** The unrounded percentage `accepted / total * 100`. */
  function ExactPercent(c: Stories, isCompleted: Story -> bool): real
    requires TotalPoints(c) != 0
  {
    AcceptedPoints(c, isCompleted) as real / TotalPoints(c) as real * 100.0
  }

  /** `percent_complete`, rounded to one decimal. The source divides by
      `total_points` unguarded, so a zero total is excluded by the
      precondition. With non-negative estimates the result is a percentage;
      it is 100 when nothing remains and 0 when nothing is accepted. A tie
      between two multiples of 0.1 goes away from zero. */
  function PercentComplete(c: Stories, isCompleted: Story -> bool): (r: real)
    requires TotalPoints(c) != 0
    ensures NonNegativePoints(c) ==> 0.0 <= r <= 100.0
    ensures RemainingPoints(c, isCompleted) == 0 ==> r == 100.0
    ensures AcceptedPoints(c, isCompleted) == 0 ==> r == 0.0
    ensures (r * 10.0).Floor as real == r * 10.0
    ensures -0.05 <= r - ExactPercent(c, isCompleted) <= 0.05
    ensures ExactPercent(c, isCompleted) >= 0.0 ==>
      ExactPercent(c, isCompleted) - 0.05 < r <= ExactPercent(c, isCompleted) + 0.05
    ensures ExactPercent(c, isCompleted) < 0.0 ==>
      ExactPercent(c, isCompleted) - 0.05 <= r < ExactPercent(c, isCompleted) + 0.05
  {
    RoundedPercentFacts(c, isCompleted);
    Round1(ExactPercent(c, isCompleted))
  }

  lemma RoundedPercentFacts(c: Stories, isCompleted: Story -> bool)
    requires TotalPoints(c) != 0
    ensures NonNegativePoints(c) ==> 0.0 <= Round1(ExactPercent(c, isCompleted)) <= 100.0
    ensures RemainingPoints(c, isCompleted) == 0 ==> Round1(ExactPercent(c, isCompleted)) == 100.0
    ensures AcceptedPoints(c, isCompleted) == 0 ==> Round1(ExactPercent(c, isCompleted)) == 0.0
  {
    var exact := ExactPercent(c, isCompleted);
    ExactPercentBounds(c, isCompleted);
    if RemainingPoints(c, isCompleted) == 0 {
      var t := TotalPoints(c) as real;
      assert AcceptedPoints(c, isCompleted) as real == t;
      DivideBySelf(t);
      assert exact == 100.0;
    }
    if NonNegativePoints(c) || exact == 0.0 || exact == 100.0 {
      Round1Bounds(exact);
    }
  }

  lemma DivideBySelf(t: real)
    requires t != 0.0
    ensures t / t == 1.0
  {
    assert (t / t) * t == t;
  }

  lemma ExactPercentBounds(c: Stories, isCompleted: Story -> bool)
    requires TotalPoints(c) != 0
    ensures NonNegativePoints(c) ==> 0.0 <= ExactPercent(c, isCompleted) <= 100.0
    ensures AcceptedPoints(c, isCompleted) == 0 ==> ExactPercent(c, isCompleted) == 0.0
  {
    var a := AcceptedPoints(c, isCompleted);
    var t := TotalPoints(c);
    PercentOfZero(a, t);
    if NonNegativePoints(c) {
      PointsBounds(c, isCompleted);
      PercentAtMostHundred(a, t);
    }
  }

  lemma PercentOfZero(a: int, t: int)
    requires t != 0
    ensures a == 0 ==> a as real / t as real * 100.0 == 0.0
  {
  }

  lemma PercentAtMostHundred(a: int, t: int)
    requires 0 <= a <= t && t > 0
    ensures 0.0 <= a as real / t as real * 100.0 <= 100.0
  {
    FractionAtMostOne(a as real, t as real);
  }

  lemma FractionAtMostOne(a: real, t: real)
    requires 0.0 <= a <= t && t > 0.0
    ensures 0.0 <= a / t <= 1.0
  {
    assert (a / t) * t == a;
  }

  // ---------------------------------------------------------------------------
  // Projections
  // ---------------------------------------------------------------------------

  /** `estimated_velocity_per_day`: a seventh of the velocity; zero exactly for zero velocity. */
  function EstimatedVelocityPerDay(p: Project): (r: real)
    ensures r * DaysPerWeek as real == p.fields.estimatedVelocity as real
    ensures r == 0.0 <==> p.fields.estimatedVelocity == 0
  {
    p.fields.estimatedVelocity as real / DaysPerWeek as real
  }

  /** `estimated_velocity_per_working_day`: a fifth of the velocity; zero exactly for zero velocity. */
  function EstimatedVelocityPerWorkingDay(p: Project): (r: real)
    ensures r * WorkingDaysPerWeek as real == p.fields.estimatedVelocity as real
    ensures r == 0.0 <==> p.fields.estimatedVelocity == 0
  {
    p.fields.estimatedVelocity as real / WorkingDaysPerWeek as real
  }

  /** Dividing points by a per-period velocity is dividing `period * points` by the velocity. */
  lemma QuotientByRate(points: int, velocity: int, period: int)
    requires velocity != 0 && period > 0
    ensures points as real / (velocity as real / period as real)
            == (period * points) as real / velocity as real
  {
  }

  /** `remaining_days`: raises `VelocityEqualToZeroError` exactly when the
      estimated velocity is zero; otherwise the days needed at a seventh of
      the velocity per day, rounded up. */
  function RemainingDays(p: Project, c: Stories, isCompleted: Story -> bool): (r: Result<int, Error>)
    ensures r.Failure? <==> p.fields.estimatedVelocity == 0
    ensures r.Failure? ==> r.error == VelocityEqualToZero(p.id)
    ensures r.Success? ==>
      r.value == CeilDiv(DaysPerWeek * RemainingPoints(c, isCompleted), p.fields.estimatedVelocity)
  {
    var perDay := EstimatedVelocityPerDay(p);
    if perDay == 0.0 then Failure(VelocityEqualToZero(p.id))
    else
      var remaining := RemainingPoints(c, isCompleted);
      QuotientByRate(remaining, p.fields.estimatedVelocity, DaysPerWeek);
      CeilOfQuotient(DaysPerWeek * remaining, p.fields.estimatedVelocity);
      Success(Ceil(remaining as real / perDay))
  }

  /** `remaining_working_days`: as `remaining_days`, over five working days a week. */
  function RemainingWorkingDays(p: Project, c: Stories, isCompleted: Story -> bool): (r: Result<int, Error>)
    ensures r.Failure? <==> p.fields.estimatedVelocity == 0
    ensures r.Failure? ==> r.error == VelocityEqualToZero(p.id)
    ensures r.Success? ==>
      r.value == CeilDiv(WorkingDaysPerWeek * RemainingPoints(c, isCompleted), p.fields.estimatedVelocity)
  {
    var perDay := EstimatedVelocityPerWorkingDay(p);
    if perDay == 0.0 then Failure(VelocityEqualToZero(p.id))
    else
      var remaining := RemainingPoints(c, isCompleted);
      QuotientByRate(remaining, p.fields.estimatedVelocity, WorkingDaysPerWeek);
      CeilOfQuotient(WorkingDaysPerWeek * remaining, p.fields.estimatedVelocity);
      Success(Ceil(remaining as real / perDay))
  }

  /** `remaining_iterations`: remaining points over velocity, rounded up. The
      source does not guard the division, so a zero velocity is excluded by
      the precondition. */
  function RemainingIterations(p: Project, c: Stories, isCompleted: Story -> bool): (r: int)
    requires p.fields.estimatedVelocity != 0
    ensures r == CeilDiv(RemainingPoints(c, isCompleted), p.fields.estimatedVelocity)
  {
    CeilOfQuotient(RemainingPoints(c, isCompleted), p.fields.estimatedVelocity);
    Ceil(RemainingPoints(c, isCompleted) as real / p.fields.estimatedVelocity as real)
  }

  /** With positive velocity and no negative estimates, the projections are
      non-negative, zero exactly when nothing remains, and the working-day
      count never exceeds the calendar-day count. */
  lemma ProjectionsOrdered(p: Project, c: Stories, isCompleted: Story -> bool)
    requires p.fields.estimatedVelocity > 0
    requires NonNegativePoints(c)
    ensures 0 <= RemainingWorkingDays(p, c, isCompleted).value <= RemainingDays(p, c, isCompleted).value
    ensures RemainingDays(p, c, isCompleted).value == 0 <==> RemainingPoints(c, isCompleted) == 0
    ensures 0 <= RemainingIterations(p, c, isCompleted) <= RemainingWorkingDays(p, c, isCompleted).value
  {
    PointsBounds(c, isCompleted);
    var v := p.fields.estimatedVelocity;
    var rem := RemainingPoints(c, isCompleted);
    CeilDivMonotone(rem, WorkingDaysPerWeek * rem, v);
    CeilDivMonotone(WorkingDaysPerWeek * rem, DaysPerWeek * rem, v);
    CeilDivMonotone(0, rem, v);
    if rem > 0 {
      CeilDivMonotone(1, DaysPerWeek * rem, v);
    }
  }

  lemma CeilDivMonotone(a: int, b: int, v: int)
    requires v > 0 && a <= b
    ensures CeilDiv(a, v) <= CeilDiv(b, v)
    ensures a == 0 ==> CeilDiv(a, v) == 0
    ensures a == 1 ==> CeilDiv(a, v) == 1
  {
    CeilOfQuotient(a, v);
    CeilOfQuotient(b, v);
    assert a as real / v as real <= b as real / v as real;
    if a == 0 {
      CeilUnique(0.0, 0);
    }
    if a == 1 {
      assert 0.0 < 1.0 / v as real <= 1.0;
      CeilUnique(1.0 / v as real, 1);
    }
  }

  // ---------------------------------------------------------------------------
  // Historic velocity
  // ---------------------------------------------------------------------------

  predicate IsNonZero(v: int)
  {
    v != 0
  }

  /** `any? { |velocity| velocity != 0 }`. */
  function AnyNonZero(s: seq<int>): (r: bool)
    ensures r <==> exists i :: 0 <= i < |s| && s[i] != 0
  {
    if |s| == 0 then false
    else if s[0] != 0 then true
    else
      var rest := AnyNonZero(s[1..]);
      assert forall i :: 1 <= i < |s| ==> s[i] == s[1..][i - 1];
      rest
  }

  /** `has_started?`: some past iteration had a non-zero velocity (false for
      an empty history). */
  function HasStarted(p: Project): (r: bool)
    ensures r <==> exists i :: 0 <= i < |p.fields.historicVelocity| && p.fields.historicVelocity[i] != 0
  {
    AnyNonZero(p.fields.historicVelocity)
  }

  /** `last_non_null_velocity`: raises `VelocityAlwaysEqualToZero` exactly when
      the project has not started; otherwise the non-zero velocity after which
      every recorded velocity is zero (the most recent non-zero one). */
  function LastNonNullVelocity(p: Project): (r: Result<int, Error>)
    ensures r.Failure? <==> !HasStarted(p)
    ensures r.Failure? ==> r.error == VelocityAlwaysEqualToZero
    ensures r.Success? ==> r.value != 0
    ensures r.Success? ==>
      exists k :: 0 <= k < |p.fields.historicVelocity|
        && p.fields.historicVelocity[k] == r.value
        && forall j :: k < j < |p.fields.historicVelocity| ==> p.fields.historicVelocity[j] == 0
  {
    var history := p.fields.historicVelocity;
    if !HasStarted(p) then Failure(VelocityAlwaysEqualToZero)
    else
      FindFirstOfReverseIsLast(history, IsNonZero);
      Success(FindFirst(Reverse(history), IsNonZero).value)
  }

  // ---------------------------------------------------------------------------
  // Worked examples
  // ---------------------------------------------------------------------------

  const ExampleFields := StoryFields("", "", 0, "", [], "", false, "", "", false, 0, false, false, "", 0, "unstarted")

  function ExampleStory(id: int, points: int): Story
  {
    Story(id, Some(1), ExampleFields.(points := points))
  }

  function ExampleProject(velocity: int, history: seq<int>): Project
  {
    Project(1, ProjectFields("example", false, "", velocity, history, "example", "", 0, 0), None)
  }

  /** A `completed?` that holds for no story. */
  predicate NothingDone(s: Story)
  {
    false
  }

  function ThreeStories(): Stories
  {
    Stories([ExampleStory(1, 3), ExampleStory(2, 5), ExampleStory(3, 2)])
  }

  lemma ThreeStoriesPoints()
    ensures TotalPoints(ThreeStories()) == 10
    ensures RemainingPoints(ThreeStories(), NothingDone) == 10
    ensures AcceptedPoints(ThreeStories(), NothingDone) == 0
  {
    var c := ThreeStories();
    assert [ExampleStory(3, 2)][1..] == [];
    assert SumBy([ExampleStory(3, 2)], Points) == 2;
    assert [ExampleStory(2, 5), ExampleStory(3, 2)][1..] == [ExampleStory(3, 2)];
    assert c.items[1..] == [ExampleStory(2, 5), ExampleStory(3, 2)];
    assert SumBy(c.items, Points) == 10;
    RejectNothing(c.items, NothingDone);
  }

  /** Three unstarted stories of 3, 5 and 2 points at velocity 14: 10 points
      remain, nothing is done, and the work takes 5 days (10 / 2.0). */
  lemma ThreeStoriesExample()
    ensures TotalPoints(ThreeStories()) == 10
    ensures RemainingPoints(ThreeStories(), NothingDone) == 10
    ensures PercentComplete(ThreeStories(), NothingDone) == 0.0
    ensures RemainingDays(ExampleProject(14, []), ThreeStories(), NothingDone) == Success(5)
  {
    ThreeStoriesPoints();
    assert CeilDiv(70, 14) == 5;
  }

  /** 10 remaining points at velocity 7 take 10 days, not 9. */
  lemma TenPointsAtVelocitySevenExample()
    ensures RemainingDays(ExampleProject(7, []), Stories([ExampleStory(1, 10)]), NothingDone) == Success(10)
  {
    var c := Stories([ExampleStory(1, 10)]);
    RejectNothing(c.items, NothingDone);
    assert CeilDiv(70, 7) == 10;
  }

  /** 17 remaining points at velocity 17 take exactly 7 days (119 / 17). The
      program's Float `17 / (17 / 7.0)` lands just above 7 and ceils to 8. */
  lemma SeventeenPointsAtVelocitySeventeenExample()
    ensures RemainingDays(ExampleProject(17, []), Stories([ExampleStory(1, 17)]), NothingDone) == Success(7)
  {
    var c := Stories([ExampleStory(1, 17)]);
    RejectNothing(c.items, NothingDone);
    assert CeilDiv(119, 17) == 7;
  }

  /** 49 of 400 points accepted is exactly 12.25 %, a tie that rounds up to 12.3. */
  lemma PercentTieExample()
    ensures Round1(49.0 / 400.0 * 100.0) == 12.3
  {
    assert 49.0 / 400.0 * 100.0 == 12.25;
    assert (12.25 * 10.0 + 0.5).Floor == 123;
  }

  /** The most recent non-zero velocity of [0, 3, 0, 5, 0] is 5; [0, 0, 0] never started. */
  lemma LastNonNullVelocityExamples()
    ensures LastNonNullVelocity(ExampleProject(1, [0, 3, 0, 5, 0])) == Success(5)
    ensures LastNonNullVelocity(ExampleProject(1, [0, 0, 0])) == Failure(VelocityAlwaysEqualToZero)
  {
    var r := LastNonNullVelocity(ExampleProject(1, [0, 3, 0, 5, 0]));
    assert HasStarted(ExampleProject(1, [0, 3, 0, 5, 0])) by {
      assert [0, 3, 0, 5, 0][1] != 0;
    }
    var k :| 0 <= k < 5 && [0, 3, 0, 5, 0][k] == r.value
             && forall j :: k < j < 5 ==> [0, 3, 0, 5, 0][j] == 0;
    assert k == 3;
  }
}
