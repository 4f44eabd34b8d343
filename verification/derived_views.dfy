/**
 * Views computed from the aggregate and the current time, with no effect on
 * it: days left to a goal, goal progress, the latest reading of a metric,
 * the weight-update cooldown and the liked recipes. The per-day metric
 * history has a module of its own (MetricHistory).
 */
module DerivedViews {
  import opened HealthTypes

  /** `getDaysToGoal`: whole days, rounded up, from `now` to the goal's deadline. */
  function DaysToGoal(goal: Goal, now: int): (days: int)
    ensures now + (days - 1) * MsPerDay < goal.deadline <= now + days * MsPerDay
    ensures days <= 0 <==> goal.deadline <= now
  {
    CeilDiv(goal.deadline - now, MsPerDay)
  }

  /**
   * `getGoalProgress`. A goal above its target is a reduction goal whose
   * starting point is taken to be as far above the current value as the
   * current value is above the target, so its progress is always one half.
   * Otherwise the progress is current / target, not clamped to 0..100.
   */
  function GoalProgress(goal: Goal): (percent: int)
    requires goal.current < goal.target ==> goal.target != 0.0
    ensures goal.current == goal.target ==> percent == 100
    ensures goal.current > goal.target ==> percent == 50
    ensures goal.current < goal.target ==>
              percent as real - 0.5 <= goal.current / goal.target * 100.0 < percent as real + 0.5
  {
    if goal.target == goal.current then 100
    else if goal.current > goal.target then
      var initial := goal.current + (goal.current - goal.target);
      var totalChange := initial - goal.target;
      var currentChange := initial - goal.current;
      assert totalChange == 2.0 * currentChange && currentChange != 0.0;
      assert currentChange / totalChange == 0.5;
      Round(currentChange / totalChange * 100.0)
    else
      Round(goal.current / goal.target * 100.0)
  }

  /** An increase goal started from zero and not yet reached lies in 0..100. */
  lemma ProgressBoundedForIncreaseGoal(goal: Goal)
    requires 0.0 <= goal.current < goal.target
    ensures 0 <= GoalProgress(goal) <= 100
  {
    var x := goal.current / goal.target * 100.0;
    assert goal.current / goal.target < 1.0;
    assert 0.0 <= x < 100.0;
  }

  /** The result is not clamped: a value below zero gives a negative percentage. */
  lemma ProgressNotClamped()
    ensures GoalProgress(Goal("g", "Water Intake", 2.0, -1.0, "L", 0)) == -50
  {
    var g := Goal("g", "Water Intake", 2.0, -1.0, "L", 0);
    assert g.current / g.target * 100.0 == -50.0;
  }

  datatype WeightStatus = WeightStatus(canUpdate: bool, hoursRemaining: int)

  /** The minimum time between two weight readings: 48 hours. */
  const WeightCooldownMs: int := 48 * MsPerHour

  /**
   * `canUpdateWeight`: allowed when no weight was recorded or 48 hours have
   * passed since the last one; otherwise refused, with the remaining time in
   * whole hours rounded up.
   */
  function WeightCooldown(lastWeightUpdate: Option<int>, now: int): (status: WeightStatus)
    ensures lastWeightUpdate.None? ==> status == WeightStatus(true, 0)
    ensures lastWeightUpdate.Some? ==>
              (status.canUpdate <==> now - lastWeightUpdate.value >= WeightCooldownMs)
    ensures status.canUpdate ==> status.hoursRemaining == 0
    ensures !status.canUpdate ==>
              now + (status.hoursRemaining - 1) * MsPerHour
                < lastWeightUpdate.value + WeightCooldownMs
                <= now + status.hoursRemaining * MsPerHour
    ensures !status.canUpdate && now >= lastWeightUpdate.value ==>
              1 <= status.hoursRemaining <= 48
  {
    match lastWeightUpdate
    case None => WeightStatus(true, 0)
    case Some(last) =>
      var elapsed := now - last;
      if elapsed >= WeightCooldownMs then WeightStatus(true, 0)
      else WeightStatus(false, CeilDiv(WeightCooldownMs - elapsed, MsPerHour))
  }

  // ---------------------------------------------------------------------------
  // getLatestMetric

  /** The readings of one metric series, in log order. */
  function SameName(metrics: seq<Metric>, name: string): (series: seq<Metric>)
    ensures forall m :: m in series <==> m in metrics && m.name == name
  {
    Filter(metrics, (m: Metric) => m.name == name)
  }

  /** `series[j]` is a reading with the greatest date, and every earlier one is strictly older. */
  ghost predicate FirstLatestAt(series: seq<Metric>, j: int) {
    && 0 <= j < |series|
    && (forall i :: 0 <= i < |series| ==> series[i].date <= series[j].date)
    && (forall i :: 0 <= i < j ==> series[i].date < series[j].date)
  }

  /**
   * The `reduce` of `getLatestMetric`, by position: a later reading replaces
   * the kept one only if it is strictly newer.
   */
  function LatestIndex(series: seq<Metric>): (j: int)
    requires |series| > 0
    ensures FirstLatestAt(series, j)
    decreases |series|
  {
    if |series| == 1 then 0
    else
      var n := |series| - 1;
      var k := LatestIndex(series[..n]);
      assert forall i :: 0 <= i < n ==> series[..n][i] == series[i];
      if series[n].date > series[k].date then n else k
  }

  /**
   * `getLatestMetric`: none exactly when no reading has the name; otherwise a
   * reading of that name dated no earlier than any other, the first such in
   * log order.
   */
  function LatestMetric(metrics: seq<Metric>, name: string): (latest: Option<Metric>)
    ensures latest.None? <==> forall m :: m in metrics ==> m.name != name
    ensures latest.Some? ==>
              && latest.value in metrics
              && latest.value.name == name
              && (forall m :: m in metrics && m.name == name ==> m.date <= latest.value.date)
              && exists j :: FirstLatestAt(SameName(metrics, name), j)
                             && SameName(metrics, name)[j] == latest.value
  {
    var series := SameName(metrics, name);
    if |series| == 0 then
      None
    else
      var r := series[LatestIndex(series)];
      forall m | m in metrics && m.name == name ensures m.date <= r.date {
        assert m in series;
        var i :| 0 <= i < |series| && series[i] == m;
      }
      Some(r)
  }

  /**
   * Appending a reading newer than every reading of its series makes it the
   * latest one (the readings are compared by date, and an equal date would
   * leave the older entry in place).
   */
  lemma {:induction false} LatestAfterAppend(metrics: seq<Metric>, m: Metric)
    requires forall x :: x in metrics && x.name == m.name ==> x.date < m.date
    ensures LatestMetric(metrics + [m], m.name) == Some(m)
  {
    var p := (x: Metric) => x.name == m.name;
    FilterConcat(metrics, [m], p);
    assert Filter([m], p) == [m];
    var before := SameName(metrics, m.name);
    var after := SameName(metrics + [m], m.name);
    assert after == before + [m];
    var r := LatestMetric(metrics + [m], m.name);
    assert r.Some?;
    var j :| FirstLatestAt(after, j) && after[j] == r.value;
    assert after[|before|] == m;
    forall i | 0 <= i < |before| ensures after[i].date < m.date {
      assert after[i] == before[i] && before[i] in metrics;
    }
  }

  // ---------------------------------------------------------------------------
  // getLikedRecipes

  /** `getLikedRecipes`: the recipes whose `liked` flag is set, in catalogue order. */
  function LikedRecipes(recipes: seq<Recipe>): (liked: seq<Recipe>)
    ensures forall r :: r in liked <==> r in recipes && r.liked == Some(true)
    ensures NoDups(recipes) ==> NoDups(liked)
  {
    Filter(recipes, (r: Recipe) => r.liked == Some(true))
  }
}
