/**
 * The provider that holds the application's copy of the aggregate
 * (`healthData`, absent until the first load) and the update rules it
 * applies itself: the goal upsert, metric tracking and the dark-mode
 * toggle. Its other operations delegate to the store and then reload.
 *
 * Every operation does nothing while the copy is absent. The provider's own
 * rules are computed from its copy, which is then written to the store and
 * kept as the new copy.
 */
module HealthContext {
  import opened HealthTypes
  import opened DerivedViews
  import opened LocalStorage

  // ---------------------------------------------------------------------------
  // updateGoal

  predicate HasGoal(goals: seq<Goal>, goalId: string) {
    exists i :: 0 <= i < |goals| && goals[i].id == goalId
  }

  /** `goals[i]` is the first goal with id `goalId`. */
  ghost predicate FirstGoalAt(goals: seq<Goal>, goalId: string, i: int) {
    0 <= i < |goals| && goals[i].id == goalId && forall j :: 0 <= j < i ==> goals[j].id != goalId
  }

  ghost predicate UniqueGoalIds(goals: seq<Goal>) {
    forall i, j :: 0 <= i < j < |goals| ==> goals[i].id != goals[j].id
  }

  /**
   * The goal list after `updateGoal`: the first goal with the same id is
   * replaced in place, or, when there is none, the goal is appended.
   */
  function UpsertGoal(goals: seq<Goal>, goal: Goal): (r: seq<Goal>)
    ensures HasGoal(goals, goal.id) ==> |r| == |goals|
    ensures !HasGoal(goals, goal.id) ==> r == goals + [goal]
    ensures forall i :: FirstGoalAt(goals, goal.id, i) ==> r[i] == goal
    ensures forall i :: 0 <= i < |goals| && !FirstGoalAt(goals, goal.id, i) ==> r[i] == goals[i]
  {
    var goalIndex := FindIndex(goals, (g: Goal) => g.id == goal.id);
    if goalIndex != -1 then goals[goalIndex := goal] else goals + [goal]
  }

  /** The upsert keeps goal ids unique. */
  lemma UpsertKeepsIdsUnique(goals: seq<Goal>, goal: Goal)
    requires UniqueGoalIds(goals)
    ensures UniqueGoalIds(UpsertGoal(goals, goal))
  {
    var r := UpsertGoal(goals, goal);
    if HasGoal(goals, goal.id) {
      var k :| 0 <= k < |goals| && goals[k].id == goal.id;
      assert FirstGoalAt(goals, goal.id, k);
      forall i | 0 <= i < |r| ensures r[i].id == goals[i].id {
        if i != k {
          assert !FirstGoalAt(goals, goal.id, i) by {
            assert goals[i].id != goals[k].id;
          }
        }
      }
    }
  }

  /** Upserting the same goal twice is the same as upserting it once. */
  lemma UpsertIdempotent(goals: seq<Goal>, goal: Goal)
    ensures UpsertGoal(UpsertGoal(goals, goal), goal) == UpsertGoal(goals, goal)
  {
    var once := UpsertGoal(goals, goal);
    var k := FindIndex(goals, (g: Goal) => g.id == goal.id);
    if k != -1 {
      assert FirstGoalAt(goals, goal.id, k);
      assert FirstGoalAt(once, goal.id, k) by {
        forall j | 0 <= j < k ensures once[j].id != goal.id {
          assert !FirstGoalAt(goals, goal.id, j);
        }
      }
    } else {
      assert FirstGoalAt(once, goal.id, |goals|);
    }
    assert HasGoal(once, goal.id) by { assert goal == once[|once| - 1] || k != -1; }
    var twice := UpsertGoal(once, goal);
    assert forall i :: 0 <= i < |once| ==> twice[i] == once[i];
  }

  // ---------------------------------------------------------------------------
  // updateMetricTracking and toggleDarkMode

  /**
   * The selected metric ids after `updateMetricTracking`: tracking appends the
   * id unless it is already there; untracking removes every occurrence.
   */
  function TrackedMetrics(selected: seq<string>, metricId: string, track: bool): (r: seq<string>)
    ensures track ==> metricId in r
    ensures track && metricId in selected ==> r == selected
    ensures track && metricId !in selected ==> r == selected + [metricId]
    ensures !track ==> forall x :: x in r <==> x in selected && x != metricId
    ensures NoDups(selected) ==> NoDups(r)
  {
    if track then
      if metricId !in selected then selected + [metricId] else selected
    else
      Filter(selected, (x: string) => x != metricId)
  }

  /** Untracking keeps the remaining ids in their relative order. */
  lemma UntrackKeepsOrder(a: seq<string>, b: seq<string>, metricId: string)
    ensures TrackedMetrics(a + b, metricId, false)
            == TrackedMetrics(a, metricId, false) + TrackedMetrics(b, metricId, false)
  {
    FilterConcat(a, b, (x: string) => x != metricId);
  }

  /** The settings after `toggleDarkMode`: the flag flips and nothing else changes. */
  function ToggledDarkMode(settings: Settings): (r: Settings)
    ensures r.darkMode != settings.darkMode
    ensures r.(darkMode := settings.darkMode) == settings
  {
    settings.(darkMode := !settings.darkMode)
  }

  /** What the provider's reload leaves in the store: the aggregate after the daily reset. */
  function AfterLoad(d: HealthData, now: int, localDay: int -> int): (r: HealthData)
    ensures r.(dailyTips := d.dailyTips) == d
    ensures localDay(r.dailyTips.lastUpdated) == localDay(now)
    ensures localDay(d.dailyTips.lastUpdated) == localDay(now) ==> r == d
    ensures localDay(d.dailyTips.lastUpdated) != localDay(now) ==>
              forall i :: 0 <= i < |r.dailyTips.tips| ==> !r.dailyTips.tips[i].completed
  {
    d.(dailyTips := ResetTips(d.dailyTips, now, localDay))
  }

  // ---------------------------------------------------------------------------
  // The provider

  class HealthProvider {
    const store: HealthStore
    /** The provider's copy of the aggregate; `None` until the first load. */
    var healthData: Option<HealthData>
    var loading: bool

    constructor (store: HealthStore)
      ensures this.store == store && healthData == None && loading
    {
      this.store := store;
      healthData := None;
      loading := true;
    }

    /** `loadData`: the daily reset runs before the aggregate is read, so no stale completion is shown. */
    method LoadData(now: int, localDay: int -> int)
      modifies this, store
      ensures store.data == AfterLoad(old(store.data), now, localDay)
      ensures healthData == Some(store.data) && !loading
      ensures localDay(healthData.value.dailyTips.lastUpdated) == localDay(now)
    {
      loading := true;
      store.ResetDailyTips(now, localDay);
      var data := store.Load();
      healthData := Some(data);
      loading := false;
    }

    /** `refreshData`. */
    method RefreshData(now: int, localDay: int -> int)
      modifies this, store
      ensures store.data == AfterLoad(old(store.data), now, localDay)
      ensures healthData == Some(store.data) && !loading
    {
      LoadData(now, localDay);
    }

    /** `addPainPoint`: `tId` is the store's clock read that names the pain point, `now` the one that dates it. */
    method AddPainPoint(emoji: string, description: string, tId: int, now: int, localDay: int -> int)
      modifies this, store
      ensures old(healthData).None? ==> unchanged(this) && unchanged(store)
      ensures old(healthData).Some? ==>
                && store.data == AfterLoad(WithPainPoint(old(store.data), emoji, description, tId, now), now, localDay)
                && healthData == Some(store.data) && !loading
    {
      if healthData.None? {
        return;
      }
      store.AddPainPoint(emoji, description, tId, now);
      RefreshData(now, localDay);
    }

    /** `addMetric`. */
    method AddMetric(name: string, value: real, unit: string, targetValue: Option<real>,
                     now: int, localDay: int -> int)
      modifies this, store
      ensures old(healthData).None? ==> unchanged(this) && unchanged(store)
      ensures old(healthData).Some? ==>
                && store.data == AfterLoad(WithMetric(old(store.data), name, value, unit, targetValue, now),
                                           now, localDay)
                && healthData == Some(store.data) && !loading
    {
      if healthData.None? {
        return;
      }
      store.AddMetric(name, value, unit, targetValue, now);
      RefreshData(now, localDay);
    }

    /** `updateMetricTracking`: computed from the provider's copy, then saved and kept. */
    method UpdateMetricTracking(metricId: string, track: bool)
      modifies this, store
      ensures old(healthData).None? ==> unchanged(this) && unchanged(store)
      ensures old(healthData).Some? ==>
                var d := old(healthData).value;
                var updated := d.(settings := d.settings.(
                                  selectedMetrics := TrackedMetrics(d.settings.selectedMetrics, metricId, track)));
                store.data == updated && healthData == Some(updated) && loading == old(loading)
    {
      if healthData.None? {
        return;
      }
      var d := healthData.value;
      var selected := d.settings.selectedMetrics;
      if track {
        if metricId !in selected {
          selected := selected + [metricId];
        }
      } else {
        selected := Filter(selected, (x: string) => x != metricId);
      }
      var updatedData := d.(settings := d.settings.(selectedMetrics := selected));
      store.Save(updatedData);
      healthData := Some(updatedData);
    }

    /** `updateGoal`: index assignment into, or a push onto, a copy of the goal list. */
    method UpdateGoal(goal: Goal)
      modifies this, store
      ensures old(healthData).None? ==> unchanged(this) && unchanged(store)
      ensures old(healthData).Some? ==>
                var updated := old(healthData).value.(goals := UpsertGoal(old(healthData).value.goals, goal));
                store.data == updated && healthData == Some(updated) && loading == old(loading)
    {
      if healthData.None? {
        return;
      }
      var d := healthData.value;
      var goalIndex := FindIndex(d.goals, (g: Goal) => g.id == goal.id);
      var updatedGoals := d.goals;
      if goalIndex != -1 {
        updatedGoals := updatedGoals[goalIndex := goal];
      } else {
        updatedGoals := updatedGoals + [goal];
      }
      var updatedData := d.(goals := updatedGoals);
      store.Save(updatedData);
      healthData := Some(updatedData);
    }

    /** `toggleDarkMode`. */
    method ToggleDarkMode()
      modifies this, store
      ensures old(healthData).None? ==> unchanged(this) && unchanged(store)
      ensures old(healthData).Some? ==>
                var updated := old(healthData).value.(settings := ToggledDarkMode(old(healthData).value.settings));
                store.data == updated && healthData == Some(updated) && loading == old(loading)
    {
      if healthData.None? {
        return;
      }
      var d := healthData.value;
      var updatedSettings := d.settings.(darkMode := !d.settings.darkMode);
      var updatedData := d.(settings := updatedSettings);
      store.Save(updatedData);
      healthData := Some(updatedData);
    }

    /** `updateRecipeLike`. */
    method UpdateRecipeLike(recipeId: string, liked: bool, disliked: bool, now: int, localDay: int -> int)
      modifies this, store
      ensures old(healthData).None? ==> unchanged(this) && unchanged(store)
      ensures old(healthData).Some? ==>
                && store.data == AfterLoad(old(store.data).(recipes := RecipeLike(old(store.data).recipes,
                                                                                 recipeId, liked, disliked)),
                                           now, localDay)
                && healthData == Some(store.data) && !loading
    {
      if healthData.None? {
        return;
      }
      store.UpdateRecipeLike(recipeId, liked, disliked);
      RefreshData(now, localDay);
    }

    /** `markRecipeAsEaten`. */
    method MarkRecipeAsEaten(recipeId: string, now: int, localDay: int -> int)
      modifies this, store
      ensures old(healthData).None? ==> unchanged(this) && unchanged(store)
      ensures old(healthData).Some? ==>
                && store.data == AfterLoad(MarkEaten(old(store.data), recipeId, now), now, localDay)
                && healthData == Some(store.data) && !loading
    {
      if healthData.None? {
        return;
      }
      store.MarkRecipeAsEaten(recipeId, now);
      RefreshData(now, localDay);
    }

    /** `completeTip`: the tip update with `true`, then a reload. */
    method CompleteTip(tipId: string, now: int, localDay: int -> int)
      modifies this, store
      ensures old(healthData).None? ==> unchanged(this) && unchanged(store)
      ensures old(healthData).Some? ==>
                && store.data == AfterLoad(old(store.data).(dailyTips := SetTipCompletion(
                                             old(store.data).dailyTips, tipId, true)), now, localDay)
                && healthData == Some(store.data) && !loading
    {
      if healthData.None? {
        return;
      }
      store.UpdateDailyTipCompletion(tipId, true);
      RefreshData(now, localDay);
    }

    /** `resetTip`: the tip update with `false`, then a reload. */
    method ResetTip(tipId: string, now: int, localDay: int -> int)
      modifies this, store
      ensures old(healthData).None? ==> unchanged(this) && unchanged(store)
      ensures old(healthData).Some? ==>
                && store.data == AfterLoad(old(store.data).(dailyTips := SetTipCompletion(
                                             old(store.data).dailyTips, tipId, false)), now, localDay)
                && healthData == Some(store.data) && !loading
    {
      if healthData.None? {
        return;
      }
      store.UpdateDailyTipCompletion(tipId, false);
      RefreshData(now, localDay);
    }

    /** `canUpdateWeight`: the store's cooldown, with no guard. */
    method CanUpdateWeight(now: int) returns (status: WeightStatus)
      ensures status == WeightCooldown(store.data.settings.lastWeightUpdate, now)
    {
      status := store.CanUpdateWeight(now);
    }
  }
}
