/**
 * The persisted store and the operations that read the aggregate, change it
 * and write it back: the daily tip reset, tip completion with its streak,
 * recipe flags, the eaten-meals log, pain points and metric readings.
 *
 * The store is one object holding the aggregate; `Load` and `Save` read and
 * replace it whole. Each mutating method is proved against a function on
 * the aggregate value, and what the source promises is proved about those
 * functions.
 */
module LocalStorage {
  import opened HealthTypes
  import opened DerivedViews

  // ---------------------------------------------------------------------------
  // Daily tips

  predicate AllCompleted(tips: seq<DailyTip>) {
    forall i :: 0 <= i < |tips| ==> tips[i].completed
  }

  predicate HasTip(tips: seq<DailyTip>, tipId: string) {
    exists i :: 0 <= i < |tips| && tips[i].id == tipId
  }

  /** `tips[i]` is the first tip with id `tipId`. */
  ghost predicate FirstTipAt(tips: seq<DailyTip>, tipId: string, i: int) {
    0 <= i < |tips| && tips[i].id == tipId && forall j :: 0 <= j < i ==> tips[j].id != tipId
  }

  /**
   * `resetDailyTips` on the tips record: on a new local calendar day every
   * tip is cleared and the stamp moves to `now`; on the same day nothing
   * changes. `localDay` is the local calendar day of a time (`toDateString`).
   */
  function ResetTips(dt: DailyTips, now: int, localDay: int -> int): (r: DailyTips)
    ensures localDay(r.lastUpdated) == localDay(now)
    ensures r.streak == dt.streak && |r.tips| == |dt.tips|
    ensures forall i :: 0 <= i < |r.tips| ==> r.tips[i] == dt.tips[i].(completed := r.tips[i].completed)
    ensures localDay(dt.lastUpdated) != localDay(now) ==>
              r.lastUpdated == now && forall i :: 0 <= i < |r.tips| ==> !r.tips[i].completed
    ensures localDay(dt.lastUpdated) == localDay(now) ==> r == dt
  {
    if localDay(now) != localDay(dt.lastUpdated) then
      DailyTips(seq(|dt.tips|, i requires 0 <= i < |dt.tips| => dt.tips[i].(completed := false)),
                now, dt.streak)
    else dt
  }

  /** A second reset on the same local day leaves the record as the first one left it. */
  lemma ResetIdempotent(dt: DailyTips, t1: int, t2: int, localDay: int -> int)
    requires localDay(t1) == localDay(t2)
    ensures ResetTips(ResetTips(dt, t1, localDay), t2, localDay) == ResetTips(dt, t1, localDay)
  {
  }

  /**
   * `updateDailyTipCompletion` on the tips record: the first tip with the id
   * gets the flag; the streak goes up by one whenever the tips are then all
   * completed; an unknown id changes nothing.
   */
  function SetTipCompletion(dt: DailyTips, tipId: string, completed: bool): (r: DailyTips)
    ensures !HasTip(dt.tips, tipId) ==> r == dt
    ensures |r.tips| == |dt.tips| && r.lastUpdated == dt.lastUpdated
    ensures forall i :: 0 <= i < |r.tips| ==>
              r.tips[i] == dt.tips[i].(completed := r.tips[i].completed)
    ensures forall i :: 0 <= i < |r.tips| && r.tips[i] != dt.tips[i] ==> FirstTipAt(dt.tips, tipId, i)
    ensures forall i :: FirstTipAt(dt.tips, tipId, i) ==> r.tips[i].completed == completed
    ensures r.streak == if HasTip(dt.tips, tipId) && AllCompleted(r.tips) then dt.streak + 1 else dt.streak
  {
    var k := FindIndex(dt.tips, (t: DailyTip) => t.id == tipId);
    if k == -1 then dt
    else
      var tips := dt.tips[k := dt.tips[k].(completed := completed)];
      DailyTips(tips, dt.lastUpdated, if AllCompleted(tips) then dt.streak + 1 else dt.streak)
  }

  /**
   * The streak is not limited to once a day: completing a tip again while all
   * tips are completed raises it again.
   */
  lemma StreakRisesOnEveryRepeat(dt: DailyTips, tipId: string)
    requires AllCompleted(dt.tips) && HasTip(dt.tips, tipId)
    ensures SetTipCompletion(SetTipCompletion(dt, tipId, true), tipId, true).streak == dt.streak + 2
  {
    var once := SetTipCompletion(dt, tipId, true);
    assert once.tips == dt.tips;
  }

  function TipIds(tips: seq<DailyTip>): (ids: seq<string>)
    ensures |ids| == |tips| && forall i :: 0 <= i < |tips| ==> ids[i] == tips[i].id
  {
    seq(|tips|, i requires 0 <= i < |tips| => tips[i].id)
  }

  /** Completing the tips with the given ids, one call per id, in order. */
  function CompleteEach(dt: DailyTips, ids: seq<string>): DailyTips
    decreases |ids|
  {
    if ids == [] then dt
    else SetTipCompletion(CompleteEach(dt, ids[..|ids| - 1]), ids[|ids| - 1], true)
  }

  /** The ids listed in `ids`. */
  ghost function IdSet(ids: seq<string>): set<string> {
    set x | x in ids
  }

  /** Every tip's id is in `done`. */
  ghost predicate AllIn(tips: seq<DailyTip>, done: set<string>) {
    forall i :: 0 <= i < |tips| ==> tips[i].id in done
  }

  /**
   * Completing each of a cleared day's tips once, in any order, raises the
   * streak exactly once: only the last completion leaves them all completed.
   * `ids` is any ordering of the tip ids, each once.
   */
  lemma CompletingEveryTipOnceRaisesStreakOnce(dt: DailyTips, ids: seq<string>)
    requires |dt.tips| > 0 && NoDups(TipIds(dt.tips))
    requires forall i :: 0 <= i < |dt.tips| ==> !dt.tips[i].completed
    requires NoDups(ids) && forall x :: x in ids <==> x in TipIds(dt.tips)
    ensures CompleteEach(dt, ids).streak == dt.streak + 1
    ensures AllCompleted(CompleteEach(dt, ids).tips)
  {
    CompletedSoFar(dt, ids, |ids|);
    assert ids[..|ids|] == ids;
    var done := IdSet(ids);
    assert AllIn(dt.tips, done) by {
      forall i | 0 <= i < |dt.tips| ensures dt.tips[i].id in done {
        assert TipIds(dt.tips)[i] == dt.tips[i].id;
      }
    }
  }

  /** `r` is `dt` with exactly the tips whose id is in `done` completed. */
  ghost predicate CompletedExactly(dt: DailyTips, r: DailyTips, done: set<string>) {
    && |r.tips| == |dt.tips|
    && (forall i :: 0 <= i < |r.tips| ==> r.tips[i] == dt.tips[i].(completed := dt.tips[i].id in done))
    && r.streak == (if AllIn(dt.tips, done) then dt.streak + 1 else dt.streak)
  }

  lemma {:induction false} CompletedSoFar(dt: DailyTips, ids: seq<string>, k: nat)
    requires k <= |ids| && |dt.tips| > 0 && NoDups(TipIds(dt.tips))
    requires forall i :: 0 <= i < |dt.tips| ==> !dt.tips[i].completed
    requires NoDups(ids) && forall x :: x in ids ==> x in TipIds(dt.tips)
    ensures CompletedExactly(dt, CompleteEach(dt, ids[..k]), IdSet(ids[..k]))
    decreases k
  {
    if k == 0 {
      assert ids[..0] == [];
      assert IdSet(ids[..0]) == {};
      var none: set<string> := {};
      assert !AllIn(dt.tips, none) by {
        assert dt.tips[0].id !in none;
      }
    } else {
      assert ids[..k][..k - 1] == ids[..k - 1] && ids[..k][k - 1] == ids[k - 1];
      assert (IdSet(ids[..k])) == (IdSet(ids[..k - 1])) + {ids[k - 1]} by {
        assert ids[..k] == ids[..k - 1] + [ids[k - 1]];
      }
      assert ids[k - 1] !in ids[..k - 1];
      CompletedSoFar(dt, ids, k - 1);
      CompleteOneMore(dt, CompleteEach(dt, ids[..k - 1]), IdSet(ids[..k - 1]), ids[k - 1]);
    }
  }

  /** Completing one more tip, not completed so far: it joins the completed ones, the streak rising at the last. */
  lemma CompleteOneMore(dt: DailyTips, before: DailyTips, done: set<string>, id: string)
    requires |dt.tips| > 0 && NoDups(TipIds(dt.tips))
    requires CompletedExactly(dt, before, done)
    requires id in TipIds(dt.tips) && id !in done
    ensures CompletedExactly(dt, SetTipCompletion(before, id, true), done + {id})
  {
    var ids := TipIds(dt.tips);
    var j :| 0 <= j < |ids| && ids[j] == id;
    assert FirstTipAt(before.tips, id, j) by {
      forall i | 0 <= i < j ensures before.tips[i].id != id {
        assert ids[i] != ids[j];
      }
    }
    assert !AllIn(dt.tips, done) by {
      assert dt.tips[j].id !in done;
    }
    var r := SetTipCompletion(before, id, true);
    forall i | 0 <= i < |dt.tips| && i != j ensures r.tips[i] == before.tips[i] {
      if i < j {
        assert before.tips[i].id != id by { assert ids[i] != ids[j]; }
      }
      assert !FirstTipAt(before.tips, id, i);
    }
    forall i | 0 <= i < |dt.tips| && i != j ensures dt.tips[i].id != id {
      assert ids[i] != ids[j];
    }
    assert AllCompleted(r.tips) <==> AllIn(dt.tips, done + {id});
    assert HasTip(before.tips, id);
  }

  // ---------------------------------------------------------------------------
  // Recipes and the eaten-meals log

  predicate HasRecipe(recipes: seq<Recipe>, recipeId: string) {
    exists i :: 0 <= i < |recipes| && recipes[i].id == recipeId
  }

  /** `recipes[i]` is the first recipe with id `recipeId`. */
  ghost predicate FirstRecipeAt(recipes: seq<Recipe>, recipeId: string, i: int) {
    0 <= i < |recipes| && recipes[i].id == recipeId &&
    forall j :: 0 <= j < i ==> recipes[j].id != recipeId
  }

  /** `updateRecipeLike` on the catalogue: both flags of the first recipe with the id are set. */
  function RecipeLike(recipes: seq<Recipe>, recipeId: string, liked: bool, disliked: bool)
    : (r: seq<Recipe>)
    ensures !HasRecipe(recipes, recipeId) ==> r == recipes
    ensures |r| == |recipes|
    ensures forall i :: 0 <= i < |r| && !FirstRecipeAt(recipes, recipeId, i) ==> r[i] == recipes[i]
    ensures forall i :: FirstRecipeAt(recipes, recipeId, i) ==>
              r[i] == recipes[i].(liked := Some(liked), disliked := Some(disliked))
  {
    var k := FindIndex(recipes, (x: Recipe) => x.id == recipeId);
    if k == -1 then recipes
    else recipes[k := recipes[k].(liked := Some(liked), disliked := Some(disliked))]
  }

  /**
   * `markRecipeAsEaten` on the aggregate: the first recipe with the id is
   * marked eaten at `now`, and exactly one entry for it, carrying its meal
   * type, is appended to the eaten-meals log. Nothing else changes.
   */
  function MarkEaten(d: HealthData, recipeId: string, now: int): (r: HealthData)
    ensures !HasRecipe(d.recipes, recipeId) ==> r == d
    ensures r.(recipes := d.recipes, eatenMeals := d.eatenMeals) == d
    ensures |r.recipes| == |d.recipes|
    ensures forall i :: 0 <= i < |r.recipes| && !FirstRecipeAt(d.recipes, recipeId, i) ==>
              r.recipes[i] == d.recipes[i]
    ensures forall i :: FirstRecipeAt(d.recipes, recipeId, i) ==>
              && r.recipes[i] == d.recipes[i].(eaten := Some(true), eatenAt := Some(now))
              && r.eatenMeals == d.eatenMeals + [EatenMeal(recipeId, now, d.recipes[i].mealType)]
  {
    var k := FindIndex(d.recipes, (x: Recipe) => x.id == recipeId);
    if k == -1 then d
    else
      var recipes := d.recipes[k := d.recipes[k].(eaten := Some(true), eatenAt := Some(now))];
      d.(recipes := recipes,
         eatenMeals := d.eatenMeals + [EatenMeal(recipeId, now, recipes[k].mealType)])
  }

  // ---------------------------------------------------------------------------
  // Appended entities

  /**
   * The aggregate after `addPainPoint`: one pain point appended, its id the
   * text of the first clock read `tId`, its date the second clock read `now`.
   */
  function WithPainPoint(d: HealthData, emoji: string, description: string, tId: int, now: int)
    : (r: HealthData)
    ensures r.(painPoints := d.painPoints) == d
    ensures |r.painPoints| == |d.painPoints| + 1 && r.painPoints[..|d.painPoints|] == d.painPoints
    ensures r.painPoints[|d.painPoints|] == PainPoint(IntToString(tId), emoji, description, now)
  {
    d.(painPoints := d.painPoints + [PainPoint(IntToString(tId), emoji, description, now)])
  }

  /** The reading `addMetric` creates at time `now`: its id is the name and the clock value. */
  function NewMetric(name: string, value: real, unit: string, targetValue: Option<real>, now: int)
    : (m: Metric)
    ensures m.id == MetricId(name, now) && m.date == now
    ensures m.name == name && m.value == value && m.unit == unit && m.targetValue == targetValue
  {
    Metric(MetricId(name, now), name, value, unit, targetValue, now)
  }

  /**
   * The aggregate after `addMetric` at time `now`: the reading is appended;
   * a weight reading also restarts the cooldown; nothing else changes.
   */
  function WithMetric(d: HealthData, name: string, value: real, unit: string,
                      targetValue: Option<real>, now: int): (r: HealthData)
    ensures r.metrics == d.metrics + [NewMetric(name, value, unit, targetValue, now)]
    ensures r.(metrics := d.metrics, settings := d.settings) == d
    ensures r.settings.(lastWeightUpdate := d.settings.lastWeightUpdate) == d.settings
    ensures r.settings.lastWeightUpdate == if name == "Weight" then Some(now) else d.settings.lastWeightUpdate
  {
    var settings := if name == "Weight" then d.settings.(lastWeightUpdate := Some(now)) else d.settings;
    d.(metrics := d.metrics + [NewMetric(name, value, unit, targetValue, now)], settings := settings)
  }

  /** Right after a weight reading, the cooldown refuses a new one for the full 48 hours. */
  lemma CooldownRightAfterWeight(d: HealthData, value: real, unit: string,
                                 targetValue: Option<real>, now: int)
    ensures WeightCooldown(WithMetric(d, "Weight", value, unit, targetValue, now)
                             .settings.lastWeightUpdate, now)
            == WeightStatus(false, 48)
  {
  }

  /** 48 hours after a weight reading, the cooldown allows a new one. */
  lemma CooldownOverAfter48Hours(d: HealthData, value: real, unit: string,
                                 targetValue: Option<real>, now: int, later: int)
    requires later - now >= 48 * MsPerHour
    ensures WeightCooldown(WithMetric(d, "Weight", value, unit, targetValue, now)
                             .settings.lastWeightUpdate, later)
            == WeightStatus(true, 0)
  {
  }

  /** A reading newer than its whole series becomes the series' latest reading. */
  lemma LatestAfterAddMetric(d: HealthData, name: string, value: real, unit: string,
                             targetValue: Option<real>, now: int)
    requires forall m :: m in d.metrics && m.name == name ==> m.date < now
    ensures LatestMetric(WithMetric(d, name, value, unit, targetValue, now).metrics, name)
            == Some(NewMetric(name, value, unit, targetValue, now))
  {
    LatestAfterAppend(d.metrics, NewMetric(name, value, unit, targetValue, now));
  }

  // ---------------------------------------------------------------------------
  // The store

  class HealthStore {
    /** The persisted document. */
    var data: HealthData

    constructor (initial: HealthData)
      ensures data == initial
    {
      data := initial;
    }

    /** `getHealthData`. */
    method Load() returns (d: HealthData)
      ensures d == data
    {
      d := data;
    }

    /** `saveHealthData`. */
    method Save(d: HealthData)
      modifies this
      ensures data == d
    {
      data := d;
    }

    /** `resetDailyTips`: clears every tip's flag, one at a time, when the local day has changed. */
    method ResetDailyTips(now: int, localDay: int -> int)
      modifies this
      ensures data == old(data).(dailyTips := ResetTips(old(data).dailyTips, now, localDay))
    {
      var hd := Load();
      if localDay(now) != localDay(hd.dailyTips.lastUpdated) {
        var tips := hd.dailyTips.tips;
        var i := 0;
        while i < |tips|
          invariant 0 <= i <= |tips| == |hd.dailyTips.tips|
          invariant forall j :: 0 <= j < i ==> tips[j] == hd.dailyTips.tips[j].(completed := false)
          invariant forall j :: i <= j < |tips| ==> tips[j] == hd.dailyTips.tips[j]
        {
          tips := tips[i := tips[i].(completed := false)];
          i := i + 1;
        }
        hd := hd.(dailyTips := hd.dailyTips.(tips := tips, lastUpdated := now));
        Save(hd);
      }
    }

    /** `updateDailyTipCompletion`. */
    method UpdateDailyTipCompletion(tipId: string, completed: bool)
      modifies this
      ensures data == old(data).(dailyTips := SetTipCompletion(old(data).dailyTips, tipId, completed))
    {
      var hd := Load();
      var tipIndex := FindIndex(hd.dailyTips.tips, (t: DailyTip) => t.id == tipId);
      if tipIndex != -1 {
        var tips := hd.dailyTips.tips;
        tips := tips[tipIndex := tips[tipIndex].(completed := completed)];
        var streak := hd.dailyTips.streak;
        if AllCompleted(tips) {
          streak := streak + 1;
        }
        hd := hd.(dailyTips := hd.dailyTips.(tips := tips, streak := streak));
        Save(hd);
      }
    }

    /** `getLikedRecipes`. */
    method GetLikedRecipes() returns (liked: seq<Recipe>)
      ensures liked == LikedRecipes(data.recipes)
      ensures forall r :: r in liked <==> r in data.recipes && r.liked == Some(true)
    {
      var hd := Load();
      liked := LikedRecipes(hd.recipes);
    }

    /** `getEatenMeals`: the eaten-meals log as stored, oldest first. */
    method GetEatenMeals() returns (meals: seq<EatenMeal>)
      ensures meals == data.eatenMeals
    {
      var hd := Load();
      meals := hd.eatenMeals;
    }

    /** `updateRecipeLike`. */
    method UpdateRecipeLike(recipeId: string, liked: bool, disliked: bool)
      modifies this
      ensures data == old(data).(recipes := RecipeLike(old(data).recipes, recipeId, liked, disliked))
    {
      var hd := Load();
      var recipeIndex := FindIndex(hd.recipes, (x: Recipe) => x.id == recipeId);
      if recipeIndex != -1 {
        var recipe := hd.recipes[recipeIndex].(liked := Some(liked), disliked := Some(disliked));
        hd := hd.(recipes := hd.recipes[recipeIndex := recipe]);
        Save(hd);
      }
    }

    /** `markRecipeAsEaten`. */
    method MarkRecipeAsEaten(recipeId: string, now: int)
      modifies this
      ensures data == MarkEaten(old(data), recipeId, now)
    {
      var hd := Load();
      var recipeIndex := FindIndex(hd.recipes, (x: Recipe) => x.id == recipeId);
      if recipeIndex != -1 {
        var recipe := hd.recipes[recipeIndex].(eaten := Some(true), eatenAt := Some(now));
        hd := hd.(recipes := hd.recipes[recipeIndex := recipe]);
        hd := hd.(eatenMeals := hd.eatenMeals + [EatenMeal(recipeId, now, recipe.mealType)]);
        Save(hd);
      }
    }

    /** `addPainPoint`: `tId` is the clock read that names the pain point, `now` the one that dates it. */
    method AddPainPoint(emoji: string, description: string, tId: int, now: int)
      modifies this
      ensures data == WithPainPoint(old(data), emoji, description, tId, now)
    {
      var hd := Load();
      var newPainPoint := PainPoint(IntToString(tId), emoji, description, now);
      hd := hd.(painPoints := hd.painPoints + [newPainPoint]);
      Save(hd);
    }

    /** `addMetric`. */
    method AddMetric(name: string, value: real, unit: string, targetValue: Option<real>, now: int)
      modifies this
      ensures data == WithMetric(old(data), name, value, unit, targetValue, now)
      ensures data.metrics == old(data).metrics + [NewMetric(name, value, unit, targetValue, now)]
      ensures name != "Weight" ==> data.settings == old(data).settings
    {
      var hd := Load();
      var newMetric := Metric(MetricId(name, now), name, value, unit, targetValue, now);
      if name == "Weight" {
        hd := hd.(settings := hd.settings.(lastWeightUpdate := Some(now)));
      }
      hd := hd.(metrics := hd.metrics + [newMetric]);
      Save(hd);
    }

    /** `canUpdateWeight`. */
    method CanUpdateWeight(now: int) returns (status: WeightStatus)
      ensures status == WeightCooldown(data.settings.lastWeightUpdate, now)
    {
      var hd := Load();
      status := WeightCooldown(hd.settings.lastWeightUpdate, now);
    }
  }
}
