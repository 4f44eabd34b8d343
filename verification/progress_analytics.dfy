/**
 * The progress-analytics page: the gates in front of recording a reading,
 * the undo of the last recorded reading, and the choice of metrics shown
 * on the charts.
 *
 * The page records readings through the store directly, and its undo
 * writes back the provider's copy of the aggregate (passed in as
 * `healthData`) with the recorded id filtered out. The id it records is
 * built from its own clock read (`tId`), which need not equal the one the
 * store stamps on the reading (`tAdd`).
 */
module ProgressAnalytics {
  import opened HealthTypes
  import opened DerivedViews
  import opened LocalStorage

  /** The outcome of `parseFloat` on an input field. */
  datatype Parsed = NotANumber | Number(v: real)

  /** What the page remembers about the reading it recorded last, for the undo button. */
  datatype LastAdded = LastAdded(name: string, value: real, unit: string, id: string, timestamp: int)

  // ---------------------------------------------------------------------------
  // The metric names shown in the chart pickers

  /** `Array.from(new Set(names))`: each name once, in order of first occurrence. */
  function DistinctNames(names: seq<string>): (r: seq<string>)
    ensures NoDups(r)
    ensures forall n :: n in r <==> n in names
    ensures NoDups(names) ==> r == names
    decreases |names|
  {
    if names == [] then []
    else
      var n := |names| - 1;
      var kept := DistinctNames(names[..n]);
      assert names == names[..n] + [names[n]];
      if names[n] in kept then kept else kept + [names[n]]
  }

  /** Later names never reorder or drop the names already seen. */
  lemma {:induction false} DistinctNamesExtends(a: seq<string>, b: seq<string>)
    ensures DistinctNames(a) <= DistinctNames(a + b)
    decreases |b|
  {
    if b == [] {
      assert a + b == a;
    } else {
      var n := |b| - 1;
      assert a + b == (a + b[..n]) + [b[n]];
      assert (a + b)[..|a + b| - 1] == a + b[..n];
      DistinctNamesExtends(a, b[..n]);
    }
  }

  function MetricNames(metrics: seq<Metric>): (names: seq<string>)
    ensures |names| == |metrics|
    ensures forall i :: 0 <= i < |metrics| ==> names[i] == metrics[i].name
  {
    seq(|metrics|, i requires 0 <= i < |metrics| => metrics[i].name)
  }

  /** `availableMetrics`: the distinct names of the logged metrics, weight excluded. */
  function AvailableMetrics(metrics: seq<Metric>): (names: seq<string>)
    ensures NoDups(names)
    ensures "Weight" !in names
    ensures forall n :: n in names <==> n != "Weight" && exists m :: m in metrics && m.name == n
  {
    var all := MetricNames(metrics);
    assert forall n :: n in all <==> exists m :: m in metrics && m.name == n by {
      forall n ensures n in all <==> exists m :: m in metrics && m.name == n {
        if n in all {
          var i :| 0 <= i < |all| && all[i] == n;
          assert metrics[i] in metrics;
        }
        if exists m :: m in metrics && m.name == n {
          var m :| m in metrics && m.name == n;
          var i :| 0 <= i < |metrics| && metrics[i] == m;
          assert all[i] == n;
        }
      }
    }
    Filter(DistinctNames(all), (n: string) => n != "Weight")
  }

  /**
   * The metric a chart slot shows: the slot's selection when it is available
   * (and not the empty name, which `||` treats as missing), else the first
   * available metric, else the placeholder "No data".
   */
  function ChartMetric(available: seq<string>, selection: string): (shown: string)
    ensures selection in available && selection != "" ==> shown == selection
    ensures (selection !in available || selection == "") && |available| > 0 ==> shown == available[0]
    ensures |available| == 0 ==> shown == "No data"
    ensures shown in available || shown == "No data"
  {
    var k := FindIndex(available, (n: string) => n == selection);
    if k != -1 && available[k] != "" then available[k]
    else if |available| > 0 then available[0]
    else "No data"
  }

  /** The metrics with a chart of their own; a slot showing one of them is not drawn. */
  const TrackedByDefault: seq<string> := ["Water Intake", "Steps", "Sleep"]

  /** `getUnitForMetric`: the unit of the three default metrics, and no unit for any other. */
  function UnitForMetric(metricName: string): (unit: string)
    ensures metricName !in TrackedByDefault <==> unit == ""
    ensures metricName == "Water Intake" ==> unit == "L"
    ensures metricName == "Steps" ==> unit == "steps"
    ensures metricName == "Sleep" ==> unit == "hours"
  {
    match metricName
    case "Water Intake" => "L"
    case "Steps" => "steps"
    case "Sleep" => "hours"
    case _ => ""
  }

  /** `handleSelectMetric`: the slot at `index` gets the new name; the other slots keep theirs. */
  function SelectMetric(selected: seq<string>, index: int, metricName: string): (r: seq<string>)
    requires 0 <= index < |selected|
    ensures |r| == |selected|
    ensures r[index] == metricName
    ensures forall i :: 0 <= i < |r| && i != index ==> r[i] == selected[i]
  {
    selected[index := metricName]
  }

  // ---------------------------------------------------------------------------
  // Undo

  /**
   * The aggregate the undo writes: `healthData` without the metrics whose id
   * is `id`, every other field as it was.
   */
  function Undone(healthData: HealthData, id: string): (r: HealthData)
    ensures r.(metrics := healthData.metrics) == healthData
    ensures forall m :: m in r.metrics <==> m in healthData.metrics && m.id != id
    ensures (forall m :: m in healthData.metrics ==> m.id != id) ==> r == healthData
  {
    healthData.(metrics := Filter(healthData.metrics, (m: Metric) => m.id != id))
  }

  /** The metrics left by the undo keep their relative order. */
  lemma UndoKeepsOrder(d: HealthData, a: seq<Metric>, b: seq<Metric>, id: string)
    ensures Undone(d.(metrics := a + b), id).metrics
            == Undone(d.(metrics := a), id).metrics + Undone(d.(metrics := b), id).metrics
  {
    FilterConcat(a, b, (m: Metric) => m.id != id);
  }

  /**
   * Undo against a copy that already holds the recorded reading. The page
   * never passes such a copy (see `UndoRightAfterWeightSubmit`); were it to,
   * the reading would be removed exactly when the page's clock read `tId`
   * equals the store's `tAdd`, the rest of the log would stay as it was, and
   * a weight reading's cooldown would not be rolled back.
   */
  lemma UndoAfterRecording(d: HealthData, name: string, value: real, unit: string, tId: int, tAdd: int)
    requires forall m :: m in d.metrics ==> m.id != MetricId(name, tId)
    ensures var after := WithMetric(d, name, value, unit, None, tAdd);
            var undone := Undone(after, MetricId(name, tId));
            && (tId == tAdd ==> undone.metrics == d.metrics)
            && (tId != tAdd ==> undone.metrics == after.metrics)
            && (NewMetric(name, value, unit, None, tAdd) in undone.metrics <==> tId != tAdd)
            && undone.settings == after.settings
  {
    var id := MetricId(name, tId);
    var added := NewMetric(name, value, unit, None, tAdd);
    var p := (m: Metric) => m.id != id;
    MetricIdInjective(name, tId, tAdd);
    FilterConcat(d.metrics, [added], p);
    assert Filter(d.metrics, p) == d.metrics;
    if tId == tAdd {
      assert Filter([added], p) == [];
    } else {
      assert Filter([added], p) == [added];
    }
  }

  // ---------------------------------------------------------------------------
  // Input gates

  /** `handleWeightSubmit` records a weight only if it is a positive number and the cooldown allows it. */
  function WeightAccepted(parsed: Parsed, status: WeightStatus): (ok: bool)
    ensures parsed.NotANumber? ==> !ok
    ensures parsed.Number? && parsed.v <= 0.0 ==> !ok
    ensures !status.canUpdate ==> !ok
    ensures parsed.Number? && parsed.v > 0.0 && status.canUpdate ==> ok
  {
    parsed.Number? && parsed.v > 0.0 && status.canUpdate
  }

  /** `handleMetricSubmit` records any number that is not negative; zero is accepted. */
  function MetricAccepted(parsed: Parsed): (ok: bool)
    ensures parsed.NotANumber? ==> !ok
    ensures parsed.Number? ==> (ok <==> parsed.v >= 0.0)
  {
    parsed.Number? && parsed.v >= 0.0
  }

  // ---------------------------------------------------------------------------
  // The page

  class ProgressAnalyticsPage {
    const store: HealthStore
    /** The metric picked for each of the three chart slots. */
    var selectedMetrics: seq<string>
    var newWeight: string
    var waterInput: string
    var stepsInput: string
    var sleepInput: string
    /** The cooldown as last checked; the page refreshes it once a minute. */
    var weightUpdateStatus: WeightStatus
    var lastAddedMetric: Option<LastAdded>
    /** Bumped to redraw the page after a change. */
    var refreshKey: int

    /** There are always three chart slots. */
    ghost predicate Valid()
      reads this
    {
      |selectedMetrics| == 3
    }

    constructor (store: HealthStore)
      ensures Valid()
      ensures this.store == store
      ensures selectedMetrics == TrackedByDefault
      ensures newWeight == "" && waterInput == "" && stepsInput == "" && sleepInput == ""
      ensures weightUpdateStatus == WeightStatus(true, 0)
      ensures lastAddedMetric == None && refreshKey == 0
    {
      this.store := store;
      selectedMetrics := TrackedByDefault;
      newWeight, waterInput, stepsInput, sleepInput := "", "", "", "";
      weightUpdateStatus := WeightStatus(true, 0);
      lastAddedMetric := None;
      refreshKey := 0;
    }

    /** `checkWeightUpdateEligibility`: the cooldown as the store computes it at `now`. */
    method CheckWeightUpdateEligibility(now: int)
      modifies this
      ensures weightUpdateStatus == WeightCooldown(store.data.settings.lastWeightUpdate, now)
      ensures selectedMetrics == old(selectedMetrics) && lastAddedMetric == old(lastAddedMetric)
      ensures newWeight == old(newWeight) && waterInput == old(waterInput)
      ensures stepsInput == old(stepsInput) && sleepInput == old(sleepInput)
      ensures refreshKey == old(refreshKey)
    {
      var status := store.CanUpdateWeight(now);
      weightUpdateStatus := status;
    }

    /**
     * `handleUndoMetric`: with no recorded reading, nothing happens; otherwise
     * the store gets `healthData` without that id, the record is dropped, the
     * page redraws and the input of that metric is cleared.
     */
    method HandleUndoMetric(healthData: HealthData)
      requires Valid()
      modifies this, store
      ensures Valid()
      ensures old(lastAddedMetric).None? ==> unchanged(this) && unchanged(store)
      ensures old(lastAddedMetric).Some? ==>
                var name := old(lastAddedMetric).value.name;
                && store.data == Undone(healthData, old(lastAddedMetric).value.id)
                && lastAddedMetric == None
                && refreshKey == old(refreshKey) + 1
                && newWeight == (if name == "Weight" then "" else old(newWeight))
                && waterInput == (if name == "Water Intake" then "" else old(waterInput))
                && stepsInput == (if name == "Steps" then "" else old(stepsInput))
                && sleepInput == (if name == "Sleep" then "" else old(sleepInput))
                && selectedMetrics == old(selectedMetrics)
                && weightUpdateStatus == old(weightUpdateStatus)
    {
      if lastAddedMetric.None? {
        return;
      }
      var last := lastAddedMetric.value;
      var updatedMetrics := Filter(healthData.metrics, (m: Metric) => m.id != last.id);
      var updatedHealthData := healthData.(metrics := updatedMetrics);
      store.Save(updatedHealthData);
      refreshKey := refreshKey + 1;
      lastAddedMetric := None;
      if last.name == "Weight" {
        newWeight := "";
      } else if last.name == "Water Intake" {
        waterInput := "";
      } else if last.name == "Steps" {
        stepsInput := "";
      } else if last.name == "Sleep" {
        sleepInput := "";
      }
    }

    /**
     * `handleWeightSubmit`: a value that is not a positive number, or any value
     * while the page's cooldown status refuses, changes nothing; otherwise the
     * weight is recorded in kilograms at `tAdd` and remembered under the id
     * built from `tId`.
     */
    method HandleWeightSubmit(parse: string -> Parsed, tId: int, tAdd: int, tStamp: int)
      requires Valid()
      modifies this, store
      ensures Valid()
      ensures !WeightAccepted(parse(old(newWeight)), old(weightUpdateStatus)) ==>
                unchanged(this) && unchanged(store)
      ensures WeightAccepted(parse(old(newWeight)), old(weightUpdateStatus)) ==>
                var weight := parse(old(newWeight)).v;
                && store.data == WithMetric(old(store.data), "Weight", weight, "kg", None, tAdd)
                && lastAddedMetric == Some(LastAdded("Weight", weight, "kg", MetricId("Weight", tId), tStamp))
                && newWeight == ""
                && refreshKey == old(refreshKey) + 1
                && waterInput == old(waterInput) && stepsInput == old(stepsInput)
                && sleepInput == old(sleepInput)
                && selectedMetrics == old(selectedMetrics)
                && weightUpdateStatus == old(weightUpdateStatus)
    {
      var weightValue := parse(newWeight);
      if weightValue.NotANumber? || weightValue.v <= 0.0 {
        return;
      }
      if !weightUpdateStatus.canUpdate {
        return;
      }
      var metricId := MetricId("Weight", tId);
      store.AddMetric("Weight", weightValue.v, "kg", None, tAdd);
      lastAddedMetric := Some(LastAdded("Weight", weightValue.v, "kg", metricId, tStamp));
      newWeight := "";
      refreshKey := refreshKey + 1;
    }

    /**
     * `handleMetricSubmit`: a value that is not a number, or is negative,
     * changes nothing; otherwise the reading is recorded at `tAdd`, remembered
     * under the id built from `tId`, and the input of that metric is cleared.
     */
    method HandleMetricSubmit(metricName: string, value: string, unit: string,
                              parse: string -> Parsed, tId: int, tAdd: int, tStamp: int)
      requires Valid()
      modifies this, store
      ensures Valid()
      ensures !MetricAccepted(parse(value)) ==> unchanged(this) && unchanged(store)
      ensures MetricAccepted(parse(value)) ==>
                var v := parse(value).v;
                && store.data == WithMetric(old(store.data), metricName, v, unit, None, tAdd)
                && lastAddedMetric == Some(LastAdded(metricName, v, unit, MetricId(metricName, tId), tStamp))
                && refreshKey == old(refreshKey) + 1
                && waterInput == (if metricName == "Water Intake" then "" else old(waterInput))
                && stepsInput == (if metricName == "Steps" then "" else old(stepsInput))
                && sleepInput == (if metricName == "Sleep" then "" else old(sleepInput))
                && newWeight == old(newWeight)
                && selectedMetrics == old(selectedMetrics)
                && weightUpdateStatus == old(weightUpdateStatus)
    {
      var metricValue := parse(value);
      if metricValue.NotANumber? || metricValue.v < 0.0 {
        return;
      }
      var metricId := MetricId(metricName, tId);
      store.AddMetric(metricName, metricValue.v, unit, None, tAdd);
      lastAddedMetric := Some(LastAdded(metricName, metricValue.v, unit, metricId, tStamp));
      if metricName == "Water Intake" {
        waterInput := "";
      } else if metricName == "Steps" {
        stepsInput := "";
      } else if metricName == "Sleep" {
        sleepInput := "";
      }
      refreshKey := refreshKey + 1;
    }

    /** `handleSelectMetric`, called for one of the three chart slots. */
    method HandleSelectMetric(index: int, metricName: string)
      requires Valid() && 0 <= index < 3
      modifies this
      ensures Valid()
      ensures selectedMetrics == SelectMetric(old(selectedMetrics), index, metricName)
      ensures lastAddedMetric == old(lastAddedMetric) && refreshKey == old(refreshKey)
      ensures newWeight == old(newWeight) && waterInput == old(waterInput)
      ensures stepsInput == old(stepsInput) && sleepInput == old(sleepInput)
      ensures weightUpdateStatus == old(weightUpdateStatus)
    {
      var newSelectedMetrics := selectedMetrics;
      newSelectedMetrics := newSelectedMetrics[index := metricName];
      selectedMetrics := newSelectedMetrics;
    }
  }

  // ---------------------------------------------------------------------------
  // The undo in use

  /**
   * A weight submitted and then undone: the page's undo writes the
   * provider's copy `d`, taken before the submission, so the store ends
   * exactly as it was, and the cooldown the submission started is gone,
   * whichever clock values named and dated the reading.
   */
  method UndoRightAfterWeightSubmit(page: ProgressAnalyticsPage, d: HealthData,
                                    parse: string -> Parsed, tId: int, tAdd: int, tStamp: int)
    requires page.Valid() && page.store.data == d
    requires WeightAccepted(parse(page.newWeight), page.weightUpdateStatus)
    requires forall m :: m in d.metrics ==> m.id != MetricId("Weight", tId)
    modifies page, page.store
    ensures page.Valid()
    ensures page.store.data == d
    ensures page.store.data.settings.lastWeightUpdate == d.settings.lastWeightUpdate
    ensures page.lastAddedMetric == None
  {
    page.HandleWeightSubmit(parse, tId, tAdd, tStamp);
    page.HandleUndoMetric(d);
  }

  /**
   * Two readings submitted, then the undo: the copy `d` holds neither, so
   * the undo discards both, not just the last one.
   */
  method UndoAfterTwoSubmits(page: ProgressAnalyticsPage, d: HealthData,
                             name1: string, value1: string, unit1: string,
                             name2: string, value2: string, unit2: string,
                             parse: string -> Parsed, tId1: int, tAdd1: int, tStamp1: int,
                             tId2: int, tAdd2: int, tStamp2: int)
    requires page.Valid() && page.store.data == d
    requires MetricAccepted(parse(value1)) && MetricAccepted(parse(value2))
    requires forall m :: m in d.metrics ==> m.id != MetricId(name2, tId2)
    modifies page, page.store
    ensures page.Valid()
    ensures page.store.data == d
    ensures page.lastAddedMetric == None
  {
    page.HandleMetricSubmit(name1, value1, unit1, parse, tId1, tAdd1, tStamp1);
    assert |page.store.data.metrics| == |d.metrics| + 1;
    page.HandleMetricSubmit(name2, value2, unit2, parse, tId2, tAdd2, tStamp2);
    assert |page.store.data.metrics| == |d.metrics| + 2;
    page.HandleUndoMetric(d);
  }
}
