/**
 * `getMetricHistory`: the readings of one metric series inside a time
 * window, collapsed to one reading per UTC calendar day (the latest of that
 * day; on equal times the one listed first) and sorted by date.
 *
 * The source groups the readings in a record keyed by the date part of
 * their ISO 8601 text, then sorts the record's values. The date part names
 * the UTC day, which is the timestamp divided by the length of a day,
 * rounded down; the record is a sequence of its values in key-insertion
 * order, which is the order `Object.values` returns them in.
 */
module MetricHistory {
  import opened HealthTypes
  import opened DerivedViews

  /** The UTC calendar day holding time `t`: the date part of its ISO 8601 text. */
  function UtcDay(t: int): (day: int)
    ensures day * MsPerDay <= t < (day + 1) * MsPerDay
  {
    t / MsPerDay
  }

  /** The first instant of the window: the same time of day as `now`, `days` UTC days earlier. */
  function Cutoff(now: int, days: int): (c: int)
    ensures UtcDay(c) == UtcDay(now) - days && c % MsPerDay == now % MsPerDay
    ensures days >= 0 ==> c <= now
  {
    now - days * MsPerDay
  }

  predicate DistinctDays(s: seq<Metric>) {
    forall i, j :: 0 <= i < j < |s| ==> UtcDay(s[i].date) != UtcDay(s[j].date)
  }

  predicate SortedByDate(s: seq<Metric>) {
    forall i, j :: 0 <= i < j < |s| ==> s[i].date <= s[j].date
  }

  /** The days on which the readings of `s` fall. */
  ghost function DaysOf(s: seq<Metric>): set<int> {
    set m | m in s :: UtcDay(m.date)
  }

  /** The days on which the readings of `s` inside the window fall. */
  ghost function WindowDays(s: seq<Metric>, cutoff: int): set<int> {
    set m | m in s && m.date >= cutoff :: UtcDay(m.date)
  }

  /**
   * `s[j]` is `r`, inside the window, dated no earlier than any other
   * reading of its day in the window, and strictly later than every such
   * reading listed before it.
   */
  ghost predicate WinsAt(s: seq<Metric>, cutoff: int, j: int, r: Metric) {
    && 0 <= j < |s|
    && s[j] == r
    && r.date >= cutoff
    && (forall i :: 0 <= i < |s| && s[i].date >= cutoff && UtcDay(s[i].date) == UtcDay(r.date) ==>
          s[i].date <= r.date)
    && (forall i :: 0 <= i < j && s[i].date >= cutoff && UtcDay(s[i].date) == UtcDay(r.date) ==>
          s[i].date < r.date)
  }

  ghost predicate LatestOfItsDay(s: seq<Metric>, cutoff: int, r: Metric) {
    exists j :: WinsAt(s, cutoff, j, r)
  }

  /** What the grouping record holds after reading the prefix `s`. */
  ghost predicate GroupedSoFar(s: seq<Metric>, cutoff: int, groups: seq<Metric>) {
    && DistinctDays(groups)
    && DaysOf(groups) == WindowDays(s, cutoff)
    && forall k :: 0 <= k < |groups| ==> LatestOfItsDay(s, cutoff, groups[k])
  }

  // ---------------------------------------------------------------------------
  // The grouping `reduce`

  /** One step of the `reduce`: keep `m` if it is in the window and its day has nothing as recent. */
  function Absorb(groups: seq<Metric>, m: Metric, cutoff: int): (r: seq<Metric>)
    ensures m.date < cutoff ==> r == groups
    ensures |groups| <= |r| <= |groups| + 1
    ensures forall x :: x in r ==> x in groups || x == m
    ensures m.date >= cutoff && (forall x :: x in groups ==> UtcDay(x.date) != UtcDay(m.date)) ==>
              r == groups + [m]
  {
    if m.date >= cutoff then
      var k := FindIndex(groups, (x: Metric) => UtcDay(x.date) == UtcDay(m.date));
      if k == -1 then groups + [m]
      else if groups[k].date < m.date then groups[k := m]
      else groups
    else groups
  }

  function GroupByDay(series: seq<Metric>, cutoff: int): (groups: seq<Metric>)
    ensures GroupedSoFar(series, cutoff, groups)
    decreases |series|
  {
    if series == [] then
      assert WindowDays(series, cutoff) == {};
      []
    else
      var n := |series| - 1;
      var before := GroupByDay(series[..n], cutoff);
      assert series == series[..n] + [series[n]];
      AbsorbKeepsGrouping(series[..n], series[n], cutoff, before);
      Absorb(before, series[n], cutoff)
  }

  lemma DaysOfAppend(s: seq<Metric>, m: Metric)
    ensures DaysOf(s + [m]) == DaysOf(s) + {UtcDay(m.date)}
  {
    assert m in s + [m];
  }

  lemma DaysOfReplace(s: seq<Metric>, k: int, m: Metric)
    requires 0 <= k < |s| && UtcDay(s[k].date) == UtcDay(m.date)
    ensures DaysOf(s[k := m]) == DaysOf(s)
  {
    forall d | d in DaysOf(s) ensures d in DaysOf(s[k := m]) {
      var x :| x in s && UtcDay(x.date) == d;
      var i :| 0 <= i < |s| && s[i] == x;
      if i == k {
        assert s[k := m][k] == m;
      } else {
        assert s[k := m][i] == x;
      }
    }
    forall d | d in DaysOf(s[k := m]) ensures d in DaysOf(s) {
      var x :| x in s[k := m] && UtcDay(x.date) == d;
      var i :| 0 <= i < |s| && s[k := m][i] == x;
      if i == k {
        assert s[k] in s;
      } else {
        assert s[i] in s;
      }
    }
  }

  lemma WindowDaysAppend(s: seq<Metric>, m: Metric, cutoff: int)
    ensures m.date >= cutoff ==> WindowDays(s + [m], cutoff) == WindowDays(s, cutoff) + {UtcDay(m.date)}
    ensures m.date < cutoff ==> WindowDays(s + [m], cutoff) == WindowDays(s, cutoff)
  {
    assert m in s + [m];
  }

  /** A reading in the window of `s` falls on a day of the grouping record. */
  lemma InWindowHasGroup(s: seq<Metric>, cutoff: int, groups: seq<Metric>, i: int)
    requires GroupedSoFar(s, cutoff, groups)
    requires 0 <= i < |s| && s[i].date >= cutoff
    ensures exists x :: x in groups && UtcDay(x.date) == UtcDay(s[i].date)
  {
    assert UtcDay(s[i].date) in WindowDays(s, cutoff);
  }

  /** A group on another day than `m` (or any group, when `m` is outside the window) still wins. */
  lemma OtherDayStillWins(s: seq<Metric>, m: Metric, cutoff: int, r: Metric)
    requires LatestOfItsDay(s, cutoff, r)
    requires m.date < cutoff || UtcDay(r.date) != UtcDay(m.date)
    ensures LatestOfItsDay(s + [m], cutoff, r)
  {
    var j :| WinsAt(s, cutoff, j, r);
    assert WinsAt(s + [m], cutoff, j, r);
  }

  lemma AbsorbOutside(s: seq<Metric>, m: Metric, cutoff: int, groups: seq<Metric>)
    requires GroupedSoFar(s, cutoff, groups) && m.date < cutoff
    ensures GroupedSoFar(s + [m], cutoff, groups)
  {
    WindowDaysAppend(s, m, cutoff);
    forall k | 0 <= k < |groups| ensures LatestOfItsDay(s + [m], cutoff, groups[k]) {
      OtherDayStillWins(s, m, cutoff, groups[k]);
    }
  }

  lemma AbsorbNewDay(s: seq<Metric>, m: Metric, cutoff: int, groups: seq<Metric>)
    requires GroupedSoFar(s, cutoff, groups) && m.date >= cutoff
    requires forall x :: x in groups ==> UtcDay(x.date) != UtcDay(m.date)
    ensures GroupedSoFar(s + [m], cutoff, groups + [m])
  {
    var after := groups + [m];
    WindowDaysAppend(s, m, cutoff);
    DaysOfAppend(groups, m);
    forall i | 0 <= i < |s| && s[i].date >= cutoff ensures UtcDay(s[i].date) != UtcDay(m.date) {
      InWindowHasGroup(s, cutoff, groups, i);
    }
    assert WinsAt(s + [m], cutoff, |s|, m);
    forall k | 0 <= k < |after| ensures LatestOfItsDay(s + [m], cutoff, after[k]) {
      if k < |groups| {
        assert after[k] == groups[k] && groups[k] in groups;
        OtherDayStillWins(s, m, cutoff, groups[k]);
      }
    }
    assert DistinctDays(after) by {
      forall i, j | 0 <= i < j < |after| ensures UtcDay(after[i].date) != UtcDay(after[j].date) {
        if j == |groups| {
          assert after[i] in groups;
        }
      }
    }
  }

  lemma AbsorbLater(s: seq<Metric>, m: Metric, cutoff: int, groups: seq<Metric>, k: int)
    requires GroupedSoFar(s, cutoff, groups) && m.date >= cutoff
    requires 0 <= k < |groups| && UtcDay(groups[k].date) == UtcDay(m.date) && groups[k].date < m.date
    ensures GroupedSoFar(s + [m], cutoff, groups[k := m])
  {
    var after := groups[k := m];
    WindowDaysAppend(s, m, cutoff);
    DaysOfReplace(groups, k, m);
    assert UtcDay(m.date) in DaysOf(groups) by { assert groups[k] in groups; }
    var j :| WinsAt(s, cutoff, j, groups[k]);
    assert WinsAt(s + [m], cutoff, |s|, m);
    forall k' | 0 <= k' < |after| ensures LatestOfItsDay(s + [m], cutoff, after[k']) {
      if k' != k {
        OtherDayStillWins(s, m, cutoff, groups[k']);
      }
    }
  }

  lemma AbsorbEarlier(s: seq<Metric>, m: Metric, cutoff: int, groups: seq<Metric>, k: int)
    requires GroupedSoFar(s, cutoff, groups) && m.date >= cutoff
    requires 0 <= k < |groups| && UtcDay(groups[k].date) == UtcDay(m.date) && m.date <= groups[k].date
    ensures GroupedSoFar(s + [m], cutoff, groups)
  {
    WindowDaysAppend(s, m, cutoff);
    assert UtcDay(m.date) in DaysOf(groups) by { assert groups[k] in groups; }
    forall k' | 0 <= k' < |groups| ensures LatestOfItsDay(s + [m], cutoff, groups[k']) {
      if k' == k {
        var j :| WinsAt(s, cutoff, j, groups[k]);
        assert WinsAt(s + [m], cutoff, j, groups[k]);
      } else {
        OtherDayStillWins(s, m, cutoff, groups[k']);
      }
    }
  }

  lemma AbsorbKeepsGrouping(s: seq<Metric>, m: Metric, cutoff: int, groups: seq<Metric>)
    requires GroupedSoFar(s, cutoff, groups)
    ensures GroupedSoFar(s + [m], cutoff, Absorb(groups, m, cutoff))
  {
    if m.date < cutoff {
      AbsorbOutside(s, m, cutoff, groups);
    } else {
      var k := FindIndex(groups, (x: Metric) => UtcDay(x.date) == UtcDay(m.date));
      if k == -1 {
        forall x | x in groups ensures UtcDay(x.date) != UtcDay(m.date) {
          var i :| 0 <= i < |groups| && groups[i] == x;
        }
        AbsorbNewDay(s, m, cutoff, groups);
      } else if groups[k].date < m.date {
        AbsorbLater(s, m, cutoff, groups, k);
      } else {
        AbsorbEarlier(s, m, cutoff, groups, k);
      }
    }
  }

  // ---------------------------------------------------------------------------
  // The sort of the record's values by ascending date

  /** One step of the sort: `x` placed before the first reading not older than it. */
  function InsertByDate(x: Metric, s: seq<Metric>): (r: seq<Metric>)
    ensures multiset(r) == multiset(s) + multiset{x}
    decreases |s|
  {
    if s == [] then [x]
    else if x.date <= s[0].date then [x] + s
    else
      assert s == [s[0]] + s[1..];
      [s[0]] + InsertByDate(x, s[1..])
  }

  lemma InsertMembers(x: Metric, s: seq<Metric>)
    ensures forall y :: y in InsertByDate(x, s) <==> y in s || y == x
  {
    var r := InsertByDate(x, s);
    assert forall y :: y in r <==> y in multiset(r);
    assert forall y :: y in s <==> y in multiset(s);
  }

  lemma {:induction false} InsertSorted(x: Metric, s: seq<Metric>)
    requires SortedByDate(s)
    ensures SortedByDate(InsertByDate(x, s))
    decreases |s|
  {
    if s != [] && x.date > s[0].date {
      var rest := InsertByDate(x, s[1..]);
      InsertSorted(x, s[1..]);
      InsertMembers(x, s[1..]);
      var r := [s[0]] + rest;
      forall j | 0 <= j < |rest| ensures s[0].date <= rest[j].date {
        assert rest[j] in rest;
        if rest[j] != x {
          var i :| 0 <= i < |s[1..]| && s[1..][i] == rest[j];
          assert s[i + 1] == rest[j];
        }
      }
      assert forall i, j :: 0 <= i < j < |r| ==> r[i].date <= r[j].date by {
        forall i, j | 0 <= i < j < |r| ensures r[i].date <= r[j].date {
          if i == 0 {
            assert r[j] == rest[j - 1];
          } else {
            assert r[i] == rest[i - 1] && r[j] == rest[j - 1];
          }
        }
      }
    }
  }

  lemma {:induction false} InsertDistinct(x: Metric, s: seq<Metric>)
    requires DistinctDays(s)
    requires forall y :: y in s ==> UtcDay(y.date) != UtcDay(x.date)
    ensures DistinctDays(InsertByDate(x, s))
    decreases |s|
  {
    if s == [] {
    } else if x.date <= s[0].date {
      var r := [x] + s;
      forall i, j | 0 <= i < j < |r| ensures UtcDay(r[i].date) != UtcDay(r[j].date) {
        if i == 0 {
          assert r[j] == s[j - 1] && s[j - 1] in s;
        } else {
          assert r[i] == s[i - 1] && r[j] == s[j - 1];
        }
      }
    } else {
      var rest := InsertByDate(x, s[1..]);
      assert forall y :: y in s[1..] ==> y in s;
      InsertDistinct(x, s[1..]);
      InsertMembers(x, s[1..]);
      var r := [s[0]] + rest;
      forall j | 0 <= j < |rest| ensures UtcDay(s[0].date) != UtcDay(rest[j].date) {
        assert rest[j] in rest;
        if rest[j] != x {
          var i :| 0 <= i < |s[1..]| && s[1..][i] == rest[j];
          assert s[i + 1] == rest[j];
        } else {
          assert s[0] in s;
        }
      }
      forall i, j | 0 <= i < j < |r| ensures UtcDay(r[i].date) != UtcDay(r[j].date) {
        if i == 0 {
          assert r[j] == rest[j - 1];
        } else {
          assert r[i] == rest[i - 1] && r[j] == rest[j - 1];
        }
      }
    }
  }

  /** The stable sort by ascending date (an insertion sort). */
  function SortByDate(s: seq<Metric>): (r: seq<Metric>)
    ensures multiset(r) == multiset(s)
    ensures SortedByDate(r)
    ensures DistinctDays(s) ==> DistinctDays(r)
    decreases |s|
  {
    if s == [] then []
    else
      var rest := SortByDate(s[1..]);
      assert s == [s[0]] + s[1..];
      InsertSorted(s[0], rest);
      SortStep(s, rest);
      InsertByDate(s[0], rest)
  }

  lemma SortStep(s: seq<Metric>, rest: seq<Metric>)
    requires s != [] && multiset(rest) == multiset(s[1..])
    requires DistinctDays(s) ==> DistinctDays(rest)
    ensures DistinctDays(s) ==> DistinctDays(InsertByDate(s[0], rest))
  {
    if DistinctDays(s) {
      forall y | y in rest ensures UtcDay(y.date) != UtcDay(s[0].date) {
        assert y in multiset(s[1..]);
        var i :| 0 <= i < |s[1..]| && s[1..][i] == y;
        assert s[i + 1] == y;
      }
      InsertDistinct(s[0], rest);
    }
  }

  lemma {:induction false} DistinctDaysCount(s: seq<Metric>)
    requires DistinctDays(s)
    ensures |DaysOf(s)| == |s|
    decreases |s|
  {
    if s == [] {
      assert DaysOf(s) == {};
    } else {
      var n := |s| - 1;
      assert s == s[..n] + [s[n]];
      DaysOfAppend(s[..n], s[n]);
      DistinctDaysCount(s[..n]);
      forall x | x in s[..n] ensures UtcDay(x.date) != UtcDay(s[n].date) {
        var i :| 0 <= i < n && s[..n][i] == x;
        assert s[i] == x;
      }
    }
  }

  // ---------------------------------------------------------------------------
  // getMetricHistory

  /** The days on which readings named `name` fall inside the window. */
  ghost function SeriesWindowDays(metrics: seq<Metric>, name: string, cutoff: int): set<int> {
    set m | m in metrics && m.name == name && m.date >= cutoff :: UtcDay(m.date)
  }

  /**
   * `getMetricHistory`: one reading per UTC day on which the series has a
   * reading in the window, the latest of that day (the first listed among
   * equal times), in strictly ascending date order.
   */
  function GetMetricHistory(metrics: seq<Metric>, name: string, now: int, days: int)
    : (history: seq<Metric>)
    ensures forall m :: m in history ==>
              m in metrics && m.name == name && m.date >= Cutoff(now, days)
    ensures forall m :: m in history ==>
              LatestOfItsDay(SameName(metrics, name), Cutoff(now, days), m)
    ensures DistinctDays(history)
    ensures forall i, j :: 0 <= i < j < |history| ==> history[i].date < history[j].date
    ensures DaysOf(history) == SeriesWindowDays(metrics, name, Cutoff(now, days))
    ensures |history| == |SeriesWindowDays(metrics, name, Cutoff(now, days))|
  {
    var cutoff := Cutoff(now, days);
    var series := SameName(metrics, name);
    var groups := GroupByDay(series, cutoff);
    var history := SortByDate(groups);
    HistoryFacts(series, cutoff, groups, history);
    assert WindowDays(series, cutoff) == SeriesWindowDays(metrics, name, cutoff);
    history
  }

  lemma HistoryFacts(series: seq<Metric>, cutoff: int, groups: seq<Metric>, history: seq<Metric>)
    requires GroupedSoFar(series, cutoff, groups)
    requires multiset(history) == multiset(groups) && SortedByDate(history) && DistinctDays(history)
    ensures forall m :: m in history ==> m in series && m.date >= cutoff
    ensures forall m :: m in history ==> LatestOfItsDay(series, cutoff, m)
    ensures forall i, j :: 0 <= i < j < |history| ==> history[i].date < history[j].date
    ensures DaysOf(history) == WindowDays(series, cutoff)
    ensures |history| == |WindowDays(series, cutoff)|
  {
    assert forall m :: m in history <==> m in groups by {
      assert forall m :: m in history <==> m in multiset(history);
      assert forall m :: m in groups <==> m in multiset(groups);
    }
    forall m | m in history ensures LatestOfItsDay(series, cutoff, m) && m in series && m.date >= cutoff {
      var k :| 0 <= k < |groups| && groups[k] == m;
      var j :| WinsAt(series, cutoff, j, m);
    }
    assert DaysOf(history) == DaysOf(groups);
    DistinctDaysCount(history);
  }
}
