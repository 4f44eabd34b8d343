/**
 * The health-data aggregate: the entities held in the single persisted
 * document, and the small sequence helpers (JavaScript's `filter` and
 * `findIndex`) that every operation on it is written with.
 *
 * Times are integer milliseconds since the epoch. An ISO 8601 string
 * produced by `toISOString` carries exactly this millisecond value, so the
 * model keeps the number and not the text.
 */
module HealthTypes {

  datatype Option<T> = None | Some(value: T)

  const MsPerHour: int := 3_600_000
  const MsPerDay: int := 86_400_000

  datatype Goal = Goal(id: string, name: string, target: real, current: real,
                       unit: string, deadline: int)

  datatype Metric = Metric(id: string, name: string, value: real, unit: string,
                           targetValue: Option<real>, date: int)

  datatype PainPoint = PainPoint(id: string, emoji: string, description: string, date: int)

  datatype MealType = Breakfast | Lunch | Dinner | Snack

  /** The optional flags are `None` where the stored record has no such key. */
  datatype Recipe = Recipe(id: string, name: string, image: string, mealType: MealType,
                           prepTime: int, ingredients: seq<string>,
                           liked: Option<bool>, disliked: Option<bool>,
                           eaten: Option<bool>, eatenAt: Option<int>)

  datatype DailyTip = DailyTip(id: string, title: string, description: string,
                               icon: string, completed: bool)

  datatype DailyTips = DailyTips(tips: seq<DailyTip>, lastUpdated: int, streak: int)

  datatype Settings = Settings(darkMode: bool, selectedMetrics: seq<string>,
                               lastWeightUpdate: Option<int>)

  datatype EatenMeal = EatenMeal(recipeId: string, date: int, mealType: MealType)

  datatype HealthData = HealthData(goals: seq<Goal>, metrics: seq<Metric>,
                                   painPoints: seq<PainPoint>, recipes: seq<Recipe>,
                                   dailyTips: DailyTips, settings: Settings,
                                   eatenMeals: seq<EatenMeal>)

  // ---------------------------------------------------------------------------
  // Sequence helpers

  predicate NoDups<T(==)>(s: seq<T>) {
    forall i, j :: 0 <= i < j < |s| ==> s[i] != s[j]
  }

  /** `Array.prototype.findIndex`: the first index whose element satisfies `p`, or -1. */
  function FindIndex<T>(s: seq<T>, p: T -> bool): (k: int)
    ensures -1 <= k < |s|
    ensures k == -1 <==> forall i :: 0 <= i < |s| ==> !p(s[i])
    ensures k != -1 ==> p(s[k]) && forall i :: 0 <= i < k ==> !p(s[i])
    decreases |s|
  {
    if s == [] then -1
    else if p(s[0]) then 0
    else
      var j := FindIndex(s[1..], p);
      if j == -1 then -1 else j + 1
  }

  /** `Array.prototype.filter`: the elements satisfying `p`, in their original order. */
  function Filter<T(==,!new)>(s: seq<T>, p: T -> bool): (r: seq<T>)
    ensures |r| <= |s|
    ensures forall x :: x in r <==> x in s && p(x)
    ensures NoDups(s) ==> NoDups(r)
    ensures (forall i :: 0 <= i < |s| ==> p(s[i])) ==> r == s
    decreases |s|
  {
    if s == [] then []
    else
      var rest := Filter(s[1..], p);
      assert NoDups(s) ==> s[0] !in s[1..];
      if p(s[0]) then [s[0]] + rest else rest
  }

  /** Filtering distributes over concatenation: the kept elements keep their relative order. */
  lemma {:induction false} FilterConcat<T(!new)>(a: seq<T>, b: seq<T>, p: T -> bool)
    ensures Filter(a + b, p) == Filter(a, p) + Filter(b, p)
    decreases |a|
  {
    if a == [] {
      assert a + b == b;
    } else {
      assert (a + b)[1..] == a[1..] + b;
      FilterConcat(a[1..], b, p);
    }
  }

  // ---------------------------------------------------------------------------
  // Number formatting, as JavaScript's `String(n)` prints an integer

  function DigitChar(d: int): (c: char)
    requires 0 <= d < 10
    ensures '0' <= c <= '9' && c as int - '0' as int == d
  {
    ('0' as int + d) as char
  }

  /** The number a text of decimal digits spells, read left to right. */
  function DecimalValue(s: string): int
    decreases |s|
  {
    if s == [] then 0 else DecimalValue(s[..|s| - 1]) * 10 + (s[|s| - 1] as int - '0' as int)
  }

  /** Decimal text of a natural, without leading zeros. */
  function NatToString(n: nat): (s: string)
    ensures 1 <= |s|
    ensures n < 10 <==> |s| == 1
    ensures forall i :: 0 <= i < |s| ==> '0' <= s[i] <= '9'
    decreases n
  {
    if n < 10 then [DigitChar(n)] else NatToString(n / 10) + [DigitChar(n % 10)]
  }

  /** Decimal text of an integer, with a leading '-' when negative. */
  function IntToString(n: int): (s: string)
    ensures 1 <= |s|
    ensures s[0] == '-' <==> n < 0
    ensures n < 0 ==> s[1..] == NatToString(-n)
    ensures n >= 0 ==> s == NatToString(n)
  {
    if n < 0 then "-" + NatToString(-n) else NatToString(n)
  }

  /** The text spells `n`, with no leading zero. */
  lemma {:induction false} NatToStringValue(n: nat)
    ensures DecimalValue(NatToString(n)) == n
    ensures n >= 10 ==> NatToString(n)[0] != '0'
    decreases n
  {
    if n >= 10 {
      var s := NatToString(n);
      assert s[..|s| - 1] == NatToString(n / 10);
      NatToStringValue(n / 10);
      assert s[0] == NatToString(n / 10)[0];
    }
  }

  /** A clock value's text spells it: the digits after the optional '-' spell its magnitude. */
  lemma IntToStringValue(n: int)
    ensures n < 0 ==> DecimalValue(IntToString(n)[1..]) == -n
    ensures n >= 0 ==> DecimalValue(IntToString(n)) == n
  {
    if n < 0 {
      NatToStringValue(-n);
    } else {
      NatToStringValue(n);
    }
  }

  lemma {:induction false} NatToStringInjective(a: nat, b: nat)
    requires NatToString(a) == NatToString(b)
    ensures a == b
    decreases a
  {
    var sa, sb := NatToString(a), NatToString(b);
    if a >= 10 && b >= 10 {
      assert sa[..|sa| - 1] == NatToString(a / 10);
      assert sb[..|sb| - 1] == NatToString(b / 10);
      NatToStringInjective(a / 10, b / 10);
      assert sa[|sa| - 1] == DigitChar(a % 10);
      assert sb[|sb| - 1] == DigitChar(b % 10);
    } else {
      assert a < 10 && b < 10;
      assert sa[0] == DigitChar(a) && sb[0] == DigitChar(b);
    }
  }

  lemma IntToStringInjective(a: int, b: int)
    requires IntToString(a) == IntToString(b)
    ensures a == b
  {
    if a < 0 {
      assert IntToString(a)[1..] == NatToString(-a);
      assert IntToString(b)[1..] == NatToString(-b);
      NatToStringInjective(-a, -b);
    } else {
      NatToStringInjective(a, b);
    }
  }

  /** The id `addMetric` gives a reading: the metric name, '-', and the clock value. */
  function MetricId(name: string, t: int): (id: string)
    ensures |id| > |name| + 1 && id[..|name|] == name && id[|name|] == '-'
    ensures id[|name| + 1..] == IntToString(t)
  {
    name + "-" + IntToString(t)
  }

  /** Two ids built for the same name agree exactly when the clock values agree. */
  lemma MetricIdInjective(name: string, t1: int, t2: int)
    ensures MetricId(name, t1) == MetricId(name, t2) <==> t1 == t2
  {
    if MetricId(name, t1) == MetricId(name, t2) {
      assert MetricId(name, t1)[|name| + 1..] == IntToString(t1);
      assert MetricId(name, t2)[|name| + 1..] == IntToString(t2);
      IntToStringInjective(t1, t2);
    }
  }

  // ---------------------------------------------------------------------------
  // Integer arithmetic used by the derived views

  /** The least integer `q` with `a <= q * b`: `Math.ceil(a / b)` for a positive divisor. */
  function CeilDiv(a: int, b: int): (q: int)
    requires b > 0
    ensures (q - 1) * b < a <= q * b
  {
    -((-a) / b)
  }

  /** `Math.round`: the nearest integer, halves rounded up. */
  function Round(x: real): (n: int)
    ensures n as real - 0.5 <= x < n as real + 0.5
  {
    (x + 0.5).Floor
  }
}
