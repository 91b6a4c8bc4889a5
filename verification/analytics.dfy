/**
 The aggregations behind the analytics endpoint
 (src/app/api/analytics/monthly-spending/route.ts): the per-month buckets of
 the free chart, the per-period trend tallies and the per-category totals of
 the premium one. Each is a `GroupBy` over the fetched expenses, which the
 endpoint reads oldest first.

 A bucket's "Mon YYYY" label is represented by the (year, month) pair it is
 printed from; distinct pairs print distinct labels, so the grouping is the
 same.
 */
module Analytics {
  import opened Common
  import opened Calendar
  import opened Grouping

  /** The three columns the endpoint selects. */
  datatype SimpleExpense = SimpleExpense(amount: int, tag: string, createdAt: Instant)

  function AmountOf(e: SimpleExpense): int
  {
    e.amount
  }

  function TagOf(e: SimpleExpense): string
  {
    e.tag
  }

  /** Sum of the amounts. */
  function Total(xs: seq<SimpleExpense>): int
  {
    if xs == [] then 0 else Total(xs[..|xs| - 1]) + xs[|xs| - 1].amount
  }

  /** Sum of the amounts carrying tag `t`. */
  function TagTotal(xs: seq<SimpleExpense>, t: string): int
  {
    if xs == [] then 0
    else TagTotal(xs[..|xs| - 1], t) + (if xs[|xs| - 1].tag == t then xs[|xs| - 1].amount else 0)
  }

  predicate HasTag(xs: seq<SimpleExpense>, t: string)
  {
    exists i :: 0 <= i < |xs| && xs[i].tag == t
  }

  lemma {:induction false} WithKeyEmpty(xs: seq<SimpleExpense>, t: string)
    ensures WithKey(xs, TagOf, t) == [] <==> !HasTag(xs, t)
    decreases |xs|
  {
    if xs != [] {
      var init := xs[..|xs| - 1];
      WithKeyEmpty(init, t);
      assert HasTag(xs, t) <==> HasTag(init, t) || xs[|xs| - 1].tag == t by {
        if HasTag(xs, t) {
          var i :| 0 <= i < |xs| && xs[i].tag == t;
          if i < |init| {
            assert init[i] == xs[i];
          }
        }
        if HasTag(init, t) {
          var i :| 0 <= i < |init| && init[i].tag == t;
          assert xs[i] == init[i];
        }
      }
    }
  }

  // ---------------------------------------------------------------------
  // Monthly buckets (processMonthlyData, without its final date sort)
  // ---------------------------------------------------------------------

  /** A bucket field: the bucket's own month label, or a number. */
  datatype Field = MonthLabel(year: int, month: int) | Number(value: int)

  /** A bucket is a plain object: field name to field. */
  type Bucket = map<string, Field>

  /** The nine categories every new bucket starts with. */
  const Tags: seq<string> := ["Food", "Grocery", "Transport", "Medical", "Fruits", "Bills", "Rent", "Entertainment", "Other"]

  function MonthKey(e: SimpleExpense): (int, int)
  {
    (e.createdAt.year, e.createdAt.month)
  }

  /** A fresh bucket: the label, a zero total and a zero for each category. */
  function NewBucket(key: (int, int)): (b: Bucket)
    ensures b.Keys == {"month", "total"} + set t | t in Tags
    ensures b["month"] == MonthLabel(key.0, key.1)
    ensures forall t :: t in b && t != "month" ==> b[t] == Number(0)
  {
    map["month" := MonthLabel(key.0, key.1), "total" := Number(0),
        "Food" := Number(0), "Grocery" := Number(0), "Transport" := Number(0),
        "Medical" := Number(0), "Fruits" := Number(0), "Bills" := Number(0),
        "Rent" := Number(0), "Entertainment" := Number(0), "Other" := Number(0)]
  }

  /** The number stored under `f`, or 0 when the field is missing or is the
      label. */
  function NumberAt(b: Bucket, f: string): int
  {
    if f in b && b[f].Number? then b[f].value else 0
  }

  /** One expense into its bucket: the amount is added to `total`, then to
      the field named by the tag if that field holds a number, and otherwise
      the field is set to the amount. No tag is special-cased, so a tag
      named "total" is counted into the total twice and a tag named "month"
      replaces the label. */
  function AddToBucket(b: Bucket, e: SimpleExpense): (r: Bucket)
    ensures r.Keys == b.Keys + {"total", e.tag}
    ensures forall f :: f in b && f != "total" && f != e.tag ==> r[f] == b[f]
    ensures e.tag != "total" ==> r["total"] == Number(NumberAt(b, "total") + e.amount)
    ensures e.tag != "total" ==> r[e.tag] == Number(NumberAt(b, e.tag) + e.amount)
    ensures e.tag == "total" ==> r["total"] == Number(NumberAt(b, "total") + 2 * e.amount)
  {
    var b1 := b["total" := Number(NumberAt(b, "total") + e.amount)];
    if e.tag in b1 && b1[e.tag].Number? then b1[e.tag := Number(b1[e.tag].value + e.amount)]
    else b1[e.tag := Number(e.amount)]
  }

  /** The month buckets in insertion order (`Object.values(monthlyData)`):
      one per month that has an expense. */
  function MonthlyGroups(es: seq<SimpleExpense>): (g: Groups<(int, int), Bucket>)
    ensures UniqueKeys(g)
    ensures forall k :: k in Keys(g) <==> exists i :: 0 <= i < |es| && MonthKey(es[i]) == k
  {
    GroupByUniqueKeys(es, MonthKey, NewBucket, AddToBucket);
    GroupBy(es, MonthKey, NewBucket, AddToBucket)
  }

  /** What a bucket holds after the expenses `xs` of its month were added:
      the total counts every amount once and the "total"-tagged ones a
      second time; each category field, and each field a tag created, holds
      the sum of that tag's amounts; no other field exists; the label
      survives unless some expense is tagged "month". */
  ghost predicate BucketHolds(b: Bucket, xs: seq<SimpleExpense>, key: (int, int))
  {
    TotalHolds(b, xs, key) && FieldsHold(b, xs)
  }

  ghost predicate TotalHolds(b: Bucket, xs: seq<SimpleExpense>, key: (int, int))
  {
    && "total" in b && b["total"] == Number(Total(xs) + TagTotal(xs, "total"))
    && "month" in b
    && (!HasTag(xs, "month") ==> b["month"] == MonthLabel(key.0, key.1))
  }

  ghost predicate FieldsHold(b: Bucket, xs: seq<SimpleExpense>)
  {
    && (forall t :: t != "total" && t != "month" ==> (t in b <==> t in Tags || HasTag(xs, t)))
    && (forall t :: t != "total" && (t in Tags || HasTag(xs, t)) ==> t in b && b[t] == Number(TagTotal(xs, t)))
  }

  /** How the tag sums and tag tests change when one expense is appended. */
  lemma AppendOne(init: seq<SimpleExpense>, e: SimpleExpense, t: string)
    ensures Total(init + [e]) == Total(init) + e.amount
    ensures TagTotal(init + [e], t) == TagTotal(init, t) + (if e.tag == t then e.amount else 0)
    ensures HasTag(init + [e], t) <==> HasTag(init, t) || e.tag == t
    ensures !HasTag(init, t) ==> TagTotal(init, t) == 0
  {
    var xs := init + [e];
    assert xs[..|xs| - 1] == init;
    assert HasTag(xs, t) <==> HasTag(init, t) || e.tag == t by {
      if HasTag(xs, t) && e.tag != t {
        var i :| 0 <= i < |xs| && xs[i].tag == t;
        assert init[i] == xs[i];
      }
      if HasTag(init, t) {
        var i :| 0 <= i < |init| && init[i].tag == t;
        assert xs[i] == init[i];
      }
      if e.tag == t {
        assert xs[|xs| - 1].tag == t;
      }
    }
    NoTagNoTotal(init, t);
  }

  lemma {:induction false} NoTagNoTotal(xs: seq<SimpleExpense>, t: string)
    ensures !HasTag(xs, t) ==> TagTotal(xs, t) == 0
    decreases |xs|
  {
    if xs != [] && !HasTag(xs, t) {
      var init := xs[..|xs| - 1];
      NoTagNoTotal(init, t);
      assert xs[|xs| - 1].tag != t;
    }
  }

  /** Adding one expense keeps `BucketHolds`. */
  lemma AddToBucketHolds(a: Bucket, init: seq<SimpleExpense>, e: SimpleExpense, key: (int, int))
    requires BucketHolds(a, init, key)
    ensures BucketHolds(AddToBucket(a, e), init + [e], key)
  {
    var xs := init + [e];
    var b := AddToBucket(a, e);
    TotalAndLabelStep(a, init, e, key);
    forall t | t != "total"
      ensures t != "month" ==> (t in b <==> t in Tags || HasTag(xs, t))
      ensures (t in Tags || HasTag(xs, t)) ==> t in b && b[t] == Number(TagTotal(xs, t))
    {
      FieldStep(a, init, e, key, t);
    }
  }

  /** `AddToBucketHolds` for the total and the label. */
  lemma TotalAndLabelStep(a: Bucket, init: seq<SimpleExpense>, e: SimpleExpense, key: (int, int))
    requires TotalHolds(a, init, key)
    ensures var b := AddToBucket(a, e);
      var xs := init + [e];
      && "total" in b && b["total"] == Number(Total(xs) + TagTotal(xs, "total"))
      && "month" in b
      && (!HasTag(xs, "month") ==> b["month"] == MonthLabel(key.0, key.1))
  {
    AppendOne(init, e, "total");
    AppendOne(init, e, "month");
    assert NumberAt(a, "total") == Total(init) + TagTotal(init, "total");
  }

  /** `AddToBucketHolds` for one field other than the total. */
  lemma FieldStep(a: Bucket, init: seq<SimpleExpense>, e: SimpleExpense, key: (int, int), t: string)
    requires BucketHolds(a, init, key)
    requires t != "total"
    ensures var b := AddToBucket(a, e);
      var xs := init + [e];
      && (t != "month" ==> (t in b <==> t in Tags || HasTag(xs, t)))
      && ((t in Tags || HasTag(xs, t)) ==> t in b && b[t] == Number(TagTotal(xs, t)))
  {
    AppendOne(init, e, t);
    var known := t in Tags || HasTag(init, t);
    assert known ==> t in a && a[t] == Number(TagTotal(init, t));
    assert t != "month" ==> (t in a <==> known);
    if t == e.tag && !known {
      assert t in a ==> t == "month" && a[t] == MonthLabel(key.0, key.1);
    }
  }

  /** Folding a month's expenses into a fresh bucket gives `BucketHolds`. */
  lemma {:induction false} BucketContents(xs: seq<SimpleExpense>, key: (int, int))
    ensures BucketHolds(Fold(AddToBucket, NewBucket(key), xs), xs, key)
    decreases |xs|
  {
    if xs == [] {
      var b := NewBucket(key);
      forall t | t != "total" && t != "month"
        ensures t in b <==> t in Tags || HasTag(xs, t)
      {
      }
    } else {
      var init := xs[..|xs| - 1];
      BucketContents(init, key);
      assert xs == init + [xs[|xs| - 1]];
      AddToBucketHolds(Fold(AddToBucket, NewBucket(key), init), init, xs[|xs| - 1], key);
    }
  }

  /** There is one bucket per month that has an expense, and it holds what
      `BucketHolds` says for exactly that month's expenses. */
  lemma MonthlyBuckets(es: seq<SimpleExpense>, key: (int, int))
    ensures var g := MonthlyGroups(es);
      && UniqueKeys(g)
      && (Lookup(g, key).Some? <==> exists i :: 0 <= i < |es| && MonthKey(es[i]) == key)
      && (Lookup(g, key).Some? ==> BucketHolds(Lookup(g, key).value, WithKey(es, MonthKey, key), key))
  {
    GroupByIsFoldPerKey(es, MonthKey, NewBucket, AddToBucket, key);
    GroupByUniqueKeys(es, MonthKey, NewBucket, AddToBucket);
    WithKeyNonEmpty(es, MonthKey, key);
    BucketContents(WithKey(es, MonthKey, key), key);
  }

  /** The filter of a key is non-empty exactly when some element has it. */
  lemma {:induction false} WithKeyNonEmpty<K(!new)>(es: seq<SimpleExpense>, key: SimpleExpense -> K, k: K)
    ensures WithKey(es, key, k) != [] <==> exists i :: 0 <= i < |es| && key(es[i]) == k
    decreases |es|
  {
    if es != [] {
      var init := es[..|es| - 1];
      WithKeyNonEmpty(init, key, k);
      if exists i :: 0 <= i < |es| && key(es[i]) == k {
        var i :| 0 <= i < |es| && key(es[i]) == k;
        if i < |init| {
          assert key(init[i]) == k;
        }
      }
      if exists i :: 0 <= i < |init| && key(init[i]) == k {
        var i :| 0 <= i < |init| && key(init[i]) == k;
        assert key(es[i]) == k;
      }
    }
  }

  // ---------------------------------------------------------------------
  // Trends (processTrendsData)
  // ---------------------------------------------------------------------

  /** The period an expense falls in. "monthly" and any unrecognised
      timeframe both key by month. */
  datatype Period = Week(week: int, year: int) | Month(year: int, month: int) | Quarter(quarter: int, year: int) | Year(year: int)

  /** `Math.floor(date.getMonth() / 3) + 1` for a zero-based month index;
      the floor of a division by 3 is Dafny's `/` for every integer. */
  function QuarterOf(monthIndex: int): (q: int)
    ensures 0 <= monthIndex <= 11 ==> 1 <= q <= 4
    ensures 3 * (q - 1) <= monthIndex < 3 * q
  {
    monthIndex / 3 + 1
  }

  /** The period key of `processTrendsData`; `weekOf` stands for
      `getWeekNumber`. */
  function PeriodOf(timeframe: string, weekOf: Instant -> int, t: Instant): (p: Period)
    ensures timeframe == "weekly" <==> p.Week?
    ensures timeframe == "quarterly" <==> p.Quarter?
    ensures timeframe == "yearly" <==> p.Year?
    ensures p.year == t.year
    ensures p.Week? ==> p.week == weekOf(t)
    ensures p.Month? ==> p.month == t.month
    ensures p.Quarter? ==> p.quarter == QuarterOf(t.month - 1)
  {
    match timeframe
    case "weekly" => Week(weekOf(t), t.year)
    case "monthly" => Month(t.year, t.month)
    case "quarterly" => Quarter(QuarterOf(t.month - 1), t.year)
    case "yearly" => Year(t.year)
    case _ => Month(t.year, t.month)
  }

  /** Two instants share a period key exactly when they share the year and
      the week, the month, the quarter (months 1-3, 4-6, 7-9, 10-12) or
      nothing more, as the timeframe asks. */
  lemma SamePeriod(timeframe: string, weekOf: Instant -> int, t1: Instant, t2: Instant)
    requires 1 <= t1.month <= 12 && 1 <= t2.month <= 12
    ensures PeriodOf(timeframe, weekOf, t1) == PeriodOf(timeframe, weekOf, t2) <==>
      && t1.year == t2.year
      && (timeframe == "weekly" ==> weekOf(t1) == weekOf(t2))
      && (timeframe == "quarterly" ==> (t1.month - 1) / 3 == (t2.month - 1) / 3)
      && (timeframe != "weekly" && timeframe != "quarterly" && timeframe != "yearly" ==> t1.month == t2.month)
  {
  }

  function PeriodKey(timeframe: string, weekOf: Instant -> int): SimpleExpense -> Period
  {
    (e: SimpleExpense) => PeriodOf(timeframe, weekOf, e.createdAt)
  }

  /** A period's running `total`, `count` and `maximum`. */
  datatype Tally = Tally(total: int, count: int, maximum: int)

  function EmptyTally(p: Period): Tally
  {
    Tally(0, 0, 0)
  }

  /** One expense into its period's tally: counted once, its amount added,
      and the maximum raised to it if it is larger. */
  function TallyStep(t: Tally, e: SimpleExpense): (r: Tally)
    ensures r.count == t.count + 1
    ensures r.total - t.total == e.amount
    ensures r.maximum >= t.maximum && r.maximum >= e.amount
    ensures r.maximum == t.maximum || r.maximum == e.amount
  {
    Tally(t.total + e.amount, t.count + 1, Max(t.maximum, e.amount))
  }

  function CountOf(t: Tally): int
  {
    t.count
  }

  function One(e: SimpleExpense): int
  {
    1
  }

  /** Folding a period's expenses gives their sum, their number, and the
      largest of 0 and their amounts (the tally starts from a maximum of 0). */
  lemma {:induction false} TallyOfPeriod(xs: seq<SimpleExpense>)
    ensures var t := Fold(TallyStep, Tally(0, 0, 0), xs);
      && t.total == Total(xs)
      && t.count == |xs|
      && t.maximum >= 0
      && (forall i :: 0 <= i < |xs| ==> t.maximum >= xs[i].amount)
      && (t.maximum == 0 || exists i :: 0 <= i < |xs| && t.maximum == xs[i].amount)
    decreases |xs|
  {
    if xs != [] {
      var init := xs[..|xs| - 1];
      TallyOfPeriod(init);
      var t := Fold(TallyStep, Tally(0, 0, 0), xs);
      var t0 := Fold(TallyStep, Tally(0, 0, 0), init);
      assert t == TallyStep(t0, xs[|xs| - 1]);
      if t.maximum != 0 && t.maximum != xs[|xs| - 1].amount {
        var i :| 0 <= i < |init| && t0.maximum == init[i].amount;
        assert xs[i] == init[i];
      }
      forall i | 0 <= i < |xs|
        ensures t.maximum >= xs[i].amount
      {
        if i < |init| {
          assert xs[i] == init[i];
        }
      }
    }
  }

  /** With no negative amounts, a non-empty period's maximum is one of its
      amounts. */
  lemma MaximumIsAnAmount(xs: seq<SimpleExpense>)
    requires xs != []
    requires forall i :: 0 <= i < |xs| ==> xs[i].amount >= 0
    ensures var t := Fold(TallyStep, Tally(0, 0, 0), xs);
      exists i :: 0 <= i < |xs| && t.maximum == xs[i].amount
  {
    TallyOfPeriod(xs);
    var t := Fold(TallyStep, Tally(0, 0, 0), xs);
    if t.maximum == 0 {
      assert t.maximum >= xs[0].amount >= 0;
    }
  }

  /** One tally per period that has an expense. */
  function TrendGroups(es: seq<SimpleExpense>, timeframe: string, weekOf: Instant -> int): (g: Groups<Period, Tally>)
    ensures UniqueKeys(g)
    ensures forall p :: p in Keys(g) <==> exists i :: 0 <= i < |es| && PeriodOf(timeframe, weekOf, es[i].createdAt) == p
  {
    GroupByUniqueKeys(es, PeriodKey(timeframe, weekOf), EmptyTally, TallyStep);
    GroupBy(es, PeriodKey(timeframe, weekOf), EmptyTally, TallyStep)
  }

  /** One point of the trend chart. */
  datatype TrendPoint = TrendPoint(period: Period, total: int, average: real, maximum: int)

  /** `processTrendsData`: each tally mapped to its point, in insertion order. */
  function ProcessTrendsData(es: seq<SimpleExpense>, timeframe: string, weekOf: Instant -> int): (r: seq<TrendPoint>)
    ensures |r| == |TrendGroups(es, timeframe, weekOf)|
    ensures forall i :: 0 <= i < |r| ==> r[i].period == TrendGroups(es, timeframe, weekOf)[i].0
  {
    var g := TrendGroups(es, timeframe, weekOf);
    seq(|g|, i requires 0 <= i < |g| =>
      var t := g[i].1;
      TrendPoint(g[i].0, t.total, if t.count > 0 then t.total as real / t.count as real else 0.0, t.maximum))
  }

  /** Every trend point belongs to one period that has expenses: its
      `total` is their sum, its `average` that sum divided by their
      number (never the 0 fallback), and its `maximum` bounds them all. */
  lemma TrendPoints(es: seq<SimpleExpense>, timeframe: string, weekOf: Instant -> int, i: nat)
    requires i < |ProcessTrendsData(es, timeframe, weekOf)|
    ensures var p := ProcessTrendsData(es, timeframe, weekOf)[i];
      var xs := WithKey(es, PeriodKey(timeframe, weekOf), p.period);
      && |xs| >= 1
      && p.total == Total(xs)
      && p.average == Total(xs) as real / |xs| as real
      && p.maximum >= 0
      && (forall j :: 0 <= j < |xs| ==> p.maximum >= xs[j].amount)
      && (forall j :: 0 <= j < |ProcessTrendsData(es, timeframe, weekOf)| && j != i ==>
            ProcessTrendsData(es, timeframe, weekOf)[j].period != p.period)
  {
    var g := TrendGroups(es, timeframe, weekOf);
    var key := PeriodKey(timeframe, weekOf);
    GroupByUniqueKeys(es, key, EmptyTally, TallyStep);
    LookupAt(g, i);
    GroupByIsFoldPerKey(es, key, EmptyTally, TallyStep, g[i].0);
    TallyOfPeriod(WithKey(es, key, g[i].0));
  }

  /** The tallies count every expense once: the counts add up to the number
      of expenses fetched. */
  lemma CountsCoverInput(es: seq<SimpleExpense>, timeframe: string, weekOf: Instant -> int)
    ensures SumOver(TrendGroups(es, timeframe, weekOf), CountOf) == |es|
  {
    GroupBySumsWeights(es, PeriodKey(timeframe, weekOf), EmptyTally, TallyStep, CountOf, One);
    SumOfOnes(es);
  }

  lemma {:induction false} SumOfOnes(es: seq<SimpleExpense>)
    ensures SumOf(es, One) == |es|
    decreases |es|
  {
    if es != [] {
      SumOfOnes(es[..|es| - 1]);
    }
  }

  // ---------------------------------------------------------------------
  // Categories (processCategoriesData)
  // ---------------------------------------------------------------------

  function Zero(t: string): int
  {
    0
  }

  /** `if (!categories[tag]) categories[tag] = 0; categories[tag] += amount`
      on an entry that exists (a missing one starts from `Zero`): the only
      falsy number is 0, and resetting it to 0 changes nothing, so the step
      is a plain addition. */
  function AddAmount(v: int, e: SimpleExpense): (r: int)
    ensures r == v + e.amount
  {
    (if v == 0 then 0 else v) + e.amount
  }

  function Identity(v: int): int
  {
    v
  }

  /** One pie slice. */
  datatype Slice = Slice(name: string, value: int)

  /** One entry per tag that occurs. */
  function CategoryGroups(es: seq<SimpleExpense>): (g: Groups<string, int>)
    ensures UniqueKeys(g)
    ensures forall t :: t in Keys(g) <==> HasTag(es, t)
  {
    GroupByUniqueKeys(es, TagOf, Zero, AddAmount);
    GroupBy(es, TagOf, Zero, AddAmount)
  }

  /** `processCategoriesData`: `Object.entries(categories)` as slices. */
  function ProcessCategoriesData(es: seq<SimpleExpense>): (r: seq<Slice>)
    ensures |r| == |CategoryGroups(es)|
    ensures forall i :: 0 <= i < |r| ==> r[i] == Slice(CategoryGroups(es)[i].0, CategoryGroups(es)[i].1)
  {
    var g := CategoryGroups(es);
    seq(|g|, i requires 0 <= i < |g| => Slice(g[i].0, g[i].1))
  }

  /** Folding `AddAmount` over one tag's expenses gives that tag's total. */
  lemma {:induction false} FoldAddAmount(xs: seq<SimpleExpense>, t: string)
    ensures Fold(AddAmount, 0, WithKey(xs, TagOf, t)) == TagTotal(xs, t)
    decreases |xs|
  {
    if xs != [] {
      var init := xs[..|xs| - 1];
      var e := xs[|xs| - 1];
      var w := WithKey(init, TagOf, t);
      FoldAddAmount(init, t);
      if e.tag == t {
        assert WithKey(xs, TagOf, t) == w + [e];
        assert (w + [e])[..|w + [e]| - 1] == w;
      } else {
        assert WithKey(xs, TagOf, t) == w;
      }
    }
  }

  lemma {:induction false} SumOfAmounts(xs: seq<SimpleExpense>)
    ensures SumOf(xs, AmountOf) == Total(xs)
    decreases |xs|
  {
    if xs != [] {
      SumOfAmounts(xs[..|xs| - 1]);
    }
  }

  /** There is one slice per distinct tag, holding the sum of that tag's
      amounts. */
  lemma CategorySlices(es: seq<SimpleExpense>, t: string)
    ensures var g := CategoryGroups(es);
      && UniqueKeys(g)
      && (Lookup(g, t).Some? <==> HasTag(es, t))
      && (Lookup(g, t).Some? ==> Lookup(g, t).value == TagTotal(es, t))
  {
    GroupByUniqueKeys(es, TagOf, Zero, AddAmount);
    GroupByIsFoldPerKey(es, TagOf, Zero, AddAmount, t);
    WithKeyEmpty(es, t);
    FoldAddAmount(es, t);
  }

  /** The slices add up to the total of all amounts. */
  lemma SlicesSumToTotal(es: seq<SimpleExpense>)
    ensures SumOver(CategoryGroups(es), Identity) == Total(es)
  {
    GroupBySumsWeights(es, TagOf, Zero, AddAmount, Identity, AmountOf);
    SumOfAmounts(es);
  }
}
