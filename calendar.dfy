/** The food day-ledger (src/store/calendar.js): a date-keyed list of day entries,
    each with three meal lists and a running `total`, plus a `currentDay` cursor that
    is a reference to one of those entries. */
module FoodCalendar {
  import opened Shared

  datatype Meal = Breakfast | Lunch | Dinner

  /** The day summary `total`: one running sum per numeric product field, in hundredths. */
  datatype Totals = Totals(calories: int, proteins: int, fats: int, carbs: int)

  const Zero: Totals := Totals(0, 0, 0, 0)

  predicate NonNeg(t: Totals) {
    t.calories >= 0 && t.proteins >= 0 && t.fats >= 0 && t.carbs >= 0
  }

  predicate ProductNonNeg(p: Product) {
    p.calories >= 0 && p.proteins >= 0 && p.fats >= 0 && p.carbs >= 0
  }

  predicate AllNonNeg(items: seq<Product>) {
    forall i :: 0 <= i < |items| ==> ProductNonNeg(items[i])
  }

  /** The numeric fields of a product: every field but `name`. */
  function Of(p: Product): Totals {
    Totals(p.calories, p.proteins, p.fats, p.carbs)
  }

  function Add(a: Totals, b: Totals): Totals {
    Totals(a.calories + b.calories, a.proteins + b.proteins, a.fats + b.fats, a.carbs + b.carbs)
  }

  /** One `addProduct` update of the summary: each non-name field grows by the
      product's value; rounding to two decimals is exact on hundredths. */
  function Plus(t: Totals, p: Product): Totals {
    Add(t, Of(p))
  }

  /** The zero clamp of `removeProduct`: a value below 0.001 (in hundredths, 10 * v < 1,
      that is v <= 0), negatives included, becomes 0. */
  function Clamp(v: int): (r: int)
    ensures r >= 0
    ensures r == v || (r == 0 && v <= 0)
  {
    if 10 * v < 1 then 0 else v
  }

  /** One `removeProduct` update of the summary: subtract, round, clamp. */
  function Minus(t: Totals, p: Product): (r: Totals)
    ensures NonNeg(r)
    ensures r.calories == if t.calories >= p.calories then t.calories - p.calories else 0
    ensures r.proteins == if t.proteins >= p.proteins then t.proteins - p.proteins else 0
    ensures r.fats == if t.fats >= p.fats then t.fats - p.fats else 0
    ensures r.carbs == if t.carbs >= p.carbs then t.carbs - p.carbs else 0
  {
    Totals(Clamp(t.calories - p.calories), Clamp(t.proteins - p.proteins),
           Clamp(t.fats - p.fats), Clamp(t.carbs - p.carbs))
  }

  /** Removing a product right after adding it restores a non-negative summary exactly. */
  lemma AddThenRemove(t: Totals, p: Product)
    requires NonNeg(t)
    ensures Minus(Plus(t, p), p) == t
  {
  }

  /** The field-wise sum of a list of products: what `total` should equal. */
  function Sum(items: seq<Product>): Totals {
    if items == [] then Zero else Add(Of(items[0]), Sum(items[1..]))
  }

  lemma {:induction false} SumAppend(items: seq<Product>, p: Product)
    ensures Sum(items + [p]) == Plus(Sum(items), p)
  {
    if items == [] {
      assert [] + [p] == [p];
    } else {
      assert (items + [p])[1..] == items[1..] + [p];
      SumAppend(items[1..], p);
    }
  }

  lemma {:induction false} SumConcat(a: seq<Product>, b: seq<Product>)
    ensures Sum(a + b) == Add(Sum(a), Sum(b))
  {
    if a == [] {
      assert [] + b == b;
    } else {
      assert (a + b)[1..] == a[1..] + b;
      SumConcat(a[1..], b);
    }
  }

  lemma {:induction false} SumNonNeg(items: seq<Product>)
    requires AllNonNeg(items)
    ensures NonNeg(Sum(items))
  {
    if items != [] {
      SumNonNeg(items[1..]);
    }
  }

  /** Removing item k from a list takes exactly that item's values off the sum. */
  lemma SumWithout(items: seq<Product>, k: int)
    requires 0 <= k < |items|
    ensures Plus(Sum(items[..k] + items[k + 1..]), items[k]) == Sum(items)
  {
    var front, x, rest := items[..k], items[k], items[k + 1..];
    assert items == front + ([x] + rest);
    assert ([x] + rest)[0] == x && ([x] + rest)[1..] == rest;
    assert Sum([x] + rest) == Add(Of(x), Sum(rest));
    SumConcat(front, [x] + rest);
    SumConcat(front, rest);
  }

  /** The sum over every item of the three meals. */
  function MealTotals(b: seq<Product>, l: seq<Product>, d: seq<Product>): Totals {
    Add(Add(Sum(b), Sum(l)), Sum(d))
  }

  /** Taking item k out of one meal and its values off the summary leaves the summary
      equal to the sum over what remains, when every item is non-negative. */
  lemma RemoveFromMeals(b: seq<Product>, l: seq<Product>, d: seq<Product>, meal: Meal, k: int)
    requires AllNonNeg(b) && AllNonNeg(l) && AllNonNeg(d)
    requires 0 <= k < |match meal case Breakfast => b case Lunch => l case Dinner => d|
    ensures meal == Breakfast ==> Minus(MealTotals(b, l, d), b[k]) == MealTotals(b[..k] + b[k + 1..], l, d)
    ensures meal == Lunch ==> Minus(MealTotals(b, l, d), l[k]) == MealTotals(b, l[..k] + l[k + 1..], d)
    ensures meal == Dinner ==> Minus(MealTotals(b, l, d), d[k]) == MealTotals(b, l, d[..k] + d[k + 1..])
  {
    SumNonNeg(b);
    SumNonNeg(l);
    SumNonNeg(d);
    match meal
    case Breakfast =>
      RemoveFromSum(b, k);
      MinusPart(Sum(b), Sum(b[..k] + b[k + 1..]), Sum(l), Sum(d), b[k]);
    case Lunch =>
      RemoveFromSum(l, k);
      MinusPart(Sum(l), Sum(l[..k] + l[k + 1..]), Sum(b), Sum(d), l[k]);
    case Dinner =>
      RemoveFromSum(d, k);
      MinusPart(Sum(d), Sum(d[..k] + d[k + 1..]), Sum(b), Sum(l), d[k]);
  }

  /** When one of three non-negative summands loses exactly a product's values, taking
      the product off the whole sum gives the new sum, whichever summand it was. */
  lemma MinusPart(whole: Totals, rest: Totals, y: Totals, z: Totals, p: Product)
    requires NonNeg(rest) && NonNeg(y) && NonNeg(z) && Plus(rest, p) == whole
    ensures Minus(Add(Add(whole, y), z), p) == Add(Add(rest, y), z)
    ensures Minus(Add(Add(y, whole), z), p) == Add(Add(y, rest), z)
    ensures Minus(Add(Add(y, z), whole), p) == Add(Add(y, z), rest)
  {
  }

  /** What is left after splicing item k out of a non-negative list is non-negative, and
      its sum plus the item is the whole sum. */
  lemma RemoveFromSum(items: seq<Product>, k: int)
    requires AllNonNeg(items) && 0 <= k < |items|
    ensures AllNonNeg(items[..k] + items[k + 1..])
    ensures NonNeg(Sum(items[..k] + items[k + 1..]))
    ensures Plus(Sum(items[..k] + items[k + 1..]), items[k]) == Sum(items)
  {
    var rest := items[..k] + items[k + 1..];
    forall i | 0 <= i < |rest|
      ensures ProductNonNeg(rest[i])
    {
      if i < k {
        assert rest[i] == items[i];
      } else {
        assert rest[i] == items[i + 1];
      }
    }
    SumNonNeg(rest);
    SumWithout(items, k);
  }

  /** One calendar day: `{date, breakfast, lunch, dinner, total}`. The cursor and the
      calendar share these objects, so writes through one are seen through the other. */
  class DayEntry {
    const date: DateKey
    var breakfast: seq<Product>
    var lunch: seq<Product>
    var dinner: seq<Product>
    var total: Totals

    constructor (date: DateKey)
      ensures this.date == date && Blank()
    {
      this.date := date;
      breakfast, lunch, dinner := [], [], [];
      total := Zero;
    }

    /** `this[meal]` */
    function Items(meal: Meal): seq<Product>
      reads this
    {
      match meal
      case Breakfast => breakfast
      case Lunch => lunch
      case Dinner => dinner
    }

    /** The state of a freshly created day. */
    predicate Blank()
      reads this
    {
      breakfast == [] && lunch == [] && dinner == [] && total == Zero
    }

    ghost function MealsTotal(): Totals
      reads this
    {
      MealTotals(Items(Breakfast), Items(Lunch), Items(Dinner))
    }

    /** The summary equals the sum over every item of every meal. */
    ghost predicate Balanced()
      reads this
    {
      total == MealsTotal()
    }

    ghost predicate ItemsNonNeg()
      reads this
    {
      forall m :: AllNonNeg(Items(m))
    }

    method SetItems(meal: Meal, items: seq<Product>)
      modifies this
      ensures Items(meal) == items && total == old(total)
      ensures forall m :: m != meal ==> Items(m) == old(Items(m))
    {
      match meal
      case Breakfast => breakfast := items;
      case Lunch => lunch := items;
      case Dinner => dinner := items;
    }
  }

  /** The dates of the days, in calendar order. */
  function Dates(days: seq<DayEntry>): (ds: seq<DateKey>)
    ensures |ds| == |days| && forall i :: 0 <= i < |days| ==> ds[i] == days[i].date
  {
    seq(|days|, i requires 0 <= i < |days| => days[i].date)
  }

  /** No two days of the calendar carry the same date. */
  predicate DistinctDates(days: seq<DayEntry>) {
    DistinctKeys(Dates(days))
  }

  predicate HasDate(days: seq<DayEntry>, d: DateKey) {
    d in Dates(days)
  }

  /** The calendar store: `calendar` (all days) and the `currentDay` cursor. */
  class CalendarStore {
    var calendar: seq<DayEntry>
    var currentDay: DayEntry?

    /** The cursor, once set, is one of the calendar's own entries, and dates are unique. */
    ghost predicate Valid()
      reads this
    {
      (currentDay != null ==> currentDay in calendar) && DistinctDates(calendar)
    }

    constructor ()
      ensures Valid() && calendar == [] && currentDay == null
    {
      calendar := [];
      currentDay := null;
    }

    /** Find the day with this date and point the cursor at it, or append a new blank
        day and point the cursor at that. */
    method SetCurrentDay(day: int, month: int, year: int)
      requires Valid()
      modifies this
      ensures Valid()
      ensures currentDay != null && currentDay.date == DateKey(day, month, year)
      ensures HasDate(old(calendar), DateKey(day, month, year)) ==>
                calendar == old(calendar) && currentDay in old(calendar)
      ensures !HasDate(old(calendar), DateKey(day, month, year)) ==>
                calendar == old(calendar) + [currentDay] && fresh(currentDay) && currentDay.Blank()
    {
      var d := DateKey(day, month, year);
      var found := FindKey(Dates(calendar), d);
      if found >= 0 {
        currentDay := calendar[found];
      } else {
        var entry := new DayEntry(d);
        calendar := calendar + [entry];
        currentDay := entry;
      }
    }

    /** Append a product to one meal of the current day and add its values to the summary. */
    method AddProduct(meal: Meal, product: Product)
      requires Valid() && currentDay != null
      modifies currentDay
      ensures Valid()
      ensures currentDay.Items(meal) == old(currentDay.Items(meal)) + [product]
      ensures forall m :: m != meal ==> currentDay.Items(m) == old(currentDay.Items(m))
      ensures currentDay.total == Plus(old(currentDay.total), product)
      ensures old(currentDay.Balanced()) ==> currentDay.Balanced()
    {
      var items := currentDay.Items(meal);
      currentDay.SetItems(meal, items + [product]);
      currentDay.total := Plus(currentDay.total, product);
      SumAppend(items, product);
    }

    /** Remove the item at position `productKey` of one meal of the current day and take
        its values off the summary (clamped at 0); an out-of-range position changes nothing. */
    method RemoveProduct(meal: Meal, productKey: int)
      requires Valid() && currentDay != null
      modifies currentDay
      ensures Valid()
      ensures forall m :: m != meal ==> currentDay.Items(m) == old(currentDay.Items(m))
      ensures 0 <= productKey < |old(currentDay.Items(meal))| ==>
                && currentDay.Items(meal) == old(currentDay.Items(meal))[..productKey] + old(currentDay.Items(meal))[productKey + 1..]
                && currentDay.total == Minus(old(currentDay.total), old(currentDay.Items(meal))[productKey])
                && NonNeg(currentDay.total)
      ensures !(0 <= productKey < |old(currentDay.Items(meal))|) ==>
                currentDay.Items(meal) == old(currentDay.Items(meal)) && currentDay.total == old(currentDay.total)
      ensures old(currentDay.Balanced()) && old(currentDay.ItemsNonNeg()) ==>
                currentDay.Balanced() && currentDay.ItemsNonNeg()
    {
      var items := currentDay.Items(meal);
      ghost var b, l, d := currentDay.breakfast, currentDay.lunch, currentDay.dinner;
      var i := 0;
      while i < |items|
        invariant 0 <= i <= |items|
        invariant productKey < 0 || i <= productKey
        invariant currentDay.Items(meal) == items && currentDay.total == old(currentDay.total)
        invariant forall m :: currentDay.Items(m) == old(currentDay.Items(m))
      {
        if i == productKey {
          currentDay.total := Minus(currentDay.total, items[i]);
          currentDay.SetItems(meal, items[..i] + items[i + 1..]);
          assert AllNonNeg(items) ==> AllNonNeg(items[..i] + items[i + 1..]);
          if old(currentDay.Balanced()) && old(currentDay.ItemsNonNeg()) {
            assert old(currentDay.Items(Breakfast)) == b && old(currentDay.Items(Lunch)) == l
                && old(currentDay.Items(Dinner)) == d;
            RemoveFromMeals(b, l, d, meal, i);
          }
          break;
        }
        i := i + 1;
      }
    }

    /** For each requested date, that day's total calories, or 0 when there is no such day. */
    method GetCaloriesPerDays(dates: seq<DateKey>) returns (series: seq<int>)
      requires Valid()
      ensures |series| == |dates|
      ensures forall i, j :: 0 <= i < |dates| && 0 <= j < |calendar| && calendar[j].date == dates[i] ==>
                series[i] == calendar[j].total.calories
      ensures forall i :: 0 <= i < |dates| && !HasDate(calendar, dates[i]) ==> series[i] == 0
    {
      series := [];
      var i := 0;
      while i < |dates|
        invariant 0 <= i <= |dates| && |series| == i
        invariant forall k, j :: 0 <= k < i && 0 <= j < |calendar| && calendar[j].date == dates[k] ==>
                    series[k] == calendar[j].total.calories
        invariant forall k :: 0 <= k < i && !HasDate(calendar, dates[k]) ==> series[k] == 0
      {
        var found := FindKey(Dates(calendar), dates[i]);
        if found >= 0 {
          series := series + [calendar[found].total.calories];
        } else {
          series := series + [0];
        }
        i := i + 1;
      }
    }
  }
}
