/** The water day-ledger (src/store/water.js): date-keyed days with a running
    `waterIntake` and the list of glasses drunk, a `currentDay` cursor that is a
    reference to one of those days, and a daily goal in millilitres. */
module WaterLedger {
  import opened Shared

  /** One glass `{amount, time}`; `time` is the clock reading, an opaque string here. */
  datatype Glass = Glass(amount: int, time: string)

  const DefaultGoal: int := 2000

  /** The sum of the glasses' amounts: what `waterIntake` should equal. */
  function Poured(glasses: seq<Glass>): int {
    if glasses == [] then 0 else glasses[0].amount + Poured(glasses[1..])
  }

  predicate AllNonNeg(glasses: seq<Glass>) {
    forall i :: 0 <= i < |glasses| ==> glasses[i].amount >= 0
  }

  lemma {:induction false} PouredAppend(glasses: seq<Glass>, g: Glass)
    ensures Poured(glasses + [g]) == Poured(glasses) + g.amount
  {
    if glasses == [] {
      assert [] + [g] == [g];
    } else {
      assert (glasses + [g])[1..] == glasses[1..] + [g];
      PouredAppend(glasses[1..], g);
    }
  }

  lemma {:induction false} PouredConcat(a: seq<Glass>, b: seq<Glass>)
    ensures Poured(a + b) == Poured(a) + Poured(b)
  {
    if a == [] {
      assert [] + b == b;
    } else {
      assert (a + b)[1..] == a[1..] + b;
      PouredConcat(a[1..], b);
    }
  }

  lemma {:induction false} PouredNonNeg(glasses: seq<Glass>)
    requires AllNonNeg(glasses)
    ensures Poured(glasses) >= 0
  {
    if glasses != [] {
      PouredNonNeg(glasses[1..]);
    }
  }

  /** Removing glass i takes exactly its amount off the sum, and what remains of a
      list of non-negative glasses still sums to at least 0. */
  lemma PouredWithout(glasses: seq<Glass>, i: int)
    requires 0 <= i < |glasses|
    ensures Poured(glasses[..i] + glasses[i + 1..]) == Poured(glasses) - glasses[i].amount
    ensures AllNonNeg(glasses) ==> Poured(glasses) - glasses[i].amount >= 0
  {
    var front, g, back := glasses[..i], glasses[i], glasses[i + 1..];
    assert glasses == front + ([g] + back);
    assert ([g] + back)[0] == g && ([g] + back)[1..] == back;
    assert Poured([g] + back) == g.amount + Poured(back);
    PouredConcat(front, [g] + back);
    PouredConcat(front, back);
    if AllNonNeg(glasses) {
      var rest := front + back;
      forall k | 0 <= k < |rest|
        ensures rest[k].amount >= 0
      {
        assert rest[k] == glasses[if k < i then k else k + 1];
      }
      PouredNonNeg(rest);
    }
  }

  /** JavaScript's `Math.round(num / den)` on exact rationals: the nearest integer,
      halves rounded up. */
  function RoundHalfUp(num: int, den: int): (r: int)
    requires den != 0
    ensures var (n, d) := if den > 0 then (num, den) else (-num, -den);
            d * (2 * r - 1) <= 2 * n < d * (2 * r + 1)
  {
    var (n, d) := if den > 0 then (num, den) else (-num, -den);
    var q := (2 * n + d) / (2 * d);
    assert 2 * d * q <= 2 * n + d < 2 * d * q + 2 * d;
    q
  }

  /** The `waterPercentage` getter: 0 with no goal or no intake, otherwise the rounded
      share of the goal, capped at 100. */
  function Percentage(intake: int, goal: int): (r: int)
    ensures r <= 100
    ensures goal == 0 || intake == 0 ==> r == 0
    ensures goal > 0 && intake > 0 ==> 0 <= r
    ensures goal != 0 && intake != 0 && RoundHalfUp(100 * intake, goal) < 100 ==> r == RoundHalfUp(100 * intake, goal)
    ensures goal != 0 && intake != 0 && RoundHalfUp(100 * intake, goal) >= 100 ==> r == 100
  {
    if goal == 0 || intake == 0 then 0
    else
      var p := RoundHalfUp(100 * intake, goal);
      if p < 100 then p else 100
  }

  /** With a positive goal and intake the percentage is the rounded share, and it
      reaches 100 exactly when at least 99.5% of the goal has been drunk. */
  lemma PercentageOfGoal(intake: int, goal: int)
    requires goal > 0 && intake > 0
    ensures Percentage(intake, goal) == 100 <==> 200 * intake >= 199 * goal
    ensures 0 <= Percentage(intake, goal) <= 100
  {
    var r := RoundHalfUp(100 * intake, goal);
    assert goal * (2 * r - 1) <= 200 * intake < goal * (2 * r + 1);
    if r >= 100 {
      MulMono(goal, 199, 2 * r - 1);
    } else {
      MulMono(goal, 2 * r + 1, 199);
    }
  }

  lemma MulMono(a: int, b: int, c: int)
    requires a > 0 && b <= c
    ensures a * b <= a * c
  {
  }

  /** The `remainingWater` getter. */
  function Remaining(intake: int, goal: int): (r: int)
    ensures intake == 0 ==> r == goal
    ensures intake != 0 ==> r >= 0 && r >= goal - intake && (r == 0 || r == goal - intake)
  {
    if intake == 0 then goal
    else if goal - intake > 0 then goal - intake else 0
  }

  /** One day `{date, waterIntake, glasses}`, shared by the calendar and the cursor. */
  class WaterDay {
    const date: DateKey
    var waterIntake: int
    var glasses: seq<Glass>

    constructor (date: DateKey)
      ensures this.date == date && waterIntake == 0 && glasses == []
    {
      this.date := date;
      waterIntake := 0;
      glasses := [];
    }

    /** The intake equals the sum of the glasses. */
    ghost predicate Balanced()
      reads this
    {
      waterIntake == Poured(glasses)
    }
  }

  /** The dates of the days, in calendar order. */
  function Dates(days: seq<WaterDay>): (ds: seq<DateKey>)
    ensures |ds| == |days| && forall i :: 0 <= i < |days| ==> ds[i] == days[i].date
  {
    seq(|days|, i requires 0 <= i < |days| => days[i].date)
  }

  /** No two days of the calendar carry the same date. */
  predicate DistinctDates(days: seq<WaterDay>) {
    DistinctKeys(Dates(days))
  }

  predicate HasDate(days: seq<WaterDay>, d: DateKey) {
    d in Dates(days)
  }

  /** The water store: `calendar`, the `currentDay` cursor and `dailyGoal`. */
  class WaterStore {
    var calendar: seq<WaterDay>
    var currentDay: WaterDay?
    var dailyGoal: int

    ghost predicate Valid()
      reads this
    {
      (currentDay != null ==> currentDay in calendar) && DistinctDates(calendar)
    }

    constructor ()
      ensures Valid() && calendar == [] && currentDay == null && dailyGoal == DefaultGoal
    {
      calendar := [];
      currentDay := null;
      dailyGoal := DefaultGoal;
    }

    /** Find the day with this date and point the cursor at it, or append a new empty
        day and point the cursor at that. */
    method SetCurrentDay(day: int, month: int, year: int)
      requires Valid()
      modifies this
      ensures Valid() && dailyGoal == old(dailyGoal)
      ensures currentDay != null && currentDay in calendar && currentDay.date == DateKey(day, month, year)
      ensures HasDate(old(calendar), DateKey(day, month, year)) ==> calendar == old(calendar)
      ensures !HasDate(old(calendar), DateKey(day, month, year)) ==>
                && calendar == old(calendar) + [currentDay] && fresh(currentDay)
                && currentDay.waterIntake == 0 && currentDay.glasses == []
    {
      var d := DateKey(day, month, year);
      var found := FindKey(Dates(calendar), d);
      if found >= 0 {
        currentDay := calendar[found];
      } else {
        var entry := new WaterDay(d);
        calendar := calendar + [entry];
        currentDay := entry;
      }
    }

    /** Record one glass of `amount` on the current day; without a current day, nothing. */
    method AddWater(amount: int, time: string)
      requires Valid()
      modifies currentDay
      ensures Valid()
      ensures currentDay != null ==>
                && currentDay.waterIntake == old(currentDay.waterIntake) + amount
                && currentDay.glasses == old(currentDay.glasses) + [Glass(amount, time)]
                && (old(currentDay.Balanced()) ==> currentDay.Balanced())
    {
      if currentDay == null {
        return;
      }
      currentDay.waterIntake := currentDay.waterIntake + amount;
      PouredAppend(currentDay.glasses, Glass(amount, time));
      currentDay.glasses := currentDay.glasses + [Glass(amount, time)];
    }

    /** Remove glass `glassIndex` and take its amount off the intake, clamping at 0;
        an out-of-range index changes nothing. */
    method RemoveWater(glassIndex: int)
      requires Valid() && currentDay != null
      modifies currentDay
      ensures Valid()
      ensures 0 <= glassIndex < |old(currentDay.glasses)| ==>
                && currentDay.glasses == old(currentDay.glasses)[..glassIndex] + old(currentDay.glasses)[glassIndex + 1..]
                && currentDay.waterIntake >= 0
                && currentDay.waterIntake >= old(currentDay.waterIntake) - old(currentDay.glasses)[glassIndex].amount
                && (currentDay.waterIntake == 0 ||
                    currentDay.waterIntake == old(currentDay.waterIntake) - old(currentDay.glasses)[glassIndex].amount)
      ensures !(0 <= glassIndex < |old(currentDay.glasses)|) ==>
                currentDay.glasses == old(currentDay.glasses) && currentDay.waterIntake == old(currentDay.waterIntake)
      ensures old(currentDay.Balanced()) && AllNonNeg(old(currentDay.glasses)) ==>
                currentDay.Balanced() && AllNonNeg(currentDay.glasses)
    {
      var glasses := currentDay.glasses;
      if 0 <= glassIndex < |glasses| {
        currentDay.waterIntake := currentDay.waterIntake - glasses[glassIndex].amount;
        currentDay.glasses := glasses[..glassIndex] + glasses[glassIndex + 1..];
        if currentDay.waterIntake < 0 {
          currentDay.waterIntake := 0;
        }
        PouredWithout(glasses, glassIndex);
        assert AllNonNeg(glasses) ==> AllNonNeg(currentDay.glasses);
      }
    }

    method SetDailyGoal(goal: int)
      modifies this
      ensures dailyGoal == goal
      ensures calendar == old(calendar) && currentDay == old(currentDay)
    {
      dailyGoal := goal;
    }

    /** For each requested date, that day's intake, or 0 when there is no such day. */
    method GetWaterPerDays(dates: seq<DateKey>) returns (series: seq<int>)
      requires Valid()
      ensures |series| == |dates|
      ensures forall i, j :: 0 <= i < |dates| && 0 <= j < |calendar| && calendar[j].date == dates[i] ==>
                series[i] == calendar[j].waterIntake
      ensures forall i :: 0 <= i < |dates| && !HasDate(calendar, dates[i]) ==> series[i] == 0
    {
      series := [];
      var i := 0;
      while i < |dates|
        invariant 0 <= i <= |dates| && |series| == i
        invariant forall k, j :: 0 <= k < i && 0 <= j < |calendar| && calendar[j].date == dates[k] ==>
                    series[k] == calendar[j].waterIntake
        invariant forall k :: 0 <= k < i && !HasDate(calendar, dates[k]) ==> series[k] == 0
      {
        var found := FindKey(Dates(calendar), dates[i]);
        if found >= 0 {
          series := series + [calendar[found].waterIntake];
        } else {
          series := series + [0];
        }
        i := i + 1;
      }
    }

    /** The current day's intake; no current day counts as no intake. */
    function Intake(): (r: int)
      reads this, currentDay
      ensures currentDay == null ==> r == 0
    {
      if currentDay == null then 0 else currentDay.waterIntake
    }

    function WaterPercentage(): (r: int)
      reads this, currentDay
      ensures r <= 100
      ensures dailyGoal == 0 || Intake() == 0 ==> r == 0
      ensures dailyGoal > 0 && Intake() > 0 ==> 0 <= r
      ensures dailyGoal != 0 && Intake() != 0 && RoundHalfUp(100 * Intake(), dailyGoal) < 100 ==>
                r == RoundHalfUp(100 * Intake(), dailyGoal)
      ensures dailyGoal != 0 && Intake() != 0 && RoundHalfUp(100 * Intake(), dailyGoal) >= 100 ==> r == 100
    {
      Percentage(Intake(), dailyGoal)
    }

    function RemainingWater(): (r: int)
      reads this, currentDay
      ensures Intake() == 0 ==> r == dailyGoal
      ensures Intake() != 0 ==> r >= 0 && r >= dailyGoal - Intake() && (r == 0 || r == dailyGoal - Intake())
    {
      Remaining(Intake(), dailyGoal)
    }
  }
}
