/** Records shared by the stores: the (day, month, year) date key of the food and
    water ledgers, the food product record, and an Option for JS `null`/`undefined`. */
module Shared {

  datatype Option<+T> = None | Some(value: T)

  /** A calendar date as the ledgers store it: three caller-supplied integers,
      never validated. Equality is field-wise. */
  datatype DateKey = DateKey(day: int, month: int, year: int)

  /** A food product `{name, calories, proteins, fats, carbs}`. Amounts are fixed-point
      hundredths (12.34 kcal is 1234), so rounding to two decimals is exact. */
  datatype Product = Product(name: string, calories: int, proteins: int, fats: int, carbs: int)

  /** No date occurs twice. */
  predicate DistinctKeys(ds: seq<DateKey>) {
    forall i, j :: 0 <= i < j < |ds| ==> ds[i] != ds[j]
  }

  /** `calendar.find(element => element.date matches d)` on the list of dates, as an
      index: the first day with that date, or -1 when there is none. */
  function FindKey(ds: seq<DateKey>, d: DateKey): (r: int)
    ensures -1 <= r < |ds|
    ensures r >= 0 ==> ds[r] == d && forall j :: 0 <= j < r ==> ds[j] != d
    ensures r < 0 <==> d !in ds
  {
    if ds == [] then -1
    else if ds[0] == d then 0
    else
      var q := FindKey(ds[1..], d);
      assert forall j :: 1 <= j < |ds| ==> ds[j] == ds[1..][j - 1];
      if q < 0 then -1 else q + 1
  }
}
