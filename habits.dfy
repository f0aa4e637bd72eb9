/** The habit tracker (src/store/habits.js): a habit catalog, the list of habits being
    tracked, the selected habit, and per habit a map from date key to a mark. */
module Habits {
  import opened Shared
  import opened HabitDates

  /** A value stored in a habit's day map: `true` (a clean day), `'relapse'`, or any
      other value `markDay` was given. */
  datatype Mark = Clean | Relapse | OtherValue

  datatype Habit = Habit(id: int, title: string, description: string, icon: string, color: string)

  type DayMap = map<string, Mark>

  const DefaultIcon: string := "🎯"
  const DefaultColor: string := "#667eea"

  predicate UniqueIds(hs: seq<Habit>) {
    forall i, j :: 0 <= i < j < |hs| ==> hs[i].id != hs[j].id
  }

  predicate NoDup(s: seq<int>) {
    forall i, j :: 0 <= i < j < |s| ==> s[i] != s[j]
  }

  predicate IsClean(days: DayMap, key: string) {
    key in days && days[key] == Clean
  }

  /** The keys marked `true`. */
  function CleanKeys(days: DayMap): (keys: set<string>)
    ensures keys <= days.Keys
    ensures forall k :: k in keys <==> IsClean(days, k)
  {
    set k | k in days && days[k] == Clean
  }

  /** `splice(i, 1)` guarded by `i > -1`, as both removals in the store do it. */
  function RemoveAt<T>(s: seq<T>, i: int): (r: seq<T>)
    ensures 0 <= i < |s| ==> |r| == |s| - 1 && forall k :: 0 <= k < |r| ==> r[k] == s[if k < i then k else k + 1]
    ensures !(0 <= i < |s|) ==> r == s
  {
    if 0 <= i < |s| then s[..i] + s[i + 1..] else s
  }

  /** `Array.prototype.indexOf`: the first position of x, or -1. */
  function IndexOf(s: seq<int>, x: int): (r: int)
    ensures -1 <= r < |s|
    ensures r >= 0 ==> s[r] == x && forall k :: 0 <= k < r ==> s[k] != x
    ensures r < 0 <==> x !in s
  {
    if s == [] then -1
    else if s[0] == x then 0
    else
      var q := IndexOf(s[1..], x);
      assert forall k :: 1 <= k < |s| ==> s[k] == s[1..][k - 1];
      if q < 0 then -1 else q + 1
  }

  /** `habits.findIndex(h => h.id === id)`. */
  function FindHabit(hs: seq<Habit>, id: int): (r: int)
    ensures -1 <= r < |hs|
    ensures r >= 0 ==> hs[r].id == id && forall k :: 0 <= k < r ==> hs[k].id != id
    ensures r < 0 <==> forall k :: 0 <= k < |hs| ==> hs[k].id != id
  {
    if hs == [] then -1
    else if hs[0].id == id then 0
    else
      var q := FindHabit(hs[1..], id);
      assert forall k :: 1 <= k < |hs| ==> hs[k] == hs[1..][k - 1];
      if q < 0 then -1 else q + 1
  }

  /** Splicing one habit out of a list of unique ids keeps the ids unique. */
  lemma SpliceUnique(hs: seq<Habit>, i: int)
    requires UniqueIds(hs) && 0 <= i < |hs|
    ensures UniqueIds(hs[..i] + hs[i + 1..])
  {
    var r := hs[..i] + hs[i + 1..];
    forall a, b | 0 <= a < b < |r|
      ensures r[a].id != r[b].id
    {
      assert r[a] == hs[if a < i then a else a + 1];
      assert r[b] == hs[if b < i then b else b + 1];
    }
  }

  /** With unique ids, no habit left after the splice carries the spliced habit's id. */
  lemma SpliceDropsId(hs: seq<Habit>, i: int)
    requires UniqueIds(hs) && 0 <= i < |hs|
    ensures forall h :: h in hs[..i] + hs[i + 1..] ==> h.id != hs[i].id
  {
    var r := hs[..i] + hs[i + 1..];
    forall h | h in r
      ensures h.id != hs[i].id
    {
      var k :| 0 <= k < |r| && r[k] == h;
      assert r[k] == hs[if k < i then k else k + 1];
    }
  }

  /** Every habit with another id survives the splice. */
  lemma SpliceKeeps(hs: seq<Habit>, i: int)
    requires 0 <= i < |hs|
    ensures forall h :: h in hs && h.id != hs[i].id ==> h in hs[..i] + hs[i + 1..]
  {
    var r := hs[..i] + hs[i + 1..];
    forall h | h in hs && h.id != hs[i].id
      ensures h in r
    {
      var j :| 0 <= j < |hs| && hs[j] == h;
      assert r[if j < i then j else j - 1] == h;
    }
  }

  /** Deleting the habit with a given id from a list of unique ids: ids stay unique, no
      habit with that id is left, and every other habit stays. */
  lemma RemoveHabit(hs: seq<Habit>, id: int)
    requires UniqueIds(hs)
    ensures UniqueIds(RemoveAt(hs, FindHabit(hs, id)))
    ensures forall k :: 0 <= k < |RemoveAt(hs, FindHabit(hs, id))| ==> RemoveAt(hs, FindHabit(hs, id))[k].id != id
    ensures forall h :: h in hs && h.id != id ==> h in RemoveAt(hs, FindHabit(hs, id))
  {
    var i := FindHabit(hs, id);
    if i >= 0 {
      assert RemoveAt(hs, i) == hs[..i] + hs[i + 1..];
      SpliceUnique(hs, i);
      SpliceDropsId(hs, i);
      SpliceKeeps(hs, i);
    }
  }

  /** `Math.max(...habits.map(h => h.id), 0)`. */
  function MaxId(hs: seq<Habit>): (m: int)
    ensures m >= 0
    ensures forall k :: 0 <= k < |hs| ==> hs[k].id <= m
    ensures m == 0 || exists k :: 0 <= k < |hs| && hs[k].id == m
  {
    if hs == [] then 0
    else
      var rest := MaxId(hs[1..]);
      assert forall k :: 1 <= k < |hs| ==> hs[k] == hs[1..][k - 1];
      if hs[0].id > rest then hs[0].id else rest
  }

  /** The day map after `toggleDay`: a `true` or `'relapse'` day is cleared, any other
      day (absent, or holding another value) becomes `true`; no other key changes. */
  function Toggled(days: DayMap, key: string): (r: DayMap)
    ensures key in days && days[key] in {Clean, Relapse} ==> key !in r
    ensures !(key in days && days[key] in {Clean, Relapse}) ==> IsClean(r, key)
    ensures forall k :: k != key ==> (k in r <==> k in days) && (k in days ==> r[k] == days[k])
  {
    if key in days && (days[key] == Clean || days[key] == Relapse) then days - {key}
    else days[key := Clean]
  }

  /** Toggling an unmarked day twice gives back the map it started from. */
  lemma ToggleTwiceRestores(days: DayMap, key: string)
    requires key !in days
    ensures Toggled(Toggled(days, key), key) == days
  {
    assert Toggled(days, key) == days[key := Clean];
  }

  /** Toggling a relapse day twice does not restore it: the relapse becomes a clean day. */
  lemma ToggleTwiceRelapse(days: DayMap, key: string)
    requires key in days && days[key] == Relapse
    ensures Toggled(Toggled(days, key), key) == days[key := Clean]
  {
  }

  /** The keys read by the first n steps of a walk: step(0), ..., step(n - 1). */
  ghost function Walked(step: nat -> string, n: nat): set<string> {
    if n == 0 then {} else Walked(step, n - 1) + {step(n - 1)}
  }

  lemma {:induction false} WalkedMembers(step: nat -> string, n: nat, x: string)
    requires forall k :: 0 <= k < n ==> step(k) != x
    ensures x !in Walked(step, n)
  {
    if n > 0 {
      WalkedMembers(step, n - 1, x);
    }
  }

  lemma {:induction false} WalkedWithin(step: nat -> string, n: nat, keys: set<string>)
    requires forall k :: 0 <= k < n ==> step(k) in keys
    ensures Walked(step, n) <= keys
  {
    if n > 0 {
      WalkedWithin(step, n - 1, keys);
    }
  }

  /** A walk whose steps all read different keys reads exactly n keys. */
  lemma {:induction false} WalkedSize(step: nat -> string, n: nat)
    requires forall j, k :: 0 <= j < k < n ==> step(j) != step(k)
    ensures |Walked(step, n)| == n
  {
    if n > 0 {
      WalkedSize(step, n - 1);
      WalkedMembers(step, n - 1, step(n - 1));
    }
  }

  /** The key format gives two valid dates the same key only when they are the same date. */
  ghost predicate KeysDiffer(key: Date -> string, a: Date, b: Date) {
    ValidDate(a) && ValidDate(b) && key(a) == key(b) ==> a == b
  }

  /** A key format that tells valid dates apart. */
  ghost predicate KeysDistinguish(key: Date -> string) {
    forall a, b :: KeysDiffer(key, a, b)
  }

  /** Walking back from `today` under a key format that tells dates apart, n
      consecutive clean days are n distinct clean keys. */
  lemma RunKeys(days: DayMap, today: Date, key: Date -> string, n: nat)
    requires ValidDate(today) && KeysDistinguish(key)
    requires forall k :: 0 <= k < n ==> IsClean(days, key(Back(today, k)))
    ensures n <= |CleanKeys(days)|
  {
    var step := (k: nat) => key(Back(today, k));
    forall j, k | 0 <= j < k < n
      ensures step(j) != step(k)
    {
      BackBefore(today, j, k);
      assert KeysDiffer(key, Back(today, j), Back(today, k));
    }
    WalkedSize(step, n);
    WalkedWithin(step, n, CleanKeys(days));
    SubsetSize(Walked(step, n), CleanKeys(days));
  }

  /** `formatDateStringHelper` tells valid dates apart. */
  lemma FormatDistinguishes()
    ensures KeysDistinguish(FormatDateString)
  {
    forall a, b
      ensures KeysDiffer(FormatDateString, a, b)
    {
      if ValidDate(a) && ValidDate(b) && FormatDateString(a) == FormatDateString(b) {
        FormatPairInjective(a, b);
      }
    }
  }

  /** The streak walk: count the days, from `today` backwards, whose key is marked
      `true`, stopping at the first that is not. The run is never longer than the
      number of clean days, so the walk ends. */
  method WalkBack(days: DayMap, today: Date, key: Date -> string) returns (streak: nat)
    requires ValidDate(today) && KeysDistinguish(key)
    ensures forall k :: 0 <= k < streak ==> IsClean(days, key(Back(today, k)))
    ensures !IsClean(days, key(Back(today, streak)))
    ensures streak <= |CleanKeys(days)|
  {
    streak := 0;
    var checkDate := today;
    while IsClean(days, key(checkDate))
      invariant ValidDate(checkDate) && checkDate == Back(today, streak)
      invariant forall k :: 0 <= k < streak ==> IsClean(days, key(Back(today, k)))
      invariant streak <= |CleanKeys(days)|
      decreases |CleanKeys(days)| - streak
    {
      RunKeys(days, today, key, streak + 1);
      streak := streak + 1;
      checkDate := Prev(checkDate);
    }
  }

  lemma {:induction false} SubsetSize<T>(a: set<T>, b: set<T>)
    requires a <= b
    ensures |a| <= |b|
  {
    if a != {} {
      var x :| x in a;
      SubsetSize(a - {x}, b - {x});
    }
  }

  /** The habits offered before any custom habit is added. */
  function DefaultHabits(): (hs: seq<Habit>)
    ensures UniqueIds(hs) && MaxId(hs) == 3
  {
    [ Habit(1, "Алкоголь", "Пиво, вино, крепкие напитки", "🍷", "#4ecdc4"),
      Habit(2, "Курение", "Сигареты, вейп, кальян", "🚬", "#ff6b6b"),
      Habit(3, "Фастфуд", "Гамбургеры, картошка фри, пицца", "🍔", "#ffa726") ]
  }

  class HabitStore {
    var habits: seq<Habit>
    var activeHabits: seq<int>
    var selectedHabitId: Option<int>
    var trackedDays: map<int, DayMap>

    /** Ids are unique, a tracked habit is listed once and always has a day map. */
    ghost predicate Valid()
      reads this
    {
      UniqueIds(habits) && NoDup(activeHabits) &&
      forall h :: h in activeHabits ==> h in trackedDays
    }

    constructor ()
      ensures Valid()
      ensures habits == DefaultHabits() && activeHabits == [] && selectedHabitId == None && trackedDays == map[]
    {
      habits := DefaultHabits();
      activeHabits := [];
      selectedHabitId := None;
      trackedDays := map[];
    }

    /** `trackedDays[habitId] || {}` */
    function DaysOf(habitId: int): (days: DayMap)
      reads this
      ensures habitId !in trackedDays ==> days == map[]
    {
      if habitId in trackedDays then trackedDays[habitId] else map[]
    }

    function GetHabitById(id: int): (r: Option<Habit>)
      reads this
      ensures r.Some? ==> r.value in habits && r.value.id == id
      ensures r.None? <==> forall k :: 0 <= k < |habits| ==> habits[k].id != id
    {
      var i := FindHabit(habits, id);
      if i >= 0 then Some(habits[i]) else None
    }

    /** The first tracked habit, or null. */
    function GetActiveHabit(): (r: Option<int>)
      reads this
      ensures r.None? <==> activeHabits == []
      ensures r.Some? ==> r.value in activeHabits && IndexOf(activeHabits, r.value) == 0
    {
      if |activeHabits| > 0 then Some(activeHabits[0]) else None
    }

    function IsDayRelapse(habitId: int, dateString: string): (r: bool)
      reads this
      ensures r ==> dateString in DaysOf(habitId)
    {
      var days := DaysOf(habitId);
      dateString in days && days[dateString] == Relapse
    }

    function IsDayTracked(habitId: int, dateString: string): (r: bool)
      reads this
      ensures r ==> dateString in DaysOf(habitId) && !IsDayRelapse(habitId, dateString)
      ensures r <==> dateString in CleanKeys(DaysOf(habitId))
    {
      IsClean(DaysOf(habitId), dateString)
    }

    /** The number of days marked `true` for the habit. */
    function GetTotalDays(habitId: int): (r: nat)
      reads this
      ensures r == |CleanKeys(DaysOf(habitId))| <= |DaysOf(habitId)|
      ensures r == 0 <==> forall k :: k in DaysOf(habitId) ==> !IsDayTracked(habitId, k)
    {
      var keys := CleanKeys(DaysOf(habitId));
      SubsetSize(keys, DaysOf(habitId).Keys);
      assert keys != {} ==> exists k :: k in keys;
      |keys|
    }

    /** The run of clean days ending today: today, yesterday, ... are all marked `true`
        up to the first day that is not. It never exceeds the number of clean days. */
    method GetStreakDays(habitId: int, today: Date) returns (streak: nat)
      requires ValidDate(today)
      ensures forall k :: 0 <= k < streak ==> IsDayTracked(habitId, FormatDateString(Back(today, k)))
      ensures !IsDayTracked(habitId, FormatDateString(Back(today, streak)))
      ensures streak <= GetTotalDays(habitId)
    {
      if |CleanKeys(DaysOf(habitId))| == 0 {
        return 0;
      }
      FormatDistinguishes();
      streak := WalkBack(DaysOf(habitId), today, FormatDateString);
    }

    /** Start tracking a habit: listed at most once, and it gets an empty day map if it
        has none. */
    method AddActiveHabit(habitId: int)
      requires Valid()
      modifies this
      ensures Valid()
      ensures habitId in activeHabits && habitId in trackedDays
      ensures activeHabits == if habitId in old(activeHabits) then old(activeHabits) else old(activeHabits) + [habitId]
      ensures trackedDays == if habitId in old(trackedDays) then old(trackedDays) else old(trackedDays)[habitId := map[]]
      ensures habits == old(habits) && selectedHabitId == old(selectedHabitId)
    {
      if habitId !in activeHabits {
        activeHabits := activeHabits + [habitId];
        if habitId !in trackedDays {
          trackedDays := trackedDays[habitId := map[]];
        }
      }
    }

    /** Stop tracking a habit: its first occurrence leaves the list, which, having no
        duplicates, removes it entirely; the day map stays. */
    method RemoveActiveHabit(habitId: int)
      requires Valid()
      modifies this
      ensures Valid()
      ensures activeHabits == RemoveAt(old(activeHabits), IndexOf(old(activeHabits), habitId))
      ensures habitId !in activeHabits
      ensures forall x :: x != habitId ==> (x in activeHabits <==> x in old(activeHabits))
      ensures habits == old(habits) && trackedDays == old(trackedDays) && selectedHabitId == old(selectedHabitId)
    {
      var index := IndexOf(activeHabits, habitId);
      if index > -1 {
        activeHabits := activeHabits[..index] + activeHabits[index + 1..];
      }
    }

    method ToggleDay(habitId: int, dateString: string)
      requires Valid()
      modifies this
      ensures Valid()
      ensures trackedDays == old(trackedDays)[habitId := Toggled(old(DaysOf(habitId)), dateString)]
      ensures habits == old(habits) && activeHabits == old(activeHabits) && selectedHabitId == old(selectedHabitId)
    {
      if habitId !in trackedDays {
        trackedDays := trackedDays[habitId := map[]];
      }
      var days := trackedDays[habitId];
      if dateString in days && days[dateString] == Clean {
        trackedDays := trackedDays[habitId := days - {dateString}];
      } else if dateString in days && days[dateString] == Relapse {
        trackedDays := trackedDays[habitId := days - {dateString}];
      } else {
        trackedDays := trackedDays[habitId := days[dateString := Clean]];
      }
    }

    method MarkDay(habitId: int, dateString: string, value: Mark := Clean)
      requires Valid()
      modifies this
      ensures Valid()
      ensures trackedDays == old(trackedDays)[habitId := old(DaysOf(habitId))[dateString := value]]
      ensures value == Clean ==> IsDayTracked(habitId, dateString)
      ensures habits == old(habits) && activeHabits == old(activeHabits) && selectedHabitId == old(selectedHabitId)
    {
      if habitId !in trackedDays {
        trackedDays := trackedDays[habitId := map[]];
      }
      trackedDays := trackedDays[habitId := trackedDays[habitId][dateString := value]];
    }

    method MarkRelapse(habitId: int, dateString: string)
      requires Valid()
      modifies this
      ensures Valid()
      ensures trackedDays == old(trackedDays)[habitId := old(DaysOf(habitId))[dateString := Relapse]]
      ensures IsDayRelapse(habitId, dateString) && !IsDayTracked(habitId, dateString)
      ensures habits == old(habits) && activeHabits == old(activeHabits) && selectedHabitId == old(selectedHabitId)
    {
      if habitId !in trackedDays {
        trackedDays := trackedDays[habitId := map[]];
      }
      trackedDays := trackedDays[habitId := trackedDays[habitId][dateString := Relapse]];
    }

    /** Append a habit whose id is one more than the largest id (and at least 1);
        a missing description becomes the empty string. */
    method AddCustomHabit(title: string, description: Option<string>,
                          icon: string := DefaultIcon, color: string := DefaultColor)
      returns (id: int)
      requires Valid()
      modifies this
      ensures Valid()
      ensures id == MaxId(old(habits)) + 1
      ensures id >= 1 && forall k :: 0 <= k < |old(habits)| ==> old(habits)[k].id < id
      ensures habits == old(habits) + [Habit(id, title, if description.Some? then description.value else "", icon, color)]
      ensures activeHabits == old(activeHabits) && trackedDays == old(trackedDays) && selectedHabitId == old(selectedHabitId)
    {
      var maxId := MaxId(habits);
      var newHabit := Habit(maxId + 1, title, if description.Some? then description.value else "", icon, color);
      habits := habits + [newHabit];
      id := newHabit.id;
    }

    method SetSelectedHabit(habitId: Option<int>)
      modifies this
      ensures selectedHabitId == habitId
      ensures habits == old(habits) && activeHabits == old(activeHabits) && trackedDays == old(trackedDays)
    {
      selectedHabitId := habitId;
    }

    /** Remove a habit, stop tracking it, drop its day map, and if it was selected fall
        back to the first tracked habit, or none. */
    method DeleteHabit(habitId: int)
      requires Valid()
      modifies this
      ensures Valid()
      ensures habits == RemoveAt(old(habits), FindHabit(old(habits), habitId))
      ensures forall k :: 0 <= k < |habits| ==> habits[k].id != habitId
      ensures forall h :: h in old(habits) && h.id != habitId ==> h in habits
      ensures activeHabits == RemoveAt(old(activeHabits), IndexOf(old(activeHabits), habitId))
      ensures habitId !in activeHabits
      ensures forall x :: x != habitId ==> (x in activeHabits <==> x in old(activeHabits))
      ensures trackedDays == old(trackedDays) - {habitId}
      ensures old(selectedHabitId) == Some(habitId) ==>
                selectedHabitId == (if activeHabits == [] then None else Some(activeHabits[0]))
      ensures old(selectedHabitId) != Some(habitId) ==> selectedHabitId == old(selectedHabitId)
    {
      var index := FindHabit(habits, habitId);
      RemoveHabit(habits, habitId);
      if index > -1 {
        habits := habits[..index] + habits[index + 1..];
      }
      assert habits == RemoveAt(old(habits), index);
      RemoveActiveHabit(habitId);
      if habitId in trackedDays {
        trackedDays := trackedDays - {habitId};
      }
      assert trackedDays == old(trackedDays) - {habitId};
      assert Valid();
      if selectedHabitId == Some(habitId) {
        selectedHabitId := if |activeHabits| > 0 then Some(activeHabits[0]) else None;
      }
    }
  }
}
