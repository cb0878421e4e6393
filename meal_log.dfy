/** The meal log of the calorie tracker page: meals kept as one serialised array under
    the storage key "ct-meals", the add-meal action that validates a form entry and
    appends it, and the summary the page renders (one line per meal, the calorie
    total and the progress towards the daily goal). */
module MealLog {
  import opened JsValues

  /** One logged meal, as stored. */
  datatype Meal = Meal(name: string, calories: real, time: string)

  /** The values the add-meal click handler reads from its form: the name field after
      `trim()`, the calorie field after `Number(...)`, and the time field as typed. */
  datatype Entry = Entry(name: string, calories: Num, time: string)

  /** The entry the handler reads from the three raw form fields: its name is blank
      exactly when the name field holds nothing but whitespace, and the calorie number
      and the time field pass through as they are. */
  function ReadForm(nameField: string, calories: Num, timeField: string): (e: Entry)
    ensures e.name == [] <==> AllWhitespace(nameField)
    ensures e.name != [] ==> !IsWhitespace(e.name[0]) && !IsWhitespace(e.name[|e.name| - 1])
    ensures e.calories == calories && e.time == timeField
  {
    TrimEmptyIff(nameField);
    Entry(Trim(nameField), calories, timeField)
  }

  /** What the storage slot "ct-meals" holds. `Absent`: no item under the key.
      `Unparsable`: text that `JSON.parse` rejects. `ParsesFalsy`: text that parses
      to a falsy value (`null`, `false`, `0`, `""`). `MealArray`: a serialised array. */
  datatype Slot = Absent | Unparsable | ParsesFalsy | MealArray(meals: seq<Meal>)

  /** The time shown for a meal whose time field was left blank. */
  const DefaultTime := "--:--"

  /** The meal log a load yields, given whether storage exists at all. Every failure
      (no storage, no item, unparsable or falsy text) yields the empty log. */
  function LoadMeals(available: bool, slot: Slot): (r: seq<Meal>)
    ensures r != [] ==> available && slot == MealArray(r)
    ensures available && slot.MealArray? ==> r == slot.meals
  {
    if !available then []
    else match slot
      case MealArray(meals) => meals
      case _ => []
  }

  /** The slot after `setMeals(meals)`: overwritten when storage exists, untouched otherwise. */
  function SaveSlot(available: bool, slot: Slot, meals: seq<Meal>): (r: Slot)
    ensures available ==> r.MealArray? && r.meals == meals
    ensures !available ==> r == slot
  {
    if available then MealArray(meals) else slot
  }

  /** Saving a log and loading it again gives the log back whenever storage exists. */
  lemma SaveLoadRoundTrip(available: bool, slot: Slot, meals: seq<Meal>)
    ensures LoadMeals(available, SaveSlot(available, slot, meals))
         == if available then meals else []
  {
  }

  /** Saving what was just loaded changes nothing a later load can see. */
  lemma SaveLoadedIsStable(available: bool, slot: Slot)
    ensures LoadMeals(available, SaveSlot(available, slot, LoadMeals(available, slot)))
         == LoadMeals(available, slot)
  {
  }

  /** The time stored for a meal: the field as typed, or `DefaultTime` when it is empty. */
  function TimeOrDefault(time: string): (r: string)
    ensures time == [] ==> r == DefaultTime
    ensures time != [] ==> r == time
  {
    if time != [] then time else DefaultTime
  }

  /** The handler's guard `!mealName || !calories`, negated: a trimmed name that is not
      empty and a calorie number that is neither NaN nor zero. */
  predicate ValidEntry(e: Entry) {
    e.name != [] && Truthy(e.calories)
  }

  /** A form is accepted exactly when its name field has a non-whitespace character and
      its calories are a non-zero number; negative calories are accepted. */
  lemma ValidEntryIff(nameField: string, calories: Num, timeField: string)
    ensures ValidEntry(ReadForm(nameField, calories, timeField))
        <==> (exists i :: 0 <= i < |nameField| && !IsWhitespace(nameField[i]))
             && calories.Finite? && calories.value != 0.0
  {
  }

  /** What every meal the handler stores satisfies: a non-empty name, calories other
      than 0, and a non-empty time (the typed one or `DefaultTime`). */
  predicate WellFormed(m: Meal) {
    m.name != [] && m.calories != 0.0 && m.time != []
  }

  /** The meal the handler appends for an accepted entry. */
  function MealOf(e: Entry): (m: Meal)
    requires ValidEntry(e)
    ensures WellFormed(m)
    ensures m.name == e.name
    ensures m.calories == e.calories.value
    ensures m.time == TimeOrDefault(e.time)
  {
    Meal(e.name, e.calories.value, TimeOrDefault(e.time))
  }

  /** The slot after one click of "add meal": a rejected entry leaves it alone; an
      accepted one stores the loaded log with the new meal at its end. */
  function AddEffect(available: bool, slot: Slot, e: Entry): (r: Slot)
    ensures !ValidEntry(e) || !available ==> r == slot
    ensures ValidEntry(e) && available
         ==> LoadMeals(available, r) == LoadMeals(available, slot) + [MealOf(e)]
  {
    if ValidEntry(e) then SaveSlot(available, slot, LoadMeals(available, slot) + [MealOf(e)])
    else slot
  }

  /** The slot after the entries are added one after the other. */
  function AddAll(available: bool, slot: Slot, entries: seq<Entry>): Slot {
    if entries == [] then slot
    else AddEffect(available, AddAll(available, slot, entries[..|entries| - 1]), entries[|entries| - 1])
  }

  /** The meals the accepted entries among `entries` become, in entry order. */
  function Accepted(entries: seq<Entry>): (r: seq<Meal>)
    ensures |r| <= |entries|
  {
    if entries == [] then []
    else
      var last := entries[|entries| - 1];
      Accepted(entries[..|entries| - 1]) + if ValidEntry(last) then [MealOf(last)] else []
  }

  /** Whatever sequence of entries is added, a later load gives the log loaded before
      followed by exactly the accepted entries' meals, in the order they were added
      (and the empty log when there is no storage). */
  lemma {:induction false} AddAllLoads(available: bool, slot: Slot, entries: seq<Entry>)
    ensures LoadMeals(available, AddAll(available, slot, entries))
         == if available then LoadMeals(available, slot) + Accepted(entries) else []
  {
    if entries != [] {
      var init, last := entries[..|entries| - 1], entries[|entries| - 1];
      var before := AddAll(available, slot, init);
      assert AddAll(available, slot, entries) == AddEffect(available, before, last);
      AddAllLoads(available, slot, init);
      if available && ValidEntry(last) {
        assert Accepted(entries) == Accepted(init) + [MealOf(last)];
        assert LoadMeals(available, slot) + Accepted(init) + [MealOf(last)]
            == LoadMeals(available, slot) + (Accepted(init) + [MealOf(last)]);
      } else if available {
        assert Accepted(entries) == Accepted(init) + [];
      }
    }
  }

  /** Every meal the accepted entries become is well formed. */
  lemma {:induction false} AcceptedWellFormed(entries: seq<Entry>)
    ensures forall i :: 0 <= i < |Accepted(entries)| ==> WellFormed(Accepted(entries)[i])
  {
    if entries != [] {
      var init, last := entries[..|entries| - 1], entries[|entries| - 1];
      AcceptedWellFormed(init);
      var tail := if ValidEntry(last) then [MealOf(last)] else [];
      assert Accepted(entries) == Accepted(init) + tail;
    }
  }

  /** Adding entries keeps a well-formed log well formed: nothing the handler stores
      has a blank name, zero calories or an empty time. */
  lemma {:induction false} AddAllKeepsWellFormed(available: bool, slot: Slot, entries: seq<Entry>)
    requires forall i :: 0 <= i < |LoadMeals(available, slot)| ==> WellFormed(LoadMeals(available, slot)[i])
    ensures var after := LoadMeals(available, AddAll(available, slot, entries));
            forall i :: 0 <= i < |after| ==> WellFormed(after[i])
  {
    AddAllLoads(available, slot, entries);
    AcceptedWellFormed(entries);
    var before := LoadMeals(available, slot);
    var after := LoadMeals(available, AddAll(available, slot, entries));
    if available {
      forall i | 0 <= i < |after| ensures WellFormed(after[i]) {
        if i >= |before| {
          assert after[i] == Accepted(entries)[i - |before|];
        }
      }
    }
  }

  /** When every entry is accepted, nothing is dropped: meal `i` comes from entry `i`. */
  lemma {:induction false} AcceptedAllValid(entries: seq<Entry>)
    requires forall i :: 0 <= i < |entries| ==> ValidEntry(entries[i])
    ensures |Accepted(entries)| == |entries|
    ensures forall i :: 0 <= i < |entries| ==> Accepted(entries)[i] == MealOf(entries[i])
  {
    if entries != [] {
      var init, last := entries[..|entries| - 1], entries[|entries| - 1];
      AcceptedAllValid(init);
      assert ValidEntry(last);
      var acc := Accepted(entries);
      assert acc == Accepted(init) + [MealOf(last)];
      forall i | 0 <= i < |entries| ensures acc[i] == MealOf(entries[i]) {
        if i < |init| {
          assert acc[i] == Accepted(init)[i];
          assert entries[i] == init[i];
        }
      }
    }
  }

  /** The sum of the meals' calories, accumulated from the first meal to the last as
      `meals.reduce((sum, meal) => sum + meal.calories, 0)` does. */
  function Total(meals: seq<Meal>): (r: real)
    ensures (forall i :: 0 <= i < |meals| ==> meals[i].calories >= 0.0) ==> r >= 0.0
  {
    if meals == [] then 0.0 else Total(meals[..|meals| - 1]) + meals[|meals| - 1].calories
  }

  /** The total of two logs joined is the sum of their totals. */
  lemma {:induction false} TotalConcat(a: seq<Meal>, b: seq<Meal>)
    ensures Total(a + b) == Total(a) + Total(b)
  {
    if b != [] {
      assert (a + b)[..|a + b| - 1] == a + b[..|b| - 1];
      TotalConcat(a, b[..|b| - 1]);
    } else {
      assert a + b == a;
    }
  }

  /** With no negative entries the total is at least every single meal. */
  lemma {:induction false} TotalBounds(meals: seq<Meal>)
    requires forall i :: 0 <= i < |meals| ==> meals[i].calories >= 0.0
    ensures forall i :: 0 <= i < |meals| ==> meals[i].calories <= Total(meals)
  {
    if meals != [] {
      TotalBounds(meals[..|meals| - 1]);
    }
  }

  /** The width of the progress bar, in percent of the daily goal: 0 when the goal is
      NaN or 0, otherwise `Math.min(total / goal * 100, 100)`. */
  function Progress(total: real, goal: Num): (r: real)
    ensures r <= 100.0
    ensures !Truthy(goal) ==> r == 0.0
    ensures Truthy(goal) && goal.value > 0.0 ==> (r == 100.0 <==> total >= goal.value)
    ensures Truthy(goal) && goal.value > 0.0 && total < goal.value
         ==> r * goal.value == total * 100.0
    ensures Truthy(goal) && goal.value > 0.0 && total >= 0.0 ==> r >= 0.0
    ensures Truthy(goal) ==> r <= total / goal.value * 100.0
    ensures Truthy(goal) ==> r == 100.0 || r == total / goal.value * 100.0
  {
    if Truthy(goal) then
      var p := total / goal.value * 100.0;
      assert goal.value > 0.0 ==> (p >= 100.0 <==> total >= goal.value) by {
        if goal.value > 0.0 {
          assert p * goal.value == total * 100.0;
        }
      }
      if p < 100.0 then p else 100.0
    else 0.0
  }

  /** One rendered log row: the caption `name (time)` and the calories shown beside it. */
  datatype LogLine = LogLine(caption: string, kcal: real)

  /** The rendered rows, one per meal and in log order. */
  function LogLines(meals: seq<Meal>): (r: seq<LogLine>)
    ensures |r| == |meals|
    ensures forall i :: 0 <= i < |meals| ==>
      r[i].caption == meals[i].name + " (" + meals[i].time + ")" && r[i].kcal == meals[i].calories
  {
    if meals == [] then []
    else [LogLine(meals[0].name + " (" + meals[0].time + ")", meals[0].calories)] + LogLines(meals[1..])
  }

  /** What `renderMeals` writes to the page. The total is kept as a number; its
      thousands-grouped text is an opaque locale formatting of it. */
  datatype Summary = Summary(lines: seq<LogLine>, total: real, progress: real)

  function Summarize(meals: seq<Meal>, goal: Num): (s: Summary)
    ensures |s.lines| == |meals|
    ensures s.progress <= 100.0
    ensures meals == [] ==> s.total == 0.0 && s.progress == 0.0
  {
    Summary(LogLines(meals), Total(meals), Progress(Total(meals), goal))
  }

  /** Worked examples: 300 + 450 kcal make 750, which is half of a 1500 kcal goal;
      2000 kcal is clamped to a full bar; a goal of 0 or NaN gives 0. */
  lemma SummaryExamples()
    ensures Total([Meal("Oats", 300.0, "08:00"), Meal("Pasta", 450.0, "13:00")]) == 750.0
    ensures Progress(750.0, Finite(1500.0)) == 50.0
    ensures Progress(2000.0, Finite(1500.0)) == 100.0
    ensures Progress(750.0, Finite(0.0)) == 0.0
    ensures Progress(750.0, NaN) == 0.0
  {
  }

  /** The browser's storage as far as the meal log sees it: whether `localStorage`
      exists at all, and what its "ct-meals" item holds. */
  class MealStore {
    const available: bool
    var slot: Slot

    constructor (available: bool, slot: Slot)
      ensures this.available == available && this.slot == slot
    {
      this.available := available;
      this.slot := slot;
    }

    /** The log a load would return now. */
    function Meals(): seq<Meal>
      reads this
    {
      LoadMeals(available, slot)
    }

    /** `getMeals`: never fails; any storage problem reads as the empty log. */
    method Load() returns (meals: seq<Meal>)
      ensures meals == LoadMeals(available, slot)
      ensures !available || !slot.MealArray? ==> meals == []
    {
      if !available {
        return [];
      }
      match slot {
        case MealArray(stored) => meals := stored;
        case _ => meals := [];
      }
    }

    /** `setMeals`: overwrites the stored log when storage exists. */
    method Save(meals: seq<Meal>)
      modifies this
      ensures slot == SaveSlot(available, old(slot), meals)
      ensures available ==> Meals() == meals
    {
      if !available {
        return;
      }
      slot := MealArray(meals);
    }

    /** The add-meal click handler: trims the name, defaults the time, rejects the entry
        when the name is blank or the calories are NaN or 0, and otherwise loads the
        log, appends the new meal and saves it. Reports whether the meal was added. */
    method AddMeal(nameField: string, calories: Num, timeField: string) returns (added: bool)
      modifies this
      ensures added == ValidEntry(ReadForm(nameField, calories, timeField))
      ensures slot == AddEffect(available, old(slot), ReadForm(nameField, calories, timeField))
      ensures !added ==> slot == old(slot)
      ensures added && available
           ==> Meals() == old(Meals()) + [MealOf(ReadForm(nameField, calories, timeField))]
    {
      var name := Trim(nameField);
      var time := TimeOrDefault(timeField);
      if name == [] || !Truthy(calories) {
        return false;
      }
      var meals := Load();
      meals := meals + [Meal(name, calories.value, time)];
      Save(meals);
      added := true;
    }

    /** `renderMeals`: the rows, the total and the progress for the current log and
        the daily goal read from its field. */
    method Render(goal: Num) returns (s: Summary)
      ensures s == Summarize(Meals(), goal)
    {
      var meals := Load();
      s := Summarize(meals, goal);
    }
  }
}
