/** The exercise-plan generator of the calorie tracker page: from a fitness goal, a
    number of training days and the available equipment it lists one line per day,
    then an equipment note, then a fixed recovery line. */
module ExercisePlan {
  import opened JsValues

  /** The training focus for a fitness goal. */
  function Focus(goal: string): string {
    if goal == "fat-loss" then "cardio + strength circuits"
    else if goal == "strength" then "progressive overload lifts"
    else if goal == "endurance" then "interval runs + cycling"
    else "mobility flows + yoga"
  }

  /** Each named goal has its own focus, and every goal other than the three named ones
      gets the mobility focus. */
  lemma FocusChoice(goal: string)
    ensures goal == "fat-loss" <==> Focus(goal) == "cardio + strength circuits"
    ensures goal == "strength" <==> Focus(goal) == "progressive overload lifts"
    ensures goal == "endurance" <==> Focus(goal) == "interval runs + cycling"
    ensures goal != "fat-loss" && goal != "strength" && goal != "endurance"
        <==> Focus(goal) == "mobility flows + yoga"
  {
  }

  /** The equipment note for the equipment choice. */
  function EquipmentNote(equipment: string): string {
    if equipment == "gym" then "Use full gym equipment for compound lifts"
    else if equipment == "minimal" then "Use resistance bands and dumbbells"
    else "Bodyweight only with tempo variations"
  }

  /** "gym" and "minimal" have their own notes, and every other choice means bodyweight. */
  lemma EquipmentNoteChoice(equipment: string)
    ensures equipment == "gym" <==> EquipmentNote(equipment) == "Use full gym equipment for compound lifts"
    ensures equipment == "minimal" <==> EquipmentNote(equipment) == "Use resistance bands and dumbbells"
    ensures equipment != "gym" && equipment != "minimal"
        <==> EquipmentNote(equipment) == "Bodyweight only with tempo variations"
  {
  }

  /** The line that closes every plan. */
  const RestLine := "Rest and recovery: 7-8 hours sleep + light stretching"

  /** The intensity of day `i`: even days are moderate, odd days high. */
  function Intensity(i: nat): (r: string)
    ensures r == "moderate" <==> i % 2 == 0
    ensures r == "high" <==> i % 2 == 1
  {
    if i % 2 == 0 then "moderate" else "high"
  }

  /** The plan line for day `i`: `Day <i>: <focus> (<intensity> intensity)`. */
  function DayLine(i: nat, focus: string): string {
    "Day " + (NatToString(i) + DayDetail(i, focus))
  }

  /** What follows the day number in a day line. */
  function DayDetail(i: nat, focus: string): (r: string)
    ensures r != [] && r[0] == ':'
  {
    ": " + focus + " (" + Intensity(i) + " intensity)"
  }

  /** Different days give different lines, whatever the focus. */
  lemma DayLinesDistinct(i: nat, j: nat, focus: string)
    requires i != j
    ensures DayLine(i, focus) != DayLine(j, focus)
  {
    var a, x := NatToString(i), DayDetail(i, focus);
    var b, y := NatToString(j), DayDetail(j, focus);
    if DayLine(i, focus) == DayLine(j, focus) {
      assert a + x == DayLine(i, focus)[4..];
      assert b + y == DayLine(j, focus)[4..];
      DigitPrefixUnique(a, x, b, y);
      NatToStringInjective(i, j);
    }
  }

  /** No day line can be mistaken for the equipment note or the rest line. */
  lemma DayLineIsNotANote(i: nat, focus: string, equipment: string)
    ensures DayLine(i, focus) != EquipmentNote(equipment)
    ensures DayLine(i, focus) != RestLine
  {
    assert DayLine(i, focus)[0] == 'D';
    RestLineStart();
  }

  /** The rest line starts with 'R' (shown through a split of the literal, since the
      verifier does not index a literal of this length directly). */
  lemma RestLineStart()
    ensures RestLine != [] && RestLine[0] == 'R'
  {
    var head, tail := "Rest and recovery: ", "7-8 hours sleep + light stretching";
    assert RestLine == head + tail;
    assert head[0] == 'R';
  }

  /** How many times `for (let i = 1; i <= days; i += 1)` runs: the whole part of `days`
      when it is at least 1, and never for NaN or a smaller number. */
  function DayCount(days: Num): (n: nat)
    ensures days.Finite? && n >= 1 ==> n as real <= days.value < n as real + 1.0
    ensures days.NaN? || days.value < 1.0 <==> n == 0
  {
    if days.NaN? || days.value < 1.0 then 0 else days.value.Floor
  }

  /** The loop test `i <= days` passes for day `i` exactly when `i` is at most `DayCount(days)`. */
  lemma LoopTestIsDayCount(days: Num, i: nat)
    requires i >= 1
    ensures (days.Finite? && i as real <= days.value) <==> i <= DayCount(days)
  {
  }

  /** The day lines for days 1 to `n`, in order. */
  function DayLines(n: nat, focus: string): (r: seq<string>)
    ensures |r| == n
  {
    if n == 0 then [] else DayLines(n - 1, focus) + [DayLine(n, focus)]
  }

  /** Line `k` of the day lines is the one for day `k + 1`. */
  lemma {:induction false} DayLinesAt(n: nat, focus: string, k: nat)
    requires k < n
    ensures DayLines(n, focus)[k] == DayLine(k + 1, focus)
  {
    if k < n - 1 {
      DayLinesAt(n - 1, focus, k);
    }
  }

  /** The exercise-form submit handler's list: `DayCount(days)` day lines for days
      1, 2, ... in order, then the equipment note, then the rest line. */
  method BuildPlan(goal: string, days: Num, equipment: string) returns (plan: seq<string>)
    ensures plan == DayLines(DayCount(days), Focus(goal)) + [EquipmentNote(equipment), RestLine]
    ensures |plan| == DayCount(days) + 2
    ensures forall k :: 0 <= k < DayCount(days) ==> plan[k] == DayLine(k + 1, Focus(goal))
  {
    plan := [];
    var focus := Focus(goal);
    var equipmentNote := EquipmentNote(equipment);
    var i: nat := 1;
    LoopTestIsDayCount(days, i);
    while days.Finite? && i as real <= days.value
      invariant 1 <= i <= DayCount(days) + 1
      invariant plan == DayLines(i - 1, focus)
      invariant (days.Finite? && i as real <= days.value) <==> i <= DayCount(days)
      decreases DayCount(days) + 1 - i
    {
      plan := plan + [DayLine(i, focus)];
      i := i + 1;
      LoopTestIsDayCount(days, i);
    }
    plan := plan + [equipmentNote];
    plan := plan + [RestLine];
    forall k | 0 <= k < DayCount(days) ensures plan[k] == DayLine(k + 1, focus) {
      DayLinesAt(DayCount(days), focus, k);
    }
  }
}
