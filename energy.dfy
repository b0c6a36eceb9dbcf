/**
 * The calorie-target chain: Mifflin-St Jeor resting energy, the activity
 * multiplier and the goal adjustment. Python floats are modelled as exact reals.
 */
module Energy {

  /** `calculate_bmr`: the Mifflin-St Jeor equation; `sex` is compared with "male" only. */
  function Bmr(weightKg: real, heightCm: real, age: int, sex: string): real {
    if sex == "male" then
      10.0 * weightKg + 6.25 * heightCm - 5.0 * (age as real) + 5.0
    else
      10.0 * weightKg + 6.25 * heightCm - 5.0 * (age as real) - 161.0
  }

  /** The male equation exceeds the other one by exactly 166 kcal for the same body. */
  lemma BmrSexGap(weightKg: real, heightCm: real, age: int, sex: string)
    requires sex != "male"
    ensures Bmr(weightKg, heightCm, age, "male") - Bmr(weightKg, heightCm, age, sex) == 166.0
  {
  }

  /** More weight or height and fewer years never lower the estimate. */
  lemma BmrMonotone(w1: real, h1: real, a1: int, w2: real, h2: real, a2: int, sex: string)
    requires w1 <= w2 && h1 <= h2 && a2 <= a1
    ensures Bmr(w1, h1, a1, sex) <= Bmr(w2, h2, a2, sex)
  {
  }

  /** A 70 kg, 175 cm, 30-year-old body: 1648.75 kcal as male, 1482.75 otherwise. */
  lemma BmrExamples()
    ensures Bmr(70.0, 175.0, 30, "male") == 1648.75
    ensures Bmr(70.0, 175.0, 30, "female") == 1482.75
  {
  }

  /** The activity levels with their multipliers (`activity_multiplier`'s mapping). */
  const ActivityFactors: map<string, real> :=
    map["sedentary" := 1.2, "light" := 1.375, "moderate" := 1.55, "active" := 1.725, "very_active" := 1.9]

  /** `activity_multiplier`: the table entry, or the sedentary 1.2 for an unknown level. */
  function ActivityMultiplier(activity: string): (m: real)
    ensures 1.2 <= m <= 1.9
    ensures activity !in ActivityFactors ==> m == ActivityFactors["sedentary"]
    ensures m == 1.2 <==> activity == "sedentary" || activity !in ActivityFactors
  {
    if activity in ActivityFactors then ActivityFactors[activity] else 1.2
  }

  /** The multipliers grow strictly from sedentary to very active. */
  lemma ActivityMultiplierOrdered()
    ensures ActivityMultiplier("sedentary") < ActivityMultiplier("light") < ActivityMultiplier("moderate")
    ensures ActivityMultiplier("moderate") < ActivityMultiplier("active") < ActivityMultiplier("very_active")
  {
  }

  /** Python's `int()` on a float: truncation toward zero. */
  function TruncToInt(x: real): (n: int)
    ensures 0.0 <= x ==> 0 <= n && n as real <= x < n as real + 1.0
    ensures x < 0.0 ==> n <= 0 && n as real - 1.0 < x <= n as real
  {
    if x >= 0.0 then x.Floor else -((-x).Floor)
  }

  /** An integer value is its own truncation. */
  lemma TruncOfInt(n: int)
    ensures TruncToInt(n as real) == n
  {
  }

  /** The kcal the goal adds to the daily energy: -300 to lose, +300 to gain, 0 otherwise. */
  function GoalOffset(goal: string): int {
    if goal == "lose" then -300 else if goal == "gain" then 300 else 0
  }

  /**
   * `goal_calorie_adjust`: the calories shifted by the goal's offset and
   * truncated toward zero, so within one kcal of the shifted value and never
   * further from zero.
   */
  function GoalAdjust(calories: real, goal: string): (target: int)
    ensures var shifted := calories + GoalOffset(goal) as real;
      && (0.0 <= shifted ==> 0 <= target && shifted - 1.0 < target as real <= shifted)
      && (shifted < 0.0 ==> target <= 0 && shifted <= target as real < shifted + 1.0)
  {
    if goal == "lose" then TruncToInt(calories - 300.0)
    else if goal == "gain" then TruncToInt(calories + 300.0)
    else TruncToInt(calories)
  }

  /** Any goal other than "lose" and "gain" adjusts like "maintain". */
  lemma UnknownGoalMaintains(calories: real, goal: string)
    requires goal != "lose" && goal != "gain"
    ensures GoalAdjust(calories, goal) == GoalAdjust(calories, "maintain")
  {
  }

  lemma TruncShift(x: real, k: int)
    requires 0.0 <= x && 0 <= k
    ensures TruncToInt(x + k as real) == TruncToInt(x) + k
  {
    var n := TruncToInt(x);
    assert n as real <= x < n as real + 1.0;
    assert (n + k) as real <= x + k as real < (n + k) as real + 1.0;
    assert (x + k as real).Floor == n + k;
  }

  /**
   * For daily energy of at least 300 kcal the goal moves the maintenance
   * target by exactly 300 kcal either way.
   */
  lemma GoalAdjustShift(calories: real)
    requires 300.0 <= calories
    ensures GoalAdjust(calories, "lose") == GoalAdjust(calories, "maintain") - 300
    ensures GoalAdjust(calories, "gain") == GoalAdjust(calories, "maintain") + 300
  {
    TruncShift(calories - 300.0, 300);
    TruncShift(calories, 300);
  }

  /** 2000 kcal: 1700 to lose, 2300 to gain, 2000 to maintain. */
  lemma GoalAdjustExamples()
    ensures GoalAdjust(2000.0, "lose") == 1700
    ensures GoalAdjust(2000.0, "gain") == 2300
    ensures GoalAdjust(2000.0, "maintain") == 2000
  {
    TruncOfInt(1700);
    TruncOfInt(2300);
    TruncOfInt(2000);
  }
}
