/**
 * `generate_day_plan`: the daily calorie target, its split over five meal
 * slots, and one meal per slot, taken from the catalog through the recipe
 * selection with a window of 85% to 115% of the slot's calories, or a
 * placeholder meal when no recipe is left.
 */
module DayPlan {
  import opened Wrappers
  import opened Allergies
  import opened Energy
  import opened Recipes

  /** The fields of the user profile that the plan reads. */
  datatype Profile = Profile(
    weightKg: real,
    heightCm: real,
    age: int,
    sex: string,
    activity: string,
    goal: string,
    dietaryPref: Option<string>,
    allergies: Option<string>)

  /** One meal of the plan: the slot, what to eat and its energy and macronutrients. */
  datatype Meal = Meal(
    slot: string,
    name: string,
    recipe: string,
    calories: int,
    protein: real,
    carbs: real,
    fat: real)

  datatype Plan = Plan(totalCalories: int, meals: seq<Meal>)

  /** The daily target: resting energy times the activity factor, adjusted for the goal. */
  function CalorieTarget(p: Profile): int {
    GoalAdjust(Bmr(p.weightKg, p.heightCm, p.age, p.sex) * ActivityMultiplier(p.activity), p.goal)
  }

  /** The slots in the order the plan lists them, with their share of the daily target. */
  const SlotShares: seq<(string, real)> :=
    [("breakfast", 0.25), ("lunch", 0.30), ("dinner", 0.30), ("snack1", 0.075), ("snack2", 0.075)]

  /**
   * The calories of each slot: its share of the target truncated toward zero,
   * which keeps the target's sign.
   */
  function AllocateSlots(target: int): (slots: seq<(string, int)>)
    ensures |slots| == |SlotShares|
    ensures forall i :: 0 <= i < |slots| ==> slots[i].0 == SlotShares[i].0
    ensures forall i :: 0 <= i < |slots| ==> (0 <= target ==> 0 <= slots[i].1) && (target < 0 ==> slots[i].1 <= 0)
  {
    seq(|SlotShares|, i requires 0 <= i < |SlotShares| =>
      (SlotShares[i].0, TruncToInt(target as real * SlotShares[i].1)))
  }

  /**
   * Each slot gets at most its exact share of a non-negative target and less
   * than one kcal below it (toward zero for a negative target).
   */
  lemma AllocateSlotsShare(target: int, i: int)
    requires 0 <= i < |SlotShares|
    ensures var share := target as real * SlotShares[i].1;
      var k := AllocateSlots(target)[i].1;
      && (0 <= target ==> share - 1.0 < k as real <= share)
      && (target < 0 ==> share <= k as real < share + 1.0)
  {
    var x := target as real * SlotShares[i].1;
    assert AllocateSlots(target)[i].1 == TruncToInt(x);
    assert 0 <= target ==> 0.0 <= x;
    assert target < 0 ==> x < 0.0;
  }

  /** The calories of all the slots together. */
  function SlotTotal(slots: seq<(string, int)>): int {
    if slots == [] then 0 else slots[0].1 + SlotTotal(slots[1..])
  }

  lemma SlotTotalFive(s: seq<(string, int)>)
    requires |s| == 5
    ensures SlotTotal(s) == s[0].1 + s[1].1 + s[2].1 + s[3].1 + s[4].1
  {
    var s1 := s[1..];
    var s2 := s1[1..];
    var s3 := s2[1..];
    var s4 := s3[1..];
    assert s4[1..] == [];
    assert SlotTotal(s4) == s[4].1;
    assert SlotTotal(s3) == s[3].1 + s[4].1;
    assert SlotTotal(s2) == s[2].1 + s[3].1 + s[4].1;
  }

  /**
   * The shares add up to the whole target, so the slots together lose at
   * most four kcal to truncation and never exceed it (toward zero for a
   * negative target).
   */
  lemma AllocateSlotsTotal(target: int)
    ensures 0 <= target ==> target - 4 <= SlotTotal(AllocateSlots(target)) <= target
    ensures target < 0 ==> target <= SlotTotal(AllocateSlots(target)) <= target + 4
  {
    var s := AllocateSlots(target);
    var t := target as real;
    SlotTotalFive(s);
    assert s[0].1 == TruncToInt(t * 0.25) && s[1].1 == TruncToInt(t * 0.30) && s[2].1 == TruncToInt(t * 0.30);
    assert s[3].1 == TruncToInt(t * 0.075) && s[4].1 == TruncToInt(t * 0.075);
    TruncFive(t * 0.25, t * 0.30, t * 0.30, t * 0.075, t * 0.075);
  }

  /** Five truncations of same-signed values lose less than five units in total, toward zero. */
  lemma TruncFive(x0: real, x1: real, x2: real, x3: real, x4: real)
    ensures var t := x0 + x1 + x2 + x3 + x4;
      var n := TruncToInt(x0) + TruncToInt(x1) + TruncToInt(x2) + TruncToInt(x3) + TruncToInt(x4);
      && (0.0 <= x0 && 0.0 <= x1 && 0.0 <= x2 && 0.0 <= x3 && 0.0 <= x4 ==> t - 5.0 < n as real <= t)
      && (x0 < 0.0 && x1 < 0.0 && x2 < 0.0 && x3 < 0.0 && x4 < 0.0 ==> t <= n as real < t + 5.0)
  {
  }

  /** 2000 kcal split as 500, 600, 600, 150 and 150. */
  lemma AllocateSlotsExample()
    ensures AllocateSlots(2000) ==
      [("breakfast", 500), ("lunch", 600), ("dinner", 600), ("snack1", 150), ("snack2", 150)]
  {
    var s := AllocateSlots(2000);
    TruncOfInt(500);
    TruncOfInt(600);
    TruncOfInt(150);
    assert s[0].1 == 500 && s[1].1 == 600 && s[2].1 == 600 && s[3].1 == 150 && s[4].1 == 150;
  }

  /** The calorie window for a slot: 85% and 115% of its calories, each truncated toward zero. */
  function Window(k: int): (w: (int, int))
    ensures 0 <= k ==> 0 <= w.0 <= k <= w.1
    ensures k < 0 ==> w.1 <= k <= w.0 <= 0
    ensures 0 <= k ==> w.0 as real <= (k as real) * 0.85 < w.0 as real + 1.0
    ensures 0 <= k ==> w.1 as real <= (k as real) * 1.15 < w.1 as real + 1.0
    ensures k < 0 ==> w.0 as real - 1.0 < (k as real) * 0.85 <= w.0 as real
    ensures k < 0 ==> w.1 as real - 1.0 < (k as real) * 1.15 <= w.1 as real
  {
    (TruncToInt(k as real * 0.85), TruncToInt(k as real * 1.15))
  }

  /**
   * A lower bound of 0 takes no part, which happens exactly for slots of -1
   * to 1 kcal; from -2 kcal down the lower bound is a negative, active one.
   */
  lemma WindowLowerZero(k: int)
    ensures Window(k).0 == 0 <==> -1 <= k <= 1
  {
  }

  /** The window of a 150 kcal snack is 127 to 172 kcal. */
  lemma SnackWindow()
    ensures Window(150) == (127, 172)
  {
    assert 150.0 * 0.85 == 127.5 && 150.0 * 1.15 == 172.5;
  }

  /** A meal made from a catalog recipe: its name, method, calories and macronutrients. */
  function RecipeMeal(slot: string, r: Recipe): Meal {
    Meal(slot, r.name, r.instructions, r.calories, r.protein as real, r.carbs as real, r.fat as real)
  }

  /**
   * The placeholder for a slot of `k` kcal: exactly `k` kcal, split 15% protein,
   * 50% carbohydrate and 35% fat by energy (4, 4 and 9 kcal per gram).
   */
  function PlaceholderMeal(slot: string, k: int): (m: Meal)
    ensures m.slot == slot && m.calories == k
    ensures 4.0 * m.protein + 4.0 * m.carbs + 9.0 * m.fat == k as real
    ensures 4.0 * m.protein == 0.15 * k as real && 9.0 * m.fat == 0.35 * k as real
  {
    Meal(slot, "Simple meal", "No recipe available. Mix protein + carbs + veg.",
      k, k as real * 0.15 / 4.0, k as real * 0.5 / 4.0, k as real * 0.35 / 9.0)
  }

  /** The candidates for a slot of `k` kcal. */
  function SlotPool(k: int, dietPref: Option<string>, allergies: seq<string>): seq<Recipe> {
    var w := Window(k);
    SelectionPool(dietPref, allergies, Some(w.0), Some(w.1))
  }

  /** `m` is a meal the plan may serve in `slot` of `k` kcal. */
  predicate MealFor(m: Meal, slot: string, k: int, dietPref: Option<string>, allergies: seq<string>) {
    var pool := SlotPool(k, dietPref, allergies);
    if pool == [] then m == PlaceholderMeal(slot, k)
    else exists r :: r in pool && m == RecipeMeal(slot, r)
  }

  /** `plan` is a plan `generate_day_plan` may return for profile `p`. */
  predicate PlanFor(p: Profile, plan: Plan) {
    var slots := AllocateSlots(CalorieTarget(p));
    var allergies := ParseAllergies(p.allergies);
    && plan.totalCalories == CalorieTarget(p)
    && |plan.meals| == |slots|
    && forall i :: 0 <= i < |slots| ==> MealFor(plan.meals[i], slots[i].0, slots[i].1, p.dietaryPref, allergies)
  }

  /** No catalog recipe is called like the placeholder. */
  lemma PlaceholderNameUnused(r: Recipe)
    requires r in Catalog
    ensures r.name != "Simple meal"
  {
  }

  /** The meal built from what the selection returned is one the plan may serve. */
  lemma ServedMeal(slot: string, k: int, w: (int, int), dietPref: Option<string>, allergies: seq<string>, choice: Option<Recipe>, meal: Meal)
    requires w == Window(k)
    requires choice.None? <==> SelectionPool(dietPref, allergies, Some(w.0), Some(w.1)) == []
    requires choice.Some? ==> choice.value in SelectionPool(dietPref, allergies, Some(w.0), Some(w.1))
    requires meal == if choice.Some? then RecipeMeal(slot, choice.value) else PlaceholderMeal(slot, k)
    ensures MealFor(meal, slot, k, dietPref, allergies)
  {
    if choice.Some? {
      assert choice.value in SlotPool(k, dietPref, allergies) && meal == RecipeMeal(slot, choice.value);
    }
  }

  predicate MealsFor(meals: seq<Meal>, slots: seq<(string, int)>, dietPref: Option<string>, allergies: seq<string>) {
    |meals| <= |slots| && forall j :: 0 <= j < |meals| ==> MealFor(meals[j], slots[j].0, slots[j].1, dietPref, allergies)
  }

  lemma MealsForAppend(meals: seq<Meal>, slots: seq<(string, int)>, dietPref: Option<string>, allergies: seq<string>, meal: Meal)
    requires MealsFor(meals, slots, dietPref, allergies) && |meals| < |slots|
    requires MealFor(meal, slots[|meals|].0, slots[|meals|].1, dietPref, allergies)
    ensures MealsFor(meals + [meal], slots, dietPref, allergies)
  {
  }

  lemma MealsForPlan(p: Profile, plan: Plan)
    requires MealsFor(plan.meals, AllocateSlots(CalorieTarget(p)), p.dietaryPref, ParseAllergies(p.allergies))
    requires |plan.meals| == |SlotShares| && plan.totalCalories == CalorieTarget(p)
    ensures PlanFor(p, plan)
  {
  }

  /**
   * `generate_day_plan(user_profile)`: computes the target, splits it over the
   * slots, and for each slot in turn selects a recipe within the slot's window
   * or falls back to the placeholder.
   */
  method GenerateDayPlan(p: Profile) returns (plan: Plan)
    ensures PlanFor(p, plan)
  {
    var target := CalorieTarget(p);
    var slots := AllocateSlots(target);
    var allergies := ParseAllergies(p.allergies);
    var meals: seq<Meal> := [];
    for i := 0 to |slots|
      invariant |meals| == i
      invariant MealsFor(meals, slots, p.dietaryPref, allergies)
    {
      var slot := slots[i].0;
      var calories := slots[i].1;
      var w := Window(calories);
      var recipe := SelectRecipe(p.dietaryPref, allergies, Some(w.0), Some(w.1));
      var meal: Meal;
      if recipe.Some? {
        meal := RecipeMeal(slot, recipe.value);
      } else {
        meal := PlaceholderMeal(slot, calories);
      }
      ServedMeal(slot, calories, w, p.dietaryPref, allergies, recipe, meal);
      MealsForAppend(meals, slots, p.dietaryPref, allergies, meal);
      meals := meals + [meal];
    }
    plan := Plan(target, meals);
    MealsForPlan(p, plan);
  }

  /**
   * Every meal of a plan sits in its slot, and is either the placeholder with
   * exactly the slot's calories or a catalog recipe free of the user's allergens.
   */
  lemma PlanMealsSafe(p: Profile, plan: Plan, i: int)
    requires PlanFor(p, plan)
    requires 0 <= i < |plan.meals|
    ensures plan.meals[i].slot == SlotShares[i].0
    ensures var k := AllocateSlots(CalorieTarget(p))[i].1;
      || plan.meals[i] == PlaceholderMeal(SlotShares[i].0, k)
      || exists r :: r in Catalog && !Conflicts(r, ParseAllergies(p.allergies)) && plan.meals[i] == RecipeMeal(SlotShares[i].0, r)
  {
    var slots := AllocateSlots(CalorieTarget(p));
    var allergies := ParseAllergies(p.allergies);
    assert MealFor(plan.meals[i], slots[i].0, slots[i].1, p.dietaryPref, allergies);
    var pool := SlotPool(slots[i].1, p.dietaryPref, allergies);
    if pool != [] {
      var r :| r in pool && plan.meals[i] == RecipeMeal(slots[i].0, r);
      var w := Window(slots[i].1);
      SelectionPoolSafe(p.dietaryPref, allergies, Some(w.0), Some(w.1), r);
    }
  }

  /**
   * A meal is the placeholder exactly when every catalog recipe contains one
   * of the user's allergens; the slot's calories play no part.
   */
  lemma PlaceholderIffAllConflict(p: Profile, plan: Plan, i: int)
    requires PlanFor(p, plan)
    requires 0 <= i < |plan.meals|
    ensures plan.meals[i].name == "Simple meal" <==>
      forall r :: r in Catalog ==> Conflicts(r, ParseAllergies(p.allergies))
  {
    var slots := AllocateSlots(CalorieTarget(p));
    var allergies := ParseAllergies(p.allergies);
    var w := Window(slots[i].1);
    assert MealFor(plan.meals[i], slots[i].0, slots[i].1, p.dietaryPref, allergies);
    SelectionPoolEmpty(p.dietaryPref, allergies, Some(w.0), Some(w.1));
    var pool := SlotPool(slots[i].1, p.dietaryPref, allergies);
    if pool != [] {
      var r :| r in pool && plan.meals[i] == RecipeMeal(slots[i].0, r);
      SelectionPoolSafe(p.dietaryPref, allergies, Some(w.0), Some(w.1), r);
      PlaceholderNameUnused(r);
    }
  }

  /** Either every meal of a plan is the placeholder or none is. */
  lemma PlaceholdersAllOrNone(p: Profile, plan: Plan, i: int, j: int)
    requires PlanFor(p, plan)
    requires 0 <= i < |plan.meals| && 0 <= j < |plan.meals|
    ensures plan.meals[i].name == "Simple meal" <==> plan.meals[j].name == "Simple meal"
  {
    PlaceholderIffAllConflict(p, plan, i);
    PlaceholderIffAllConflict(p, plan, j);
  }

  /**
   * When some recipe passes the first pass for a slot's window, the meal
   * served there obeys the diet rule and lies in the window (a bound of 0
   * takes no part).
   */
  lemma PlanMealInWindow(p: Profile, plan: Plan, i: int)
    requires PlanFor(p, plan)
    requires 0 <= i < |plan.meals|
    requires var w := Window(AllocateSlots(CalorieTarget(p))[i].1);
      FirstPass(Catalog, p.dietaryPref, ParseAllergies(p.allergies), Some(w.0), Some(w.1)) != []
    ensures var w := Window(AllocateSlots(CalorieTarget(p))[i].1);
      && (w.0 != 0 ==> w.0 <= plan.meals[i].calories)
      && (w.1 != 0 ==> plan.meals[i].calories <= w.1)
    ensures exists r :: r in Catalog && DietAllows(r.tags, p.dietaryPref) && plan.meals[i].name == r.name
  {
    var slots := AllocateSlots(CalorieTarget(p));
    var allergies := ParseAllergies(p.allergies);
    var w := Window(slots[i].1);
    assert MealFor(plan.meals[i], slots[i].0, slots[i].1, p.dietaryPref, allergies);
    var pool := SlotPool(slots[i].1, p.dietaryPref, allergies);
    assert pool != [];
    var r :| r in pool && plan.meals[i] == RecipeMeal(slots[i].0, r);
    SelectionPoolFirstPass(p.dietaryPref, allergies, Some(w.0), Some(w.1), r);
    SelectionPoolSafe(p.dietaryPref, allergies, Some(w.0), Some(w.1), r);
  }

  /**
   * A 2000 kcal target with no allergies: the snack slots' window is empty of
   * recipes, so the fallback pass may serve any catalog recipe there.
   */
  lemma SnackSlotsFallBack()
    ensures AllocateSlots(2000)[3].1 == 150 && AllocateSlots(2000)[4].1 == 150
    ensures FirstPass(Catalog, None, [], Some(Window(150).0), Some(Window(150).1)) == []
    ensures SlotPool(150, None, []) == Catalog
  {
    AllocateSlotsExample();
    SnackWindow();
    SnackWindowFallsBack();
  }

  /** A 70 kg, 175 cm, 30-year-old moderately active man maintaining weight: 2555 kcal. */
  lemma CalorieTargetExample()
    ensures CalorieTarget(Profile(70.0, 175.0, 30, "male", "moderate", "maintain", None, None)) == 2555
  {
    BmrExamples();
    assert ActivityMultiplier("moderate") == 1.55;
    assert 1648.75 * 1.55 == 2555.5625;
  }
}
