# Nutrition day-plan generator — Dafny model

This project models the planning core of a small nutrition web application,
`nutrition/utils.py`. A user profile holds body data, activity level, goal,
diet preference and free-text allergies. From it the code builds one day of
meals:

- **Calorie target.** The Mifflin-St Jeor resting energy (`calculate_bmr`) is
  multiplied by an activity factor (`activity_multiplier`). The goal then shifts
  the result by 300 kcal and it is truncated to an integer (`goal_calorie_adjust`).
- **Slots.** The target is split into five slots: breakfast 25%, lunch 30%,
  dinner 30%, and two snacks of 7.5% each.
- **Meals.** For each slot a recipe is picked from a fixed nine-row catalog
  (`SAMPLE_RECIPES`) with `select_recipe`. The first pass keeps recipes that are
  free of the user's allergens, fit the diet preference and lie within 85% to 115%
  of the slot's calories. When nothing passes, a fallback pass keeps every
  allergen-free recipe. One candidate is chosen at random. When no recipe is left
  at all, a placeholder meal with exactly the slot's calories is served.

The modules follow the source:

- `Wrappers`: `Option`.
- `Text`: the Python string operations the parser uses (`strip`, `lower`,
  `split`, with `str.isspace`'s whitespace set).
- `Allergies`: `parse_allergies`.
- `Energy`: `calculate_bmr`, `activity_multiplier`, `goal_calorie_adjust` and
  Python's `int()` on a float.
- `Recipes`: the catalog and `select_recipe`.
- `DayPlan`: `generate_day_plan`.

The pure functions of the source are Dafny functions with lemmas. The two
functions that build lists in loops are Dafny methods with loops, each proved
against a specification function or predicate:

- `select_recipe` becomes `Recipes.SelectRecipe`, proved against `SelectionPool`.
- `generate_day_plan` becomes `DayPlan.GenerateDayPlan`, proved against `PlanFor`.

`random.choice` is "some element of the candidates" (`:|`), so every property of
a plan holds whichever recipe is drawn.

Differences between the source's intent and its code, where the model follows the code:

- **The ±15% window is not a guarantee.** The comment at `nutrition/utils.py:90`
  speaks of ±15% flexibility per meal. When no recipe fits the window, the
  fallback pass drops the calorie rule entirely. For a 2000 kcal target with no
  allergies, the snack slots (150 kcal, window 127–172) have no recipe in the
  window. Any catalog recipe may be served there, up to the 600 kcal curry
  (`DayPlan.SnackSlotsFallBack`, `Recipes.SnackWindowFallsBack`). The window
  guarantee is stated only under its real condition, a non-empty first pass
  (`DayPlan.PlanMealInWindow`).
- **Bounds of 0 are ignored.** A calorie bound of 0 is falsy in Python and takes
  no part, whatever the other bound is (`Recipes.ZeroBoundIgnored`). So a slot
  of −1 to 1 kcal, whose lower bound truncates to 0, has no lower bound
  (`DayPlan.WindowLowerZero`).
- **The first pass is one test.** The first loop's `continue` chain is modelled
  as one predicate, `Recipes.Admits`: a recipe is appended exactly when no
  `continue` fires.

## Model

| member | source | states |
|---|---|---|
| Text.LowerChar | nutrition/utils.py:21 | an upper-case ASCII letter becomes the letter at the same place of the lower-case alphabet; every other character is unchanged; the result is never upper-case and is whitespace exactly when the input is |
| Text.Lower | nutrition/utils.py:21 | lower-casing maps every character through `LowerChar`, so keeps the length and every whitespace position, leaves no upper-case letter, and leaves already lower-case text unchanged |
| Text.LowerExample | nutrition/utils.py:21 | "NuTs, Peanuts" lower-cases to "nuts, peanuts" |
| Text.Strip | nutrition/utils.py:21 | the result is a contiguous slice of the input with only whitespace cut on either side, starts and ends with a non-space, and is empty exactly when the input is all whitespace |
| Text.StripUnchanged | nutrition/utils.py:21 | text that neither starts nor ends with whitespace strips to itself |
| Text.StripIdempotent | nutrition/utils.py:21 | stripping twice is stripping once |
| Text.Split | nutrition/utils.py:21 | `split(",")` always yields at least one piece |
| Text.SplitPiecesExcludeSeparator | nutrition/utils.py:21 | no piece contains the separator |
| Text.SplitNoSeparator | nutrition/utils.py:21 | text without the separator splits into itself alone |
| Text.JoinSplit | nutrition/utils.py:21 | joining the pieces with the separator gives back the original text |
| Text.SplitJoin | nutrition/utils.py:21 | splitting the join of separator-free pieces gives back the pieces |
| Text.SplitAppend | nutrition/utils.py:21 | splitting `a + sep + b` gives the pieces of `a` followed by the pieces of `b` |
| Allergies.CleanPiece | nutrition/utils.py:21 | a piece yields at most one item, none exactly when it is blank, and that item is non-empty, trimmed and lower-case |
| Allergies.CleanItems | nutrition/utils.py:21 | the comprehension yields no more items than pieces, each well formed |
| Allergies.ParseAllergies | nutrition/utils.py:20-21 | every returned allergy is non-empty, has no surrounding whitespace and is lower-case |
| Allergies.ParseAllergiesOfNothing | nutrition/utils.py:20-21 | `None`, the empty text and all-whitespace text give no allergies |
| Allergies.ParseAllergiesSingle | nutrition/utils.py:20-21 | text without a comma gives its stripped lower-cased self, or nothing when blank |
| Allergies.ParseAllergiesConcat | nutrition/utils.py:20-21 | input order is kept: the items before a comma precede the items after it |
| Allergies.ParseAllergiesMembers | nutrition/utils.py:20-21 | an item is returned exactly when some comma-separated piece strips to non-empty text that lower-cases to it |
| Energy.Bmr | nutrition/utils.py:23-29 | the Mifflin-St Jeor expression, +5 for sex "male" and −161 for any other value (definition; its properties are the lemmas below) |
| Energy.BmrSexGap | nutrition/utils.py:23-29 | for the same body the male equation exceeds the other by exactly 166 kcal (+5 against −161) |
| Energy.BmrMonotone | nutrition/utils.py:23-29 | more weight or height and fewer years never lower the estimate |
| Energy.BmrExamples | nutrition/utils.py:23-29 | 70 kg, 175 cm, 30 years: 1648.75 kcal as male, 1482.75 otherwise |
| Energy.ActivityMultiplier | nutrition/utils.py:31-39 | the factor lies in [1.2, 1.9]; an unknown level gets the sedentary factor; the factor is 1.2 exactly for sedentary or unknown levels |
| Energy.ActivityMultiplierOrdered | nutrition/utils.py:31-39 | the five levels have strictly increasing factors |
| Energy.TruncToInt | nutrition/utils.py:43-46 | `int()` truncates toward zero: the result keeps the sign and is less than one unit closer to zero |
| Energy.GoalAdjust | nutrition/utils.py:41-46 | the result is the calories shifted by −300 (lose), +300 (gain) or 0 (anything else), truncated toward zero |
| Energy.UnknownGoalMaintains | nutrition/utils.py:41-46 | any goal other than lose and gain adjusts like maintain |
| Energy.GoalAdjustShift | nutrition/utils.py:41-46 | from 300 kcal up, lose and gain are exactly 300 kcal below and above maintain |
| Energy.GoalAdjustExamples | nutrition/utils.py:41-46 | 2000 kcal gives 1700, 2300 and 2000 |
| Recipes.CatalogFacts | nutrition/utils.py:7-18 | the catalog has nine recipes, each of 180 to 600 kcal and tagged omnivore |
| Recipes.CatalogNamesDistinct | nutrition/utils.py:7-18 | no two catalog rows share a name |
| Recipes.Conflicts | nutrition/utils.py:54 | a recipe conflicts when some allergy equals some allergen of it after lower-casing both (definition) |
| Recipes.DietAllows | nutrition/utils.py:57-62 | the diet rule: no or empty preference admits all; a preference lower-casing to "vegan" needs the vegan tag, one lower-casing to "vegetarian" needs the vegetarian tag (definition; `DietRules` spells it out) |
| Recipes.Active | nutrition/utils.py:64-65 | a calorie bound takes part only when given and non-zero (definition) |
| Recipes.WithinBounds | nutrition/utils.py:64-65 | the calories are at least the active minimum and at most the active maximum (definition) |
| Recipes.Admits | nutrition/utils.py:53-66 | a recipe is appended by the first loop exactly when none of its three `continue` tests fires (definition) |
| Recipes.FirstPass | nutrition/utils.py:50-66 | the recipes of a list that the first loop appends, in list order (definition; `FirstPassMembers` characterises it) |
| Recipes.SafeRecipes | nutrition/utils.py:69-71 | the recipes of a list that the fallback loop appends, in list order (definition; `SafeRecipesMembers` characterises it) |
| Recipes.SelectionPool | nutrition/utils.py:50-72 | the list `random.choice` draws from: the first pass over the catalog, or the fallback pass when that is empty (definition) |
| Recipes.FirstPassMembers | nutrition/utils.py:51-66 | the first pass over a recipe list keeps a recipe exactly when it is in the list, has no allergen matching an allergy case-insensitively, fits the diet rule and lies within each active bound |
| Recipes.SafeRecipesMembers | nutrition/utils.py:69-71 | the fallback pass over a recipe list keeps a recipe exactly when it is in the list and free of the user's allergens |
| Recipes.SelectionPoolSafe | nutrition/utils.py:51-71 | every candidate of either pass is a catalog recipe free of the user's allergens |
| Recipes.SelectionPoolEmpty | nutrition/utils.py:67-72 | there are no candidates exactly when every catalog recipe conflicts with the allergies |
| Recipes.SelectionPoolFirstPass | nutrition/utils.py:57-66 | with a non-empty first pass every candidate fits the diet rule and each non-zero bound |
| Recipes.DietRules | nutrition/utils.py:57-62 | a vegan preference needs the vegan tag, a vegetarian one the vegetarian tag, any other admits every recipe |
| Recipes.ZeroBoundIgnored | nutrition/utils.py:64-65 | a minimum of 0 filters exactly like no minimum, and a maximum of 0 exactly like no maximum, whatever the other bound |
| Recipes.ZeroBoundsIgnored | nutrition/utils.py:64-65 | calorie bounds of 0 on both sides filter exactly like no bounds |
| Recipes.NoAllergiesKeepsAll | nutrition/utils.py:69-71 | with no allergies the fallback pass keeps every recipe in order |
| Recipes.VeganRecipes | nutrition/utils.py:9-17 | only the chickpea salad and the tofu stir fry carry the vegan tag |
| Recipes.VeganNutAllergyExample | nutrition/utils.py:48-72 | a vegan with a nut allergy and no bounds is offered exactly the chickpea salad and the tofu stir fry |
| Recipes.SnackWindowFallsBack | nutrition/utils.py:64-71 | no recipe lies in 127–172 kcal, so with no allergies the candidates are the whole catalog |
| Recipes.SelectRecipe | nutrition/utils.py:48-72 | the result is `None` exactly when there are no candidates, which is exactly when every recipe conflicts; otherwise it is a candidate, hence an allergen-free catalog recipe, and it passes the first-pass test whenever some recipe does |
| DayPlan.CalorieTarget | nutrition/utils.py:76-78 | the daily target: resting energy times the activity factor, adjusted for the goal (definition; `CalorieTargetExample` evaluates it) |
| DayPlan.AllocateSlots | nutrition/utils.py:80-86 | five slots named breakfast, lunch, dinner, snack1, snack2 in that order, each with the sign of the target |
| DayPlan.AllocateSlotsShare | nutrition/utils.py:80-86 | each slot gets at most its exact share of a non-negative target and less than 1 kcal below it |
| DayPlan.AllocateSlotsTotal | nutrition/utils.py:80-86 | the slots sum to at most the target and at least the target minus 4 kcal (mirrored for a negative target) |
| DayPlan.AllocateSlotsExample | nutrition/utils.py:80-86 | 2000 kcal splits as 500, 600, 600, 150, 150 |
| DayPlan.Window | nutrition/utils.py:91-92 | the bounds are `k*0.85` and `k*1.15` truncated toward zero (each within one kcal, on the side of zero); for non-negative `k`, `0 <= int(k*0.85) <= k <= int(k*1.15)`, mirrored for negative `k` |
| DayPlan.WindowLowerZero | nutrition/utils.py:91-93 | the lower bound is 0, and so takes no part, exactly for slots of −1 to 1 kcal |
| DayPlan.SnackWindow | nutrition/utils.py:91-92 | a 150 kcal slot has the window 127 to 172 |
| DayPlan.RecipeMeal | nutrition/utils.py:94-104 | a matched recipe's name, method, calories and macros copied into the slot's meal (definition) |
| DayPlan.PlaceholderMeal | nutrition/utils.py:105-115 | the placeholder has exactly the slot's calories and splits them 15% protein, 50% carbohydrate, 35% fat by energy |
| DayPlan.ServedMeal | nutrition/utils.py:93-115 | the meal built from the selection's answer is the recipe's meal when one was chosen and the placeholder exactly when there were no candidates |
| DayPlan.MealFor | nutrition/utils.py:89-115 | a meal the loop may append for a slot: some candidate of the slot's window as a recipe meal, or the placeholder exactly when there is no candidate (definition) |
| DayPlan.PlanFor | nutrition/utils.py:74-121 | a plan `generate_day_plan` may return: total equal to the calorie target and one `MealFor` meal per slot, in slot order (definition) |
| DayPlan.GenerateDayPlan | nutrition/utils.py:74-121 | the plan's total is the calorie target and its five meals are each a meal the slot may serve: a candidate recipe of the slot's window, or the placeholder when there is none |
| DayPlan.PlanMealsSafe | nutrition/utils.py:93-115 | each meal sits in its slot and is either the placeholder with exactly the slot's calories or an allergen-free catalog recipe with its own calories and macros copied |
| DayPlan.PlaceholderIffAllConflict | nutrition/utils.py:93-115 | a meal is the placeholder exactly when every catalog recipe conflicts with the allergies |
| DayPlan.PlaceholdersAllOrNone | nutrition/utils.py:89-115 | either every meal of a plan is the placeholder or none is |
| DayPlan.PlanMealInWindow | nutrition/utils.py:91-104 | when the first pass for a slot's window is non-empty, its meal lies within each non-zero bound and comes from a recipe fitting the diet |
| DayPlan.SnackSlotsFallBack | nutrition/utils.py:80-93 | at 2000 kcal the snack slots get 150 kcal, their window holds no recipe, and the whole catalog is a candidate |
| DayPlan.CalorieTargetExample | nutrition/utils.py:76-78 | a 70 kg, 175 cm, 30-year-old moderately active man maintaining weight gets 2555 kcal |

## Left out

- Floating point: Python floats are modelled as exact reals. So `int(target * 0.30)`, the window bounds and the BMR are exact-arithmetic idealisations, not bit-exact Python results.
- DayPlan.PlaceholderMeal: the macros are the exact quotients; `round(x, 1)` at nutrition/utils.py:112-114 is not modelled.
- Text.Lower: lower-cases ASCII letters only; Python's full Unicode case mapping is not modelled.
- Recipes.SelectRecipe: `random.choice` is modelled as "some candidate"; the uniform distribution is not stated.
- DayPlan.GenerateDayPlan: the explanation string (nutrition/utils.py:116) is not built, and the unused `day` parameter is dropped.
- `create_and_save_plan` (nutrition/utils.py:123-142) is not part of this model: it only writes the plan through the ORM.
- The Django views, models, forms and URL routing are not part of this model (request handling and persistence only).
- The profile is modelled as a record with exactly the fields the planner reads. The field names of the stored user profile and its `'M'`/`'F'` sex codes are not modelled.
