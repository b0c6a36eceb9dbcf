/**
 * The fixed recipe catalog and `select_recipe`: a first pass that applies the
 * allergy, diet and calorie rules, a fallback pass that keeps only the allergy
 * rule, and a random pick among the survivors.
 */
module Recipes {
  import opened Wrappers
  import opened Text

  /** One catalog row: name, diet tags, allergens, kcal, protein, carbs and fat in grams, method. */
  datatype Recipe = Recipe(
    name: string,
    tags: seq<string>,
    allergens: seq<string>,
    calories: int,
    protein: int,
    carbs: int,
    fat: int,
    instructions: string)

  /** `SAMPLE_RECIPES`, row by row. */
  const Catalog: seq<Recipe> := [
    Recipe("Oats porridge with milk & bananas", ["vegetarian", "omnivore"], ["nuts"], 350, 12, 55, 8,
      "Oats cooked in milk with sliced banana and a tsp honey."),
    Recipe("Chickpea salad", ["vegan", "vegetarian", "omnivore"], [], 300, 15, 30, 10,
      "Chickpeas, cucumber, tomato, lemon, olive oil."),
    Recipe("Grilled chicken & veggies", ["omnivore"], [], 500, 40, 35, 18,
      "Grilled chicken breast with roasted vegetables."),
    Recipe("Paneer curry with rice", ["vegetarian", "omnivore"], [], 600, 25, 70, 20,
      "Paneer cooked in tomato gravy served with rice."),
    Recipe("Fruit & yogurt bowl", ["vegetarian", "omnivore"], [], 200, 8, 30, 4,
      "Mixed fruits with yogurt."),
    Recipe("Peanut butter toast", ["vegetarian", "omnivore"], ["peanuts"], 320, 12, 30, 16,
      "Wholegrain toast with peanut butter."),
    Recipe("Mixed nuts small bowl", ["vegetarian", "omnivore"], ["nuts"], 180, 6, 8, 15,
      "Handful of mixed nuts."),
    Recipe("Tofu stir fry", ["vegan", "vegetarian", "omnivore"], [], 420, 20, 40, 18,
      "Tofu with mixed vegetables and soy sauce."),
    Recipe("Boiled eggs and spinach", ["omnivore"], [], 250, 18, 6, 15,
      "2 boiled eggs with saut\U{221A}\U{00A9}ed spinach.")
  ]

  /**
   * The catalog has nine recipes, from the 180 kcal nut bowl up to the
   * 600 kcal curry, and every one is fit for an omnivore.
   */
  lemma CatalogFacts()
    ensures |Catalog| == 9
    ensures forall r :: r in Catalog ==> 180 <= r.calories <= 600 && "omnivore" in r.tags
  {
  }

  /** No two catalog rows share a name. */
  lemma CatalogNamesDistinct(i: int, j: int)
    requires 0 <= i < j < |Catalog|
    ensures Catalog[i].name != Catalog[j].name
  {
  }

  /** Some allergy of the user equals one of the recipe's allergens, ignoring case. */
  predicate Conflicts(r: Recipe, allergies: seq<string>) {
    exists a, x :: a in allergies && x in r.allergens && Lower(a) == Lower(x)
  }

  /**
   * The diet rule: a non-empty preference that lower-cases to "vegan" needs the
   * "vegan" tag, one that lower-cases to "vegetarian" needs the "vegetarian"
   * tag (or the preference itself, the same word); any other preference, an
   * empty one or none at all lets every recipe through.
   */
  predicate DietAllows(tags: seq<string>, dietPref: Option<string>) {
    match dietPref
    case None => true
    case Some(d) =>
      var dp := Lower(d);
      || d == ""
      || (!(dp == "vegan" && "vegan" !in tags)
          && !(dp == "vegetarian" && "vegetarian" !in tags && dp !in tags))
  }

  /** A calorie bound takes part only when given and non-zero (Python truthiness). */
  predicate Active(bound: Option<int>) {
    bound.Some? && bound.value != 0
  }

  predicate WithinBounds(calories: int, minCal: Option<int>, maxCal: Option<int>) {
    && !(Active(minCal) && calories < minCal.value)
    && !(Active(maxCal) && calories > maxCal.value)
  }

  /** The first pass's test for one recipe. */
  predicate Admits(r: Recipe, dietPref: Option<string>, allergies: seq<string>, minCal: Option<int>, maxCal: Option<int>) {
    && !Conflicts(r, allergies)
    && DietAllows(r.tags, dietPref)
    && WithinBounds(r.calories, minCal, maxCal)
  }

  /** The recipes of `rs` that the first pass keeps, in catalog order. */
  function FirstPass(rs: seq<Recipe>, dietPref: Option<string>, allergies: seq<string>, minCal: Option<int>, maxCal: Option<int>): seq<Recipe>
  {
    if rs == [] then []
    else
      var last := rs[|rs| - 1];
      FirstPass(rs[..|rs| - 1], dietPref, allergies, minCal, maxCal)
        + (if Admits(last, dietPref, allergies, minCal, maxCal) then [last] else [])
  }

  /** The recipes of `rs` that the fallback pass keeps: those free of the user's allergens. */
  function SafeRecipes(rs: seq<Recipe>, allergies: seq<string>): seq<Recipe>
  {
    if rs == [] then []
    else
      var last := rs[|rs| - 1];
      SafeRecipes(rs[..|rs| - 1], allergies) + (if !Conflicts(last, allergies) then [last] else [])
  }

  /** The candidates `random.choice` picks from: the first pass, or else the fallback pass. */
  function SelectionPool(dietPref: Option<string>, allergies: seq<string>, minCal: Option<int>, maxCal: Option<int>): seq<Recipe>
  {
    var first := FirstPass(Catalog, dietPref, allergies, minCal, maxCal);
    if first != [] then first else SafeRecipes(Catalog, allergies)
  }

  /** The first pass over one more recipe keeps what it kept, plus that recipe if admitted. */
  lemma FirstPassStep(rs: seq<Recipe>, i: nat, dietPref: Option<string>, allergies: seq<string>, minCal: Option<int>, maxCal: Option<int>)
    requires i < |rs|
    ensures FirstPass(rs[..i + 1], dietPref, allergies, minCal, maxCal)
      == FirstPass(rs[..i], dietPref, allergies, minCal, maxCal)
        + (if Admits(rs[i], dietPref, allergies, minCal, maxCal) then [rs[i]] else [])
  {
    assert rs[..i + 1][..i] == rs[..i];
  }

  /** The fallback pass over one more recipe keeps what it kept, plus that recipe if safe. */
  lemma SafeRecipesStep(rs: seq<Recipe>, i: nat, allergies: seq<string>)
    requires i < |rs|
    ensures SafeRecipes(rs[..i + 1], allergies)
      == SafeRecipes(rs[..i], allergies) + (if !Conflicts(rs[i], allergies) then [rs[i]] else [])
  {
    assert rs[..i + 1][..i] == rs[..i];
  }

  lemma {:induction false} FirstPassMembers(rs: seq<Recipe>, dietPref: Option<string>, allergies: seq<string>, minCal: Option<int>, maxCal: Option<int>, r: Recipe)
    ensures r in FirstPass(rs, dietPref, allergies, minCal, maxCal) <==> r in rs && Admits(r, dietPref, allergies, minCal, maxCal)
  {
    if rs != [] {
      FirstPassMembers(rs[..|rs| - 1], dietPref, allergies, minCal, maxCal, r);
      assert rs == rs[..|rs| - 1] + [rs[|rs| - 1]];
    }
  }

  lemma {:induction false} SafeRecipesMembers(rs: seq<Recipe>, allergies: seq<string>, r: Recipe)
    ensures r in SafeRecipes(rs, allergies) <==> r in rs && !Conflicts(r, allergies)
  {
    if rs != [] {
      SafeRecipesMembers(rs[..|rs| - 1], allergies, r);
      assert rs == rs[..|rs| - 1] + [rs[|rs| - 1]];
    }
  }

  /** Whatever pass produced it, a candidate is a catalog recipe free of the user's allergens. */
  lemma SelectionPoolSafe(dietPref: Option<string>, allergies: seq<string>, minCal: Option<int>, maxCal: Option<int>, r: Recipe)
    requires r in SelectionPool(dietPref, allergies, minCal, maxCal)
    ensures r in Catalog && !Conflicts(r, allergies)
  {
    FirstPassMembers(Catalog, dietPref, allergies, minCal, maxCal, r);
    SafeRecipesMembers(Catalog, allergies, r);
  }

  /** There are no candidates exactly when every catalog recipe conflicts with the allergies. */
  lemma SelectionPoolEmpty(dietPref: Option<string>, allergies: seq<string>, minCal: Option<int>, maxCal: Option<int>)
    ensures SelectionPool(dietPref, allergies, minCal, maxCal) == [] <==> forall r :: r in Catalog ==> Conflicts(r, allergies)
  {
    var pool := SelectionPool(dietPref, allergies, minCal, maxCal);
    if pool == [] {
      forall r | r in Catalog ensures Conflicts(r, allergies) {
        SafeRecipesMembers(Catalog, allergies, r);
      }
    } else {
      SelectionPoolSafe(dietPref, allergies, minCal, maxCal, pool[0]);
    }
  }

  /**
   * When the first pass keeps something, every candidate obeys the diet rule
   * and lies within each calorie bound that is active.
   */
  lemma SelectionPoolFirstPass(dietPref: Option<string>, allergies: seq<string>, minCal: Option<int>, maxCal: Option<int>, r: Recipe)
    requires FirstPass(Catalog, dietPref, allergies, minCal, maxCal) != []
    requires r in SelectionPool(dietPref, allergies, minCal, maxCal)
    ensures DietAllows(r.tags, dietPref)
    ensures Active(minCal) ==> minCal.value <= r.calories
    ensures Active(maxCal) ==> r.calories <= maxCal.value
  {
    FirstPassMembers(Catalog, dietPref, allergies, minCal, maxCal, r);
  }

  /** The diet rule spelled out per preference. */
  lemma DietRules(tags: seq<string>, d: string)
    ensures Lower(d) == "vegan" ==> (DietAllows(tags, Some(d)) <==> "vegan" in tags)
    ensures Lower(d) == "vegetarian" ==> (DietAllows(tags, Some(d)) <==> "vegetarian" in tags)
    ensures Lower(d) != "vegan" && Lower(d) != "vegetarian" ==> DietAllows(tags, Some(d))
  {
  }

  /** Each calorie bound of 0 is the same as no bound, whatever the other bound is. */
  lemma {:induction false} ZeroBoundIgnored(rs: seq<Recipe>, dietPref: Option<string>, allergies: seq<string>, minCal: Option<int>, maxCal: Option<int>)
    ensures FirstPass(rs, dietPref, allergies, Some(0), maxCal) == FirstPass(rs, dietPref, allergies, None, maxCal)
    ensures FirstPass(rs, dietPref, allergies, minCal, Some(0)) == FirstPass(rs, dietPref, allergies, minCal, None)
  {
    if rs != [] {
      ZeroBoundIgnored(rs[..|rs| - 1], dietPref, allergies, minCal, maxCal);
    }
  }

  /** Bounds of 0 on both sides: only the allergy and diet rules filter. */
  lemma ZeroBoundsIgnored(rs: seq<Recipe>, dietPref: Option<string>, allergies: seq<string>)
    ensures FirstPass(rs, dietPref, allergies, Some(0), Some(0)) == FirstPass(rs, dietPref, allergies, None, None)
  {
    ZeroBoundIgnored(rs, dietPref, allergies, None, Some(0));
  }

  /** With no allergies the fallback pass keeps every recipe. */
  lemma {:induction false} NoAllergiesKeepsAll(rs: seq<Recipe>)
    ensures SafeRecipes(rs, []) == rs
  {
    if rs != [] {
      NoAllergiesKeepsAll(rs[..|rs| - 1]);
      assert rs[..|rs| - 1] + [rs[|rs| - 1]] == rs;
    }
  }

  /**
   * A vegan with a nut allergy and no calorie bounds is offered exactly the
   * chickpea salad and the tofu stir fry.
   */
  lemma VeganNutAllergyExample(r: Recipe)
    ensures r in SelectionPool(Some("vegan"), ["nuts"], Some(0), Some(0)) <==> r == Catalog[1] || r == Catalog[7]
  {
    VeganPoolIsFirstPass();
    FirstPassMembers(Catalog, Some("vegan"), ["nuts"], None, None, r);
    if r == Catalog[1] || r == Catalog[7] {
      VeganAdmitted(r);
    }
    if r in Catalog && Admits(r, Some("vegan"), ["nuts"], None, None) {
      VeganNeedsTag(r.tags);
      VeganRecipes(r);
    }
  }

  lemma VeganNeedsTag(tags: seq<string>)
    ensures DietAllows(tags, Some("vegan")) ==> "vegan" in tags
  {
    assert Lower("vegan") == "vegan";
  }

  lemma VeganPoolIsFirstPass()
    ensures SelectionPool(Some("vegan"), ["nuts"], Some(0), Some(0)) == FirstPass(Catalog, Some("vegan"), ["nuts"], None, None)
  {
    ZeroBoundsIgnored(Catalog, Some("vegan"), ["nuts"]);
    VeganAdmitted(Catalog[1]);
    FirstPassMembers(Catalog, Some("vegan"), ["nuts"], None, None, Catalog[1]);
  }

  /** A recipe tagged "vegan" and free of allergens passes the first pass for a vegan with a nut allergy. */
  lemma VeganAdmitted(r: Recipe)
    requires r == Catalog[1] || r == Catalog[7]
    ensures Admits(r, Some("vegan"), ["nuts"], None, None)
  {
    assert r.allergens == [] && "vegan" in r.tags;
    assert Lower("vegan") == "vegan";
  }

  /** Only the chickpea salad and the tofu stir fry carry the "vegan" tag. */
  lemma VeganRecipes(r: Recipe)
    requires r in Catalog && "vegan" in r.tags
    ensures r == Catalog[1] || r == Catalog[7]
  {
    var k :| 0 <= k < |Catalog| && Catalog[k] == r;
    assert k == 1 || k == 7;
  }

  /**
   * The 127 to 172 kcal window of a 150 kcal snack holds no catalog recipe, so
   * the fallback pass offers the whole catalog, up to the 600 kcal curry.
   */
  lemma SnackWindowFallsBack()
    ensures FirstPass(Catalog, None, [], Some(127), Some(172)) == []
    ensures SelectionPool(None, [], Some(127), Some(172)) == Catalog
  {
    var first := FirstPass(Catalog, None, [], Some(127), Some(172));
    if first != [] {
      FirstPassMembers(Catalog, None, [], Some(127), Some(172), first[0]);
      assert false;
    }
    NoAllergiesKeepsAll(Catalog);
  }

  /** What any pick from the candidates, or `None` when there are none, guarantees. */
  lemma SelectionOutcome(dietPref: Option<string>, allergies: seq<string>, minCal: Option<int>, maxCal: Option<int>, choice: Option<Recipe>)
    requires choice.None? <==> SelectionPool(dietPref, allergies, minCal, maxCal) == []
    requires choice.Some? ==> choice.value in SelectionPool(dietPref, allergies, minCal, maxCal)
    ensures choice.None? <==> forall r :: r in Catalog ==> Conflicts(r, allergies)
    ensures choice.Some? ==> choice.value in Catalog && !Conflicts(choice.value, allergies)
    ensures FirstPass(Catalog, dietPref, allergies, minCal, maxCal) != [] ==>
      choice.Some? && Admits(choice.value, dietPref, allergies, minCal, maxCal)
  {
    SelectionPoolEmpty(dietPref, allergies, minCal, maxCal);
    if choice.Some? {
      SelectionPoolSafe(dietPref, allergies, minCal, maxCal, choice.value);
      FirstPassMembers(Catalog, dietPref, allergies, minCal, maxCal, choice.value);
    }
  }

  /**
   * `select_recipe(diet_pref, allergies, min_cal, max_cal)`: collects the
   * first-pass survivors, falls back to the allergy-safe recipes when there are
   * none, and picks any one of the candidates (`random.choice`), or `None`.
   */
  method SelectRecipe(dietPref: Option<string>, allergies: seq<string>, minCal: Option<int>, maxCal: Option<int>)
    returns (choice: Option<Recipe>)
    ensures choice.None? <==> SelectionPool(dietPref, allergies, minCal, maxCal) == []
    ensures choice.Some? ==> choice.value in SelectionPool(dietPref, allergies, minCal, maxCal)
    ensures choice.None? <==> forall r :: r in Catalog ==> Conflicts(r, allergies)
    ensures choice.Some? ==> choice.value in Catalog && !Conflicts(choice.value, allergies)
    ensures FirstPass(Catalog, dietPref, allergies, minCal, maxCal) != [] ==>
      choice.Some? && Admits(choice.value, dietPref, allergies, minCal, maxCal)
  {
    var choices: seq<Recipe> := [];
    for i := 0 to |Catalog|
      invariant choices == FirstPass(Catalog[..i], dietPref, allergies, minCal, maxCal)
    {
      var r := Catalog[i];
      FirstPassStep(Catalog, i, dietPref, allergies, minCal, maxCal);
      if Admits(r, dietPref, allergies, minCal, maxCal) {
        choices := choices + [r];
      }
    }
    assert Catalog[..|Catalog|] == Catalog;
    if choices == [] {
      for i := 0 to |Catalog|
        invariant choices == SafeRecipes(Catalog[..i], allergies)
      {
        SafeRecipesStep(Catalog, i, allergies);
        if !Conflicts(Catalog[i], allergies) {
          choices := choices + [Catalog[i]];
        }
      }
    }
    assert choices == SelectionPool(dietPref, allergies, minCal, maxCal);
    if choices == [] {
      choice := None;
    } else {
      assert choices[0] in choices;
      var r :| r in choices;
      choice := Some(r);
    }
    SelectionOutcome(dietPref, allergies, minCal, maxCal, choice);
  }
}
