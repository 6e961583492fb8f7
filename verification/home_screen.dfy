/**
 * The figures the home screen derives from the signed-in user and today's
 * meals: the calorie total, the macro totals over every food item, the
 * target with its 2000 kcal fallback, the remaining calories and the capped
 * progress percentage.
 */
module HomeScreen {
  import opened Base
  import opened Types
  import MealSlice

  /** The calories of a list of meals, as a sum. */
  function SumCalories(meals: seq<Meal>): real {
    if |meals| == 0 then 0.0 else meals[0].totalCalories + SumCalories(meals[1..])
  }

  lemma {:induction false} SumCaloriesAppend(meals: seq<Meal>, m: Meal)
    ensures SumCalories(meals + [m]) == SumCalories(meals) + m.totalCalories
  {
    if |meals| == 0 {
      assert meals + [m] == [m];
    } else {
      assert (meals + [m])[1..] == meals[1..] + [m];
      SumCaloriesAppend(meals[1..], m);
    }
  }

  /** calculateTotalCalories: the left-to-right `reduce` adding each meal's totalCalories to 0. */
  method CalculateTotalCalories(todayMeals: seq<Meal>) returns (total: real)
    ensures total == SumCalories(todayMeals)
  {
    total := 0.0;
    var i := 0;
    while i < |todayMeals|
      invariant 0 <= i <= |todayMeals|
      invariant total == SumCalories(todayMeals[..i])
    {
      assert todayMeals[..i + 1] == todayMeals[..i] + [todayMeals[i]];
      SumCaloriesAppend(todayMeals[..i], todayMeals[i]);
      total := total + todayMeals[i].totalCalories;
      i := i + 1;
    }
    assert todayMeals[..i] == todayMeals;
  }

  /** With no meals the total is 0; adding a meal in front adds exactly its calories. */
  lemma TotalCaloriesAfterAdd(s: MealSlice.MealState, m: Meal)
    ensures SumCalories([]) == 0.0
    ensures SumCalories(MealSlice.Reduce(s, MealSlice.AddFulfilled(m)).todayMeals)
         == SumCalories(s.todayMeals) + m.totalCalories
  {
    var r := MealSlice.Reduce(s, MealSlice.AddFulfilled(m));
    assert r.todayMeals[1..] == s.todayMeals;
  }

  // ---------------------------------------------------------------------------
  // Macro totals

  datatype MacroTotals = MacroTotals(protein: real, carbs: real, fat: real) {
    function Plus(o: MacroTotals): MacroTotals {
      MacroTotals(protein + o.protein, carbs + o.carbs, fat + o.fat)
    }
  }

  const NoMacros: MacroTotals := MacroTotals(0.0, 0.0, 0.0)

  /** The macros of a list of food items, as a sum. */
  function ItemsMacros(items: seq<FoodItem>): MacroTotals {
    if |items| == 0 then NoMacros
    else MacroTotals(items[0].protein, items[0].carbs, items[0].fat).Plus(ItemsMacros(items[1..]))
  }

  /** The macros of every item of every meal, as a sum. */
  function MealsMacros(meals: seq<Meal>): MacroTotals {
    if |meals| == 0 then NoMacros else ItemsMacros(meals[0].items).Plus(MealsMacros(meals[1..]))
  }

  lemma {:induction false} ItemsMacrosAppend(items: seq<FoodItem>, x: FoodItem)
    ensures ItemsMacros(items + [x]) == ItemsMacros(items).Plus(MacroTotals(x.protein, x.carbs, x.fat))
  {
    if |items| == 0 {
      assert items + [x] == [x];
    } else {
      assert (items + [x])[1..] == items[1..] + [x];
      ItemsMacrosAppend(items[1..], x);
    }
  }

  lemma {:induction false} MealsMacrosAppend(meals: seq<Meal>, m: Meal)
    ensures MealsMacros(meals + [m]) == MealsMacros(meals).Plus(ItemsMacros(m.items))
  {
    if |meals| == 0 {
      assert meals + [m] == [m];
    } else {
      assert (meals + [m])[1..] == meals[1..] + [m];
      MealsMacrosAppend(meals[1..], m);
    }
  }

  /** calculateMacros: a `reduce` over the meals whose step adds every item's macros to the accumulator. */
  method CalculateMacros(todayMeals: seq<Meal>) returns (totals: MacroTotals)
    ensures totals == MealsMacros(todayMeals)
    ensures todayMeals == [] ==> totals == NoMacros
  {
    totals := NoMacros;
    var i := 0;
    while i < |todayMeals|
      invariant 0 <= i <= |todayMeals|
      invariant totals == MealsMacros(todayMeals[..i])
    {
      var items := todayMeals[i].items;
      var before := totals;
      var j := 0;
      while j < |items|
        invariant 0 <= j <= |items|
        invariant totals == before.Plus(ItemsMacros(items[..j]))
      {
        assert items[..j + 1] == items[..j] + [items[j]];
        ItemsMacrosAppend(items[..j], items[j]);
        totals := MacroTotals(totals.protein + items[j].protein, totals.carbs + items[j].carbs, totals.fat + items[j].fat);
        j := j + 1;
      }
      assert items[..j] == items;
      assert todayMeals[..i + 1] == todayMeals[..i] + [todayMeals[i]];
      MealsMacrosAppend(todayMeals[..i], todayMeals[i]);
      i := i + 1;
    }
    assert todayMeals[..i] == todayMeals;
  }

  // ---------------------------------------------------------------------------
  // Target, remaining and progress

  const DefaultTarget: real := 2000.0

  /** `user?.dailyCalorieTarget || 2000`: a missing user or a zero target falls back to 2000. */
  function TargetCalories(user: Option<User>): (t: real)
    ensures t != 0.0
    ensures user.Some? && user.value.dailyCalorieTarget != 0.0 ==> t == user.value.dailyCalorieTarget
    ensures user.None? || user.value.dailyCalorieTarget == 0.0 ==> t == DefaultTarget
  {
    match user
    case None => DefaultTarget
    case Some(u) => if u.dailyCalorieTarget != 0.0 then u.dailyCalorieTarget else DefaultTarget
  }

  /** `Math.min((total / target) * 100, 100)`. */
  function Progress(total: real, target: real): (p: real)
    requires target != 0.0
    ensures p <= 100.0
    ensures target > 0.0 ==> (p == 100.0 <==> total >= target)
    ensures target < 0.0 ==> (p == 100.0 <==> total <= target)
    ensures target > 0.0 && total >= 0.0 ==> p >= 0.0
    ensures target > 0.0 && total < target ==> p * target == total * 100.0
    ensures target < 0.0 && total > target ==> p * target == total * 100.0
    ensures p == 100.0 || p * target == total * 100.0
  {
    var share := total / target * 100.0;
    ShareBounds(total, target);
    if share < 100.0 then share else 100.0
  }

  /** Where the uncapped share reaches 100, for either sign of the target. */
  lemma ShareBounds(total: real, target: real)
    requires target > 0.0 || target < 0.0
    ensures target > 0.0 ==> (total / target * 100.0 >= 100.0 <==> total >= target)
    ensures target < 0.0 ==> (total / target * 100.0 >= 100.0 <==> total <= target)
    ensures target > 0.0 && total >= 0.0 ==> total / target * 100.0 >= 0.0
  {
    if target > 0.0 {
      var q := total / target;
      assert q * target == total;
      assert (q * 100.0 >= 100.0) == (q >= 1.0);
      ScaleByPositive(q, 1.0, target);
      ScaleByPositive(q, 0.0, target);
    } else {
      var q := total / target;
      assert q * target == total;
      assert q * (-target) == -total;
      assert (q * 100.0 >= 100.0) == (q >= 1.0);
      ScaleByPositive(q, 1.0, -target);
    }
  }

  /** Multiplying by a positive factor keeps the order of two reals. */
  lemma ScaleByPositive(a: real, b: real, c: real)
    requires c > 0.0
    ensures a < b <==> a * c < b * c
  {
  }

  /** What the calorie card shows. */
  datatype Summary = Summary(total: real, target: real, remaining: real, progress: real, macros: MacroTotals)

  /** The derivation at the top of the screen, from the user and today's meals. */
  function Summarize(user: Option<User>, todayMeals: seq<Meal>): (s: Summary)
    ensures s.total == SumCalories(todayMeals) && s.macros == MealsMacros(todayMeals)
    ensures s.target != 0.0 && (user.None? ==> s.target == DefaultTarget)
    ensures s.target == TargetCalories(user)
    ensures s.remaining == s.target - s.total
    ensures s.remaining < 0.0 <==> s.total > s.target
    ensures s.progress == Progress(s.total, s.target)
    ensures s.progress <= 100.0
    ensures s.target > 0.0 ==> (s.progress == 100.0 <==> s.total >= s.target)
    ensures s.target < 0.0 ==> (s.progress == 100.0 <==> s.total <= s.target)
  {
    var total := SumCalories(todayMeals);
    var target := TargetCalories(user);
    Summary(total, target, target - total, Progress(total, target), MealsMacros(todayMeals))
  }

  /** The `progress > 100` style of the progress bar can never apply. */
  lemma OverTargetStyleNeverApplies(user: Option<User>, todayMeals: seq<Meal>)
    ensures !(Summarize(user, todayMeals).progress > 100.0)
  {
  }
}
