/**
 * The nutrition arithmetic: the daily calorie target (Mifflin–St Jeor resting
 * energy, an activity multiplier and a ±500 kcal goal adjustment, rounded as
 * Math.round does), the macro split by goal, BMI to one decimal, and the WHO
 * adult BMI bands.
 */
module Calories {
  import opened JsNumber
  import opened Types

  /** Resting energy in kcal/day by the Mifflin–St Jeor equation (kg, cm, years). */
  function Bmr(weight: real, height: real, age: real, gender: Gender): real {
    match gender
    case Male => 10.0 * weight + 6.25 * height - 5.0 * age + 5.0
    case Female => 10.0 * weight + 6.25 * height - 5.0 * age - 161.0
  }

  /** For the same body, the male equation gives exactly 166 kcal more than the female one. */
  lemma BmrGenderGap(weight: real, height: real, age: real)
    ensures Bmr(weight, height, age, Male) == Bmr(weight, height, age, Female) + 166.0
  {
  }

  /** The factor by which resting energy is scaled for an activity level. */
  function ActivityMultiplier(level: ActivityLevel): (m: real)
    ensures 1.2 <= m <= 1.9
  {
    match level
    case Sedentary => 1.2
    case Light => 1.375
    case Moderate => 1.55
    case Active => 1.725
    case VeryActive => 1.9
  }

  /** The multiplier table is strictly increasing in the activity ordering. */
  lemma MultiplierStrictlyIncreasing(a: ActivityLevel, b: ActivityLevel)
    ensures a.Rank() < b.Rank() <==> ActivityMultiplier(a) < ActivityMultiplier(b)
  {
  }

  /** Total daily energy expenditure: resting energy times the activity multiplier. */
  function Tdee(weight: real, height: real, age: real, gender: Gender, level: ActivityLevel): real {
    Bmr(weight, height, age, gender) * ActivityMultiplier(level)
  }

  /** The energy adjustment a goal asks for: a 500 kcal deficit or surplus. */
  function GoalAdjustment(goal: Goal): real {
    match goal
    case Loss => -500.0
    case Maintain => 0.0
    case Gain => 500.0
  }

  /** calculateDailyCalories: the target rounded with Math.round after the goal adjustment. */
  function CalculateDailyCalories(
    weight: real, height: real, age: real, gender: Gender, level: ActivityLevel, goal: Goal): (r: int)
    ensures var exact := Tdee(weight, height, age, gender, level) + GoalAdjustment(goal);
      r as real - 0.5 <= exact < r as real + 0.5
  {
    var tdee := Tdee(weight, height, age, gender, level);
    match goal
    case Loss => Round(tdee - 500.0)
    case Gain => Round(tdee + 500.0)
    case Maintain => Round(tdee)
  }

  /** After rounding, the loss target is the maintenance target minus 500 and the gain target plus 500. */
  lemma GoalShiftsTargetBy500(weight: real, height: real, age: real, gender: Gender, level: ActivityLevel)
    ensures CalculateDailyCalories(weight, height, age, gender, level, Loss)
         == CalculateDailyCalories(weight, height, age, gender, level, Maintain) - 500
    ensures CalculateDailyCalories(weight, height, age, gender, level, Gain)
         == CalculateDailyCalories(weight, height, age, gender, level, Maintain) + 500
  {
    var tdee := Tdee(weight, height, age, gender, level);
    RoundShift(tdee, -500);
    RoundShift(tdee, 500);
  }

  /** With positive resting energy, a more active level never gives a lower target. */
  lemma TargetMonotoneInActivity(
    weight: real, height: real, age: real, gender: Gender, a: ActivityLevel, b: ActivityLevel, goal: Goal)
    requires Bmr(weight, height, age, gender) > 0.0
    requires a.Rank() <= b.Rank()
    ensures CalculateDailyCalories(weight, height, age, gender, a, goal)
         <= CalculateDailyCalories(weight, height, age, gender, b, goal)
  {
    var bmr := Bmr(weight, height, age, gender);
    MultiplierStrictlyIncreasing(a, b);
    assert ActivityMultiplier(a) <= ActivityMultiplier(b);
    assert bmr * ActivityMultiplier(a) <= bmr * ActivityMultiplier(b);
    var adj := GoalAdjustment(goal);
    RoundMonotone(Tdee(weight, height, age, gender, a) + adj, Tdee(weight, height, age, gender, b) + adj);
    RoundShift(Tdee(weight, height, age, gender, a), adj.Floor);
    RoundShift(Tdee(weight, height, age, gender, b), adj.Floor);
  }

  /** The two worked examples: 1673.75 × 1.55 → 2594 and 1320.25 × 1.2 − 500 → 1084. */
  lemma DailyCaloriesExamples()
    ensures CalculateDailyCalories(70.0, 175.0, 25.0, Male, Moderate, Maintain) == 2594
    ensures CalculateDailyCalories(60.0, 165.0, 30.0, Female, Sedentary, Loss) == 1084
  {
    assert Tdee(70.0, 175.0, 25.0, Male, Moderate) == 2594.3125;
    assert Tdee(60.0, 165.0, 30.0, Female, Sedentary) == 1584.3;
  }

  /** Resting energy over the ranges the profile form accepts is at least 330 (male) or 164 (female). */
  lemma ValidatedBmrBounds(weight: real, height: real, age: real, gender: Gender)
    requires 30.0 <= weight <= 300.0 && 100.0 <= height <= 250.0 && 13.0 <= age <= 120.0
    ensures Bmr(weight, height, age, gender) >= (if gender == Male then 330.0 else 164.0)
  {
  }

  /** Over the accepted ranges, maintenance and gain targets are positive. */
  lemma ValidatedTargetPositive(
    weight: real, height: real, age: real, gender: Gender, level: ActivityLevel, goal: Goal)
    requires 30.0 <= weight <= 300.0 && 100.0 <= height <= 250.0 && 13.0 <= age <= 120.0
    requires goal != Loss
    ensures CalculateDailyCalories(weight, height, age, gender, level, goal) > 0
  {
    ValidatedBmrBounds(weight, height, age, gender);
    var bmr := Bmr(weight, height, age, gender);
    var exact := Tdee(weight, height, age, gender, level) + GoalAdjustment(goal);
    assert GoalAdjustment(goal) >= 0.0;
    assert Tdee(weight, height, age, gender, level) == bmr * ActivityMultiplier(level);
    assert bmr * ActivityMultiplier(level) >= 196.8 by {
      assert bmr >= 164.0;
      match level
      case Sedentary =>
      case Light =>
      case Moderate =>
      case Active =>
      case VeryActive =>
    }
    assert exact >= 196.8;
  }

  /** The loss target is not always positive: the lightest, shortest, oldest sedentary woman gets −303. */
  lemma LossTargetCanBeNegative()
    ensures CalculateDailyCalories(30.0, 100.0, 120.0, Female, Sedentary, Loss) == -303
  {
    assert Tdee(30.0, 100.0, 120.0, Female, Sedentary) == 196.8;
  }

  // ---------------------------------------------------------------------------
  // Macronutrients

  /** Shares of the daily energy given to protein, carbohydrate and fat. */
  datatype MacroShares = MacroShares(protein: real, carbs: real, fat: real)

  /** Grams of protein, carbohydrate and fat. */
  datatype MacroGrams = MacroGrams(protein: int, carbs: int, fat: int)

  const ProteinKcalPerGram: real := 4.0
  const CarbsKcalPerGram: real := 4.0
  const FatKcalPerGram: real := 9.0

  /** The split by goal: 35/35/30 for loss, 25/50/25 for gain, 30/40/30 otherwise. */
  function MacroSharesFor(goal: Goal): (p: MacroShares)
    ensures p.protein + p.carbs + p.fat == 1.0
    ensures p.protein > 0.0 && p.carbs > 0.0 && p.fat > 0.0
  {
    match goal
    case Loss => MacroShares(0.35, 0.35, 0.3)
    case Gain => MacroShares(0.25, 0.5, 0.25)
    case Maintain => MacroShares(0.3, 0.4, 0.3)
  }

  /** calculateMacros: each macro's share of the energy in grams, rounded separately. */
  function CalculateMacros(calories: real, goal: Goal): (g: MacroGrams)
    ensures var p := MacroSharesFor(goal);
      && RoundsTo(g.protein, calories * p.protein / ProteinKcalPerGram)
      && RoundsTo(g.carbs, calories * p.carbs / CarbsKcalPerGram)
      && RoundsTo(g.fat, calories * p.fat / FatKcalPerGram)
    ensures calories >= 0.0 ==> g.protein >= 0 && g.carbs >= 0 && g.fat >= 0
  {
    var p := MacroSharesFor(goal);
    MacroGrams(
      Grams(calories, p.protein, ProteinKcalPerGram),
      Grams(calories, p.carbs, CarbsKcalPerGram),
      Grams(calories, p.fat, FatKcalPerGram))
  }

  /** n is x rounded half up: within half a unit, a tie going up. */
  predicate RoundsTo(n: int, x: real) {
    -0.5 < n as real - x <= 0.5
  }

  /** Math.round(calories * share / perGram): a share of the energy as whole grams. */
  function Grams(calories: real, share: real, perGram: real): (g: int)
    requires share > 0.0 && perGram > 0.0
    ensures RoundsTo(g, calories * share / perGram)
    ensures calories >= 0.0 ==> g >= 0
  {
    NonNegativeProduct(calories, share);
    NonNegativeQuotient(calories * share, perGram);
    Round(calories * share / perGram)
  }

  lemma NonNegativeProduct(a: real, b: real)
    requires b > 0.0
    ensures a >= 0.0 ==> a * b >= 0.0
  {
  }

  lemma NonNegativeQuotient(a: real, b: real)
    requires b > 0.0
    ensures a >= 0.0 ==> a / b >= 0.0
  {
    if a >= 0.0 {
      assert (a / b) * b == a;
    }
  }

  /** The worked example: 2000 kcal for gain is 125 g protein, 250 g carbohydrate and 56 g fat. */
  lemma MacrosExample()
    ensures CalculateMacros(2000.0, Gain) == MacroGrams(125, 250, 56)
  {
    assert 2000.0 * 0.25 / 9.0 + 0.5 == 1009.0 / 18.0;
  }

  // ---------------------------------------------------------------------------
  // Body mass index

  /** weight / (height in metres)². */
  function RawBmi(weight: real, height: real): real
    requires height != 0.0
  {
    var metres := height / 100.0;
    weight / (metres * metres)
  }

  /** calculateBMI: the index rounded to one decimal place by toFixed(1). */
  function CalculateBmi(weight: real, height: real): (bmi: real)
    requires height != 0.0
    ensures IsTenths(bmi)
    ensures -0.05 <= bmi - RawBmi(weight, height) <= 0.05
    ensures RawBmi(weight, height) >= 0.0 ==> -0.05 < bmi - RawBmi(weight, height)
    ensures RawBmi(weight, height) < 0.0 ==> bmi - RawBmi(weight, height) < 0.05
  {
    ToFixed1(RawBmi(weight, height))
  }

  /** The worked example: 70 kg at 175 cm has BMI 22.9. */
  lemma BmiExample()
    ensures CalculateBmi(70.0, 175.0) == 22.9
  {
    assert RawBmi(70.0, 175.0) == 70.0 / 3.0625;
    assert Round(70.0 / 3.0625 * 10.0) == 229;
  }

  /** The WHO adult BMI bands, in increasing order. */
  datatype BmiCategory = Underweight | NormalWeight | Overweight | Obese {
    /** The text the app shows for the band. */
    function Label(): string {
      match this
      case Underweight => "Underweight"
      case NormalWeight => "Normal weight"
      case Overweight => "Overweight"
      case Obese => "Obese"
    }

    function Rank(): nat {
      match this
      case Underweight => 0
      case NormalWeight => 1
      case Overweight => 2
      case Obese => 3
    }
  }

  /** getBMICategory: cut-offs at 18.5, 25 and 30; a value at a cut-off belongs to the higher band. */
  function GetBmiCategory(bmi: real): (c: BmiCategory)
    ensures c == Underweight <==> bmi < 18.5
    ensures c == NormalWeight <==> 18.5 <= bmi < 25.0
    ensures c == Overweight <==> 25.0 <= bmi < 30.0
    ensures c == Obese <==> 30.0 <= bmi
  {
    if bmi < 18.5 then Underweight
    else if bmi < 25.0 then NormalWeight
    else if bmi < 30.0 then Overweight
    else Obese
  }

  /** A larger BMI never falls in a lower band. */
  lemma BmiCategoryMonotone(a: real, b: real)
    requires a <= b
    ensures GetBmiCategory(a).Rank() <= GetBmiCategory(b).Rank()
  {
  }
}
