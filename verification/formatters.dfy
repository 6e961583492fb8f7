/**
 * Display formatters: energy and macro amounts as rounded integers with a
 * unit, and the emoji and capitalised label of a meal type.
 */
module Formatters {
  import opened JsNumber
  import opened JsString
  import opened Types

  const CaloriesUnit: string := " cal"
  const GramsUnit: string := "g"

  /** formatCalories: Math.round of the amount, then " cal". */
  function FormatCalories(calories: real): (s: string)
    ensures |s| > |CaloriesUnit| && s[|s| - |CaloriesUnit|..] == CaloriesUnit
    ensures s[..|s| - |CaloriesUnit|] == IntToString(Round(calories))
  {
    IntToString(Round(calories)) + CaloriesUnit
  }

  /** formatMacro: Math.round of the grams, then "g". */
  function FormatMacro(grams: real): (s: string)
    ensures |s| > |GramsUnit| && s[|s| - |GramsUnit|..] == GramsUnit
    ensures s[..|s| - |GramsUnit|] == IntToString(Round(grams))
  {
    IntToString(Round(grams)) + GramsUnit
  }

  /** The number in a formatted amount reads back as the rounded amount. */
  lemma FormatCaloriesReadsBack(calories: real)
    ensures var s := FormatCalories(calories);
      var n := s[..|s| - |CaloriesUnit|];
      IsIntText(n) && StringToInt(n) == Round(calories)
  {
    IntToStringRoundTrip(Round(calories));
  }

  /** Two amounts format alike exactly when they round alike. */
  lemma FormatCaloriesInjective(x: real, y: real)
    ensures FormatCalories(x) == FormatCalories(y) <==> Round(x) == Round(y)
  {
    if FormatCalories(x) == FormatCalories(y) {
      IntToStringInjective(Round(x), Round(y));
    }
  }

  /** Two gram amounts format alike exactly when they round alike. */
  lemma FormatMacroInjective(x: real, y: real)
    ensures FormatMacro(x) == FormatMacro(y) <==> Round(x) == Round(y)
  {
    if FormatMacro(x) == FormatMacro(y) {
      IntToStringInjective(Round(x), Round(y));
    }
  }

  /** Formatting absorbs an earlier Math.round. */
  lemma FormattingAbsorbsRounding(x: real)
    ensures FormatCalories(Round(x) as real) == FormatCalories(x)
    ensures FormatMacro(Round(x) as real) == FormatMacro(x)
  {
    RoundOfInteger(Round(x));
  }

  // ---------------------------------------------------------------------------
  // Meal types

  const BreakfastEmoji: string := "\U{1F373}"
  const LunchEmoji: string := "\U{1F37D}\U{FE0F}"
  const DinnerEmoji: string := "\U{1F355}"
  const SnackEmoji: string := "\U{1F36A}"
  const FallbackEmoji: string := "\U{1F374}"

  /** The `emojis` object looked up by key; a missing key gives undefined, modelled as "". */
  function EmojiTable(key: string): string {
    if key == "breakfast" then BreakfastEmoji
    else if key == "lunch" then LunchEmoji
    else if key == "dinner" then DinnerEmoji
    else if key == "snack" then SnackEmoji
    else ""
  }

  /** getMealTypeEmoji: the table entry, or the fork-and-knife fallback when it is falsy. */
  function GetMealTypeEmoji(mealType: MealType): (e: string)
    ensures e != FallbackEmoji && e != ""
  {
    var found := EmojiTable(mealType.Name());
    if found != "" then found else FallbackEmoji
  }

  /** The four meal types get four different emojis. */
  lemma MealTypeEmojisDistinct(a: MealType, b: MealType)
    ensures GetMealTypeEmoji(a) == GetMealTypeEmoji(b) <==> a == b
  {
  }

  /** getMealTypeLabel: the type name with its first letter upper-cased. */
  function GetMealTypeLabel(mealType: MealType): (text: string)
    ensures |text| == |mealType.Name()| > 0
    ensures text[0] == ToUpperAscii(mealType.Name()[0]) && 'A' <= text[0] <= 'Z'
    ensures text[1..] == mealType.Name()[1..]
  {
    Capitalize(mealType.Name())
  }

  /** Lower-casing the label's first letter gives back the type name. */
  lemma MealTypeLabelRoundTrip(mealType: MealType)
    ensures var text := GetMealTypeLabel(mealType);
      [ToLowerAscii(text[0])] + text[1..] == mealType.Name()
  {
    var n := mealType.Name();
    LowerUndoesUpper(n[0]);
    assert [n[0]] + n[1..] == n;
  }

  lemma MealTypeLabelExamples()
    ensures GetMealTypeLabel(Breakfast) == "Breakfast"
    ensures GetMealTypeLabel(Lunch) == "Lunch"
    ensures GetMealTypeLabel(Dinner) == "Dinner"
    ensures GetMealTypeLabel(Snack) == "Snack"
  {
  }
}
