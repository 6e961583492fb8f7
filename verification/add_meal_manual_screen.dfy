/**
 * The manual meal entry form: the required-field guard and the single-item
 * addMeal request it builds. parseFloat is a parameter.
 */
module AddMealManualScreen {
  import opened Base
  import opened JsNumber
  import opened Types

  /** The form's text fields and the selected meal type. */
  datatype ManualForm = ManualForm(
    mealType: MealType,
    foodName: string,
    quantity: string,
    calories: string,
    protein: string,
    carbs: string,
    fat: string)

  /** The form starts empty, with lunch selected. */
  const InitialForm: ManualForm := ManualForm(Lunch, "", "", "", "", "", "")

  /** The guard: food name, quantity and calories must not be empty. */
  predicate HasRequiredFields(form: ManualForm) {
    form.foodName != "" && form.quantity != "" && form.calories != ""
  }

  /**
   * handleAddMeal: None when a required field is empty (the "Missing Fields"
   * alert, nothing dispatched); otherwise the request for a one-item meal.
   */
  function HandleAddMeal(form: ManualForm, parseFloat: string -> Num): (r: Option<MealRequest>)
    ensures r.Some? <==> HasRequiredFields(form)
    ensures r.Some? ==>
      && r.value.mealType == form.mealType
      && |r.value.items| == 1
      && r.value.items[0].food == form.foodName
      && r.value.items[0].quantityG == parseFloat(form.quantity)
      && r.value.items[0].calories == parseFloat(form.calories)
      && r.value.totalCalories == r.value.items[0].calories
      && TotalMatchesItems(r.value)
      && r.value.items[0].protein == Fin(OrZero(parseFloat(form.protein)))
      && r.value.items[0].carbs == Fin(OrZero(parseFloat(form.carbs)))
      && r.value.items[0].fat == Fin(OrZero(parseFloat(form.fat)))
      && r.value.imageUrl == None
  {
    if !HasRequiredFields(form) then None
    else
      var calories := parseFloat(form.calories);
      var item := RequestItem(
        form.foodName,
        parseFloat(form.quantity),
        calories,
        Fin(OrZero(parseFloat(form.protein))),
        Fin(OrZero(parseFloat(form.carbs))),
        Fin(OrZero(parseFloat(form.fat))));
      assert [item][1..] == [];
      assert Add(Fin(0.0), calories) == calories;
      assert CaloriesFrom(Fin(0.0), [item]) == CaloriesFrom(calories, []) == calories;
      Some(MealRequest(form.mealType, [item], calories, None))
  }

  /** The untouched form is refused. */
  lemma InitialFormRefused(parseFloat: string -> Num)
    ensures HandleAddMeal(InitialForm, parseFloat) == None
  {
  }

  /**
   * The guard only checks for non-empty text: calories that do not parse pass
   * it and the request carries NaN as its total.
   */
  lemma UnparsedCaloriesPassGuard(form: ManualForm, parseFloat: string -> Num)
    requires HasRequiredFields(form)
    requires parseFloat(form.calories) == NaN
    ensures HandleAddMeal(form, parseFloat).Some?
    ensures HandleAddMeal(form, parseFloat).value.totalCalories == NaN
  {
  }
}
