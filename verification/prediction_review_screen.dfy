/**
 * The review screen shown after a photo prediction: the editable item list,
 * the field update that parses what the user typed, the calorie total and the
 * addMeal request built on save.
 */
module PredictionReviewScreen {
  import opened Base
  import opened JsNumber
  import opened Types

  /** The numeric fields an item card lets the user edit. */
  datatype ItemField = Calories | Protein | Carbs | Fat | QuantityG

  /** `item[field]`. */
  function FieldOf(item: FoodItem, field: ItemField): real {
    match field
    case Calories => item.calories
    case Protein => item.protein
    case Carbs => item.carbs
    case Fat => item.fat
    case QuantityG => item.quantityG
  }

  function WithField(item: FoodItem, field: ItemField, value: real): FoodItem {
    match field
    case Calories => item.(calories := value)
    case Protein => item.(protein := value)
    case Carbs => item.(carbs := value)
    case Fat => item.(fat := value)
    case QuantityG => item.(quantityG := value)
  }

  /** The screen's state: the selected meal type and the current items. */
  datatype Review = Review(mealType: MealType, items: seq<FoodItem>)

  /** The meal type starts as lunch and the items as predicted. */
  function InitialReview(prediction: PredictionResult): (r: Review)
    ensures r.mealType == Lunch && r.items == prediction.items
  {
    Review(Lunch, prediction.items)
  }

  /**
   * updateItem: item `index` gets `parseFloat(text) || 0` in `field`; unparseable
   * text and zero both store 0.
   */
  function UpdateItem(items: seq<FoodItem>, index: nat, field: ItemField, text: string, parseFloat: string -> Num)
    : (r: seq<FoodItem>)
    requires index < |items|
    ensures |r| == |items|
    ensures forall j :: 0 <= j < |items| && j != index ==> r[j] == items[j]
    ensures FieldOf(r[index], field) == OrZero(parseFloat(text))
    ensures forall f: ItemField :: f != field ==> FieldOf(r[index], f) == FieldOf(items[index], f)
    ensures r[index].food == items[index].food
  {
    items[index := WithField(items[index], field, OrZero(parseFloat(text)))]
  }

  /** The calories of the items, as a sum. */
  function SumItemCalories(items: seq<FoodItem>): real {
    if |items| == 0 then 0.0 else items[0].calories + SumItemCalories(items[1..])
  }

  lemma {:induction false} SumItemCaloriesUpdate(items: seq<FoodItem>, index: nat, x: FoodItem)
    requires index < |items|
    ensures SumItemCalories(items[index := x]) == SumItemCalories(items) - items[index].calories + x.calories
  {
    if index > 0 {
      assert items[index := x][1..] == items[1..][index - 1 := x];
      SumItemCaloriesUpdate(items[1..], index - 1, x);
    }
  }

  /** Editing calories moves the total by the change; editing any other field leaves it alone. */
  lemma UpdateItemMovesTotal(items: seq<FoodItem>, index: nat, field: ItemField, text: string, parseFloat: string -> Num)
    requires index < |items|
    ensures var r := UpdateItem(items, index, field, text, parseFloat);
      SumItemCalories(r) == SumItemCalories(items) - items[index].calories + r[index].calories
    ensures field != Calories ==> SumItemCalories(UpdateItem(items, index, field, text, parseFloat)) == SumItemCalories(items)
  {
    var r := UpdateItem(items, index, field, text, parseFloat);
    assert r == items[index := r[index]];
    SumItemCaloriesUpdate(items, index, r[index]);
  }

  function ToRequestItems(items: seq<FoodItem>): (r: seq<RequestItem>)
    ensures |r| == |items|
    ensures forall i :: 0 <= i < |items| ==> r[i] == ToRequestItem(items[i])
  {
    if |items| == 0 then [] else [ToRequestItem(items[0])] + ToRequestItems(items[1..])
  }

  /** Folding the lifted items from a finite start adds their calories to it. */
  lemma {:induction false} CaloriesFromLifted(a: real, items: seq<FoodItem>)
    ensures CaloriesFrom(Fin(a), ToRequestItems(items)) == Fin(a + SumItemCalories(items))
    decreases |items|
  {
    if |items| > 0 {
      var lifted := ToRequestItems(items);
      assert lifted[1..] == ToRequestItems(items[1..]);
      CaloriesFromLifted(a + items[0].calories, items[1..]);
    }
  }

  /** handleSave: the addMeal request carries the type, the items, their calorie sum and the image. */
  function HandleSave(review: Review, prediction: PredictionResult): (r: MealRequest)
    ensures r.mealType == review.mealType
    ensures |r.items| == |review.items|
    ensures forall i :: 0 <= i < |r.items| ==> r.items[i] == ToRequestItem(review.items[i])
    ensures r.totalCalories == Fin(SumItemCalories(review.items))
    ensures TotalMatchesItems(r)
    ensures r.imageUrl == Some(prediction.imageUrl)
  {
    CaloriesFromLifted(0.0, review.items);
    MealRequest(review.mealType, ToRequestItems(review.items), Fin(SumItemCalories(review.items)), Some(prediction.imageUrl))
  }
}
