/**
 * The app's data model: closed enumerations for the string unions, users,
 * meals and their food items, prediction results, weekly analytics, and the
 * request body a screen sends when it adds a meal.
 */
module Types {
  import opened Base
  import opened JsNumber

  datatype Gender = Male | Female

  /** The five activity levels, in increasing order of their calorie multiplier. */
  datatype ActivityLevel = Sedentary | Light | Moderate | Active | VeryActive {
    /** The string the app stores for this level. */
    function Name(): string {
      match this
      case Sedentary => "sedentary"
      case Light => "light"
      case Moderate => "moderate"
      case Active => "active"
      case VeryActive => "very_active"
    }

    /** Position in the ordering sedentary < light < moderate < active < very_active. */
    function Rank(): nat {
      match this
      case Sedentary => 0
      case Light => 1
      case Moderate => 2
      case Active => 3
      case VeryActive => 4
    }
  }

  datatype Goal = Loss | Maintain | Gain {
    function Name(): string {
      match this
      case Loss => "loss"
      case Maintain => "maintain"
      case Gain => "gain"
    }
  }

  datatype MealType = Breakfast | Lunch | Dinner | Snack {
    function Name(): string {
      match this
      case Breakfast => "breakfast"
      case Lunch => "lunch"
      case Dinner => "dinner"
      case Snack => "snack"
    }
  }

  datatype Language = En | Es | Fr

  /** A signed-up user as the server returns it. */
  datatype User = User(
    id: string,
    name: string,
    email: string,
    age: real,
    weight: real,
    height: real,
    activityLevel: ActivityLevel,
    dailyCalorieTarget: real,
    goal: Goal,
    createdAt: string)

  /** One food in a meal, with its energy and macronutrients. */
  datatype FoodItem = FoodItem(
    food: string,
    calories: real,
    protein: real,
    carbs: real,
    fat: real,
    quantityG: real)

  /** A stored meal, as the server returns it. */
  datatype Meal = Meal(
    id: string,
    userId: string,
    mealType: MealType,
    items: seq<FoodItem>,
    totalCalories: real,
    imageUrl: Option<string>,
    createdAt: string)

  /** What the photo-recognition endpoint returns. */
  datatype PredictionResult = PredictionResult(items: seq<FoodItem>, imageUrl: string, confidence: real)

  datatype DailyStats = DailyStats(date: string, totalCalories: real, protein: real, carbs: real, fat: real)

  datatype MacroDistribution = MacroDistribution(protein: real, carbs: real, fat: real)

  datatype WeeklyAnalytics = WeeklyAnalytics(
    dailyStats: seq<DailyStats>,
    averageCalories: real,
    totalCalories: real,
    macroDistribution: MacroDistribution)

  /** The login and signup responses: the user and the session token. */
  datatype LoginResponse = LoginResponse(user: User, token: string)

  /**
   * One item of the `Partial<Meal>` body sent with addMeal. Its numbers come
   * from parsing text, so some of them may be NaN.
   */
  datatype RequestItem = RequestItem(
    food: string,
    quantityG: Num,
    calories: Num,
    protein: Num,
    carbs: Num,
    fat: Num)

  /** The `Partial<Meal>` body sent with addMeal (the creation time is left out). */
  datatype MealRequest = MealRequest(
    mealType: MealType,
    items: seq<RequestItem>,
    totalCalories: Num,
    imageUrl: Option<string>)

  /** `items.reduce((sum, item) => sum + item.calories, acc)`: a left fold with JavaScript `+`. */
  function CaloriesFrom(acc: Num, items: seq<RequestItem>): Num
    decreases |items|
  {
    if |items| == 0 then acc else CaloriesFrom(Add(acc, items[0].calories), items[1..])
  }

  /** The calories of a request's items, summed from 0. */
  function RequestCalories(items: seq<RequestItem>): Num {
    CaloriesFrom(Fin(0.0), items)
  }

  /** A request whose total is the sum of its items' calories. */
  predicate TotalMatchesItems(request: MealRequest) {
    request.totalCalories == RequestCalories(request.items)
  }

  /** A food item as a request item: every number is a finite value. */
  function ToRequestItem(item: FoodItem): RequestItem {
    RequestItem(item.food, Fin(item.quantityG), Fin(item.calories), Fin(item.protein), Fin(item.carbs), Fin(item.fat))
  }
}
