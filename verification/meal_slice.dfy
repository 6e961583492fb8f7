/**
 * The meals slice as a pure reducer. Each async thunk (uploadMealImage,
 * addMeal, getTodayMeals, getWeeklyMeals, deleteMeal) appears only through its
 * pending, fulfilled and rejected actions; actions the slice has no case for
 * leave the state as it is.
 */
module MealSlice {
  import opened Base
  import opened Types

  datatype MealState = MealState(
    meals: seq<Meal>,
    todayMeals: seq<Meal>,
    weeklyMeals: seq<Meal>,
    isLoading: bool,
    error: Option<string>)

  const InitialState: MealState := MealState([], [], [], false, None)

  datatype MealAction =
    | ClearError
    | AddLocalMeal(meal: Meal)
    | UploadPending
    | UploadFulfilled
    | UploadRejected(message: string)
    | AddPending
    | AddFulfilled(meal: Meal)
    | AddRejected(message: string)
    | TodayPending
    | TodayFulfilled(meals: seq<Meal>)
    | TodayRejected(message: string)
    | WeeklyPending
    | WeeklyFulfilled(meals: seq<Meal>)
    | WeeklyRejected(message: string)
    | DeletePending
    | DeleteFulfilled(mealId: string)
    | DeleteRejected(message: string)
  {
    /** Pending cases the slice handles: upload, add and today's meals. */
    predicate IsTrackedPending() {
      UploadPending? || AddPending? || TodayPending?
    }

    /** Rejected cases the slice handles: upload, add and today's meals. */
    predicate IsTrackedRejected() {
      UploadRejected? || AddRejected? || TodayRejected?
    }

    /** Fulfilled cases that also end the loading state. */
    predicate IsTrackedFulfilled() {
      UploadFulfilled? || AddFulfilled? || TodayFulfilled?
    }

    /** Actions the slice has no case for. */
    predicate IsIgnored() {
      WeeklyPending? || WeeklyRejected? || DeletePending? || DeleteRejected?
    }
  }

  /** `meals.filter(m => m._id !== id)`. */
  function WithoutMeal(meals: seq<Meal>, id: string): (r: seq<Meal>)
    ensures forall m :: m in r <==> m in meals && m.id != id
    ensures |r| <= |meals|
  {
    if |meals| == 0 then []
    else (if meals[0].id == id then [] else [meals[0]]) + WithoutMeal(meals[1..], id)
  }

  /** Filtering distributes over concatenation, so survivors keep their relative order. */
  lemma {:induction false} WithoutMealConcat(a: seq<Meal>, b: seq<Meal>, id: string)
    ensures WithoutMeal(a + b, id) == WithoutMeal(a, id) + WithoutMeal(b, id)
  {
    if |a| == 0 {
      assert a + b == b;
    } else {
      assert (a + b)[1..] == a[1..] + b;
      WithoutMealConcat(a[1..], b, id);
    }
  }

  /** A list without the id is left exactly as it is. */
  lemma {:induction false} WithoutAbsentMeal(meals: seq<Meal>, id: string)
    requires forall m :: m in meals ==> m.id != id
    ensures WithoutMeal(meals, id) == meals
  {
    if |meals| > 0 {
      assert meals[0] in meals;
      assert forall m :: m in meals[1..] ==> m in meals;
      WithoutAbsentMeal(meals[1..], id);
    }
  }

  /** Filtering twice by the same id is filtering once. */
  lemma WithoutMealIdempotent(meals: seq<Meal>, id: string)
    ensures WithoutMeal(WithoutMeal(meals, id), id) == WithoutMeal(meals, id)
  {
    WithoutAbsentMeal(WithoutMeal(meals, id), id);
  }

  /** The slice's reducer: the reducers and every extraReducers case. */
  function Reduce(s: MealState, a: MealAction): (r: MealState)
    ensures a.IsTrackedPending() ==>
      r.isLoading && r.error == None
      && r.meals == s.meals && r.todayMeals == s.todayMeals && r.weeklyMeals == s.weeklyMeals
    ensures a.IsTrackedRejected() ==>
      !r.isLoading && r.error == Some(a.message)
      && r.meals == s.meals && r.todayMeals == s.todayMeals && r.weeklyMeals == s.weeklyMeals
    ensures a.IsTrackedFulfilled() ==> !r.isLoading && r.error == s.error
    ensures !a.IsTrackedPending() && !a.IsTrackedRejected() && !a.IsTrackedFulfilled() ==>
      r.isLoading == s.isLoading
    ensures !a.WeeklyFulfilled? ==> r.weeklyMeals == s.weeklyMeals
    ensures a.IsIgnored() ==> r == s
  {
    match a
    case ClearError => s.(error := None)
    case AddLocalMeal(m) => s.(todayMeals := [m] + s.todayMeals, meals := [m] + s.meals)
    case UploadPending => s.(isLoading := true, error := None)
    case UploadFulfilled => s.(isLoading := false)
    case UploadRejected(msg) => s.(isLoading := false, error := Some(msg))
    case AddPending => s.(isLoading := true, error := None)
    case AddFulfilled(m) =>
      s.(isLoading := false, todayMeals := [m] + s.todayMeals, meals := [m] + s.meals)
    case AddRejected(msg) => s.(isLoading := false, error := Some(msg))
    case TodayPending => s.(isLoading := true, error := None)
    case TodayFulfilled(ms) => s.(isLoading := false, todayMeals := ms)
    case TodayRejected(msg) => s.(isLoading := false, error := Some(msg))
    case WeeklyPending => s
    case WeeklyFulfilled(ms) => s.(weeklyMeals := ms)
    case WeeklyRejected(_) => s
    case DeletePending => s
    case DeleteFulfilled(id) =>
      s.(todayMeals := WithoutMeal(s.todayMeals, id), meals := WithoutMeal(s.meals, id))
    case DeleteRejected(_) => s
  }

  /** The slice starts idle, with no error and three empty lists. */
  lemma InitialStateIsEmpty()
    ensures !InitialState.isLoading && InitialState.error == None
    ensures |InitialState.meals| == 0 && |InitialState.todayMeals| == 0 && |InitialState.weeklyMeals| == 0
  {
  }

  /** addMeal.fulfilled puts the new meal in front of today's meals and of all meals. */
  lemma AddFulfilledPrepends(s: MealState, m: Meal)
    ensures var r := Reduce(s, AddFulfilled(m));
      && |r.todayMeals| == |s.todayMeals| + 1 && r.todayMeals[0] == m && r.todayMeals[1..] == s.todayMeals
      && |r.meals| == |s.meals| + 1 && r.meals[0] == m && r.meals[1..] == s.meals
      && r.weeklyMeals == s.weeklyMeals && !r.isLoading && r.error == s.error
  {
  }

  /** addLocalMeal prepends the same way but leaves the loading flag and the error alone. */
  lemma AddLocalMealPrepends(s: MealState, m: Meal)
    ensures var r := Reduce(s, AddLocalMeal(m));
      && r.todayMeals[0] == m && r.todayMeals[1..] == s.todayMeals
      && r.meals[0] == m && r.meals[1..] == s.meals
      && r.weeklyMeals == s.weeklyMeals && r.isLoading == s.isLoading && r.error == s.error
    ensures Reduce(s, AddFulfilled(m)) == Reduce(s, AddLocalMeal(m)).(isLoading := false)
  {
  }

  /** getTodayMeals.fulfilled replaces only today's meals. */
  lemma TodayFulfilledReplaces(s: MealState, ms: seq<Meal>)
    ensures var r := Reduce(s, TodayFulfilled(ms));
      r.todayMeals == ms && r.meals == s.meals && r.weeklyMeals == s.weeklyMeals && !r.isLoading && r.error == s.error
  {
  }

  /** getWeeklyMeals.fulfilled replaces only the weekly meals; it does not touch the loading flag. */
  lemma WeeklyFulfilledReplaces(s: MealState, ms: seq<Meal>)
    ensures Reduce(s, WeeklyFulfilled(ms)) == s.(weeklyMeals := ms)
  {
  }

  /** clearError resets only the error; uploadMealImage.fulfilled only ends loading and stores nothing. */
  lemma ClearErrorAndUploadFulfilled(s: MealState)
    ensures Reduce(s, ClearError) == s.(error := None)
    ensures Reduce(s, UploadFulfilled) == s.(isLoading := false)
  {
  }

  /** deleteMeal.fulfilled drops every meal with the id from both lists and keeps the rest. */
  lemma DeleteFulfilledRemoves(s: MealState, id: string)
    ensures var r := Reduce(s, DeleteFulfilled(id));
      && (forall m :: m in r.todayMeals <==> m in s.todayMeals && m.id != id)
      && (forall m :: m in r.meals <==> m in s.meals && m.id != id)
      && r.weeklyMeals == s.weeklyMeals && r.isLoading == s.isLoading && r.error == s.error
  {
  }

  /** Deleting the same id twice is deleting it once. */
  lemma DeleteIdempotent(s: MealState, id: string)
    ensures Reduce(Reduce(s, DeleteFulfilled(id)), DeleteFulfilled(id)) == Reduce(s, DeleteFulfilled(id))
  {
    WithoutMealIdempotent(s.todayMeals, id);
    WithoutMealIdempotent(s.meals, id);
  }

  /** Deleting a freshly added meal whose id was new restores both lists. */
  lemma DeleteUndoesAdd(s: MealState, m: Meal)
    requires forall x :: x in s.todayMeals ==> x.id != m.id
    requires forall x :: x in s.meals ==> x.id != m.id
    ensures var r := Reduce(Reduce(s, AddLocalMeal(m)), DeleteFulfilled(m.id));
      r.todayMeals == s.todayMeals && r.meals == s.meals
  {
    WithoutMealConcat([m], s.todayMeals, m.id);
    WithoutMealConcat([m], s.meals, m.id);
    WithoutAbsentMeal(s.todayMeals, m.id);
    WithoutAbsentMeal(s.meals, m.id);
  }
}
