/**
 * The profile set-up form: parse the three numeric fields, validate age, then
 * weight, then height, stopping at the first failure, and only then compute the
 * daily calorie target. parseInt and parseFloat are parameters.
 */
module ProfileSetupScreen {
  import opened JsNumber
  import opened Types
  import opened Validation
  import Calories

  datatype SetupForm = SetupForm(
    age: string,
    weight: string,
    height: string,
    gender: Gender,
    activityLevel: ActivityLevel,
    goal: Goal)

  /** Empty fields; male, moderately active, maintaining weight. */
  const InitialForm: SetupForm := SetupForm("", "", "", Male, Moderate, Maintain)

  /** How handleComplete ends: one of the three alerts, or the computed target. */
  datatype SetupOutcome = InvalidAge | InvalidWeight | InvalidHeight | Complete(dailyCalorieTarget: int) {
    function AlertTitle(): string {
      match this
      case InvalidAge => "Invalid Age"
      case InvalidWeight => "Invalid Weight"
      case InvalidHeight => "Invalid Height"
      case Complete(_) => "Profile Setup Complete"
    }

    function AlertMessage(): string {
      match this
      case InvalidAge => "Age must be between 13 and 120"
      case InvalidWeight => "Weight must be between 30 and 300 kg"
      case InvalidHeight => "Height must be between 100 and 250 cm"
      case Complete(target) => "Your daily calorie target is " + IntToString(target) + " cal"
    }
  }

  /** handleComplete. */
  function HandleComplete(form: SetupForm, parseInt: string -> Num, parseFloat: string -> Num): (r: SetupOutcome)
    ensures var age, weight, height := parseInt(form.age), parseFloat(form.weight), parseFloat(form.height);
      && (r == InvalidAge <==> !ValidateAge(age))
      && (r == InvalidWeight <==> ValidateAge(age) && !ValidateWeight(weight))
      && (r == InvalidHeight <==> ValidateAge(age) && ValidateWeight(weight) && !ValidateHeight(height))
      && (r.Complete? <==> ValidateAge(age) && ValidateWeight(weight) && ValidateHeight(height))
    ensures r.Complete? ==>
      r.dailyCalorieTarget == Calories.CalculateDailyCalories(
        parseFloat(form.weight).v, parseFloat(form.height).v, parseInt(form.age).v,
        form.gender, form.activityLevel, form.goal)
    ensures r.Complete? && form.goal != Loss ==> r.dailyCalorieTarget > 0
  {
    var age := parseInt(form.age);
    var weight := parseFloat(form.weight);
    var height := parseFloat(form.height);
    if !ValidateAge(age) then InvalidAge
    else if !ValidateWeight(weight) then InvalidWeight
    else if !ValidateHeight(height) then InvalidHeight
    else
      if form.goal != Loss then
        Calories.ValidatedTargetPositive(weight.v, height.v, age.v, form.gender, form.activityLevel, form.goal);
        Complete(Calories.CalculateDailyCalories(weight.v, height.v, age.v, form.gender, form.activityLevel, form.goal))
      else
        Complete(Calories.CalculateDailyCalories(weight.v, height.v, age.v, form.gender, form.activityLevel, form.goal))
  }

  /** Text that does not parse fails its range check: NaN compares false with everything. */
  lemma UnparsedFieldIsRejected(form: SetupForm, parseInt: string -> Num, parseFloat: string -> Num)
    ensures parseInt(form.age) == NaN ==> HandleComplete(form, parseInt, parseFloat) == InvalidAge
    ensures parseFloat(form.weight) == NaN ==> !HandleComplete(form, parseInt, parseFloat).Complete?
    ensures parseFloat(form.height) == NaN ==> !HandleComplete(form, parseInt, parseFloat).Complete?
  {
  }

  /** The untouched form fails on the age, assuming empty text parses to NaN as in JavaScript. */
  lemma InitialFormFailsOnAge(parseInt: string -> Num, parseFloat: string -> Num)
    requires parseInt("") == NaN
    ensures HandleComplete(InitialForm, parseInt, parseFloat) == InvalidAge
    ensures InitialForm.gender == Male && InitialForm.activityLevel == Moderate && InitialForm.goal == Maintain
  {
  }
}
