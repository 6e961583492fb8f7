# fitkit core in Dafny

A model of the pure logic inside the fitkit calorie-tracking app (React Native, TypeScript):

- the nutrition arithmetic: the Mifflin–St Jeor daily calorie target, the macro split by goal, BMI to one decimal and the WHO adult BMI bands;
- the form validators and the display formatters;
- the four Redux slices (meals, auth, analytics, settings), each as a pure `Reduce(state, action)`;
- the decision and aggregation helpers embedded in five screens: Home, Prediction Review, Add Meal (manual), Profile Setup and Profile.

Modelling choices:

- JavaScript numbers are exact `real`s. Text parsed by `parseFloat`/`parseInt` yields `JsNumber.Num`, which is `NaN` or a finite value. The two parsers are function-typed parameters, because their digit grammar is not part of the app.
- Stored records (`User`, `Meal`, `FoodItem`) hold `real` fields, since they arrive as JSON, which cannot carry NaN. Request bodies that a screen builds (`Types.MealRequest`) use `Num`, because the manual form can send NaN.
- `Math.round(x)` is `(x + 0.5).Floor`. `parseFloat(x.toFixed(1))` rounds the magnitude to a tenth, a tie going away from zero, and then restores the sign.
- Activity level, goal, meal type, gender and language are closed datatypes.
- Each async thunk appears only as the actions it settles into (pending, fulfilled with its payload, rejected with its message). An action a slice has no case for leaves the state unchanged.

Files, one module each: `base.dfy` (Option), `js_number.dfy` (NaN-or-value numbers, rounding, integer printing), `js_string.dfy` (whitespace, trim, capitalisation, one-character `replace`), `types.dfy` (the records of `src/types/index.ts`), `calories.dfy`, `validation.dfy`, `formatters.dfy`, `meal_slice.dfy`, `auth_slice.dfy`, `analytics_slice.dfy`, `settings_slice.dfy`, and one file per screen.

Behaviour of the code that the model keeps as it is:

- The activity level is a closed union, so there is no path for an unrecognised level.
- `calculateMacros` and `calculateDailyCalories` check nothing and compute on any number, including negative input.
- Ties round upward, as `Math.round` does.

## Model

| member | source | states |
|---|---|---|
| Calories.BmrGenderGap | src/utils/calories.ts:17-21 | for the same weight, height and age the male resting energy is exactly 166 kcal above the female one |
| Calories.ActivityMultiplier | src/utils/calories.ts:24-30 | every multiplier lies between 1.2 and 1.9 |
| Calories.MultiplierStrictlyIncreasing | src/utils/calories.ts:24-30 | the multipliers strictly increase along sedentary < light < moderate < active < very_active, in both directions |
| Calories.CalculateDailyCalories | src/utils/calories.ts:2-45 | the target is within half a kcal of resting energy × multiplier ± the goal's 500 kcal, with a tie rounded up |
| Calories.GoalShiftsTargetBy500 | src/utils/calories.ts:36-44 | after rounding, the loss target is exactly maintain − 500 and the gain target exactly maintain + 500 |
| Calories.TargetMonotoneInActivity | src/utils/calories.ts:24-44 | with positive resting energy, a more active level never gives a lower target |
| Calories.DailyCaloriesExamples | src/utils/calories.ts:17-44 | (70, 175, 25, male, moderate, maintain) gives 2594 and (60, 165, 30, female, sedentary, loss) gives 1084 |
| Calories.ValidatedBmrBounds | src/utils/calories.ts:17-21 | over the ranges the profile form accepts, resting energy is at least 330 for men and 164 for women |
| Calories.ValidatedTargetPositive | src/utils/calories.ts:17-44 | over the accepted ranges, maintain and gain targets are positive |
| Calories.LossTargetCanBeNegative | src/utils/calories.ts:36-38 | the loss target can be negative within the accepted ranges: (30, 100, 120, female, sedentary) gives −303 |
| Calories.MacroSharesFor | src/utils/calories.ts:48-60 | for every goal the three shares are positive and sum to 1 |
| Calories.CalculateMacros | src/utils/calories.ts:47-67 | each gram value is calories × share / 4 (protein, carbohydrate) or / 9 (fat), rounded half up; all are non-negative for non-negative calories |
| Calories.MacrosExample | src/utils/calories.ts:56-66 | 2000 kcal for gain gives 125 g protein, 250 g carbohydrate and 56 g fat |
| Calories.CalculateBmi | src/utils/calories.ts:69-73 | the result is a whole number of tenths within 0.05 of weight / (height/100)², a value halfway between two tenths going away from zero |
| Calories.BmiExample | src/utils/calories.ts:69-73 | 70 kg at 175 cm gives 22.9 |
| Calories.GetBmiCategory | src/utils/calories.ts:75-80 | the bands are exactly < 18.5, [18.5, 25), [25, 30) and ≥ 30, each as an if-and-only-if, so a cut-off value falls in the higher band |
| Calories.BmiCategoryMonotone | src/utils/calories.ts:75-80 | a larger BMI never falls in a lower band |
| Validation.ValidateEmail | src/utils/validation.ts:1-4 | the pattern test accepts exactly the texts with no whitespace, exactly one '@' with text before it, and after it a '.' that is neither first nor last |
| Validation.AcceptedEmailHasShape | src/utils/validation.ts:1-4 | an accepted address has no whitespace and exactly one '@', with text before it; after the '@' there is a '.' that is neither first nor last |
| Validation.ShapedEmailAccepted | src/utils/validation.ts:1-4 | every text of that shape is accepted |
| Validation.EmailAcceptedIffShape | src/utils/validation.ts:1-4 | the pattern accepts exactly the texts of that shape |
| Validation.EmailFromParts | src/utils/validation.ts:1-4 | a + "@" + b + "." + c is accepted whenever a, b and c are non-empty and free of '@' and whitespace |
| Validation.ValidatePassword | src/utils/validation.ts:6-9 | accepted exactly when the password is at least six UTF-16 code units long; six characters always suffice and fewer than three never do |
| Validation.ValidatePasswordInBmp | src/utils/validation.ts:6-9 | for a password inside the Basic Multilingual Plane the rule is six characters |
| Validation.ThreeEmojiPasswordAccepted | src/utils/validation.ts:6-9 | three emoji, six code units, are accepted |
| JsString.Utf16LengthIsLengthIffBmp | src/utils/validation.ts:6-9 | `length` equals the character count exactly when no character lies outside the Basic Multilingual Plane |
| Validation.ValidateName | src/utils/validation.ts:11-13 | the trimmed name is at least two UTF-16 code units exactly when the name has two visible characters or one visible character outside the Basic Multilingual Plane |
| Validation.ValidateNameInBmp | src/utils/validation.ts:11-13 | for a name inside the Basic Multilingual Plane the rule is two visible characters |
| Validation.SingleEmojiNameAccepted | src/utils/validation.ts:11-13 | a name made of one emoji, two code units, is accepted |
| JsString.TrimUtf16LengthTwo | src/utils/validation.ts:11-13 | `trim` keeps at least two code units exactly when the input has two visible characters or one visible astral character |
| Validation.ValidateNameIgnoresPadding | src/utils/validation.ts:11-13 | adding leading or trailing whitespace never changes the verdict |
| Validation.ValidateAge | src/utils/validation.ts:15-17 | true exactly when the parsed age is a number with 13 ≤ age ≤ 120; NaN is rejected |
| Validation.ValidateWeight | src/utils/validation.ts:19-21 | true exactly when the parsed weight is a number with 30 ≤ weight ≤ 300; NaN is rejected |
| Validation.ValidateHeight | src/utils/validation.ts:23-25 | true exactly when the parsed height is a number with 100 ≤ height ≤ 250; NaN is rejected |
| JsString.TrimLengthTwo | src/utils/validation.ts:11-13 | the text `trim` keeps has two or more characters exactly when the input has two visible characters |
| Formatters.FormatCalories | src/utils/formatters.ts:13-15 | the text ends in " cal" and what precedes the unit is the rounded amount printed in decimal |
| Formatters.FormatMacro | src/utils/formatters.ts:17-19 | the text ends in "g" and what precedes the unit is the rounded amount printed in decimal |
| Formatters.FormatCaloriesReadsBack | src/utils/formatters.ts:13-15 | the number in a formatted amount is well-formed decimal text and reads back as the rounded amount |
| Formatters.FormatCaloriesInjective | src/utils/formatters.ts:13-15 | two amounts format alike exactly when they round alike |
| Formatters.FormatMacroInjective | src/utils/formatters.ts:17-19 | two gram amounts format alike exactly when they round alike |
| Formatters.FormattingAbsorbsRounding | src/utils/formatters.ts:13-19 | formatting a value and formatting its rounding give the same text, for both formatters |
| Formatters.GetMealTypeEmoji | src/utils/formatters.ts:29-39 | every meal type gets a non-empty emoji that is never the fallback |
| Formatters.MealTypeEmojisDistinct | src/utils/formatters.ts:29-39 | two meal types get the same emoji exactly when they are the same type |
| Formatters.GetMealTypeLabel | src/utils/formatters.ts:41-45 | the label keeps the length, its first character is the stored name's first letter upper-cased, and the rest is kept |
| Formatters.MealTypeLabelRoundTrip | src/utils/formatters.ts:41-45 | lower-casing a label gives back the stored meal-type name |
| Formatters.MealTypeLabelExamples | src/utils/formatters.ts:41-45 | breakfast, lunch, dinner and snack read "Breakfast", "Lunch", "Dinner" and "Snack" |
| JsNumber.IntToStringRoundTrip | src/utils/formatters.ts:14 | printing an integer gives decimal text that reads back as the same integer |
| MealSlice.WithoutMeal | src/redux/slices/mealSlice.ts:134-135 | a meal survives the filter exactly when it was in the list and its id differs; the list never grows |
| MealSlice.WithoutMealConcat | src/redux/slices/mealSlice.ts:134-135 | filtering a concatenation filters each part, so survivors keep their relative order |
| MealSlice.WithoutMealIdempotent | src/redux/slices/mealSlice.ts:134-135 | filtering twice by the same id equals filtering once |
| MealSlice.Reduce | src/redux/slices/mealSlice.ts:75-138 | pending cases set loading and clear the error; rejected cases stop loading and store the message; no case except getWeeklyMeals.fulfilled touches the weekly list; cases the slice lacks change nothing |
| MealSlice.InitialStateIsEmpty | src/redux/slices/mealSlice.ts:5-11 | three empty lists, not loading, no error |
| MealSlice.AddFulfilledPrepends | src/redux/slices/mealSlice.ts:106-110 | the payload goes in front of the today list and of the full list, the old contents follow, the weekly list and the error stay, loading stops |
| MealSlice.AddLocalMealPrepends | src/redux/slices/mealSlice.ts:82-85 | the same prepending, with the loading flag and error untouched |
| MealSlice.TodayFulfilledReplaces | src/redux/slices/mealSlice.ts:120-123 | only the today list is replaced, and loading stops |
| MealSlice.WeeklyFulfilledReplaces | src/redux/slices/mealSlice.ts:129-131 | only the weekly list is replaced; the loading flag is not touched |
| MealSlice.ClearErrorAndUploadFulfilled | src/redux/slices/mealSlice.ts:79-96 | clearError changes only the error; a finished upload only stops loading and stores nothing |
| MealSlice.DeleteFulfilledRemoves | src/redux/slices/mealSlice.ts:133-136 | afterwards no meal in the today or full list has the id, every other meal stays, and the weekly list is unchanged |
| MealSlice.DeleteIdempotent | src/redux/slices/mealSlice.ts:133-136 | deleting the same id twice equals deleting it once |
| MealSlice.DeleteUndoesAdd | src/redux/slices/mealSlice.ts:133-136 | adding a meal with a fresh id locally and then deleting it restores both lists |
| AuthSlice.ApplyPatch | src/redux/slices/authSlice.ts:72-76 | every field present in the patch overwrites; every absent field keeps its value |
| AuthSlice.EmptyPatchIsIdentity | src/redux/slices/authSlice.ts:72-76 | an empty patch changes nothing |
| AuthSlice.ApplyPatchIdempotent | src/redux/slices/authSlice.ts:72-76 | applying a patch twice equals applying it once |
| AuthSlice.Reduce | src/redux/slices/authSlice.ts:65-119 | login and signup pending set loading, clear the error and keep the session; fulfilled copies user and token and keeps the error; rejected stores the message and keeps the session; logout.fulfilled clears user and token; loadStoredAuth.fulfilled sets user and token from the payload and keeps the error; cases the slice lacks change nothing |
| AuthSlice.IsAuthenticated | src/navigation/AppNavigator.tsx:29 | signed in only with both a user and a token; an empty token is falsy and never signs in; a user with a non-empty token always does |
| AuthSlice.InitialStateSignedOut | src/redux/slices/authSlice.ts:6-11 | no user, no token, not loading, no error, hence not authenticated |
| AuthSlice.LogoutEndsSession | src/redux/slices/authSlice.ts:114-117 | after logout user and token are gone, so `!!token && !!user` is false; loading and error are untouched |
| AuthSlice.LoginAuthenticates | src/redux/slices/authSlice.ts:85-103 | after a successful login or signup the session counts as authenticated exactly when the returned token is non-empty |
| AuthSlice.ClearErrorOnlyError | src/redux/slices/authSlice.ts:69-71 | clearError changes only the error |
| AuthSlice.UpdateUserFrame | src/redux/slices/authSlice.ts:72-76 | with no user nothing changes; otherwise only the user is patched; repeating the update changes nothing more |
| AuthSlice.LoadStoredAuth | src/redux/slices/authSlice.ts:42-57 | a session is restored exactly when both stored strings are present and non-empty and the user text parses; the restored token is the stored one and the restored user is the parsed one (none when the text parses to null); a parse error rejects with the parser's message; a missing value rejects with "No stored auth" |
| AuthSlice.FailedRestoreChangesNothing | src/redux/slices/authSlice.ts:108-112 | a rejected restore leaves the state unchanged, since the slice has no case for it |
| AuthSlice.RestoredSessionSignsIn | src/redux/slices/authSlice.ts:42-112 | from a signed-out start, two non-empty stored strings whose user text parses to a user restore a signed-in session with that user and the stored token |
| AuthSlice.RestoredSessionNeedsBothValues | src/redux/slices/authSlice.ts:46-52 | from the signed-out start, the restore can authenticate only when both stored strings were present and non-empty |
| AnalyticsSlice.Reduce | src/redux/slices/analyticsSlice.ts:25-48 | pending sets loading and clears the error; fulfilled stores the payload and keeps the error; rejected stores the message; only fulfilled replaces the data |
| AnalyticsSlice.InitialStateIsEmpty | src/redux/slices/analyticsSlice.ts:5-9 | no data, not loading, no error |
| AnalyticsSlice.FailedRefreshKeepsData | src/redux/slices/analyticsSlice.ts:35-46 | a pending and then rejected refresh keeps the previous data and ends with the message as the error |
| AnalyticsSlice.SuccessfulRefresh | src/redux/slices/analyticsSlice.ts:35-42 | a pending and then fulfilled refresh ends holding the payload, not loading, with no error |
| SettingsSlice.Reduce | src/redux/slices/settingsSlice.ts:10-24 | each toggle flips only its own flag; setLanguage sets only the language |
| SettingsSlice.InitialSettings | src/redux/slices/settingsSlice.ts:4-8 | dark mode off, notifications on, English |
| SettingsSlice.TogglesAreInvolutions | src/redux/slices/settingsSlice.ts:14-19 | applying either toggle twice is the identity |
| SettingsSlice.TogglesCommute | src/redux/slices/settingsSlice.ts:14-19 | the two toggles commute |
| SettingsSlice.SetLanguageIdempotent | src/redux/slices/settingsSlice.ts:20-22 | setting the same language twice equals setting it once |
| HomeScreen.SumCaloriesAppend | src/screens/HomeScreen.tsx:47-49 | the running sum over a list with one more meal grows by exactly that meal's calories |
| HomeScreen.CalculateTotalCalories | src/screens/HomeScreen.tsx:47-49 | the loop's result is the sum of the meals' totals, taken left to right |
| HomeScreen.TotalCaloriesAfterAdd | src/screens/HomeScreen.tsx:47-49 | the sum is 0 for no meals, and a meal prepended by addMeal adds exactly its total |
| HomeScreen.CalculateMacros | src/screens/HomeScreen.tsx:51-64 | the nested loops give the protein, carbohydrate and fat sums over every item of every meal, all zero for no meals |
| HomeScreen.TargetCalories | src/screens/HomeScreen.tsx:67 | the user's target when there is a user with a non-zero target, otherwise 2000; never 0 |
| HomeScreen.Progress | src/screens/HomeScreen.tsx:69 | progress never exceeds 100; below the cap it is the total as a percentage of the target (p × target = total × 100), for either sign of the target; it is 100 exactly when the total reaches a positive target, or is at most a negative one; for a positive target it is non-negative when the total is |
| HomeScreen.Summarize | src/screens/HomeScreen.tsx:66-70 | the total and macro sums; a target that is never 0 and is 2000 without a user; remaining is target − total, so it is negative exactly when the total exceeds the target; progress is `Progress` of the total and the target, capped at 100 |
| HomeScreen.OverTargetStyleNeverApplies | src/screens/HomeScreen.tsx:112 | the `progress > 100` style condition can never hold, because progress is capped at 100 |
| PredictionReviewScreen.InitialReview | src/screens/PredictionReviewScreen.tsx:30-31 | the review starts at lunch with the prediction's items |
| PredictionReviewScreen.UpdateItem | src/screens/PredictionReviewScreen.tsx:33-37 | the list keeps its length; only item i changes, and in it only the edited field, which becomes the parsed value, or 0 when that is NaN |
| PredictionReviewScreen.UpdateItemMovesTotal | src/screens/PredictionReviewScreen.tsx:33-41 | editing an item's calories moves the total by the new value minus the old; editing another field leaves the total alone |
| PredictionReviewScreen.HandleSave | src/screens/PredictionReviewScreen.tsx:43-53 | the payload carries the selected meal type, the current items, their calorie sum as the total, and the prediction's image URL |
| AddMealManualScreen.HandleAddMeal | src/screens/AddMealManualScreen.tsx:31-51 | a request is built exactly when name, quantity and calories are non-empty; it holds one item with the name, the selected type and the parsed quantity and calories, with NaN kept; its total equals that item's calories; protein, carbohydrate and fat fall back to 0 |
| AddMealManualScreen.InitialFormRefused | src/screens/AddMealManualScreen.tsx:22-35 | the untouched form, with lunch selected and every field empty, builds no request |
| AddMealManualScreen.UnparsedCaloriesPassGuard | src/screens/AddMealManualScreen.tsx:32-49 | calories text that does not parse passes the guard and is sent as a NaN total |
| ProfileSetupScreen.HandleComplete | src/screens/ProfileSetupScreen.tsx:32-61 | age, then weight, then height are checked, and only the first failure is reported; the target is computed exactly when all three pass; it equals calculateDailyCalories of the parsed values and is positive unless the goal is loss |
| ProfileSetupScreen.UnparsedFieldIsRejected | src/screens/ProfileSetupScreen.tsx:33-51 | a field that parses to NaN fails its range check: an unparsed age is reported as the age error, and an unparsed weight or height prevents completion |
| ProfileSetupScreen.InitialFormFailsOnAge | src/screens/ProfileSetupScreen.tsx:25-38 | the defaults are male, moderate and maintain, and the untouched form fails on the age |
| ProfileScreen.AvatarInitial | src/screens/ProfileScreen.tsx:23 | empty for an empty name, otherwise `toUpperCase` (a parameter) applied to the one-character text at the start of the name |
| ProfileScreen.AvatarInitialFirstCharOnly | src/screens/ProfileScreen.tsx:23 | two names with the same first character get the same initial, whatever follows |
| ProfileScreen.GoalLabel | src/screens/ProfileScreen.tsx:68 | the goal name with its first letter upper-cased and the rest kept, followed by " Weight" |
| ProfileScreen.LossGoalLabel | src/screens/ProfileScreen.tsx:68 | the loss goal reads "Loss Weight" |
| ProfileScreen.ActivityLabel | src/screens/ProfileScreen.tsx:74-75 | the caption is as long as the stored name and starts with its first letter upper-cased |
| ProfileScreen.ActivityLabelKeepsLetters | src/screens/ProfileScreen.tsx:74-75 | after the first character, every character of the stored name that is not '_' is kept |
| ProfileScreen.ActivityLabelVeryActive | src/screens/ProfileScreen.tsx:74-75 | very_active reads "Very active" |
| ProfileScreen.DeriveProfile | src/screens/ProfileScreen.tsx:11-16 | nothing is derived without a user; otherwise the BMI is `calculateBMI` of the stored weight and height (a half-tenth tie rounding away from zero) and the band is looked up from it, with the avatar initial (through the given `toUpperCase`) and the two captions |
| ProfileScreen.TieBmiExample | src/utils/calories.ts:69-73 | an exact tie rounds up: 18.45 kg at 100 cm shows BMI 18.5, in the normal band |
| ProfileScreen.BandChangesOnlyBelowCutoffs | src/screens/ProfileScreen.tsx:15-16 | the band of the rounded BMI differs from the band of the exact index exactly when the index lies in [18.45, 18.5), [24.95, 25) or [29.95, 30) |
| ProfileScreen.RoundedBandExample | src/screens/ProfileScreen.tsx:15-16 | an exact index of 24.96 is shown as overweight although it is in the normal band |

## Left out

- Network clients (`src/services/*`), axios interceptors and the multipart image upload: each thunk is only the actions it settles into.
- AsyncStorage persistence in the auth thunks. `loadStoredAuth` reads its two stored strings and `JSON.parse` as parameters.
- Redux Toolkit, Immer and `createAsyncThunk` wiring, and the store. The reducers are plain functions.
- Interleaving of concurrent thunks, such as a late `getTodayMeals.fulfilled` overwriting a meal that was just prepended. This is a property of scheduling, not of a reducer.
- The wall clock: `createdAt` timestamps are not part of the request bodies the screens build here.
- IEEE-754 behaviour: binary rounding of the multipliers 1.2, 1.55, 1.725 and 1.9 and of `toFixed`, infinities, signed zero, and exponent notation when printing large numbers. Numbers are exact reals.
- Calories.CalculateBmi: requires a non-zero height, because the Infinity or NaN the code returns for height 0 is not representable.
- ProfileScreen.DeriveProfile: requires a non-zero stored height, for the same reason.
- ProfileScreen.AvatarInitial: takes the first character as a code point, where `charAt(0)` takes one UTF-16 code unit, so a name starting outside the Basic Multilingual Plane would give half a surrogate pair. Unicode case mapping itself is the `toUpperCase` parameter.
- HomeScreen.TargetCalories: a NaN stored target, which `|| 2000` would also replace, is not representable, since stored users hold finite numbers.
- HomeScreen.Progress: requires a non-zero target. The screen's own target is never 0, so no case of the screen is lost.
- PredictionReviewScreen.UpdateItem: the handler copies the list shallowly and then mutates the item object in place, so the edited object is shared with the previous list and with the prediction. The model is a pure update; no output it states depends on that sharing.
- PredictionReviewScreen.UpdateItem: models the numeric fields only. Editing `food` through this handler, which the screen never does, would store a number in a text field.
- AuthSlice.ApplyPatch: a patch field explicitly set to `undefined` is treated as absent, although object spread would copy the `undefined`.
- ProfileScreen.ActivityLabel and Formatters.GetMealTypeLabel: upper-casing covers ASCII letters only. All stored names are ASCII.
- `formatDate`, `formatTime`, `formatWeight` and `formatHeight` rely on date-fns and on JavaScript's number-to-text conversion.
- JSX, styles, navigation, camera and gallery, charts, and Alert dialogs. Alert titles and messages of the profile set-up form are kept as `SetupOutcome.AlertTitle`/`AlertMessage`.
- The login and settings screens, which only wire the validators and the settings slice, and `App.tsx`.
