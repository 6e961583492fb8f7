/**
 * The profile view: the values the screen derives from the signed-in user —
 * avatar initial, BMI and its band, and the goal and activity captions.
 */
module ProfileScreen {
  import opened Base
  import opened JsNumber
  import opened JsString
  import opened Types
  import opened Calories

  /** What the screen shows beyond the user's own fields. */
  datatype ProfileView = ProfileView(
    initial: string,
    bmi: real,
    bmiCategory: string,
    goalLabel: string,
    activityLabel: string)

  /**
   * name.charAt(0).toUpperCase(): the upper-cased first character, or "" for an
   * empty name. String.prototype.toUpperCase is the parameter `upper`, because
   * Unicode case mapping (which may lengthen the text, as "ß" to "SS") is not
   * part of the app.
   */
  function AvatarInitial(name: string, upper: string -> string): (s: string)
    ensures |name| == 0 ==> s == ""
    ensures |name| > 0 ==> s == upper(name[..1])
  {
    if |name| == 0 then "" else
      assert name[..1] == [name[0]];
      upper([name[0]])
  }

  /** Only the first character of the name decides the initial. */
  lemma AvatarInitialFirstCharOnly(a: string, b: string, upper: string -> string)
    requires |a| > 0 && |b| > 0 && a[0] == b[0]
    ensures AvatarInitial(a, upper) == AvatarInitial(b, upper)
  {
    assert a[..1] == [a[0]] == [b[0]] == b[..1];
  }

  /** The goal caption: the stored goal capitalised, followed by " Weight". */
  function GoalLabel(goal: Goal): (text: string)
    ensures var n := goal.Name();
      && |text| == |n| + 7
      && text[0] == ToUpperAscii(n[0])
      && text[1..] == n[1..] + " Weight"
  {
    var n := goal.Name();
    assert (Capitalize(n) + " Weight")[1..] == Capitalize(n)[1..] + " Weight";
    Capitalize(n) + " Weight"
  }

  /** The loss caption reads "Loss Weight", not "Lose Weight". */
  lemma LossGoalLabel()
    ensures GoalLabel(Loss) == "Loss Weight"
  {
    assert Capitalize("loss") == "Loss";
  }

  lemma MaintainGoalLabel()
    ensures GoalLabel(Maintain) == "Maintain Weight"
  {
    assert Capitalize("maintain") == "Maintain";
  }

  lemma GainGoalLabel()
    ensures GoalLabel(Gain) == "Gain Weight"
  {
    assert Capitalize("gain") == "Gain";
  }

  /**
   * The activity caption: the first letter upper-cased and, in the rest, only the
   * first underscore replaced by a space.
   */
  function ActivityLabel(level: ActivityLevel): (text: string)
    ensures |text| == |level.Name()|
    ensures text[0] == ToUpperAscii(level.Name()[0])
  {
    var n := level.Name();
    [ToUpperAscii(n[0])] + ReplaceFirst(n[1..], '_', ' ')
  }

  /** Past the first character, the caption differs from the stored name only at its first '_'. */
  lemma ActivityLabelKeepsLetters(level: ActivityLevel, i: nat)
    requires 1 <= i < |level.Name()| && level.Name()[i] != '_'
    ensures ActivityLabel(level)[i] == level.Name()[i]
  {
    var n := level.Name();
    var rest := n[1..];
    var k := IndexOf(rest, '_');
    assert rest[i - 1] == n[i];
    assert i - 1 != k;
  }

  /** The one two-word level has its underscore shown as a space. */
  lemma ActivityLabelVeryActive()
    ensures ActivityLabel(VeryActive) == "Very active"
  {
    ReplaceFirstAt("ery_active", '_', ' ', 3);
  }

  /**
   * The screen renders nothing without a user; otherwise BMI is taken from the
   * stored weight and height and its band is looked up from the rounded value.
   * `upper` is String.prototype.toUpperCase, as for AvatarInitial.
   */
  function DeriveProfile(user: Option<User>, upper: string -> string): (view: Option<ProfileView>)
    requires user.Some? ==> user.value.height != 0.0
    ensures view.Some? <==> user.Some?
    ensures view.Some? ==>
      && view.value.initial == AvatarInitial(user.value.name, upper)
      && view.value.bmi == CalculateBmi(user.value.weight, user.value.height)
      && IsTenths(view.value.bmi)
      && -0.05 <= view.value.bmi - RawBmi(user.value.weight, user.value.height) <= 0.05
      && view.value.bmiCategory == GetBmiCategory(view.value.bmi).Label()
      && view.value.goalLabel == GoalLabel(user.value.goal)
      && view.value.activityLabel == ActivityLabel(user.value.activityLevel)
  {
    match user
    case None => None
    case Some(u) =>
      var bmi := CalculateBmi(u.weight, u.height);
      Some(ProfileView(
        AvatarInitial(u.name, upper), bmi, GetBmiCategory(bmi).Label(),
        GoalLabel(u.goal), ActivityLabel(u.activityLevel)))
  }

  /** An exact half-tenth tie rounds up: 18.45 kg at 100 cm shows BMI 18.5 and the normal band. */
  lemma TieBmiExample()
    ensures CalculateBmi(18.45, 100.0) == 18.5
    ensures GetBmiCategory(CalculateBmi(18.45, 100.0)) == NormalWeight
  {
    assert RawBmi(18.45, 100.0) == 18.45;
  }

  /** Rounding to a tenth reaches a positive one-decimal cut-off exactly when the value is within 0.05 below it. */
  lemma RoundedReachesCutoff(raw: real, t: real)
    requires IsTenths(t) && t > 0.0
    ensures ToFixed1(raw) >= t <==> raw >= t - 0.05
  {
    if raw >= t - 0.05 {
      ToFixed1AtLeast(raw, t);
    } else {
      ToFixed1Below(raw, t);
    }
  }

  /**
   * Because the band is looked up from the rounded BMI, it differs from the band
   * of the exact index precisely in the 0.05-wide strips just below each cut-off.
   */
  lemma BandChangesOnlyBelowCutoffs(raw: real)
    ensures GetBmiCategory(ToFixed1(raw)) != GetBmiCategory(raw) <==>
      (18.45 <= raw < 18.5) || (24.95 <= raw < 25.0) || (29.95 <= raw < 30.0)
  {
    assert IsTenths(18.5) && IsTenths(25.0) && IsTenths(30.0);
    RoundedReachesCutoff(raw, 18.5);
    RoundedReachesCutoff(raw, 25.0);
    RoundedReachesCutoff(raw, 30.0);
  }

  /** A user whose exact index is 24.96 is shown as overweight, though the index is below 25. */
  lemma RoundedBandExample()
    ensures GetBmiCategory(ToFixed1(24.96)) == Overweight
    ensures GetBmiCategory(24.96) == NormalWeight
  {
    BandChangesOnlyBelowCutoffs(24.96);
    RoundedReachesCutoff(24.96, 25.0);
    assert IsTenths(25.0);
  }
}
