/** The onboarding steps' order and the text of each step's next button. */
module Onboarding {
  const FooterHeight: nat := 56

  datatype StepName = Welcome | AddUserInfo | EditGallery | Congratulations | AddEmail

  /** `STEPS` */
  const Steps: seq<StepName> := [Welcome, AddUserInfo, EditGallery, Congratulations, AddEmail]

  /** The step's name as the code spells it. */
  function StepKey(step: StepName): string
  {
    match step
    case Welcome => "welcome"
    case AddUserInfo => "add-user-info"
    case EditGallery => "edit-gallery"
    case Congratulations => "congratulations"
    case AddEmail => "add-email"
  }

  /** `Array.prototype.indexOf`: the first position of `x`, or -1. */
  function IndexOf<T(==)>(s: seq<T>, x: T): (r: int)
    ensures -1 <= r < |s|
    ensures r == -1 <==> x !in s
    ensures 0 <= r ==> s[r] == x && x !in s[..r]
  {
    if s == [] then -1
    else if s[0] == x then 0
    else
      var i := IndexOf(s[1..], x);
      if i == -1 then -1
      else
        assert s[..i + 1] == [s[0]] + s[1..][..i];
        i + 1
  }

  /** `getStepIndex`: never -1, since every step name is listed. */
  function GetStepIndex(step: StepName): (r: int)
    ensures 0 <= r < |Steps|
    ensures Steps[r] == step
  {
    StepsListEveryStep(step);
    IndexOf(Steps, step)
  }

  lemma StepsListEveryStep(step: StepName)
    ensures step in Steps
  {
    assert Steps[0] == Welcome && Steps[1] == AddUserInfo && Steps[2] == EditGallery;
    assert Steps[3] == Congratulations && Steps[4] == AddEmail;
  }

  /** Different steps have different indices, and the first and last are fixed. */
  lemma StepIndexInjective(a: StepName, b: StepName)
    ensures GetStepIndex(a) == GetStepIndex(b) ==> a == b
    ensures GetStepIndex(Welcome) == 0 && GetStepIndex(AddEmail) == |Steps| - 1 == 4
  {
    assert Steps[0] == Welcome;
    assert Steps[4] == AddEmail;
  }

  /** `ONBOARDING_NEXT_BUTTON_TEXT_MAP` */
  function NextButtonText(step: StepName): (r: string)
    ensures r == "Done" <==> step == Congratulations || step == AddEmail
    ensures r == "Next" <==> !(step == Congratulations || step == AddEmail)
  {
    match step
    case Welcome => "Next"
    case AddUserInfo => "Next"
    case Congratulations => "Done"
    case AddEmail => "Done"
    case EditGallery => "Next"
  }

  /** The two "Done" steps are the last two of the flow. */
  lemma DoneStepsAreLast(step: StepName)
    ensures NextButtonText(step) == "Done" <==> GetStepIndex(step) >= |Steps| - 2
  {
    assert Steps[3] == Congratulations && Steps[4] == AddEmail;
  }
}
