/** The entrepreneur signup wizard (src/pages/signup-entrepreneur.tsx): a step counter from 1
    to 4 moved by a Back and a Continue button, a form checked against its schema, and the
    registration call fired when Continue is pressed on step 2. Step 4 is the finish card.

    Dates are abstract instants (milliseconds); zod's email check and date-fns formatting are
    supplied from outside (`emailAccepted`, `formatDay`). */
module SignupEntrepreneur {
  import opened Wrappers

  datatype EntrepreneurForm = EntrepreneurForm(
    firstName: string,
    lastName: string,
    email: string,
    password: string,
    fiscalCode: string,
    mobileFone: string,
    birthDate: Option<int>,
    skills: Option<seq<int>>,
    referralToken: Option<string>)

  /** `formSchema`: names of at least 2 characters, a password of at least 8, a fiscal code and
      a mobile phone, an accepted email and a birth date. */
  predicate FormValid(f: EntrepreneurForm, emailAccepted: bool)
  {
    && |f.firstName| >= 2
    && |f.lastName| >= 2
    && emailAccepted
    && |f.password| >= 8
    && |f.fiscalCode| >= 1
    && |f.mobileFone| >= 1
    && f.birthDate.Some?
  }

  datatype RegisterEntrepreneurRequest = RegisterEntrepreneurRequest(
    firstName: string,
    lastName: string,
    email: string,
    password: string,
    fiscalCode: string,
    mobileFone: string,
    birthDate: string,
    skills: seq<int>,
    referralToken: Option<string>)

  /** The registration payload: the form with its birth date formatted and the skills
      defaulted to the empty list. */
  function RegistrationOf(f: EntrepreneurForm, formatDay: int -> string): (r: RegisterEntrepreneurRequest)
    requires f.birthDate.Some?
    ensures r.birthDate == formatDay(f.birthDate.value)
    ensures r.skills == (if f.skills.Some? then f.skills.value else [])
    ensures r.firstName == f.firstName && r.lastName == f.lastName && r.email == f.email
    ensures r.password == f.password && r.fiscalCode == f.fiscalCode && r.mobileFone == f.mobileFone
    ensures r.referralToken == f.referralToken
  {
    RegisterEntrepreneurRequest(f.firstName, f.lastName, f.email, f.password, f.fiscalCode,
                                f.mobileFone, formatDay(f.birthDate.value), f.skills.GetOr([]),
                                f.referralToken)
  }

  // ---------------------------------------------------------------- the step counter

  const FirstStep := 1
  const FinishStep := 4

  datatype Press = Back | Continue

  /** Back and Continue are rendered on every step but the finish card. */
  predicate ButtonsShown(step: int) { step != FinishStep }

  /** The step after a press. Back on the first step leaves the wizard instead (the router
      goes back) and the step stays. */
  function Next(step: int, press: Press): (r: int)
    requires FirstStep <= step < FinishStep
    ensures FirstStep <= r <= FinishStep
    ensures press == Continue ==> r == step + 1
    ensures press == Back && step > FirstStep ==> r == step - 1
    ensures press == Back && step == FirstStep ==> r == step
  {
    match press
    case Back => if step > FirstStep then step - 1 else step
    case Continue => step + 1
  }

  /** The registration is submitted exactly by Continue on step 2. */
  predicate Registers(step: int, press: Press) { press == Continue && step == 2 }

  /** Back on the first step navigates away from the wizard. */
  predicate LeavesWizard(step: int, press: Press) { press == Back && step == FirstStep }

  /** The Continue button's label. */
  function ContinueLabel(step: int, formValid: bool): (r: string)
    ensures step == 3 ==> r == "Take your pass"
    ensures step != 3 && formValid ==> r == "Continue"
    ensures step != 3 && !formValid ==> r == "Please fill all the fields"
  {
    if step == 3 then "Take your pass"
    else if formValid then "Continue"
    else "Please fill all the fields"
  }

  /** A sequence of presses from `step`: the step reached and the number of registrations
      fired. Presses after the finish card is reached have no button to land on. */
  function Walk(step: int, presses: seq<Press>): (r: (int, nat))
    requires FirstStep <= step <= FinishStep
    ensures FirstStep <= r.0 <= FinishStep
    ensures step == FinishStep ==> r == (step, 0)
    ensures r.0 <= step + |presses|
    ensures r.1 <= |presses|
    decreases |presses|
  {
    if presses == [] || step == FinishStep then (step, 0)
    else
      var rest := Walk(Next(step, presses[0]), presses[1..]);
      (rest.0, rest.1 + if Registers(step, presses[0]) then 1 else 0)
  }

  /** Continue three times from the start reaches the finish card with one registration. */
  lemma StraightThrough()
    ensures Walk(FirstStep, [Continue, Continue, Continue]) == (FinishStep, 1)
  {
    assert [Continue, Continue, Continue][1..] == [Continue, Continue];
    assert [Continue, Continue][1..] == [Continue];
  }

  /** Nothing stops a second registration: going back from step 3 to step 2 and pressing
      Continue again submits the registration again. */
  lemma BackAndContinueRegistersAgain()
    ensures Walk(FirstStep, [Continue, Continue, Back, Continue]) == (3, 2)
  {
    var p := [Continue, Continue, Back, Continue];
    assert p[1..] == [Continue, Back, Continue];
    assert p[1..][1..] == [Back, Continue];
    assert p[1..][1..][1..] == [Continue];
  }

  /** The finish card is never reached from steps 1 or 2 without the registration having been
      submitted on the way. */
  lemma {:induction false} FinishRequiresRegistration(step: int, presses: seq<Press>)
    requires FirstStep <= step <= 2
    requires Walk(step, presses).0 == FinishStep
    ensures Walk(step, presses).1 >= 1
    decreases |presses|
  {
    var next := Next(step, presses[0]);
    if !Registers(step, presses[0]) {
      assert next <= 2;
      FinishRequiresRegistration(next, presses[1..]);
    }
  }

  /** The wizard's state on the page. */
  class Wizard {
    var step: int
    var registrations: seq<RegisterEntrepreneurRequest>

    ghost predicate Valid()
      reads this
    {
      FirstStep <= step <= FinishStep
    }

    constructor ()
      ensures Valid() && step == FirstStep && registrations == []
    {
      step, registrations := FirstStep, [];
    }

    /** The Back button, shown on steps 1 to 3. `leaves`: the router goes back instead. */
    method PressBack() returns (leaves: bool)
      requires Valid() && ButtonsShown(step)
      modifies this
      ensures Valid() && step == Next(old(step), Back)
      ensures leaves == LeavesWizard(old(step), Back)
      ensures registrations == old(registrations)
    {
      leaves := step == FirstStep;
      if step > FirstStep {
        step := step - 1;
      }
    }

    /** The Continue button, shown on steps 1 to 3 and enabled only when no registration is
        pending and the form is valid. On step 2 it fires the registration and does not wait
        for its outcome: the step advances whatever the call returns. */
    method PressContinue(form: EntrepreneurForm, emailAccepted: bool, isPending: bool,
                         formatDay: int -> string)
      requires Valid() && ButtonsShown(step)
      requires !isPending && FormValid(form, emailAccepted)
      modifies this
      ensures Valid() && step == Next(old(step), Continue)
      ensures registrations == old(registrations) +
        (if Registers(old(step), Continue) then [RegistrationOf(form, formatDay)] else [])
    {
      if step == 2 {
        registrations := registrations + [RegistrationOf(form, formatDay)];
      }
      step := step + 1;
    }
  }
}
