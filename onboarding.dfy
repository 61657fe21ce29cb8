/** The onboarding wizard (frontend/src/pages/Onboarding.jsx): four steps,
    a step may be left forward only when its own fields validate, and the
    ranges of the profile form's schema. */
module Onboarding {
  import opened Wrappers
  import opened Sequences

  // ---------------------------------------------------------------------
  // The form and its schema.

  /** A numeric input registered with `valueAsNumber`: never touched
      (`undefined`), a number, or an empty input, which reads as NaN. */
  datatype FormNumber = Unset | Entered(x: real) | NotANumber

  datatype Form = Form(
    educationLevel: string,
    degree: string,
    major: string,
    graduationYear: FormNumber,
    gpa: FormNumber,
    intendedDegree: string,
    fieldOfStudy: string,
    targetIntake: string,
    preferredCountries: Option<seq<string>>,
    budget: FormNumber,
    fundingPlan: string,
    ielts: FormNumber,
    toefl: FormNumber,
    gre: FormNumber,
    gmat: FormNumber,
    sopStatus: string)

  /** The form before anything is entered. */
  const EmptyForm := Form("", "", "", Unset, Unset, "", "", "", None, Unset, "", Unset, Unset, Unset, Unset, "")

  datatype FieldName =
    | EducationLevel | Degree | Major | GraduationYear | Gpa
    | IntendedDegree | FieldOfStudy | TargetIntake | PreferredCountries
    | Budget | FundingPlan | Ielts | Toefl | Gre | Gmat | SopStatus

  /** `z.number().min(lo).max(hi)`: NaN is not a number. */
  predicate NumberIn(v: FormNumber, lo: real, hi: real) {
    v.Entered? && lo <= v.x <= hi
  }

  /** `.optional()` of a number in range, with an empty input read as no
      answer. */
  predicate OptionalNumberIn(v: FormNumber, lo: real, hi: real) {
    v.Unset? || v.NotANumber? || NumberIn(v, lo, hi)
  }

  /** The schema's rule for one field. */
  predicate FieldValid(form: Form, f: FieldName) {
    match f
    case EducationLevel => |form.educationLevel| >= 1
    case Degree => |form.degree| >= 2
    case Major => |form.major| >= 2
    case GraduationYear => NumberIn(form.graduationYear, 2000.0, 2035.0)
    case Gpa => OptionalNumberIn(form.gpa, 0.0, 4.0)
    case IntendedDegree => |form.intendedDegree| >= 1
    case FieldOfStudy => |form.fieldOfStudy| >= 2
    case TargetIntake => |form.targetIntake| >= 1
    case PreferredCountries => form.preferredCountries.Some? && |form.preferredCountries.value| >= 1
    case Budget => form.budget.Entered? && form.budget.x >= 0.0
    case FundingPlan => |form.fundingPlan| >= 1
    case Ielts => OptionalNumberIn(form.ielts, 0.0, 9.0)
    case Toefl => OptionalNumberIn(form.toefl, 0.0, 120.0)
    case Gre => OptionalNumberIn(form.gre, 260.0, 340.0)
    case Gmat => OptionalNumberIn(form.gmat, 200.0, 800.0)
    case SopStatus => |form.sopStatus| >= 1
  }

  /** The whole schema, as checked on submission. */
  predicate FormValid(form: Form) {
    forall f :: FieldValid(form, f)
  }

  /** The optional fields are what they say: leaving any of them empty does
      not change whether the form is accepted, and a form is accepted exactly
      when its required answers are. */
  lemma OptionalFieldsMayBeEmpty(form: Form)
    ensures var empty := form.(gpa := NotANumber, ielts := NotANumber, toefl := NotANumber, gre := NotANumber, gmat := NotANumber);
      FormValid(empty) <==>
        forall f :: f !in {Gpa, Ielts, Toefl, Gre, Gmat} ==> FieldValid(form, f)
  {
    var empty := form.(gpa := NotANumber, ielts := NotANumber, toefl := NotANumber, gre := NotANumber, gmat := NotANumber);
    assert forall f :: FieldValid(empty, f) <==> f in {Gpa, Ielts, Toefl, Gre, Gmat} || FieldValid(form, f);
  }

  /** The accepted ranges of the numeric answers. */
  lemma AcceptedRanges(form: Form)
    requires FormValid(form)
    ensures form.graduationYear.Entered? && 2000.0 <= form.graduationYear.x <= 2035.0
    ensures form.budget.Entered? && form.budget.x >= 0.0
    ensures form.gpa.Entered? ==> 0.0 <= form.gpa.x <= 4.0
    ensures form.ielts.Entered? ==> 0.0 <= form.ielts.x <= 9.0
    ensures form.toefl.Entered? ==> 0.0 <= form.toefl.x <= 120.0
    ensures form.gre.Entered? ==> 260.0 <= form.gre.x <= 340.0
    ensures form.gmat.Entered? ==> 200.0 <= form.gmat.x <= 800.0
    ensures form.preferredCountries.Some? && form.preferredCountries.value != []
  {
    assert FieldValid(form, GraduationYear) && FieldValid(form, Budget) && FieldValid(form, Gpa);
    assert FieldValid(form, Ielts) && FieldValid(form, Toefl) && FieldValid(form, Gre) && FieldValid(form, Gmat);
    assert FieldValid(form, PreferredCountries);
  }

  // ---------------------------------------------------------------------
  // The schema as written: the optional numbers reject an empty input.

  /** `z.number().min(lo).max(hi).optional()` on a `valueAsNumber` input:
      `undefined` passes, but an emptied input is NaN and fails. */
  predicate OptionalNumberInAsWritten(v: FormNumber, lo: real, hi: real) {
    v.Unset? || NumberIn(v, lo, hi)
  }

  /** The GPA rule as written: the preprocess maps "" to `undefined`, but the
      input delivers NaN, not "", and `Number(undefined)` is NaN too. */
  predicate GpaValidAsWritten(v: FormNumber) {
    NumberIn(v, 0.0, 4.0)
  }

  predicate FieldValidAsWritten(form: Form, f: FieldName) {
    match f
    case Gpa => GpaValidAsWritten(form.gpa)
    case Ielts => OptionalNumberInAsWritten(form.ielts, 0.0, 9.0)
    case Toefl => OptionalNumberInAsWritten(form.toefl, 0.0, 120.0)
    case Gre => OptionalNumberInAsWritten(form.gre, 260.0, 340.0)
    case Gmat => OptionalNumberInAsWritten(form.gmat, 200.0, 800.0)
    case _ => FieldValid(form, f)
  }

  predicate FormValidAsWritten(form: Form) {
    forall f :: FieldValidAsWritten(form, f)
  }

  /** As written, a student who leaves the GPA or any one exam score empty
      can never submit the form, however the required answers look; not
      touching the GPA at all fails too. */
  lemma AsWrittenEmptyOptionalRejected(form: Form)
    ensures !FormValidAsWritten(form.(gpa := NotANumber))
    ensures !FormValidAsWritten(form.(gpa := Unset))
    ensures !FormValidAsWritten(form.(ielts := NotANumber))
    ensures !FormValidAsWritten(form.(toefl := NotANumber))
    ensures !FormValidAsWritten(form.(gre := NotANumber))
    ensures !FormValidAsWritten(form.(gmat := NotANumber))
  {
    assert !FieldValidAsWritten(form.(gpa := NotANumber), Gpa);
    assert !FieldValidAsWritten(form.(gpa := Unset), Gpa);
    assert !FieldValidAsWritten(form.(ielts := NotANumber), Ielts);
    assert !FieldValidAsWritten(form.(toefl := NotANumber), Toefl);
    assert !FieldValidAsWritten(form.(gre := NotANumber), Gre);
    assert !FieldValidAsWritten(form.(gmat := NotANumber), Gmat);
  }

  /** The two schemas agree on every field a step validates. */
  lemma StepFieldsAgree(form: Form, step: int, f: FieldName)
    requires f in FieldsToValidate(step)
    ensures FieldValidAsWritten(form, f) == FieldValid(form, f)
  {
  }

  // ---------------------------------------------------------------------
  // The step machine.

  /** `steps.length`. */
  const StepCount := 4

  /** The `switch (currentStep)` of `nextStep`: the review step validates
      nothing. */
  function FieldsToValidate(step: int): (fields: seq<FieldName>)
    ensures forall f :: f in fields ==> f !in {Gpa, Ielts, Toefl, Gre, Gmat}
  {
    if step == 1 then [EducationLevel, Degree, Major, GraduationYear]
    else if step == 2 then [IntendedDegree, FieldOfStudy, TargetIntake, PreferredCountries]
    else if step == 3 then [Budget, FundingPlan, SopStatus]
    else []
  }

  /** `await trigger(fieldsToValidate)`. */
  predicate StepValid(form: Form, step: int) {
    forall f :: f in FieldsToValidate(step) ==> FieldValid(form, f)
  }

  /** A form that passes the whole schema passes every step. */
  lemma ValidFormPassesEveryStep(form: Form, step: int)
    requires FormValid(form)
    ensures StepValid(form, step)
  {
  }

  class Wizard {
    var currentStep: int
    var form: Form

    ghost predicate Valid()
      reads this
    {
      1 <= currentStep <= StepCount
    }

    constructor ()
      ensures Valid() && currentStep == 1 && form == EmptyForm
    {
      currentStep := 1;
      form := EmptyForm;
    }

    /** The student edits the form. */
    method Edit(newForm: Form)
      requires Valid()
      modifies this
      ensures Valid() && currentStep == old(currentStep) && form == newForm
    {
      form := newForm;
    }

    /** `nextStep`: one step forward, only when the current step's fields
        validate and the review step is not reached yet. */
    method NextStep()
      requires Valid()
      modifies this
      ensures Valid() && form == old(form)
      ensures currentStep == if StepValid(form, old(currentStep)) && old(currentStep) < StepCount then old(currentStep) + 1 else old(currentStep)
    {
      var fieldsToValidate := FieldsToValidate(currentStep);
      var isStepValid := true;
      for i := 0 to |fieldsToValidate|
        invariant isStepValid <==> forall j :: 0 <= j < i ==> FieldValid(form, fieldsToValidate[j])
      {
        isStepValid := isStepValid && FieldValid(form, fieldsToValidate[i]);
      }
      if isStepValid && currentStep < StepCount {
        currentStep := currentStep + 1;
      }
    }

    /** `prevStep`: one step back, except on the first. */
    method PrevStep()
      requires Valid()
      modifies this
      ensures Valid() && form == old(form)
      ensures currentStep == if old(currentStep) > 1 then old(currentStep) - 1 else 1
    {
      if currentStep > 1 {
        currentStep := currentStep - 1;
      }
    }

    /** `handleCountryToggle(country)`, on `preferredCountries || []`. */
    method HandleCountryToggle(country: string)
      requires Valid()
      modifies this
      ensures Valid() && currentStep == old(currentStep)
      ensures var current := if old(form).preferredCountries.Some? then old(form).preferredCountries.value else [];
        form == old(form).(preferredCountries := Some(Toggle(current, country)))
    {
      var currentCountries := if form.preferredCountries.Some? then form.preferredCountries.value else [];
      form := form.(preferredCountries := Some(Toggle(currentCountries, country)));
    }
  }

  /** Toggling a country flips its membership only, and toggling it twice
      restores the chosen set. */
  lemma CountryToggleSpec(countries: seq<string>, country: string)
    ensures country in Toggle(countries, country) <==> country !in countries
    ensures forall c :: c != country ==> (c in Toggle(countries, country) <==> c in countries)
    ensures forall c :: c in Toggle(Toggle(countries, country), country) <==> c in countries
  {
    ToggleTwice(countries, country);
  }
}
