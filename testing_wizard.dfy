/**
 * The two-step registration wizard: step 1 collects the student and program
 * details, step 2 the payment and contact details.  Next validates step 1
 * before moving on, Back returns to step 1, and Submit validates step 2
 * before posting.  Each validation replaces the errors with
 * "<field> is required" for every empty field of its step.
 */
module TestingWizard {
  import opened Wrappers
  import opened JsValues
  import opened ProgramEdit
  import opened FormErrors

  const SubmitEndpoint := "/your-api-endpoint"

  const StepOneFields: seq<string> := [
    "programId", "registrationId", "firstStudentFirstName", "firstStudentLastName", "firstStudentGrade",
    "firstStudentAge", "secondStudentFirstName", "secondStudentLastName", "secondStudentGrade",
    "secondStudentAge", "parentFirstName", "parentLastName", "contactNumber", "programBought", "city",
    "state", "quantity"]

  const StepTwoFields: seq<string> := [
    "firstName", "lastName", "address", "zipCode", "country", "phone", "email", "amount", "cardNumber",
    "expirationDate", "cvv"]

  /** The form starts with every field of both steps, in this order, empty. */
  const InitialForm: JsObject :=
    var names := StepOneFields + StepTwoFields;
    seq(|names|, i requires 0 <= i < |names| => (names[i], JStr("")))

  /** A field is empty when its value is falsy. */
  function Blank(): FieldTest
  {
    (key: string, value: JsValue) => !Truthy(value)
  }

  function Message(field: string): string
  {
    field + " is required"
  }

  /** The errors a validator records for `fields`. */
  function StepErrors(fields: seq<string>, form: JsObject): JsObject
  {
    RequiredErrors(fields, form, Blank(), Message)
  }

  /** Every field of the step holds a truthy value. */
  predicate StepComplete(fields: seq<string>, form: JsObject)
  {
    forall i :: 0 <= i < |fields| ==> Truthy(Get(form, fields[i]))
  }

  /**
   * A validator passes exactly when its step is complete, and it records
   * "<field> is required" for exactly the step's empty fields.
   */
  lemma StepErrorsSpec(fields: seq<string>, form: JsObject)
    ensures StepErrors(fields, form) == [] <==> StepComplete(fields, form)
    ensures forall k :: Lookup(StepErrors(fields, form), k) ==
              if k in fields && !Truthy(Get(form, k)) then Some(JStr(k + " is required")) else None
  {
    RequiredErrorsSpec(fields, form, Blank(), Message);
  }

  lemma DistinctStepOneFields()
    ensures forall i, j :: 0 <= i < j < |StepOneFields| ==> StepOneFields[i] != StepOneFields[j]
  {
  }

  /** Every field reads as falsy in the initial form, whether or not it is one of its keys. */
  lemma InitialFormBlank(key: string)
    ensures !Truthy(Get(InitialForm, key))
  {
    var r := Lookup(InitialForm, key);
    if r.Some? {
      var i :| 0 <= i < |InitialForm| && InitialForm[i] == (key, r.value);
    }
  }

  /** Next on the untouched form reports all seventeen step-1 fields, in order. */
  lemma InitialStepOneErrors()
    ensures Keys(StepErrors(StepOneFields, InitialForm)) == StepOneFields
  {
    forall i | 0 <= i < |StepOneFields|
      ensures Blank()(StepOneFields[i], Get(InitialForm, StepOneFields[i]))
    {
      InitialFormBlank(StepOneFields[i]);
    }
    AllFailing(StepOneFields, InitialForm, Blank());
    DistinctStepOneFields();
    RequiredErrorsKeys(StepOneFields, InitialForm, Blank(), Message);
  }

  class Wizard {
    var formData: JsObject
    var currentStep: int
    var errors: JsObject

    /** The wizard is on step 1 or step 2. */
    predicate Valid()
      reads this
    {
      currentStep == 1 || currentStep == 2
    }

    constructor ()
      ensures Valid()
      ensures formData == InitialForm && currentStep == 1 && errors == []
    {
      formData := InitialForm;
      currentStep := 1;
      errors := [];
    }

    /** `handleChange`: exactly the named field changes. */
    method HandleChange(name: string, value: string)
      requires Valid()
      modifies this
      ensures Valid()
      ensures formData == SetField(old(formData), name, JStr(value))
      ensures currentStep == old(currentStep) && errors == old(errors)
    {
      formData := SetField(formData, name, JStr(value));
    }

    /** A validator: it replaces the errors and passes when there are none. */
    method Validate(fields: seq<string>) returns (ok: bool)
      modifies this
      ensures errors == StepErrors(fields, old(formData))
      ensures ok <==> StepComplete(fields, old(formData))
      ensures formData == old(formData) && currentStep == old(currentStep)
    {
      errors := CollectErrors(fields, formData, Blank(), Message);
      StepErrorsSpec(fields, formData);
      ok := |errors| == 0;
    }

    /**
     * `handleNext`: on step 1 with every step-1 field filled in, the wizard
     * moves to step 2 with no errors; on step 1 otherwise it stays and shows
     * the step-1 errors; on step 2 nothing happens.
     */
    method HandleNext()
      requires Valid()
      modifies this
      ensures Valid() && formData == old(formData)
      ensures old(currentStep) == 1 && StepComplete(StepOneFields, old(formData)) ==> currentStep == 2 && errors == []
      ensures old(currentStep) == 1 && !StepComplete(StepOneFields, old(formData)) ==>
                currentStep == 1 && errors == StepErrors(StepOneFields, old(formData))
      ensures old(currentStep) != 1 ==> currentStep == old(currentStep) && errors == old(errors)
    {
      if currentStep == 1 {
        var ok := Validate(StepOneFields);
        if ok {
          errors := [];
          currentStep := 2;
        }
      }
    }

    /** `handleBack`: from step 2 back to step 1 with no errors; on step 1 nothing happens. */
    method HandleBack()
      requires Valid()
      modifies this
      ensures Valid() && formData == old(formData)
      ensures old(currentStep) == 2 ==> currentStep == 1 && errors == []
      ensures old(currentStep) == 1 ==> currentStep == 1 && errors == old(errors)
    {
      if currentStep > 1 {
        errors := [];
        currentStep := currentStep - 1;
      }
    }

    /** `handleSubmit`: the form is posted exactly when step 2 is complete. */
    method HandleSubmit() returns (request: Option<Request>)
      requires Valid()
      modifies this
      ensures Valid() && formData == old(formData) && currentStep == old(currentStep)
      ensures errors == StepErrors(StepTwoFields, old(formData))
      ensures request.Some? <==> StepComplete(StepTwoFields, old(formData))
      ensures request.Some? ==> request.value == Post(SubmitEndpoint, old(formData))
    {
      var ok := Validate(StepTwoFields);
      if ok {
        request := Some(Post(SubmitEndpoint, formData));
      } else {
        request := None;
      }
    }
  }
}
