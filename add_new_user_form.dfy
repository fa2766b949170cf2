/**
 * The Add New User form on the Payment page: twelve text fields, an optional
 * `amount` that the form does not start with, per-field errors, and Submit,
 * which posts the registration when every field but `amount` is filled in.
 */
module AddNewUserForm {
  import opened Wrappers
  import opened JsValues
  import opened ProgramEdit
  import opened FormErrors

  const CreateEndpoint := "https://southlakebackend.onrender.com/api/createRegistrationByAdmin"
  const RequiredText := "This field is required"

  /** The fields the form starts with, in order; `amount` is not among them. */
  const FieldNames: seq<string> := [
    "registrationId", "firstName", "lastName", "parentFirstName", "parentLastName", "address",
    "zipCode", "country", "city", "state", "phone", "email"]

  /** The fields whose input the change handler singles out as numeric. */
  const NumericNames: set<string> := {"zipCode", "phone", "registrationId", "amount"}

  const InitialForm: JsObject := seq(|FieldNames|, i requires 0 <= i < |FieldNames| => (FieldNames[i], JStr("")))

  /** The submit check: any field but `amount` with a falsy value. */
  function Missing(): FieldTest
  {
    (key: string, value: JsValue) => key != "amount" && !Truthy(value)
  }

  function Message(key: string): string
  {
    RequiredText
  }

  /** The errors Submit finds in `form`. */
  function SubmitErrors(form: JsObject): JsObject
  {
    RequiredErrors(Keys(form), form, Missing(), Message)
  }

  /** Submit finds no error exactly when every field other than `amount` is truthy. */
  lemma SubmitErrorsEmptyIff(form: JsObject)
    requires UniqueKeys(form)
    ensures SubmitErrors(form) == [] <==> forall i :: 0 <= i < |form| ==> form[i].0 == "amount" || Truthy(form[i].1)
  {
    var keys := Keys(form);
    AllLookupsUnique(form);
    RequiredErrorsSpec(keys, form, Missing(), Message);
    assert forall i :: 0 <= i < |keys| ==>
             (Missing()(keys[i], Get(form, keys[i])) <==> form[i].0 != "amount" && !Truthy(form[i].1));
  }

  /**
   * Every falsy field other than `amount` reads "This field is required",
   * and `amount` never has an error, whatever its value.
   */
  lemma SubmitErrorsReported(form: JsObject)
    requires UniqueKeys(form)
    ensures forall i :: 0 <= i < |form| && form[i].0 != "amount" && !Truthy(form[i].1) ==>
              Lookup(SubmitErrors(form), form[i].0) == Some(JStr(RequiredText))
    ensures Lookup(SubmitErrors(form), "amount") == None
  {
    var keys := Keys(form);
    RequiredErrorsSpec(keys, form, Missing(), Message);
    forall i | 0 <= i < |form| && form[i].0 != "amount" && !Truthy(form[i].1)
      ensures Lookup(SubmitErrors(form), form[i].0) == Some(JStr(RequiredText))
    {
      LookupUnique(form, i);
      assert keys[i] == form[i].0;
    }
  }

  lemma DistinctFieldNames()
    ensures forall i, j :: 0 <= i < j < |FieldNames| ==> FieldNames[i] != FieldNames[j]
    ensures "amount" !in FieldNames
  {
  }

  /**
   * Submitting the untouched form reports exactly twelve errors, one per
   * field it starts with, in field order.
   */
  lemma InitialFormErrors()
    ensures Keys(SubmitErrors(InitialForm)) == FieldNames
    ensures |SubmitErrors(InitialForm)| == 12
  {
    var keys := Keys(InitialForm);
    assert keys == FieldNames;
    DistinctFieldNames();
    AllLookupsUnique(InitialForm);
    assert forall i :: 0 <= i < |keys| ==> Missing()(keys[i], Get(InitialForm, keys[i]));
    AllFailing(keys, InitialForm, Missing());
    RequiredErrorsKeys(keys, InitialForm, Missing(), Message);
  }

  class FormPage {
    var formData: JsObject
    var errors: JsObject
    var isLoading: bool

    predicate Valid()
      reads this
    {
      UniqueKeys(formData)
    }

    constructor ()
      ensures Valid()
      ensures formData == InitialForm && errors == [] && !isLoading
    {
      formData := InitialForm;
      errors := [];
      isLoading := false;
      DistinctFieldNames();
      assert Keys(InitialForm) == FieldNames;
    }

    /**
     * `handleChange`: the field stores exactly the typed text (the numeric
     * fields' conversion gives the text back unchanged) and its error is
     * cleared; nothing else changes.
     */
    method HandleChange(name: string, value: string)
      requires Valid()
      modifies this
      ensures Valid()
      ensures formData == SetField(old(formData), name, JStr(value))
      ensures errors == SetField(old(errors), name, JStr(""))
      ensures isLoading == old(isLoading)
    {
      var stored := if name in NumericNames then (if value == "" then "" else value) else value;
      SetFieldUnique(formData, name, JStr(stored));
      formData := SetField(formData, name, JStr(stored));
      errors := SetField(errors, name, JStr(""));
    }

    /**
     * `handleSubmit`: with an error the errors object is replaced wholesale
     * and nothing is sent; otherwise the form is posted as it is and closes
     * when the post succeeds.  The submit button is disabled while loading,
     * and loading ends false.
     */
    method Submit(postOk: bool) returns (request: Option<Request>, closed: bool)
      requires Valid() && !isLoading
      modifies this
      ensures Valid() && formData == old(formData) && !isLoading
      ensures SubmitErrors(old(formData)) != [] ==> request == None && errors == SubmitErrors(old(formData)) && !closed
      ensures SubmitErrors(old(formData)) == [] ==>
                request == Some(Post(CreateEndpoint, old(formData))) && errors == old(errors) && closed == postOk
    {
      var newErrors := CollectErrors(Keys(formData), formData, Missing(), Message);
      if |newErrors| > 0 {
        errors := newErrors;
        request := None;
        closed := false;
        return;
      }
      isLoading := true;
      request := Some(Post(CreateEndpoint, formData));
      closed := postOk;
      isLoading := false;
    }
  }
}
