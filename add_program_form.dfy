/**
 * The Add Program form: fourteen fields, the image file, the per-field
 * errors, and Submit, which validates, uploads the image and posts the new
 * program.  Parsing the price text is outside the model: its result is a
 * parameter.  The upload's outcome is a parameter too (`None` when it fails).
 */
module AddProgramForm {
  import opened Wrappers
  import opened JsValues
  import opened ProgramEdit
  import opened FormErrors

  const CreateEndpoint := "https://southlakebackend.onrender.com/api/createSingleProgram"
  const RequiredText := " required"
  const NoImageText := "Please select an image to upload."
  const UploadFailedText := "Error uploading image. Please try again."

  /** The form's fields, in the order the form declares them. */
  const FieldNames: seq<string> := [
    "programName", "ages", "location", "dates", "capacity", "time", "discounts", "classExperience",
    "cancellationPolicy", "image", "slotsAvailable", "price", "dateTo", "dateFrom"]

  /** The form as it opens: empty texts, no image (null), price 0. */
  const InitialForm: JsObject :=
    seq(|FieldNames|, i requires 0 <= i < |FieldNames| =>
      (FieldNames[i], if FieldNames[i] == "image" then JNull else if FieldNames[i] == "price" then JNum(0) else JStr("")))

  /** The submit check: a falsy value, or the image while no file is selected. */
  function Missing(imageSelected: bool): FieldTest
  {
    (key: string, value: JsValue) => !Truthy(value) || (key == "image" && !imageSelected)
  }

  function Message(key: string): string
  {
    RequiredText
  }

  /** The errors Submit finds in `form`. */
  function SubmitErrors(form: JsObject, imageSelected: bool): JsObject
  {
    RequiredErrors(Keys(form), form, Missing(imageSelected), Message)
  }

  /**
   * Submit finds no error exactly when every field is truthy (so a price of
   * 0 is reported) and, for the image field, a file is selected.
   */
  lemma SubmitErrorsEmptyIff(form: JsObject, imageSelected: bool)
    requires UniqueKeys(form)
    ensures SubmitErrors(form, imageSelected) == [] <==>
            forall i :: 0 <= i < |form| ==> Truthy(form[i].1) && (form[i].0 == "image" ==> imageSelected)
  {
    var keys := Keys(form);
    var missing := Missing(imageSelected);
    AllLookupsUnique(form);
    RequiredErrorsSpec(keys, form, missing, Message);
    assert forall i :: 0 <= i < |keys| ==>
             (missing(keys[i], Get(form, keys[i])) <==> !Truthy(form[i].1) || (form[i].0 == "image" && !imageSelected));
  }

  /** Every falsy field, and the image while no file is selected, reads " required". */
  lemma SubmitErrorsReported(form: JsObject, imageSelected: bool)
    requires UniqueKeys(form)
    ensures forall i :: 0 <= i < |form| && !Truthy(form[i].1) ==>
              Lookup(SubmitErrors(form, imageSelected), form[i].0) == Some(JStr(RequiredText))
    ensures "image" in Keys(form) && !imageSelected ==>
              Lookup(SubmitErrors(form, imageSelected), "image") == Some(JStr(RequiredText))
  {
    var keys := Keys(form);
    var missing := Missing(imageSelected);
    RequiredErrorsSpec(keys, form, missing, Message);
    forall i | 0 <= i < |form| && !Truthy(form[i].1)
      ensures Lookup(SubmitErrors(form, imageSelected), form[i].0) == Some(JStr(RequiredText))
    {
      LookupUnique(form, i);
      assert keys[i] == form[i].0;
    }
    if "image" in keys && !imageSelected {
      assert missing("image", Get(form, "image"));
    }
  }

  /** Setting a field keeps the keys distinct and the image field present. */
  lemma SetFieldKeepsForm(form: JsObject, name: string, v: JsValue)
    requires UniqueKeys(form) && "image" in Keys(form)
    ensures UniqueKeys(SetField(form, name, v)) && "image" in Keys(SetField(form, name, v))
  {
    SetFieldUnique(form, name, v);
    SetFieldKeys(form, name, v);
  }

  /** The initial form's keys are its distinct field names, the image among them. */
  lemma InitialFormValid()
    ensures Keys(InitialForm) == FieldNames
    ensures UniqueKeys(InitialForm) && "image" in Keys(InitialForm)
  {
    assert FieldNames[9] == "image";
    DistinctFieldNames();
  }

  lemma DistinctFieldNames()
    ensures forall i, j :: 0 <= i < j < |FieldNames| ==> FieldNames[i] != FieldNames[j]
  {
  }

  /** A form whose values are all falsy has an error on every field, in field order. */
  lemma BlankFormErrors(form: JsObject, imageSelected: bool)
    requires UniqueKeys(form)
    requires forall i :: 0 <= i < |form| ==> !Truthy(form[i].1)
    ensures Keys(SubmitErrors(form, imageSelected)) == Keys(form)
  {
    var keys := Keys(form);
    var missing := Missing(imageSelected);
    AllLookupsUnique(form);
    forall i | 0 <= i < |keys|
      ensures missing(keys[i], Get(form, keys[i]))
    {
      assert !Truthy(Get(form, keys[i]));
    }
    AllFailing(keys, form, missing);
    assert forall i, j :: 0 <= i < j < |keys| ==> keys[i] != keys[j];
    RequiredErrorsKeys(keys, form, missing, Message);
  }

  /** The untouched form has an error on every one of its fourteen fields. */
  lemma InitialFormErrors(imageSelected: bool)
    ensures Keys(SubmitErrors(InitialForm, imageSelected)) == Keys(InitialForm)
    ensures |SubmitErrors(InitialForm, imageSelected)| == 14
  {
    InitialFormValid();
    BlankFormErrors(InitialForm, imageSelected);
  }

  class FormPage {
    var formData: JsObject
    /** The chosen file's name, if any. */
    var imageSelected: Option<string>
    var errors: JsObject
    var isLoading: bool

    /** The form keeps its keys distinct and always has an image field. */
    predicate Valid()
      reads this
    {
      UniqueKeys(formData) && "image" in Keys(formData)
    }

    constructor ()
      ensures Valid()
      ensures formData == InitialForm && imageSelected == None && errors == [] && !isLoading
    {
      formData := InitialForm;
      imageSelected := None;
      errors := [];
      isLoading := false;
      InitialFormValid();
    }

    /**
     * `handleChange` for a text input: the field gets the text (the parsed
     * number for `price`) and its error is cleared; nothing else changes.
     */
    method HandleChange(name: string, value: string, parsedPrice: JsValue)
      requires Valid()
      modifies this
      ensures Valid()
      ensures formData == SetField(old(formData), name, if name == "price" then parsedPrice else JStr(value))
      ensures errors == SetField(old(errors), name, JStr(""))
      ensures imageSelected == old(imageSelected) && isLoading == old(isLoading)
    {
      var v := if name == "price" then parsedPrice else JStr(value);
      var nf := SetField(formData, name, v);
      var ne := SetField(errors, name, JStr(""));
      SetFieldKeepsForm(formData, name, v);
      formData, errors := nf, ne;
    }

    /** Choosing a file: it is selected, its name stands in the image field, and the image error is cleared. */
    method ChooseFile(fileName: string)
      requires Valid()
      modifies this
      ensures Valid()
      ensures imageSelected == Some(fileName)
      ensures formData == SetField(old(formData), "image", JStr(fileName))
      ensures errors == SetField(old(errors), "image", JStr(""))
      ensures isLoading == old(isLoading)
    {
      var nf := SetField(formData, "image", JStr(fileName));
      var ne := SetField(errors, "image", JStr(""));
      SetFieldKeepsForm(formData, "image", JStr(fileName));
      formData, errors, imageSelected := nf, ne, Some(fileName);
    }

    /**
     * `handleSubmit`.  With an error the errors object is replaced and
     * nothing is sent.  Otherwise the image is uploaded: without a selected
     * file, or when the upload fails, the image error is set and nothing is
     * sent; an empty URL also sends nothing.  With a URL, the form is posted
     * with only its image replaced by the URL, and the form closes when the
     * post succeeds.  Loading ends false on every path.  The submit button
     * is disabled while loading.
     */
    method Submit(uploaded: Option<string>, postOk: bool) returns (request: Option<Request>, closed: bool)
      requires Valid() && !isLoading
      modifies this
      ensures Valid()
      ensures formData == old(formData) && imageSelected == old(imageSelected) && !isLoading
      ensures var errs := SubmitErrors(old(formData), old(imageSelected).Some?);
              (errs != [] ==> request == None && errors == errs && !closed) &&
              (errs == [] && old(imageSelected).None? ==>
                 request == None && errors == SetField(old(errors), "image", JStr(NoImageText)) && !closed) &&
              (errs == [] && old(imageSelected).Some? && uploaded.None? ==>
                 request == None && errors == SetField(old(errors), "image", JStr(UploadFailedText)) && !closed) &&
              (errs == [] && old(imageSelected).Some? && uploaded == Some("") ==>
                 request == None && errors == old(errors) && !closed) &&
              (errs == [] && old(imageSelected).Some? && uploaded.Some? && uploaded.value != "" ==>
                 request == Some(Post(CreateEndpoint, SavePayload(old(formData), JStr(uploaded.value)))) &&
                 errors == old(errors) && closed == postOk)
    {
      var newErrors := CollectErrors(Keys(formData), formData, Missing(imageSelected.Some?), Message);
      if |newErrors| > 0 {
        errors := newErrors;
        request := None;
        closed := false;
        return;
      }
      isLoading := true;
      var imageUrl: Option<string>;
      if imageSelected.None? {
        errors := SetField(errors, "image", JStr(NoImageText));
        imageUrl := None;
      } else if uploaded.None? {
        errors := SetField(errors, "image", JStr(UploadFailedText));
        imageUrl := None;
      } else {
        imageUrl := uploaded;
      }
      if imageUrl.None? || imageUrl.value == "" {
        isLoading := false;
        request := None;
        closed := false;
        return;
      }
      request := Some(Post(CreateEndpoint, SavePayload(formData, JStr(imageUrl.value))));
      closed := postOk;
      isLoading := false;
    }
  }
}
