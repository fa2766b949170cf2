/**
 * The required-field checks of the add forms and the wizard: a pass over a
 * list of field names that records an error message under every field whose
 * value fails the form's test, in a fresh errors object.
 */
module FormErrors {
  import opened Wrappers
  import opened JsValues

  /** A form's test of one field: true when the field must be reported. */
  type FieldTest = (string, JsValue) -> bool

  /**
   * The errors object after visiting `fields` in order: `newErrors[field] =
   * message(field)` for each field whose value fails `missing`.
   */
  function RequiredErrors(fields: seq<string>, form: JsObject, missing: FieldTest, message: string -> string): JsObject
    decreases |fields|
  {
    if fields == [] then []
    else
      var f := fields[|fields| - 1];
      var errs := RequiredErrors(fields[..|fields| - 1], form, missing, message);
      if missing(f, Get(form, f)) then SetField(errs, f, JStr(message(f))) else errs
  }

  /** The fields that fail, in order. */
  function FailingFields(fields: seq<string>, form: JsObject, missing: FieldTest): seq<string>
    decreases |fields|
  {
    if fields == [] then []
    else
      var f := fields[|fields| - 1];
      FailingFields(fields[..|fields| - 1], form, missing) + (if missing(f, Get(form, f)) then [f] else [])
  }

  /**
   * A field has an error exactly when it is listed and fails the test, and
   * then its error is its message; the keys are distinct; and there is no
   * error at all exactly when every listed field passes.
   */
  lemma {:induction false} RequiredErrorsSpec(fields: seq<string>, form: JsObject, missing: FieldTest, message: string -> string)
    ensures var errs := RequiredErrors(fields, form, missing, message);
            forall k :: Lookup(errs, k) == if k in fields && missing(k, Get(form, k)) then Some(JStr(message(k))) else None
    ensures UniqueKeys(RequiredErrors(fields, form, missing, message))
    ensures RequiredErrors(fields, form, missing, message) == [] <==> forall i :: 0 <= i < |fields| ==> !missing(fields[i], Get(form, fields[i]))
  {
    var errs := RequiredErrors(fields, form, missing, message);
    if fields != [] {
      var f := fields[|fields| - 1];
      var prefix := fields[..|fields| - 1];
      assert fields == prefix + [f];
      RequiredErrorsSpec(prefix, form, missing, message);
      if missing(f, Get(form, f)) {
        SetFieldUnique(RequiredErrors(prefix, form, missing, message), f, JStr(message(f)));
      }
    }
    if errs != [] {
      var k := errs[0].0;
      assert k in Keys(errs);
      assert Lookup(errs, k).Some?;
    }
    if errs == [] {
      forall i | 0 <= i < |fields|
        ensures !missing(fields[i], Get(form, fields[i]))
      {
        assert Lookup(errs, fields[i]) == None;
      }
    }
  }

  /** When the listed fields are distinct, the errors' keys are the failing fields in list order. */
  lemma {:induction false} RequiredErrorsKeys(fields: seq<string>, form: JsObject, missing: FieldTest, message: string -> string)
    requires forall i, j :: 0 <= i < j < |fields| ==> fields[i] != fields[j]
    ensures Keys(RequiredErrors(fields, form, missing, message)) == FailingFields(fields, form, missing)
  {
    if fields != [] {
      var f := fields[|fields| - 1];
      var prefix := fields[..|fields| - 1];
      var errs := RequiredErrors(prefix, form, missing, message);
      RequiredErrorsKeys(prefix, form, missing, message);
      if missing(f, Get(form, f)) {
        RequiredErrorsSpec(prefix, form, missing, message);
        assert f !in prefix;
        assert Lookup(errs, f) == None;
        SetFieldKeys(errs, f, JStr(message(f)));
      }
    }
  }

  /** When every listed field fails, every one of them is reported. */
  lemma {:induction false} AllFailing(fields: seq<string>, form: JsObject, missing: FieldTest)
    requires forall i :: 0 <= i < |fields| ==> missing(fields[i], Get(form, fields[i]))
    ensures FailingFields(fields, form, missing) == fields
  {
    if fields != [] {
      var prefix := fields[..|fields| - 1];
      assert forall i :: 0 <= i < |prefix| ==> prefix[i] == fields[i];
      AllFailing(prefix, form, missing);
      assert fields == prefix + [fields[|fields| - 1]];
    }
  }

  /** The `forEach` that fills `newErrors`. */
  method CollectErrors(fields: seq<string>, form: JsObject, missing: FieldTest, message: string -> string) returns (errs: JsObject)
    ensures errs == RequiredErrors(fields, form, missing, message)
  {
    errs := [];
    var i := 0;
    while i < |fields|
      invariant 0 <= i <= |fields|
      invariant errs == RequiredErrors(fields[..i], form, missing, message)
      decreases |fields| - i
    {
      var field := fields[i];
      if missing(field, Get(form, field)) {
        errs := SetField(errs, field, JStr(message(field)));
      }
      assert fields[..i + 1][..i] == fields[..i];
      i := i + 1;
    }
    assert fields[..i] == fields;
  }
}
