/**
 * What the two "Enrolled Students" pages (After School and Music) share: the
 * enrolment record the backend sends, the lookup by registration id, and the
 * numbered program headings of their PDF exports.
 */
module Enrollments {
  import opened Strings
  import opened Wrappers
  import opened JsValues
  import opened Search

  /**
   * An enrolment.  `entries` is the whole record as `Object.entries` lists
   * it (its id, names, expiry date and its program forms); the other
   * fields are the attributes the search box and the lookup read.
   */
  datatype Enrollment = Enrollment(registrationId: int, parentFirstName: string, parentLastName: string, entries: JsObject)

  /**
   * The separate fields are read out of the record: each agrees with the
   * record's own attribute of that name.
   */
  predicate ReadFromRecord(e: Enrollment)
  {
    Lookup(e.entries, "registrationId") == Some(JNum(e.registrationId)) &&
    Lookup(e.entries, "parentFirstName") == Some(JStr(e.parentFirstName)) &&
    Lookup(e.entries, "parentLastName") == Some(JStr(e.parentLastName))
  }

  function WhoOf(e: Enrollment): Who
  {
    Who(e.registrationId, e.parentFirstName, e.parentLastName)
  }

  /** `data.find(form => form.registrationId === registrationId)`. */
  function FindById(data: seq<Enrollment>, registrationId: int): (r: Option<Enrollment>)
    ensures r.None? <==> forall k :: 0 <= k < |data| ==> data[k].registrationId != registrationId
    ensures r.Some? ==> exists k :: 0 <= k < |data| && data[k] == r.value && data[k].registrationId == registrationId &&
                                   forall j :: 0 <= j < k ==> data[j].registrationId != registrationId
  {
    if data == [] then None
    else if data[0].registrationId == registrationId then
      Some(data[0])
    else
      var r := FindById(data[1..], registrationId);
      assert forall k :: 1 <= k < |data| ==> data[k] == data[1..][k - 1];
      if r.Some? then
        var k :| 0 <= k < |data[1..]| && data[1..][k] == r.value && data[1..][k].registrationId == registrationId &&
                 forall j :: 0 <= j < k ==> data[1..][j].registrationId != registrationId;
        assert data[k + 1] == r.value;
        r
      else r
  }

  /** A value `Object.entries` throws on. */
  predicate Nullish(v: JsValue)
  {
    v.JNull? || v.JUndefined?
  }

  function ProgramHeading(k: nat): string
  {
    "Program " + NatToString(k + 1) + ":"
  }
}
