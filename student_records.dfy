/**
 * A registration as the Users and Payment pages receive it from the backend:
 * the parent, the registration id, and one array of forms per program
 * category.  Each array may be missing from the payload.
 */
module StudentRecords {
  import opened Wrappers
  import opened JsValues
  import opened Search

  datatype StudentData = StudentData(
    parentFirstName: string,
    parentLastName: string,
    registrationId: int,
    amount: string,
    afterSchoolProgramForms: Option<seq<JsObject>>,
    musciProgramForms: Option<seq<JsObject>>,
    onlineTutoringForms: Option<seq<JsObject>>,
    privateAndTestPrepForms: Option<seq<JsObject>>,
    singleProgramForms: Option<seq<JsObject>>,
    campForms: Option<seq<JsObject>>)

  /** What the search box looks at. */
  function WhoOf(s: StudentData): Who
  {
    Who(s.registrationId, s.parentFirstName, s.parentLastName)
  }

  /**
   * All forms of a registration, category after category (After School,
   * Music, Online Tutoring, Private and Test Prep, Single Program, Camp).  A
   * missing Online Tutoring array counts as empty (`|| []`); spreading any
   * other missing array throws, which is `None`.
   */
  function AllForms(s: StudentData): (r: Option<seq<JsObject>>)
    ensures r.Some? <==>
              s.afterSchoolProgramForms.Some? && s.musciProgramForms.Some? &&
              s.privateAndTestPrepForms.Some? && s.singleProgramForms.Some? && s.campForms.Some?
  {
    if s.afterSchoolProgramForms.None? || s.musciProgramForms.None? ||
       s.privateAndTestPrepForms.None? || s.singleProgramForms.None? || s.campForms.None?
    then None
    else
      Some(s.afterSchoolProgramForms.value + s.musciProgramForms.value + s.onlineTutoringForms.GetOr([])
           + s.privateAndTestPrepForms.value + s.singleProgramForms.value + s.campForms.value)
  }
}
