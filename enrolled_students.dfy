/**
 * The After School "Enrolled Students" page: the list of enrolments with a
 * search box, and a PDF of one enrolment that walks the record's attributes
 * in order.  The After School forms become one heading and table each; every
 * other attribute becomes a one-row table.
 */
module EnrolledStudents {
  import opened Strings
  import opened Wrappers
  import opened JsValues
  import opened FormatKey
  import opened Search
  import opened Pdf
  import opened Enrollments

  /** The filter effect: the whole list for a blank query, else the matching enrolments in order. */
  function FilteredData(data: seq<Enrollment>, query: string): (r: seq<Enrollment>)
    ensures Seqs.IsSubsequence(r, data)
    ensures Trim(query) == "" ==> r == data
    ensures Trim(query) != "" ==> forall e :: e in r <==> e in data && MatchesLowered(LowerAll(query), WhoOf(e))
    ensures Trim(query) != "" ==>
              forall e :: multiset(r)[e] == if MatchesLowered(LowerAll(query), WhoOf(e)) then multiset(data)[e] else 0
  {
    FilterEnrolled(data, query, WhoOf)
  }

  // ---------------------------------------------------------------------
  // Drawing

  const FormsKey := "AfterSchoolProgramForms"
  const Title := "After School Program Details"

  /**
   * `addContent(key, value)`: one "<label>: <value>" line.  When the line
   * would pass 280 a new page starts and the line goes to 10.  Either way the
   * line sits at most at 270 and the cursor ends ten below it, at most at 280.
   */
  function AddContent(key: string, value: JsValue, y: int): (r: (seq<PdfOp>, int))
    ensures var line := LabelForPdf(key) + ": " + ToString(if Truthy(value) then value else JStr("N/A"));
            (y + 10 > 280 ==> r.0 == [AddPage, Text(line, 10, 10)]) &&
            (y + 10 <= 280 ==> r.0 == [Text(line, 10, y)])
    ensures r.0[|r.0| - 1].Text? && r.0[|r.0| - 1].y <= 270 && r.1 == r.0[|r.0| - 1].y + 10 && r.1 <= 280
  {
    var line := LabelForPdf(key) + ": " + ToString(if Truthy(value) then value else JStr("N/A"));
    if y + 10 > 280 then ([AddPage, Text(line, 10, 10)], 20)
    else ([Text(line, 10, y)], y + 10)
  }

  /** The table rows of one form: `[formatKey(key), value || "N/A"]` per entry. */
  function FormRows(form: JsObject): seq<Row>
  {
    seq(|form|, k requires 0 <= k < |form| => Row(LabelForPdf(form[k].0), OrNA(Value(form[k].1))))
  }

  /** The table of one form; `None` for a nullish form, which makes `Object.entries` throw. */
  function FormTable(form: JsValue): (r: Option<seq<Row>>)
    ensures r.None? <==> Nullish(form)
    ensures r.Some? ==> r.value == FormRows(ObjectEntries(form).value)
  {
    match ObjectEntries(form)
    case None => None
    case Some(entries) => Some(FormRows(entries))
  }

  /**
   * What one attribute of the record draws, and the cursor after it; `None`
   * when it throws.  The forms attribute: `value.length` throws on a nullish
   * value; a length above zero on anything but an array makes `forEach`
   * throw; any other value draws "No forms available".
   */
  function EntryOps(key: string, value: JsValue, y: int, finalY: Layout): Option<(seq<PdfOp>, int)>
  {
    if key == FormsKey then
      match LengthOf(value)
      case None => None
      case Some(n) =>
        if !GreaterThanZero(n) then Some(AddContent(key, JStr("No forms available"), y))
        else if value.JArray? then ItemSections(value.items, FormTable, ProgramHeading, y, finalY)
        else None
    else
      var rows := [Row(LabelForPdf(key), OrNA(Value(value)))];
      Some(([Table(y, rows)], finalY(y, rows) + 10))
  }

  function Step(finalY: Layout): EntryStep
  {
    (key: string, value: JsValue, y: int) => EntryOps(key, value, y, finalY)
  }

  /** The document `handleDownload` saves, or `None` when it returns early or throws. */
  function Download(data: seq<Enrollment>, registrationId: int, finalY: Layout): Option<Document>
  {
    match FindById(data, registrationId)
    case None => None
    case Some(e) =>
      match Then([Text(Title, 10, 10)], Walk(e.entries, 0, 20, Step(finalY)))
      case None => None
      case Some(ops) => Some(Document(ops, "Registration_" + IntToString(e.registrationId) + ".pdf"))
  }

  /** One pass of the `for ... of` body: what one attribute draws, or `ok == false` when it throws. */
  method DrawEntry(key: string, value: JsValue, yOffset: int, finalY: Layout) returns (ok: bool, part: seq<PdfOp>, y: int)
    ensures EntryOps(key, value, yOffset, finalY) == if ok then Some((part, y)) else None
  {
    if key == FormsKey {
      var n := LengthOf(value);
      if n.None? {
        return false, [], yOffset;
      } else if !GreaterThanZero(n.value) {
        var line := AddContent(key, JStr("No forms available"), yOffset);
        return true, line.0, line.1;
      } else if value.JArray? {
        ok, part, y := DrawItems(value.items, FormTable, ProgramHeading, yOffset, finalY);
      } else {
        return false, [], yOffset;
      }
    } else {
      var rows := [Row(LabelForPdf(key), OrNA(Value(value)))];
      return true, [Table(yOffset, rows)], finalY(yOffset, rows) + 10;
    }
  }

  /** `handleDownload`: the lookup, then the `for ... of` over the record's attributes. */
  method HandleDownload(data: seq<Enrollment>, registrationId: int, finalY: Layout) returns (doc: Option<Document>)
    ensures doc == Download(data, registrationId, finalY)
  {
    var found := FindById(data, registrationId);
    if found.None? {
      return None;
    }
    var entries := found.value.entries;
    var ops := [Text(Title, 10, 10)];
    var yOffset := 20;
    var i := 0;
    while i < |entries|
      invariant 0 <= i <= |entries|
      invariant Then(ops, Walk(entries, i, yOffset, Step(finalY))) == Then([Text(Title, 10, 10)], Walk(entries, 0, 20, Step(finalY)))
      decreases |entries| - i
    {
      var ok, part, y2 := DrawEntry(entries[i].0, entries[i].1, yOffset, finalY);
      if !ok {
        return None;
      }
      ThenAssoc(ops, part, Walk(entries, i + 1, y2, Step(finalY)));
      ops := ops + part;
      yOffset := y2;
      i := i + 1;
    }
    assert ops + [] == ops;
    doc := Some(Document(ops, "Registration_" + IntToString(found.value.registrationId) + ".pdf"));
  }

  // ---------------------------------------------------------------------
  // Properties of the export

  /**
   * The download finds the first enrolment with the requested id: with no
   * such enrolment there is no document; a saved document is named
   * "Registration_<id>.pdf" and starts with the title line.
   */
  lemma DownloadFindsEnrollment(data: seq<Enrollment>, registrationId: int, finalY: Layout)
    ensures (forall k :: 0 <= k < |data| ==> data[k].registrationId != registrationId) ==>
              Download(data, registrationId, finalY).None?
    ensures Download(data, registrationId, finalY).Some? ==>
              Download(data, registrationId, finalY).value.fileName == "Registration_" + IntToString(registrationId) + ".pdf" &&
              Download(data, registrationId, finalY).value.ops[0] == Text(Title, 10, 10)
  {
  }

  /**
   * A non-empty forms array draws its forms when none of them is nullish,
   * and throws otherwise.
   */
  lemma FormsDrawn(forms: seq<JsValue>, y: int, finalY: Layout)
    requires |forms| > 0
    ensures EntryOps(FormsKey, JArray(forms), y, finalY) == ItemSections(forms, FormTable, ProgramHeading, y, finalY)
    ensures EntryOps(FormsKey, JArray(forms), y, finalY).Some? <==> forall k :: 0 <= k < |forms| ==> !Nullish(forms[k])
  {
  }

  /**
   * Forms none of which is nullish draw a heading and a table per form, and
   * the cursor ends where the forms leave it (`FormAt` places each form).
   */
  lemma FormsLayout(forms: seq<JsValue>, y: int, finalY: Layout)
    requires forall k :: 0 <= k < |forms| ==> !Nullish(forms[k])
    ensures ItemSections(forms, FormTable, ProgramHeading, y, finalY).Some?
    ensures var (ops, y2) := ItemSections(forms, FormTable, ProgramHeading, y, finalY).value;
            |ops| == 2 * |forms| &&
            y2 == Cursor(ItemTables(forms, FormTable), |forms|, y, finalY)
  {
    assert AllTables(forms, FormTable);
    SectionsLength(ItemTables(forms, FormTable), ProgramHeading, 0, y, finalY);
  }

  /**
   * Form `k`: the heading "Program <k+1>:" at the cursor the earlier forms
   * leave, and the form's table ten units lower.
   */
  lemma FormAt(forms: seq<JsValue>, y: int, finalY: Layout, k: nat)
    requires (forall j :: 0 <= j < |forms| ==> !Nullish(forms[j])) && k < |forms|
    ensures ItemSections(forms, FormTable, ProgramHeading, y, finalY).Some?
    ensures var ops := ItemSections(forms, FormTable, ProgramHeading, y, finalY).value.0;
            2 * k + 1 < |ops| &&
            ops[2 * k] == Text(ProgramHeading(k), 10, Cursor(ItemTables(forms, FormTable), k, y, finalY)) &&
            ops[2 * k + 1] == Table(Cursor(ItemTables(forms, FormTable), k, y, finalY) + 10, FormRows(ObjectEntries(forms[k]).value))
  {
    assert AllTables(forms, FormTable);
    SectionsAt(ItemTables(forms, FormTable), ProgramHeading, y, finalY, k);
  }

  /**
   * The forms attribute draws the single "No forms available" line when it
   * is an empty array or string, a boolean, a number, NaN, or an object
   * whose `length` entry is missing or does not exceed zero.
   */
  lemma NoFormsLine(key: string, value: JsValue, y: int, finalY: Layout)
    requires key == FormsKey
    requires value.JBool? || value.JNum? || value.JNaN? || (value.JArray? && value.items == []) ||
             value == JStr("") || (value.JObject? && !GreaterThanZero(Get(value.fields, "length")))
    ensures EntryOps(key, value, y, finalY) == Some(AddContent(key, JStr("No forms available"), y))
  {
    if value.JObject? {
      LengthNotAboveZero(key, value, y, finalY, Get(value.fields, "length"));
    } else if value.JArray? || value.JStr? {
      LengthNotAboveZero(key, value, y, finalY, JNum(0));
    } else {
      LengthNotAboveZero(key, value, y, finalY, JUndefined);
    }
  }

  lemma LengthNotAboveZero(key: string, value: JsValue, y: int, finalY: Layout, n: JsValue)
    requires key == FormsKey && LengthOf(value) == Some(n) && !GreaterThanZero(n)
    ensures EntryOps(key, value, y, finalY) == Some(AddContent(key, JStr("No forms available"), y))
  {
  }

  /**
   * A non-empty string, or an object whose `length` entry exceeds zero,
   * passes the length test and then throws at `forEach`: nothing is saved.
   */
  lemma FormsNotArrayThrows(key: string, value: JsValue, y: int, finalY: Layout)
    requires key == FormsKey
    requires (value.JStr? && value.s != []) || (value.JObject? && GreaterThanZero(Get(value.fields, "length")))
    ensures EntryOps(key, value, y, finalY).None?
  {
    if value.JStr? {
      assert LengthOf(value) == Some(JNum(|value.s|)) && GreaterThanZero(JNum(|value.s|));
    } else {
      assert LengthOf(value) == Some(Get(value.fields, "length"));
    }
  }

  /** Every other attribute draws a one-row table whose value is "N/A" when falsy. */
  lemma OtherEntriesLayout(key: string, value: JsValue, y: int, finalY: Layout)
    ensures key != FormsKey ==>
              EntryOps(key, value, y, finalY)
                == Some(([Table(y, [Row(LabelForPdf(key), if Truthy(value) then Value(value) else NA)])],
                         finalY(y, [Row(LabelForPdf(key), if Truthy(value) then Value(value) else NA)]) + 10))
  {
  }
}
