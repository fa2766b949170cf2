/**
 * The Music "Enrolled Students" page: the list of enrolments with a search
 * box, a spreadsheet of the listed enrolments, and a PDF of one enrolment.
 * Unlike the After School export, the PDF flattens array values into one
 * text cell, draws nothing for an empty forms array, and draws the
 * "No forms available" row only for a forms value that is not an array.
 */
module MusicEnrolledStudents {
  import opened Strings
  import opened Wrappers
  import opened JsValues
  import opened FormatKey
  import opened Search
  import opened Pdf
  import opened Enrollments

  const FormsKey := "MusciProgramForms"
  const Title := "Music Classes Form Details"

  /** The filter effect: the whole list for a blank query, else the matching enrolments in order. */
  function FilteredData(data: seq<Enrollment>, query: string): (r: seq<Enrollment>)
    ensures Seqs.IsSubsequence(r, data)
    ensures Trim(query) == "" ==> r == data
    ensures Trim(query) != "" ==> forall e :: e in r <==> e in data && MatchesLowered(LowerAll(query), WhoOf(e))
    ensures Trim(query) != "" ==>
              forall e :: multiset(r)[e] == if MatchesLowered(LowerAll(query), WhoOf(e)) then multiset(data)[e] else 0
  {
    FilterEnrolled(data, query, WhoOf)
  }

  // ---------------------------------------------------------------------
  // The spreadsheet

  /** One spreadsheet line: the four columns, each as the value the sheet receives. */
  datatype ExcelRow = ExcelRow(registrationId: JsValue, parentFirstName: JsValue, parentLastName: JsValue, programBought: JsValue)

  /** `v || " "`. */
  function OrSpace(v: JsValue): JsValue
  {
    if Truthy(v) then v else JStr(" ")
  }

  /** The spreadsheet line of one enrolment, or `None` when reading its forms' length throws. */
  function ExcelRowOf(e: Enrollment): Option<ExcelRow>
  {
    match LengthOf(Get(e.entries, FormsKey))
    case None => None
    case Some(n) =>
      Some(ExcelRow(OrSpace(JNum(e.registrationId)), OrSpace(JStr(e.parentFirstName)),
                    OrSpace(JStr(e.parentLastName)), OrSpace(n)))
  }

  /** `filteredData.map(...)`; `None` when the callback throws for some enrolment. */
  function ExcelRows(filtered: seq<Enrollment>): Option<seq<ExcelRow>>
  {
    if exists i :: 0 <= i < |filtered| && ExcelRowOf(filtered[i]).None? then None
    else Some(seq(|filtered|, i requires 0 <= i < |filtered| => ExcelRowOf(filtered[i]).GetOr(ExcelRow(JUndefined, JUndefined, JUndefined, JUndefined))))
  }

  /** `handleExcelDownload`: the lines of the currently listed enrolments. */
  function ExcelExport(data: seq<Enrollment>, query: string): Option<seq<ExcelRow>>
  {
    ExcelRows(FilteredData(data, query))
  }

  /**
   * The spreadsheet has one line per listed enrolment, in list order, exactly
   * when every listed enrolment has a forms attribute; line `i` shows the
   * id, the names, and the number of forms, each falsy value as " ", so an
   * id 0, an empty name or an empty forms array shows " ".
   */
  lemma ExcelRowsLayout(filtered: seq<Enrollment>)
    ensures ExcelRows(filtered).Some? <==> forall i :: 0 <= i < |filtered| ==> !Nullish(Get(filtered[i].entries, FormsKey))
    ensures ExcelRows(filtered).Some? ==>
              |ExcelRows(filtered).value| == |filtered| &&
              forall i :: 0 <= i < |filtered| ==> ExcelLine(ExcelRows(filtered).value[i], filtered[i])
  {
    if ExcelRows(filtered).Some? {
      var rows := ExcelRows(filtered).value;
      forall i | 0 <= i < |filtered| ensures ExcelLine(rows[i], filtered[i]) {
        assert ExcelRowOf(filtered[i]).Some?;
      }
    } else {
      var i :| 0 <= i < |filtered| && ExcelRowOf(filtered[i]).None?;
      assert Nullish(Get(filtered[i].entries, FormsKey));
    }
  }

  /** What line `row` shows for enrolment `e`. */
  predicate ExcelLine(row: ExcelRow, e: Enrollment)
  {
    row.registrationId == (if e.registrationId != 0 then JNum(e.registrationId) else JStr(" ")) &&
    row.parentFirstName == (if e.parentFirstName != "" then JStr(e.parentFirstName) else JStr(" ")) &&
    row.parentLastName == (if e.parentLastName != "" then JStr(e.parentLastName) else JStr(" ")) &&
    (Get(e.entries, FormsKey).JArray? ==>
       var n := |Get(e.entries, FormsKey).items|;
       row.programBought == if n > 0 then JNum(n) else JStr(" "))
  }

  // ---------------------------------------------------------------------
  // The PDF table cells

  /** `Object.entries(o).map(([k, v]) => `${k}: ${v}`).join(", ")`. */
  function PairsText(o: JsObject): (r: string)
    ensures |o| == 1 ==> r == o[0].0 + ": " + ToString(o[0].1)
  {
    Join(PairTexts(o), ", ")
  }

  function PairTexts(o: JsObject): seq<string>
  {
    seq(|o|, k requires 0 <= k < |o| => o[k].0 + ": " + ToString(o[k].1))
  }

  /**
   * An object's text is its entries' texts in order, separated by ", ":
   * splitting the entries anywhere splits the text at a ", ".
   */
  lemma PairsTextAppend(a: JsObject, b: JsObject)
    requires |a| >= 1 && |b| >= 1
    ensures PairsText(a + b) == PairsText(a) + ", " + PairsText(b)
  {
    assert PairTexts(a + b) == PairTexts(a) + PairTexts(b);
    JoinAppend(PairTexts(a), PairTexts(b), ", ");
  }

  /**
   * What the `map` callback turns one array element into, as `join` then
   * renders it: an object or array becomes its "k: v" pairs, anything else
   * is kept (undefined renders as ""); `None` when the element is null,
   * whose `typeof` is "object" and on which `Object.entries` throws.  A
   * helper: its contract spells the cases out.
   */
  function ElementText(x: JsValue): (r: Option<string>)
    ensures r.None? <==> x.JNull?
    ensures x.JObject? ==> r == Some(PairsText(x.fields))
    ensures !IsObjectType(x) ==> r == Some(ElementString(x))
  {
    if x.JNull? then None
    else if IsObjectType(x) then Some(PairsText(ObjectEntries(x).value))
    else Some(ElementString(x))
  }

  /** The flattened text of an array value: the elements' texts joined with ", ". */
  function FlattenArray(xs: seq<JsValue>): (r: Option<string>)
    ensures r.None? <==> exists k :: 0 <= k < |xs| && xs[k].JNull?
  {
    if exists k :: 0 <= k < |xs| && xs[k].JNull? then None
    else Some(Join(seq(|xs|, k requires 0 <= k < |xs| => ElementText(xs[k]).GetOr("")), ", "))
  }

  /**
   * The value column of `generateTable`: an array is flattened, anything
   * else is `value || "N/A"`.  A helper: its contract spells the cases out.
   */
  function CellFor(value: JsValue): (r: Option<Cell>)
    ensures !value.JArray? ==> r == Some(OrNA(Value(value)))
    ensures value.JArray? ==> (r.None? <==> FlattenArray(value.items).None?)
  {
    if value.JArray? then
      match FlattenArray(value.items)
      case None => None
      case Some(s) => Some(Value(JStr(s)))
    else Some(OrNA(Value(value)))
  }

  /**
   * The flattening rule: an array of objects shows each object's "k: v"
   * pairs, objects separated by ", "; an array of strings shows them joined
   * by ", "; an empty array shows an empty cell rather than "N/A"; a null
   * element makes the table throw.
   */
  lemma FlattenArrayCases(xs: seq<JsValue>)
    ensures (forall k :: 0 <= k < |xs| ==> xs[k].JObject?) ==>
              CellFor(JArray(xs)) == Some(Value(JStr(Join(seq(|xs|, k requires 0 <= k < |xs| => PairsText(xs[k].fields)), ", "))))
    ensures (forall k :: 0 <= k < |xs| ==> xs[k].JStr?) ==>
              CellFor(JArray(xs)) == Some(Value(JStr(Join(seq(|xs|, k requires 0 <= k < |xs| => xs[k].s), ", "))))
    ensures xs == [] ==> CellFor(JArray(xs)) == Some(Value(JStr("")))
    ensures (exists k :: 0 <= k < |xs| && xs[k].JNull?) ==> CellFor(JArray(xs)).None?
  {
    if forall k :: 0 <= k < |xs| ==> xs[k].JObject? {
      forall k | 0 <= k < |xs| ensures ElementText(xs[k]).GetOr("") == PairsText(xs[k].fields) {
        assert ObjectEntries(xs[k]).value == xs[k].fields;
      }
      assert seq(|xs|, k requires 0 <= k < |xs| => ElementText(xs[k]).GetOr(""))
          == seq(|xs|, k requires 0 <= k < |xs| => PairsText(xs[k].fields));
    }
    if forall k :: 0 <= k < |xs| ==> xs[k].JStr? {
      forall k | 0 <= k < |xs| ensures ElementText(xs[k]).GetOr("") == xs[k].s {
        assert ElementString(xs[k]) == ToString(xs[k]);
      }
      assert seq(|xs|, k requires 0 <= k < |xs| => ElementText(xs[k]).GetOr(""))
          == seq(|xs|, k requires 0 <= k < |xs| => xs[k].s);
    }
  }

  /** Every cell of the entries renders without throwing. */
  predicate CellsRender(entries: JsObject)
  {
    forall k :: 0 <= k < |entries| ==> CellFor(entries[k].1).Some?
  }

  /**
   * The rows of one table: a row per entry, `None` when some cell throws.
   * A helper: its contract spells the body out pointwise.
   */
  function TableRows(entries: JsObject): (r: Option<seq<Row>>)
    ensures r.Some? <==> CellsRender(entries)
    ensures r.Some? ==> (|r.value| == |entries| &&
              forall k :: 0 <= k < |entries| ==> r.value[k] == Row(LabelForPdf(entries[k].0), CellFor(entries[k].1).value))
  {
    if CellsRender(entries) then
      Some(seq(|entries|, k requires 0 <= k < |entries| => Row(LabelForPdf(entries[k].0), CellFor(entries[k].1).GetOr(NA))))
    else None
  }

  /** The table of one program form; `None` when the form is nullish or one of its cells throws. */
  function FormTable(form: JsValue): Option<seq<Row>>
  {
    match ObjectEntries(form)
    case None => None
    case Some(entries) => TableRows(entries)
  }

  // ---------------------------------------------------------------------
  // The PDF

  /** `generateTable` of one row: the table at the cursor, and the cursor ten below its end. */
  function OneRowTable(key: string, value: JsValue, y: int, finalY: Layout): Option<(seq<PdfOp>, int)>
  {
    match CellFor(value)
    case None => None
    case Some(c) =>
      var rows := [Row(LabelForPdf(key), c)];
      Some(([Table(y, rows)], finalY(y, rows) + 10))
  }

  /**
   * What one attribute of the record draws, and the cursor after it; `None`
   * when it throws.  The forms attribute draws its forms when it is an array
   * (nothing at all when that array is empty) and a "No forms available" row
   * otherwise; every other attribute draws a one-row table.
   */
  function EntryOps(key: string, value: JsValue, y: int, finalY: Layout): Option<(seq<PdfOp>, int)>
  {
    if key == FormsKey then
      if value.JArray? then ItemSections(value.items, FormTable, ProgramHeading, y, finalY)
      else OneRowTable(key, JStr("No forms available"), y, finalY)
    else OneRowTable(key, value, y, finalY)
  }

  function Step(finalY: Layout): EntryStep
  {
    (key: string, value: JsValue, y: int) => EntryOps(key, value, y, finalY)
  }

  /** The document `handleDownload` saves, or `None` when it returns early or throws. */
  function Download(data: seq<Enrollment>, registrationId: int, finalY: Layout): Option<Document>
  {
    match FindById(data, registrationId)
    case None => None
    case Some(e) =>
      match Then([Text(Title, 10, 10)], Walk(e.entries, 0, 20, Step(finalY)))
      case None => None
      case Some(ops) => Some(Document(ops, "Registration_" + IntToString(e.registrationId) + ".pdf"))
  }

  /** `generateTable([{ key, value }])`. */
  method DrawOneRow(key: string, value: JsValue, yOffset: int, finalY: Layout) returns (ok: bool, part: seq<PdfOp>, y: int)
    ensures OneRowTable(key, value, yOffset, finalY) == if ok then Some((part, y)) else None
  {
    var cell := CellFor(value);
    if cell.None? {
      return false, [], yOffset;
    }
    var rows := [Row(LabelForPdf(key), cell.value)];
    return true, [Table(yOffset, rows)], finalY(yOffset, rows) + 10;
  }

  /** One pass of the `for ... of` body: what one attribute draws, or `ok == false` when it throws. */
  method DrawEntry(key: string, value: JsValue, yOffset: int, finalY: Layout) returns (ok: bool, part: seq<PdfOp>, y: int)
    ensures EntryOps(key, value, yOffset, finalY) == if ok then Some((part, y)) else None
  {
    if key != FormsKey {
      ok, part, y := DrawOneRow(key, value, yOffset, finalY);
    } else if value.JArray? {
      ok, part, y := DrawItems(value.items, FormTable, ProgramHeading, yOffset, finalY);
    } else {
      ok, part, y := DrawOneRow(key, JStr("No forms available"), yOffset, finalY);
    }
  }

  /** `handleDownload`: the lookup, then the `for ... of` over the record's attributes. */
  method HandleDownload(data: seq<Enrollment>, registrationId: int, finalY: Layout) returns (doc: Option<Document>)
    ensures doc == Download(data, registrationId, finalY)
  {
    var found := FindById(data, registrationId);
    if found.None? {
      return None;
    }
    var entries := found.value.entries;
    var ops := [Text(Title, 10, 10)];
    var yOffset := 20;
    var i := 0;
    while i < |entries|
      invariant 0 <= i <= |entries|
      invariant Then(ops, Walk(entries, i, yOffset, Step(finalY))) == Then([Text(Title, 10, 10)], Walk(entries, 0, 20, Step(finalY)))
      decreases |entries| - i
    {
      var ok, part, y2 := DrawEntry(entries[i].0, entries[i].1, yOffset, finalY);
      if !ok {
        return None;
      }
      ThenAssoc(ops, part, Walk(entries, i + 1, y2, Step(finalY)));
      ops := ops + part;
      yOffset := y2;
      i := i + 1;
    }
    assert ops + [] == ops;
    doc := Some(Document(ops, "Registration_" + IntToString(found.value.registrationId) + ".pdf"));
  }

  // ---------------------------------------------------------------------
  // Properties of the export

  /**
   * The download finds the first enrolment with the requested id: with no
   * such enrolment there is no document; a saved document is named
   * "Registration_<id>.pdf" and starts with the title line.
   */
  lemma DownloadFindsEnrollment(data: seq<Enrollment>, registrationId: int, finalY: Layout)
    ensures (forall k :: 0 <= k < |data| ==> data[k].registrationId != registrationId) ==>
              Download(data, registrationId, finalY).None?
    ensures Download(data, registrationId, finalY).Some? ==>
              Download(data, registrationId, finalY).value.fileName == "Registration_" + IntToString(registrationId) + ".pdf" &&
              Download(data, registrationId, finalY).value.ops[0] == Text(Title, 10, 10)
  {
  }

  /**
   * The forms of an array attribute (see `NoFormsRow`), when every table
   * builds: an empty array draws nothing and leaves the cursor where it was;
   * otherwise a heading and a table per form, and the cursor ends where the
   * forms leave it (`FormAt` places each form).
   */
  lemma FormsLayout(forms: seq<JsValue>, y: int, finalY: Layout)
    requires AllTables(forms, FormTable)
    ensures forms == [] ==> ItemSections(forms, FormTable, ProgramHeading, y, finalY) == Some(([], y))
    ensures ItemSections(forms, FormTable, ProgramHeading, y, finalY).Some?
    ensures var (ops, y2) := ItemSections(forms, FormTable, ProgramHeading, y, finalY).value;
            |ops| == 2 * |forms| &&
            y2 == Cursor(ItemTables(forms, FormTable), |forms|, y, finalY)
  {
    SectionsLength(ItemTables(forms, FormTable), ProgramHeading, 0, y, finalY);
  }

  /**
   * Form `k`: the heading "Program <k+1>:" at the cursor the earlier forms
   * leave, and the form's table ten units lower.
   */
  lemma FormAt(forms: seq<JsValue>, y: int, finalY: Layout, k: nat)
    requires AllTables(forms, FormTable) && k < |forms|
    ensures ItemSections(forms, FormTable, ProgramHeading, y, finalY).Some?
    ensures var ops := ItemSections(forms, FormTable, ProgramHeading, y, finalY).value.0;
            2 * k + 1 < |ops| &&
            ops[2 * k] == Text(ProgramHeading(k), 10, Cursor(ItemTables(forms, FormTable), k, y, finalY)) &&
            ops[2 * k + 1] == Table(Cursor(ItemTables(forms, FormTable), k, y, finalY) + 10, FormTable(forms[k]).value)
  {
    SectionsAt(ItemTables(forms, FormTable), ProgramHeading, y, finalY, k);
  }

  /**
   * "No forms available" appears only for the forms attribute, and there
   * exactly when its value is not an array.
   */
  lemma NoFormsRow(value: JsValue, y: int, finalY: Layout)
    ensures !value.JArray? ==>
              EntryOps(FormsKey, value, y, finalY) == OneRowTable(FormsKey, JStr("No forms available"), y, finalY)
    ensures value.JArray? ==> EntryOps(FormsKey, value, y, finalY) == ItemSections(value.items, FormTable, ProgramHeading, y, finalY)
  {
  }

  /**
   * Any other attribute draws a one-row table of its label and its cell at
   * the cursor, "N/A" for a falsy value that is not an array, and moves the
   * cursor ten units below that table.
   */
  lemma OtherEntriesLayout(key: string, value: JsValue, y: int, finalY: Layout)
    requires key != FormsKey
    ensures CellFor(value).Some? ==>
              var rows := [Row(LabelForPdf(key), CellFor(value).value)];
              EntryOps(key, value, y, finalY) == Some(([Table(y, rows)], finalY(y, rows) + 10))
    ensures !value.JArray? && !Truthy(value) ==>
              EntryOps(key, value, y, finalY).value.0 == [Table(y, [Row(LabelForPdf(key), NA)])]
  {
  }
}
