/**
 * The Users page: every registration's forms as table rows, a search box, a
 * details modal for one form, its PDF export, and a spreadsheet export of
 * every form of every registration.
 */
module Users {
  import opened Strings
  import opened Wrappers
  import opened JsValues
  import opened FormatKey
  import opened Search
  import opened Pdf
  import opened StudentRecords

  // ---------------------------------------------------------------------
  // Search

  /** `filteredData`: the registrations the search query keeps, in their order. */
  function FilteredData(data: seq<StudentData>, query: string): (r: seq<StudentData>)
    ensures Seqs.IsSubsequence(r, data)
    ensures forall s :: s in r <==> s in data && MatchesNameOrId(query, WhoOf(s))
    ensures forall s :: multiset(r)[s] == if MatchesNameOrId(query, WhoOf(s)) then multiset(data)[s] else 0
  {
    FilterByNameOrId(data, query, WhoOf)
  }

  /** With nothing typed in the search box, every registration is listed. */
  lemma EmptySearchListsAll(data: seq<StudentData>)
    ensures FilteredData(data, "") == data
  {
    EmptyQueryKeepsAll(data, WhoOf);
  }

  // ---------------------------------------------------------------------
  // Cell values and child names

  /**
   * `getFieldValue`: a value of `typeof` "object" (null, an array, an
   * object) is shown stringified; any other value is shown as it is, or as
   * "N/A" when it is falsy.
   */
  function GetFieldValue(v: JsValue): (c: Cell)
    ensures CellTruthy(c)
    ensures IsObjectType(v) ==> c == Json(v)
    ensures !IsObjectType(v) && Truthy(v) ==> c == Value(v)
    ensures !IsObjectType(v) && !Truthy(v) ==> c == NA
  {
    if IsObjectType(v) then Json(v) else OrNA(Value(v))
  }

  /** The `|| "N/A"` the PDF table applies after `getFieldValue` never changes a cell. */
  lemma NAAfterGetFieldValue(v: JsValue)
    ensures OrNA(GetFieldValue(v)) == GetFieldValue(v)
    ensures v.JNull? ==> GetFieldValue(v) != NA
  {
  }

  /** Pairs of first-name and last-name attributes tried, in order, for the first child. */
  const Child1Keys: seq<(string, string)> := [
    ("child1FirstName", "child1LastName"),
    ("firstStudentFirstName", "firstStudentLastName"),
    ("camperFirstName", "camperLastName"),
    ("StudentFirstName", "StudentLastName")]

  /** The same for the second child. */
  const Child2Keys: seq<(string, string)> := [
    ("child2FirstName", "child2LastName"),
    ("firstStudentFirstName", "firstStudentLastName"),
    ("camperFirstName", "camperLastName"),
    ("StudentFirstName", "StudentLastName")]

  predicate HasName(program: JsObject, names: (string, string))
  {
    Truthy(Get(program, names.0)) && Truthy(Get(program, names.1))
  }

  function FullName(program: JsObject, names: (string, string)): string
  {
    ToString(Get(program, names.0)) + " " + ToString(Get(program, names.1))
  }

  /** The chain of conditional expressions that picks a child's name. */
  function ChildName(program: JsObject, candidates: seq<(string, string)>): string
  {
    if candidates == [] then ""
    else if HasName(program, candidates[0]) then FullName(program, candidates[0])
    else ChildName(program, candidates[1..])
  }

  /** The position of the first candidate pair with both names truthy, or the number of pairs when none has. */
  function FirstNamed(program: JsObject, candidates: seq<(string, string)>): (k: nat)
    ensures k <= |candidates|
    ensures k < |candidates| ==> HasName(program, candidates[k])
    ensures forall j :: 0 <= j < k ==> !HasName(program, candidates[j])
  {
    if candidates == [] then 0
    else if HasName(program, candidates[0]) then 0
    else
      var k := FirstNamed(program, candidates[1..]);
      assert forall j :: 1 <= j < k + 1 ==> candidates[j] == candidates[1..][j - 1];
      k + 1
  }

  /**
   * A child's name is the full name of the first candidate pair whose first
   * and last names are both truthy, and the empty string when there is none.
   */
  lemma {:induction false} ChildNameFirstMatch(program: JsObject, candidates: seq<(string, string)>)
    ensures FirstNamed(program, candidates) == |candidates| ==> ChildName(program, candidates) == ""
    ensures FirstNamed(program, candidates) < |candidates| ==>
              ChildName(program, candidates) == FullName(program, candidates[FirstNamed(program, candidates)])
  {
    if candidates != [] && !HasName(program, candidates[0]) {
      ChildNameFirstMatch(program, candidates[1..]);
    }
  }

  // ---------------------------------------------------------------------
  // One row per (registration, form)

  /** Every registration paired with each of its forms, registration by registration. */
  function Pairs(students: seq<StudentData>): (r: Option<seq<(StudentData, JsObject)>>)
    ensures r.Some? <==> forall i :: 0 <= i < |students| ==> AllForms(students[i]).Some?
  {
    if students == [] then Some([])
    else
      var rest := Pairs(students[1..]);
      assert forall i :: 1 <= i < |students| ==> students[i] == students[1..][i - 1];
      match AllForms(students[0])
      case None => None
      case Some(fs) =>
        if rest.None? then None
        else Some(seq(|fs|, j requires 0 <= j < |fs| => (students[0], fs[j])) + rest.value)
  }

  /** How many forms the registrations hold together (a missing list counts as none). */
  function FormCount(students: seq<StudentData>): nat
  {
    if students == [] then 0 else |AllForms(students[0]).GetOr([])| + FormCount(students[1..])
  }

  /** Form `j` of registration `i` is pair number `FormCount(students[..i]) + j`. */
  predicate PairAt(students: seq<StudentData>, i: nat, j: nat)
    requires i < |students| && Pairs(students).Some?
  {
    j < |AllForms(students[i]).value| &&
    FormCount(students[..i]) + j < |Pairs(students).value| &&
    Pairs(students).value[FormCount(students[..i]) + j] == (students[i], AllForms(students[i]).value[j])
  }

  /**
   * The pairs are laid out registration by registration and form by form:
   * form `j` of registration `i` is pair number `FormCount(students[..i]) + j`,
   * and there are no other pairs.
   */
  lemma {:induction false} PairsLayout(students: seq<StudentData>)
    requires Pairs(students).Some?
    ensures |Pairs(students).value| == FormCount(students)
    ensures forall i: nat, j: nat :: i < |students| && j < |AllForms(students[i]).value| ==> PairAt(students, i, j)
  {
    if students != [] {
      var tail := students[1..];
      assert forall i :: 0 <= i < |tail| ==> tail[i] == students[i + 1];
      PairsLayout(tail);
      var fs := AllForms(students[0]).value;
      var ps := Pairs(students).value;
      assert ps == seq(|fs|, j requires 0 <= j < |fs| => (students[0], fs[j])) + Pairs(tail).value;
      assert FormCount(students) == |fs| + FormCount(tail);
      forall i: nat, j: nat | i < |students| && j < |AllForms(students[i]).value|
        ensures PairAt(students, i, j)
      {
        if i == 0 {
          assert students[..0] == [];
          assert ps[j] == (students[0], fs[j]);
        } else {
          var pre := students[..i];
          assert pre[0] == students[0];
          assert pre[1..] == tail[..i - 1];
          assert FormCount(pre) == |fs| + FormCount(tail[..i - 1]);
          assert tail[i - 1] == students[i];
          assert PairAt(tail, i - 1, j);
          assert ps[|fs| + FormCount(tail[..i - 1]) + j] == Pairs(tail).value[FormCount(tail[..i - 1]) + j];
        }
      }
    }
  }

  /** A row of the page's table. */
  datatype TableRow = TableRow(registrationId: int, parentName: string, childName: string, amount: string)

  /** A row of the spreadsheet export. */
  datatype ExportRow = ExportRow(registrationId: int, parentName: string, child1Name: string, child2Name: string, amount: string)

  /**
   * The amount cell, "$" followed by `{program.amountPaidByUser || 0}`
   * rendered as a JSX child: a missing or falsy amount shows "$0", a string
   * or number shows its text, `true` shows nothing after the "$", and an
   * object cannot be rendered (`None`).
   */
  function AmountCell(program: JsObject): (r: Option<string>)
    ensures var paid := Get(program, "amountPaidByUser");
            (!Truthy(paid) ==> r == Some("$0")) &&
            (Truthy(paid) && (paid.JStr? || paid.JNum?) ==> r == Some("$" + ToString(paid))) &&
            (paid == JBool(true) ==> r == Some("$")) &&
            (paid.JObject? ==> r == None)
  {
    var paid := Get(program, "amountPaidByUser");
    var shown := JsxText(if Truthy(paid) then paid else JNum(0));
    assert IntToString(0) == "0" && "$" + "0" == "$0" && "$" + "" == "$";
    if shown.None? then None else Some("$" + shown.value)
  }

  function TableRowOf(s: StudentData, program: JsObject): TableRow
    requires AmountCell(program).Some?
  {
    TableRow(s.registrationId, s.parentFirstName + " " + s.parentLastName,
             ChildName(program, Child1Keys), AmountCell(program).value)
  }

  function ExportRowOf(s: StudentData, program: JsObject): ExportRow
  {
    ExportRow(s.registrationId, s.parentFirstName + " " + s.parentLastName,
              ChildName(program, Child1Keys), ChildName(program, Child2Keys),
              "$" + ToString(Get(program, "amount")))
  }

  /**
   * The rows of the page's table: one per form of every registration the
   * search keeps.  Rendering fails (`None`) when a registration's forms
   * cannot be spread or a form's amount cannot be rendered.
   */
  function TableRows(data: seq<StudentData>, query: string): Option<seq<TableRow>>
  {
    var ps := Pairs(FilteredData(data, query));
    if ps.None? then None
    else if exists k :: 0 <= k < |ps.value| && AmountCell(ps.value[k].1).None? then None
    else Some(seq(|ps.value|, k requires 0 <= k < |ps.value| => TableRowOf(ps.value[k].0, ps.value[k].1)))
  }

  /** Every pair holds one of the registrations and one of that registration's forms. */
  lemma {:induction false} PairsFrom(students: seq<StudentData>)
    requires Pairs(students).Some?
    ensures forall k :: 0 <= k < |Pairs(students).value| ==>
              Pairs(students).value[k].0 in students &&
              AllForms(Pairs(students).value[k].0).Some? &&
              Pairs(students).value[k].1 in AllForms(Pairs(students).value[k].0).value
  {
    if students != [] {
      var tail := students[1..];
      assert forall i :: 0 <= i < |tail| ==> tail[i] == students[i + 1];
      PairsFrom(tail);
      var fs := AllForms(students[0]).value;
      var ps := Pairs(students).value;
      assert ps == seq(|fs|, j requires 0 <= j < |fs| => (students[0], fs[j])) + Pairs(tail).value;
      forall k | 0 <= k < |ps|
        ensures ps[k].0 in students && AllForms(ps[k].0).Some? && ps[k].1 in AllForms(ps[k].0).value
      {
        if k < |fs| {
          assert ps[k] == (students[0], fs[k]);
        } else {
          assert ps[k] == Pairs(tail).value[k - |fs|];
          assert ps[k].0 in tail;
        }
      }
    }
  }

  /** The table row for form `j` of kept registration `i` is row number `FormCount(shown[..i]) + j`. */
  predicate TableRowAt(shown: seq<StudentData>, rows: seq<TableRow>, i: nat, j: nat)
    requires i < |shown| && AllForms(shown[i]).Some?
  {
    j < |AllForms(shown[i]).value| &&
    FormCount(shown[..i]) + j < |rows| &&
    AmountCell(AllForms(shown[i]).value[j]).Some? &&
    rows[FormCount(shown[..i]) + j] == TableRowOf(shown[i], AllForms(shown[i]).value[j])
  }

  /** Every kept form's amount can be rendered. */
  predicate AmountsShown(shown: seq<StudentData>)
  {
    forall s, f :: s in shown && AllForms(s).Some? && f in AllForms(s).value ==> AmountCell(f).Some?
  }

  /**
   * The table renders exactly when every kept registration's forms can be
   * spread and every one of those forms has a renderable amount.
   */
  lemma TableRowsRender(data: seq<StudentData>, query: string)
    ensures TableRows(data, query).Some? <==>
              Pairs(FilteredData(data, query)).Some? && AmountsShown(FilteredData(data, query))
  {
    var shown := FilteredData(data, query);
    var ps := Pairs(shown);
    if ps.Some? {
      if AmountsShown(shown) {
        PairsFrom(shown);
        forall k | 0 <= k < |ps.value|
          ensures AmountCell(ps.value[k].1).Some?
        {
          assert ps.value[k].0 in shown;
        }
      }
      if TableRows(data, query).Some? {
        FormsRenderAmounts(shown);
      }
    }
  }

  /** When no pair has an unrenderable amount, no kept form has one. */
  lemma FormsRenderAmounts(shown: seq<StudentData>)
    requires Pairs(shown).Some?
    requires forall k :: 0 <= k < |Pairs(shown).value| ==> AmountCell(Pairs(shown).value[k].1).Some?
    ensures AmountsShown(shown)
  {
    PairsLayout(shown);
    forall i: nat, j: nat | i < |shown| && j < |AllForms(shown[i]).value|
      ensures AmountCell(AllForms(shown[i]).value[j]).Some?
    {
      assert PairAt(shown, i, j);
    }
    AmountsShownByIndex(shown);
  }

  /** Renderable amounts form by form, by position, are renderable amounts for every kept form. */
  lemma AmountsShownByIndex(shown: seq<StudentData>)
    requires forall i: nat, j: nat :: i < |shown| && AllForms(shown[i]).Some? && j < |AllForms(shown[i]).value| ==>
               AmountCell(AllForms(shown[i]).value[j]).Some?
    ensures AmountsShown(shown)
  {
    forall s, f | s in shown && AllForms(s).Some? && f in AllForms(s).value
      ensures AmountCell(f).Some?
    {
      var i :| 0 <= i < |shown| && shown[i] == s;
      var j :| 0 <= j < |AllForms(s).value| && AllForms(s).value[j] == f;
    }
  }

  /** A rendered table's row `k` shows pair `k`. */
  lemma TableRowsOfPairs(data: seq<StudentData>, query: string)
    requires TableRows(data, query).Some?
    ensures var ps := Pairs(FilteredData(data, query));
            ps.Some? && |TableRows(data, query).value| == |ps.value| &&
            forall k :: 0 <= k < |ps.value| ==>
              AmountCell(ps.value[k].1).Some? && TableRows(data, query).value[k] == TableRowOf(ps.value[k].0, ps.value[k].1)
  {
  }

  /**
   * A rendered table has one row per form, registration by registration and
   * form by form, each showing the registration's id and parent name, the
   * form's first child name and its amount cell.
   */
  lemma TableRowsLayout(data: seq<StudentData>, query: string)
    requires TableRows(data, query).Some?
    ensures var shown := FilteredData(data, query);
            Pairs(shown).Some? &&
            |TableRows(data, query).value| == FormCount(shown) &&
            forall i: nat, j: nat :: i < |shown| && j < |AllForms(shown[i]).value| ==>
              TableRowAt(shown, TableRows(data, query).value, i, j)
  {
    var shown := FilteredData(data, query);
    var ps := Pairs(shown).value;
    var rows := TableRows(data, query).value;
    TableRowsOfPairs(data, query);
    PairsLayout(shown);
    forall i: nat, j: nat | i < |shown| && j < |AllForms(shown[i]).value|
      ensures TableRowAt(shown, rows, i, j)
    {
      assert PairAt(shown, i, j);
    }
  }

  /**
   * `handleExportExcel`: one row per form of every registration, whatever
   * the search box holds.
   */
  function ExportRows(data: seq<StudentData>): Option<seq<ExportRow>>
  {
    var ps := Pairs(data);
    if ps.None? then None
    else Some(seq(|ps.value|, k requires 0 <= k < |ps.value| => ExportRowOf(ps.value[k].0, ps.value[k].1)))
  }

  /**
   * The spreadsheet has one row per (registration, form) pair of the whole
   * data set, registration by registration and form by form: the row for
   * form `j` of registration `i` carries that registration's id and parent
   * name, the form's child names and "$" followed by the form's amount.
   */
  lemma ExportRowsLayout(data: seq<StudentData>)
    requires forall i :: 0 <= i < |data| ==> AllForms(data[i]).Some?
    ensures ExportRows(data).Some?
    ensures |ExportRows(data).value| == FormCount(data)
    ensures forall i: nat, j: nat :: i < |data| && j < |AllForms(data[i]).value| ==> ExportRowAt(data, i, j)
  {
    var ps := Pairs(data).value;
    PairsLayout(data);
    var rows := ExportRows(data).value;
    assert |rows| == |ps|;
    forall i: nat, j: nat | i < |data| && j < |AllForms(data[i]).value|
      ensures ExportRowAt(data, i, j)
    {
      assert PairAt(data, i, j);
      var n := FormCount(data[..i]) + j;
      assert rows[n] == ExportRowOf(ps[n].0, ps[n].1);
    }
  }

  /** The spreadsheet row for form `j` of registration `i` is row number `FormCount(data[..i]) + j`. */
  predicate ExportRowAt(data: seq<StudentData>, i: nat, j: nat)
    requires i < |data| && ExportRows(data).Some? && AllForms(data[i]).Some?
  {
    j < |AllForms(data[i]).value| &&
    FormCount(data[..i]) + j < |ExportRows(data).value| &&
    ExportRows(data).value[FormCount(data[..i]) + j] == ExportRowOf(data[i], AllForms(data[i]).value[j])
  }

  /**
   * The table and the spreadsheet list the same pairs when the search box is
   * empty; otherwise the table follows the search and the spreadsheet does not.
   */
  lemma TableMatchesExportWhenUnfiltered(data: seq<StudentData>)
    ensures TableRows(data, "").Some? <==> ExportRows(data).Some? && AmountsShown(data)
    ensures TableRows(data, "").Some? ==> |TableRows(data, "").value| == |ExportRows(data).value|
  {
    EmptySearchListsAll(data);
    TableRowsRender(data, "");
  }

  // ---------------------------------------------------------------------
  // The details modal and its PDF

  /** The modal: one row per attribute of the form, labelled by the modal's `formatKey`. */
  function ModalRows(program: JsObject): seq<Row>
  {
    seq(|program|, k requires 0 <= k < |program| => Row(LabelForModal(program[k].0), GetFieldValue(program[k].1)))
  }

  /**
   * The modal lists the form's attributes in order; each label spells its
   * key up to inserted spaces and upper-cased letters, and each value is
   * `getFieldValue` of the attribute's value.
   */
  lemma ModalRowsShowAttributes(program: JsObject)
    ensures |ModalRows(program)| == |program|
    ensures forall k :: 0 <= k < |program| ==>
              UpcasedFrom(DropSpaces(ModalRows(program)[k].field), DropSpaces(program[k].0)) &&
              ModalRows(program)[k].cell == GetFieldValue(program[k].1)
  {
    forall k | 0 <= k < |program|
      ensures UpcasedFrom(DropSpaces(ModalRows(program)[k].field), DropSpaces(program[k].0))
    {
      ModalLabelKeepsCharacters(program[k].0);
    }
  }

  /** The PDF table of one form: `[formatKey(key), value || "N/A"]` over `getFieldValue` of each entry. */
  function PdfRows(item: JsObject): seq<Row>
  {
    seq(|item|, k requires 0 <= k < |item| => Row(LabelForPdf(item[k].0), OrNA(GetFieldValue(item[k].1))))
  }

  /** The heading above form `i`: the suffix is "st" for every number. */
  function Heading(i: nat): string
  {
    NatToString(i + 1) + "st Student Detail:"
  }

  function FileName(programName: string, registrationId: JsValue): string
  {
    programName + "_Registration_" + ToString(registrationId) + ".pdf"
  }

  function Tables(programData: seq<JsObject>): (ts: seq<seq<Row>>)
    ensures |ts| == |programData|
    ensures forall i :: 0 <= i < |ts| ==> ts[i] == PdfRows(programData[i])
  {
    seq(|programData|, i requires 0 <= i < |programData| => PdfRows(programData[i]))
  }

  /** The title line and the registration id line. */
  function Header(registrationId: JsValue, programName: string): (h: seq<PdfOp>)
    ensures |h| == 2
  {
    [Text(programName + " Details", 10, 10), Text("Registration ID: " + ToString(registrationId), 10, 20)]
  }

  /** The document `handleDownload` saves, or `None` when it returns early. */
  function Download(registrationId: JsValue, programName: string, programData: seq<JsObject>, finalY: Layout): Option<Document>
  {
    if |programData| == 0 then None
    else
      Some(Document(
        Header(registrationId, programName) + Sections(Tables(programData), Heading, 0, 30, finalY),
        FileName(programName, registrationId)))
  }

  /** `handleDownload`: the running `yOffset` loop over the forms. */
  method HandleDownload(registrationId: JsValue, programName: string, programData: seq<JsObject>, finalY: Layout)
    returns (doc: Option<Document>)
    ensures doc == Download(registrationId, programName, programData, finalY)
  {
    if |programData| == 0 {
      return None;
    }
    var tables := Tables(programData);
    var ops := Header(registrationId, programName);
    var yOffset := 30;
    ghost var header := ops;
    ghost var drawn: seq<PdfOp> := [];
    var i := 0;
    while i < |programData|
      invariant 0 <= i <= |programData|
      invariant ops == header + drawn
      invariant DrawnUpTo(tables, Heading, i, 30, finalY, drawn, yOffset)
      decreases |programData| - i
    {
      DrawnStep(tables, Heading, i, 30, finalY, drawn, yOffset);
      drawn := drawn + [Text(Heading(i), 10, yOffset)] + [Table(yOffset + 10, tables[i])];
      ops := ops + [Text(Heading(i), 10, yOffset)];
      yOffset := yOffset + 10;
      var rows := PdfRows(programData[i]);
      ops := ops + [Table(yOffset, rows)];
      assert ops == header + drawn;
      yOffset := finalY(yOffset, rows) + 10;
      i := i + 1;
    }
    DrawnFinished(tables, Heading, 30, finalY, drawn, yOffset);
    doc := Some(Document(ops, FileName(programName, registrationId)));
  }

  /**
   * The shape of the download: nothing for an empty list; otherwise the
   * two header lines and a heading and a table per form, saved as
   * "<programName>_Registration_<id>.pdf".
   */
  lemma DownloadLayout(registrationId: JsValue, programName: string, programData: seq<JsObject>, finalY: Layout)
    ensures Download(registrationId, programName, programData, finalY).None? <==> |programData| == 0
    ensures |programData| > 0 ==>
              Download(registrationId, programName, programData, finalY).value.fileName
                == programName + "_Registration_" + ToString(registrationId) + ".pdf"
    ensures |programData| > 0 ==> |Download(registrationId, programName, programData, finalY).value.ops| == 2 + 2 * |programData|
  {
    if |programData| > 0 {
      SectionsLength(Tables(programData), Heading, 0, 30, finalY);
    }
  }

  /**
   * Form `k` of the download, after the two header lines: the heading
   * "<k+1>st Student
   * Detail:" at the cursor the earlier forms leave, and the
   * form's table ten units lower.
   */
  lemma DownloadAt(registrationId: JsValue, programName: string, programData: seq<JsObject>, finalY: Layout, k: nat)
    requires k < |programData|
    ensures Download(registrationId, programName, programData, finalY).Some? && 3 + 2 * k < |Download(registrationId, programName, programData, finalY).value.ops|
    ensures Download(registrationId, programName, programData, finalY).value.ops[2 + 2 * k] == Text(Heading(k), 10, Cursor(Tables(programData), k, 30, finalY))
    ensures Download(registrationId, programName, programData, finalY).value.ops[3 + 2 * k] == Table(Cursor(Tables(programData), k, 30, finalY) + 10, PdfRows(programData[k]))
  {
    HeaderedSectionsAt(Header(registrationId, programName), Tables(programData), Heading, 30, finalY, k);
  }

  /** Every cell of the PDF shows something: a falsy value already became "N/A" in `getFieldValue`. */
  lemma PdfCellsShown(item: JsObject)
    ensures |PdfRows(item)| == |item|
    ensures forall j :: 0 <= j < |item| ==>
              PdfRows(item)[j].cell == GetFieldValue(item[j].1) && CellTruthy(PdfRows(item)[j].cell)
  {
  }
}
