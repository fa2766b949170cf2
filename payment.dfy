/**
 * The Payment page: registrations with a search box and, per program
 * category, a PDF download of that category's forms, offered only when the
 * category has forms.
 */
module Payment {
  import opened Strings
  import opened Wrappers
  import opened JsValues
  import opened FormatKey
  import opened Search
  import opened Pdf
  import opened StudentRecords

  /** `filteredData`: the registrations the search query keeps, in their order. */
  function FilteredData(data: seq<StudentData>, query: string): (r: seq<StudentData>)
    ensures Seqs.IsSubsequence(r, data)
    ensures forall s :: s in r <==> s in data && MatchesNameOrId(query, WhoOf(s))
    ensures forall s :: multiset(r)[s] == if MatchesNameOrId(query, WhoOf(s)) then multiset(data)[s] else 0
  {
    FilterByNameOrId(data, query, WhoOf)
  }

  /** The PDF table of one form: each entry's raw value, or "N/A" when it is falsy. */
  function PdfRows(item: JsObject): seq<Row>
  {
    seq(|item|, k requires 0 <= k < |item| => Row(LabelForPdf(item[k].0), OrNA(Value(item[k].1))))
  }

  /**
   * Payment shows values as they are: a truthy value of any kind is passed
   * through, a falsy one becomes "N/A", and every label is the PDF label of
   * its key.
   */
  lemma PdfRowsShowRawValues(item: JsObject)
    ensures |PdfRows(item)| == |item|
    ensures forall k :: 0 <= k < |item| ==>
              PdfRows(item)[k].field == LabelForPdf(item[k].0) &&
              (Truthy(item[k].1) ==> PdfRows(item)[k].cell == Value(item[k].1)) &&
              (!Truthy(item[k].1) ==> PdfRows(item)[k].cell == NA)
  {
  }

  function Heading(i: nat): string
  {
    "Form " + NatToString(i + 1) + ":"
  }

  function FileName(programName: string, registrationId: int): string
  {
    programName + "_Registration_" + IntToString(registrationId) + ".pdf"
  }

  function Tables(programData: seq<JsObject>): (ts: seq<seq<Row>>)
    ensures |ts| == |programData|
    ensures forall i :: 0 <= i < |ts| ==> ts[i] == PdfRows(programData[i])
  {
    seq(|programData|, i requires 0 <= i < |programData| => PdfRows(programData[i]))
  }

  /** The title line and the registration id line. */
  function Header(registrationId: int, programName: string): (h: seq<PdfOp>)
    ensures |h| == 2
  {
    [Text(programName + " Details", 10, 10), Text("Registration ID: " + IntToString(registrationId), 10, 20)]
  }

  /** The document `handleDownload` saves, or `None` when it returns early. */
  function Download(registrationId: int, programName: string, programData: seq<JsObject>, finalY: Layout): Option<Document>
  {
    if |programData| == 0 then None
    else
      Some(Document(Header(registrationId, programName) + Sections(Tables(programData), Heading, 0, 30, finalY),
                    FileName(programName, registrationId)))
  }

  /** `handleDownload`: the running `yOffset` loop over the forms. */
  method HandleDownload(registrationId: int, programName: string, programData: seq<JsObject>, finalY: Layout)
    returns (doc: Option<Document>)
    ensures doc == Download(registrationId, programName, programData, finalY)
  {
    if |programData| == 0 {
      return None;
    }
    var tables := Tables(programData);
    var ops := Header(registrationId, programName);
    var yOffset := 30;
    ghost var header := ops;
    ghost var drawn: seq<PdfOp> := [];
    var i := 0;
    while i < |programData|
      invariant 0 <= i <= |programData|
      invariant ops == header + drawn
      invariant DrawnUpTo(tables, Heading, i, 30, finalY, drawn, yOffset)
      decreases |programData| - i
    {
      DrawnStep(tables, Heading, i, 30, finalY, drawn, yOffset);
      drawn := drawn + [Text(Heading(i), 10, yOffset)] + [Table(yOffset + 10, tables[i])];
      ops := ops + [Text(Heading(i), 10, yOffset)];
      yOffset := yOffset + 10;
      var rows := PdfRows(programData[i]);
      ops := ops + [Table(yOffset, rows)];
      assert ops == header + drawn;
      yOffset := finalY(yOffset, rows) + 10;
      i := i + 1;
    }
    DrawnFinished(tables, Heading, 30, finalY, drawn, yOffset);
    doc := Some(Document(ops, FileName(programName, registrationId)));
  }

  /**
   * The shape of the download: nothing for an empty list; otherwise the
   * two header lines and a heading and a table per form, saved as
   * "<programName>_Registration_<id>.pdf".
   */
  lemma DownloadLayout(registrationId: int, programName: string, programData: seq<JsObject>, finalY: Layout)
    ensures Download(registrationId, programName, programData, finalY).None? <==> |programData| == 0
    ensures |programData| > 0 ==>
              Download(registrationId, programName, programData, finalY).value.fileName
                == programName + "_Registration_" + IntToString(registrationId) + ".pdf"
    ensures |programData| > 0 ==> |Download(registrationId, programName, programData, finalY).value.ops| == 2 + 2 * |programData|
  {
    if |programData| > 0 {
      SectionsLength(Tables(programData), Heading, 0, 30, finalY);
    }
  }

  /**
   * Form `k` of the download, after the two header lines: the heading
   * "Form <k+1>:" at the cursor the earlier forms leave, and the
   * form's table ten units lower.
   */
  lemma DownloadAt(registrationId: int, programName: string, programData: seq<JsObject>, finalY: Layout, k: nat)
    requires k < |programData|
    ensures Download(registrationId, programName, programData, finalY).Some? && 3 + 2 * k < |Download(registrationId, programName, programData, finalY).value.ops|
    ensures Download(registrationId, programName, programData, finalY).value.ops[2 + 2 * k] == Text(Heading(k), 10, Cursor(Tables(programData), k, 30, finalY))
    ensures Download(registrationId, programName, programData, finalY).value.ops[3 + 2 * k] == Table(Cursor(Tables(programData), k, 30, finalY) + 10, PdfRows(programData[k]))
  {
    HeaderedSectionsAt(Header(registrationId, programName), Tables(programData), Heading, 30, finalY, k);
  }


  // ---------------------------------------------------------------------
  // The six download columns

  /** The program categories in column order. */
  datatype Category = AfterSchool | Music | OnlineTutoring | PrivateAndTestPrep | Single | Camp

  function CategoryName(c: Category): string
  {
    match c
    case AfterSchool => "After School Program"
    case Music => "Music Program"
    case OnlineTutoring => "Online Tutoring"
    case PrivateAndTestPrep => "Private & Test Prep"
    case Single => "Single Program"
    case Camp => "Camp Forms"
  }

  function CategoryForms(s: StudentData, c: Category): Option<seq<JsObject>>
  {
    match c
    case AfterSchool => s.afterSchoolProgramForms
    case Music => s.musciProgramForms
    case OnlineTutoring => s.onlineTutoringForms
    case PrivateAndTestPrep => s.privateAndTestPrepForms
    case Single => s.singleProgramForms
    case Camp => s.campForms
  }

  /** `(forms?.length || 0) > 0`: the download icon is shown. */
  predicate Offered(forms: Option<seq<JsObject>>)
  {
    forms.Some? && |forms.value| > 0
  }

  /**
   * Clicking a category's download icon: `None` when no icon is shown,
   * otherwise the document `handleDownload` builds from `forms || []`.
   */
  function DownloadCategory(s: StudentData, c: Category, finalY: Layout): Option<Document>
  {
    if Offered(CategoryForms(s, c))
    then Download(s.registrationId, CategoryName(c), CategoryForms(s, c).GetOr([]), finalY)
    else None
  }

  /**
   * A category yields a document exactly when it is offered, that is when its
   * form array is present and non-empty; the document is named after the
   * category and has one heading and one table per form.
   */
  lemma DownloadCategoryIffOffered(s: StudentData, c: Category, finalY: Layout)
    ensures DownloadCategory(s, c, finalY).Some? <==> CategoryForms(s, c).Some? && |CategoryForms(s, c).value| > 0
    ensures DownloadCategory(s, c, finalY).Some? ==>
              DownloadCategory(s, c, finalY).value.fileName
                == CategoryName(c) + "_Registration_" + IntToString(s.registrationId) + ".pdf" &&
              |DownloadCategory(s, c, finalY).value.ops| == 2 + 2 * |CategoryForms(s, c).value|
  {
    if Offered(CategoryForms(s, c)) {
      DownloadLayout(s.registrationId, CategoryName(c), CategoryForms(s, c).value, finalY);
    }
  }
}
