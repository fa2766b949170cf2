# Southlake admin dashboard — a verified model

This project models the client-side logic of the Southlake administration
dashboard, a React single-page application. Staff use it to:

- list and delete programs, schedule slots and contact messages;
- edit program records;
- search student registrations;
- export registrations and enrolments as PDF documents and spreadsheets;
- fill in multi-field forms with required-field checks.

It is written in Dafny, and every contract below is proved.

The backend, Cloudinary, jsPDF, jspdf-autotable and XLSX are outside the
model. What they return is a parameter: the outcome of a request, the URL of
an upload, and `finalY`, the vertical offset where a table drawn at a given
cursor ends. A PDF document is the log of what the page drew: text lines,
tables and page breaks. A spreadsheet is the list of rows handed to the sheet.

How the model is organised:

- **JavaScript values.** `JsValues` gives JavaScript values, their
  truthiness, `String(v)`, property access and the record spread
  `{ ...prev, [name]: value }`. A record is an ordered list of entries:
  - an existing key keeps its place;
  - a new key goes at the end;
  - keys stay distinct.
- **Helpers.** `Strings` holds ASCII case mapping, `includes`, `trim` and
  `trimStart`, and the rendering of numbers. `Seqs` holds `filter`, `splice`
  and `flat`.
- **Search.** `Search` has the two search rules the registration pages use.
  The lemmas show that:
  - both rules keep records in their order;
  - they agree on a non-blank query;
  - an empty or blank query lists everything.
- **Labels.** `FormatKey` models the two `formatKey` functions as the
  character passes their regular expressions perform. The lemmas show that a
  label is the key with spaces inserted (one per capital, and in the modal
  one per digit before a lower-case letter) and some lower-case letters
  upper-cased, that its words are capitalised, and what a camelCase key
  becomes.
- **PDF drawing.** `Pdf` models the running-cursor PDF loop: for each form,
  a heading at the cursor, then its table ten units lower, then the cursor
  ten units below the table's end. `Pdf.DrawItems` is the loop, proved equal
  to the recursive drawing `Pdf.Sections`; the per-form layout lemmas are
  stated over that recursive drawing.
- **Download handlers.** `Users`, `Payment`, `EnrolledStudents`,
  `MusicEnrolledStudents` and `AnnualRegistration` model each page's filter,
  download handler and export. Each handler is a method proved equal to a
  function, and lemmas state where every heading and table lands.
- **Forms.** `FormErrors`, `AddProgramForm`, `AddNewUserForm` and
  `TestingWizard` model the forms' required-field validation. Each form page
  is a class whose fields are the component's state.
- **List pages.** `ProgramsList`, `RecordTables` (the Schedule and Contact Us
  tables), `InPersonTutoringList` and `PrivateLessons` model the list pages'
  fetch and delete state.
- **Edit pages.** The six edit pages are classes over their copy of the
  record. The pages with a list of priced sub-options keep those entries as
  heap objects (`ProgramEdit.PricedOption`). This is because the page's
  shallow copy shares them with the record it was opened on, and a row edit
  writes into the shared entry.

Where the code and its design description differ, the model follows the code:

- `formatKey` puts a space before every capital, the first one included. So
  `"AfterSchoolProgramForms"` becomes `" After School Program Forms"`, with a
  leading space (`FormatKey.ModalLabelStart`, `FormatKey.PdfLabelStart`).
- The Users spreadsheet export covers every registration, not only those the
  search keeps (`Users.ExportRows` takes the unfiltered list).
- On the Music enrolment page, an empty `programForms` array draws nothing.
  It does not draw a "No forms available" row; that row is drawn only for a
  value that is not an array (`MusicEnrolledStudents.NoFormsRow`).
- On the After School enrolment PDF, the forms value is tested with
  `length > 0` before `forEach`. A non-empty string, or an object whose own
  `length` exceeds zero, passes the test and then throws, so no document is
  made (`EnrolledStudents.FormsNotArrayThrows`); an empty one, a number or a
  boolean gets the "No forms available" line (`EnrolledStudents.NoFormsLine`).
- The Users PDF heading suffix is "st" for every number ("2st Student
  Detail:"), as written (`Users.Heading`).

## Model

| member | source | states |
|---|---|---|
| JsValues.Lookup | src/components/Payment/AddNewUserForm.tsx:47-68 | reading a key finds a value exactly when the key is among the record's keys, and the value is that key's entry |
| JsValues.SetField | src/components/Payment/AddNewUserForm.tsx:47-68 | after `{ ...prev, [name]: value }` the key reads as the new value and every other key reads as before |
| JsValues.SetFieldKeys | src/components/Payment/AddNewUserForm.tsx:47-68 | an existing key keeps its position; a new key is appended after all others |
| JsValues.SetFieldUnique | src/components/Payment/AddNewUserForm.tsx:47-68 | the spread keeps the record's keys distinct |
| JsValues.LookupUnique | src/components/Payment/AddNewUserForm.tsx:73-80 | in a record with distinct keys, each entry's key reads as that entry's value |
| JsValues.AllLookupsUnique | src/components/Payment/AddNewUserForm.tsx:73-80 | the same for every entry at once |
| JsValues.ObjectEntries | src/components/After-School/EnrolledStudents.tsx:127-144 | `Object.entries` fails exactly on null and undefined |
| JsValues.LengthOf | src/components/Music-Classes/MusicClassesEnrolledStudents.tsx:66 | reading `.length` throws exactly on null and undefined, and gives an array's element count |
| JsValues.JsxText | src/components/Users/Users.tsx:282 | a JSX child renders a string as itself, a number as its decimal text, booleans, null and undefined as nothing, and throws on a plain object |
| JsValues.JsxItems | src/components/Users/Users.tsx:282 | an array child renders exactly when each element does |
| JsValues.JsxItemsAppend | src/components/Users/Users.tsx:282 | an array renders as its parts' texts concatenated with no separator |
| Strings.Upper | src/components/Users/Users.tsx:61 | a lower-case letter becomes the capital 32 code points below it; every other character is left alone |
| Strings.Lower | src/components/Users/Users.tsx:175-184 | a capital becomes the lower-case letter 32 code points above it; every other character is left alone |
| Strings.LowerAll | src/components/Users/Users.tsx:175-184 | `toLowerCase` keeps the length and lower-cases character by character |
| Strings.ContainsIff | src/components/Users/Users.tsx:175-184 | `includes` holds exactly when the needle occurs at some position |
| Strings.TrimStart | src/components/Music-Classes/MusicClassesEditPage.tsx:51 | `trimStart` removes exactly the longest leading run of whitespace |
| Strings.TrimEnd | src/components/After-School/EnrolledStudents.tsx:46-60 | removes exactly the longest trailing run of whitespace |
| Strings.TrimEmptyIff | src/components/After-School/EnrolledStudents.tsx:46-60 | a query trims to "" exactly when it is all whitespace |
| Strings.NatToString | src/components/Annual-Registration/AnnualRegistration.tsx:65-69 | a rendered number is non-empty, all digits, with no leading zero |
| Strings.NatToStringRoundTrip | src/components/Annual-Registration/AnnualRegistration.tsx:65-69 | reading a rendered number back gives the number |
| Strings.NatToStringLength | src/components/Music-Classes/PrivateLessonEditPage.tsx:14 | a number with k digits renders as k characters |
| Strings.JoinLength | src/components/Music-Classes/MusicClassesEnrolledStudents.tsx:103-116 | a joined string is as long as its parts plus the separators |
| Strings.JoinAppend | src/components/Music-Classes/MusicClassesEnrolledStudents.tsx:109-111 | joining two non-empty lists is joining each with one separator between |
| Seqs.Filter | src/components/Programs/Programs.tsx:60 | `filter` keeps exactly the elements passing the test, in their order, each as many times as it occurs |
| Seqs.FilterKeepsAll | src/components/Programs/Programs.tsx:60 | a filter every element passes returns the list unchanged |
| Seqs.FilterSameTest | src/components/Programs/Programs.tsx:60 | filters whose tests agree on the list give the same result |
| Seqs.FilterTwice | src/Schedule.tsx:45 | two filters in a row are one filter with both tests |
| Seqs.FilterCommute | src/Schedule.tsx:45 | two filters commute |
| Seqs.FilterRemovesOne | src/components/Programs/Programs.tsx:60 | a filter failing exactly one element is `splice` at that element |
| Seqs.RemoveAtSpec | src/components/InPerson-Tutoring/InPersonPrivateTutoringEditPage.tsx:67-74 | `splice(i, 1)` drops element i, and the list is the prefix, that element and the suffix |
| Seqs.FlattenLength | src/components/Users/Users.tsx:131-138 | flattening keeps every element |
| Seqs.FlattenAppend | src/components/Users/Users.tsx:131-138 | flattening distributes over concatenation |
| Search.FilterByNameOrId | src/components/Users/Users.tsx:175-184 | the Users/Payment filter is an in-order subsequence holding exactly the records whose names contain the lower-cased query or whose id contains the query, each as many times as in the list |
| Search.FilterEnrolled | src/components/After-School/EnrolledStudents.tsx:46-60 | the enrolment filter keeps everything for a blank query; otherwise it keeps exactly the matching records, in order, each as many times as in the list |
| Search.EmptyQueryKeepsAll | src/components/Users/Users.tsx:175-184 | an empty query lists every record |
| Search.BlankQueryKeepsAll | src/components/After-School/EnrolledStudents.tsx:46-60 | an all-whitespace query lists every record |
| Search.IdMatchIgnoresCase | src/components/Users/Users.tsx:183 | matching a query against the id gives the same answer lower-cased or not |
| Search.RulesAgree | src/components/Music-Classes/MusicClassesEnrolledStudents.tsx:44-58 | on a non-blank query the two search rules select the same list |
| FormatKey.SpaceBeforeCapitals | src/components/Users/Users.tsx:59 | the pass puts a space before every capital, the first one included, and lengthens the key by one character per capital |
| FormatKey.SpaceBeforeCapitalsInsertsSpaces | src/components/Users/Users.tsx:59 | the pass only inserts characters, all spaces: with spaces deleted the result is the key, case included, and it is one longer per capital |
| FormatKey.SplitDigitLetter | src/components/Users/Users.tsx:60 | after the pass no digit is directly followed by a letter, spaced capitals stay spaced, and the text is one longer per digit-letter pair |
| FormatKey.SplitDigitLetterInsertsSpaces | src/components/Users/Users.tsx:60 | the pass only inserts spaces: with spaces deleted the result is its input, case included |
| FormatKey.DigitLetterAfterCapitals | src/components/Users/Users.tsx:59-60 | after the capitals pass, a digit meets a letter exactly where the key had a digit before a lower-case letter |
| FormatKey.CapitalizeWordsUpcases | src/components/Users/Users.tsx:61 | the pass only upper-cases some lower-case letters |
| FormatKey.UpperFirstUpcases | src/components/Users/Users.tsx:111 | `^.` upper-casing only upper-cases a lower-case first letter |
| FormatKey.DropSpacesUpcased | src/components/Users/Users.tsx:57-62 | deleting spaces commutes with upper-casing letters |
| FormatKey.CapitalizeFrom | src/components/Users/Users.tsx:61 | a character is upper-cased exactly when it starts a word, scanning left to right |
| FormatKey.CapitalizeWords | src/components/Users/Users.tsx:61 | `\b\w` upper-casing changes exactly the word-start characters |
| FormatKey.CapitalizeWordsCapitalized | src/components/Users/Users.tsx:61 | afterwards no word starts with a lower-case letter |
| FormatKey.CapitalizeWordsCapitalsStartWords | src/components/Users/Users.tsx:61 | capitals that started words still do |
| FormatKey.CapitalizeWordsNoDigitBeforeLetter | src/components/Users/Users.tsx:61 | the pass keeps digits and letters apart |
| FormatKey.ModalLabelKeepsCharacters | src/components/Users/Users.tsx:57-62 | with spaces deleted, the modal label is the key with some lower-case letters upper-cased; it is longer by one space per capital and per digit before a lower-case letter |
| FormatKey.ModalLabelShape | src/components/Users/Users.tsx:57-62 | the modal label is capitalised, its capitals start words, and no digit touches a letter |
| FormatKey.ModalLabelStart | src/components/Users/Users.tsx:57-62 | a key starting with a capital gets a leading space; otherwise its first character is upper-cased |
| FormatKey.PdfLabelKeepsCharacters | src/components/Users/Users.tsx:108-113 | with spaces deleted, the PDF label is the key with some lower-case letters upper-cased; it is longer by one space per capital |
| FormatKey.PdfLabelShape | src/components/Users/Users.tsx:108-113 | the PDF label is capitalised and its capitals start words |
| FormatKey.PdfLabelStart | src/components/Users/Users.tsx:108-113 | the PDF label gains the same leading space before an initial capital |
| FormatKey.SpaceBeforeCapitalsAppend | src/components/Users/Users.tsx:59 | the capitals pass works character by character, so it distributes over concatenation |
| FormatKey.CapitalizeFromAppend | src/components/Users/Users.tsx:61 | word-start upper-casing of a concatenation continues from the last character of the first part |
| FormatKey.CamelSpaced | src/components/Users/Users.tsx:59 | a camelCase key gets a space before each capitalised word |
| FormatKey.CamelCapitalized | src/components/Users/Users.tsx:61 | the spaced camelCase key then has only its first word's initial upper-cased |
| FormatKey.ModalLabelCamel | src/components/Users/Users.tsx:57-62 | a camelCase key's modal label is its words capitalised, the later ones each preceded by a space |
| FormatKey.PdfLabelCamel | src/components/Users/Users.tsx:108-113 | a camelCase key's PDF label is the same text as its modal label |
| FormatKey.ModalLabelParentFirstName | src/components/Users/Users.tsx:57-62 | "parentFirstName" is labelled "Parent First Name" in the modal |
| FormatKey.ModalLabelAfterSchoolProgramForms | src/components/Users/Users.tsx:57-62 | "AfterSchoolProgramForms" is labelled " After School Program Forms" in the modal |
| FormatKey.PdfLabelParentFirstName | src/components/Users/Users.tsx:108-113 | "parentFirstName" is labelled "Parent First Name" in a PDF |
| FormatKey.PdfLabelAfterSchoolProgramForms | src/components/Users/Users.tsx:108-113 | "AfterSchoolProgramForms" is labelled " After School Program Forms" in a PDF |
| Pdf.OrNA | src/components/Payment/Payment.tsx:61-63 | `value \|\| "N/A"` always shows something, and shows the value itself when it is truthy |
| Pdf.SectionsLayout | src/components/Payment/Payment.tsx:95-103 | the drawing has two operations per form: heading k at the cursor, table k ten units below |
| Pdf.SectionsAt | src/components/Payment/Payment.tsx:95-103 | the same for one form k |
| Pdf.HeaderedSectionsAt | src/components/Payment/Payment.tsx:52-103 | the same after the document's header lines |
| Pdf.SectionsLength | src/components/Payment/Payment.tsx:95-103 | drawing from form k on gives two operations per remaining form |
| Pdf.SectionsAdvance | src/components/Payment/Payment.tsx:82-84 | after a table the cursor moves ten units below the table's end |
| Pdf.SectionsSuffix | src/components/Payment/Payment.tsx:95-103 | what the loop draws from form k on is the tail of the whole drawing |
| Pdf.DrawItems | src/components/After-School/EnrolledStudents.tsx:127-144 | the running-cursor loop draws exactly the recursive drawing, or fails exactly when some form's table throws |
| Enrollments.FindById | src/components/After-School/EnrolledStudents.tsx:64-71 | `find` gives nothing exactly when no enrolment has the id, and otherwise the first that has it |
| StudentRecords.AllForms | src/components/Users/Users.tsx:131-138 | spreading the six form arrays succeeds exactly when every array but Online Tutoring (which falls back to `[]`) is present |
| Users.FilteredData | src/components/Users/Users.tsx:175-184 | the table lists exactly the registrations the search keeps, in order, each as often as in the data |
| Users.EmptySearchListsAll | src/components/Users/Users.tsx:175-184 | with an empty search every registration is listed |
| Users.GetFieldValue | src/components/Users/Users.tsx:50-55 | objects become JSON, truthy values show as they are, and falsy ones become "N/A" |
| Users.NAAfterGetFieldValue | src/components/Users/Users.tsx:83-85 | the table's extra `\|\| "N/A"` never changes a cell; null is shown as JSON |
| Users.FirstNamed | src/components/Users/Users.tsx:267-278 | the first candidate name pair with both parts truthy, none before it having both |
| Users.ChildNameFirstMatch | src/components/Users/Users.tsx:143-152 | the child's name is that pair's "first last", or "" when no pair is complete |
| Users.Pairs | src/components/Users/Users.tsx:247-254 | one row per form of every registration exists exactly when every registration's forms can be spread |
| Users.PairsLayout | src/components/Users/Users.tsx:247-254 | form j of registration i is row `FormCount(earlier registrations) + j` |
| Users.ExportRowsLayout | src/components/Users/Users.tsx:129-164 | the spreadsheet has a row per form of every registration, at the same position |
| Users.AmountCell | src/components/Users/Users.tsx:281-283 | the amount cell is "$" then `amountPaidByUser \|\| 0` rendered as a JSX child: "$0" when falsy, the text of a string or number, nothing after "$" for `true`, and no rendering for an object |
| Users.PairsFrom | src/components/Users/Users.tsx:247-256 | every (registration, form) pair holds a listed registration and one of its own forms |
| Users.TableRowsRender | src/components/Users/Users.tsx:247-293 | the table renders exactly when every kept registration's forms can be spread and every kept form's amount can be rendered |
| Users.TableRowsLayout | src/components/Users/Users.tsx:247-293 | a rendered table has one row per kept form; form `j` of kept registration `i` is row `FormCount(shown[..i]) + j`, showing the registration's id and parent name, the form's first child name and its amount cell |
| Users.TableMatchesExportWhenUnfiltered | src/components/Users/Users.tsx:129-164 | without a search, the table renders exactly when the spreadsheet can be built and every amount renders, and then both have equally many rows |
| Users.ModalRowsShowAttributes | src/components/Users/Users.tsx:323-330 | the modal has one row per attribute; its label, with spaces deleted, is the key with some letters upper-cased, and it shows `getFieldValue` of the value |
| Users.HandleDownload | src/components/Users/Users.tsx:66-126 | the handler's running-cursor loop saves exactly the specified document, or nothing for an empty list |
| Users.DownloadLayout | src/components/Users/Users.tsx:66-126 | no document exactly when there are no forms; otherwise the file name is "<program>_Registration_<id>.pdf", with two header lines and two operations per form |
| Users.DownloadAt | src/components/Users/Users.tsx:115-123 | form k's heading "<k+1>st Student Detail:" is at its cursor and its table ten units below |
| Users.PdfCellsShown | src/components/Users/Users.tsx:81-106 | every PDF cell is `getFieldValue` of the value and shows something |
| Payment.FilteredData | src/components/Payment/Payment.tsx:109-118 | the table lists exactly the registrations the search keeps, in order, each as often as in the data |
| Payment.PdfRowsShowRawValues | src/components/Payment/Payment.tsx:59-85 | one row per entry: its label, and its raw value or "N/A" when falsy |
| Payment.HandleDownload | src/components/Payment/Payment.tsx:43-106 | the handler saves exactly the specified document, or nothing for an empty list |
| Payment.DownloadLayout | src/components/Payment/Payment.tsx:43-106 | no document exactly when there are no forms; otherwise the file name, two header lines and two operations per form |
| Payment.DownloadAt | src/components/Payment/Payment.tsx:95-103 | form k's heading "Form <k+1>:" is at its cursor and its table ten units below |
| Payment.DownloadCategoryIffOffered | src/components/Payment/Payment.tsx:184-277 | a category's icon yields a document exactly when its form array is present and non-empty, named after the category |
| EnrolledStudents.FilteredData | src/components/After-School/EnrolledStudents.tsx:46-60 | the whole list for a blank query, else exactly the matching enrolments in order, each as often as in the data |
| EnrolledStudents.AddContent | src/components/After-School/EnrolledStudents.tsx:87-100 | one line "<label>: <value or N/A>"; a new page with the line at 10 when it would pass 280; the line sits at most at 270 and the cursor ends ten below it |
| EnrolledStudents.FormTable | src/components/After-School/EnrolledStudents.tsx:102-124 | a form's table fails exactly on a nullish form, and otherwise has one row per entry |
| EnrolledStudents.DrawEntry | src/components/After-School/EnrolledStudents.tsx:126-149 | one pass of the loop draws exactly the attribute's specified operations |
| EnrolledStudents.HandleDownload | src/components/After-School/EnrolledStudents.tsx:63-152 | the handler saves exactly the specified document |
| EnrolledStudents.DownloadFindsEnrollment | src/components/After-School/EnrolledStudents.tsx:64-76 | an unknown id saves nothing; a saved document is "Registration_<id>.pdf" and starts with its title |
| EnrolledStudents.FormsDrawn | src/components/After-School/EnrolledStudents.tsx:127-144 | a non-empty form array is drawn form by form, and fails exactly when some form is nullish |
| EnrolledStudents.FormsLayout | src/components/After-School/EnrolledStudents.tsx:127-144 | two operations per form, and the cursor after the last table |
| EnrolledStudents.FormAt | src/components/After-School/EnrolledStudents.tsx:130-141 | form k's heading at its cursor, its table ten units below |
| EnrolledStudents.NoFormsLine | src/components/After-School/EnrolledStudents.tsx:127-144 | a forms value that is an empty array or string, a boolean, a number, NaN, or an object whose `length` does not exceed zero gives the "No forms available" line |
| EnrolledStudents.FormsNotArrayThrows | src/components/After-School/EnrolledStudents.tsx:127-129 | a non-empty string, or an object whose `length` exceeds zero, passes the length test and throws at `forEach` |
| EnrolledStudents.OtherEntriesLayout | src/components/After-School/EnrolledStudents.tsx:145-148 | any other attribute gives a one-row table, "N/A" when falsy |
| MusicEnrolledStudents.FilteredData | src/components/Music-Classes/MusicClassesEnrolledStudents.tsx:44-58 | the whole list for a blank query, else exactly the matching enrolments in order, each as often as in the data |
| MusicEnrolledStudents.ExcelRowsLayout | src/components/Music-Classes/MusicClassesEnrolledStudents.tsx:61-73 | the spreadsheet exists exactly when no listed enrolment has nullish forms, with one line per enrolment |
| MusicEnrolledStudents.PairsText | src/components/Music-Classes/MusicClassesEnrolledStudents.tsx:109-111 | a one-entry object renders as "key: value" |
| MusicEnrolledStudents.PairsTextAppend | src/components/Music-Classes/MusicClassesEnrolledStudents.tsx:109-111 | splitting an object's entries anywhere splits its text at a ", " |
| MusicEnrolledStudents.FlattenArray | src/components/Music-Classes/MusicClassesEnrolledStudents.tsx:103-116 | flattening fails exactly when some element is null |
| MusicEnrolledStudents.FlattenArrayCases | src/components/Music-Classes/MusicClassesEnrolledStudents.tsx:103-116 | an array of objects, or of strings, joins with ", "; an empty array is ""; a null element throws |
| MusicEnrolledStudents.DrawOneRow | src/components/Music-Classes/MusicClassesEnrolledStudents.tsx:162-165 | drawing one attribute's table gives exactly its specified operations |
| MusicEnrolledStudents.DrawEntry | src/components/Music-Classes/MusicClassesEnrolledStudents.tsx:143-166 | one pass of the loop draws exactly the attribute's specified operations |
| MusicEnrolledStudents.HandleDownload | src/components/Music-Classes/MusicClassesEnrolledStudents.tsx:76-169 | the handler saves exactly the specified document |
| MusicEnrolledStudents.DownloadFindsEnrollment | src/components/Music-Classes/MusicClassesEnrolledStudents.tsx:77-89 | an unknown id saves nothing; a saved document is "Registration_<id>.pdf" and starts with its title |
| MusicEnrolledStudents.FormsLayout | src/components/Music-Classes/MusicClassesEnrolledStudents.tsx:144-161 | an empty form array draws nothing; otherwise two operations per form, and the cursor after the last table |
| MusicEnrolledStudents.FormAt | src/components/Music-Classes/MusicClassesEnrolledStudents.tsx:144-161 | form k's heading at its cursor, its table ten units below |
| MusicEnrolledStudents.NoFormsRow | src/components/Music-Classes/MusicClassesEnrolledStudents.tsx:160 | only a non-array form value gives the one-row "No forms available" table; an array is drawn form by form |
| MusicEnrolledStudents.OtherEntriesLayout | src/components/Music-Classes/MusicClassesEnrolledStudents.tsx:162-165 | any other attribute gives a one-row table; a falsy non-array value shows "N/A" |
| AnnualRegistration.UserDetails | src/components/Annual-Registration/AnnualRegistration.tsx:58-71 | twelve details with their fixed labels, in order |
| AnnualRegistration.Lines | src/components/Annual-Registration/AnnualRegistration.tsx:73-76 | detail i is the line "<label>: <value>" at x 14, y 30 + 10 i |
| AnnualRegistration.HandleDownload | src/components/Annual-Registration/AnnualRegistration.tsx:50-88 | the handler saves exactly the specified document |
| AnnualRegistration.DownloadLayout | src/components/Annual-Registration/AnnualRegistration.tsx:50-88 | title, the twelve detail lines, then the footer ten units above the page bottom, saved as "<first>_<last>_Details.pdf" |
| AnnualRegistration.DetailValues | src/components/Annual-Registration/AnnualRegistration.tsx:58-71 | each detail shows the matching attribute of the student |
| FormErrors.RequiredErrorsSpec | src/components/Programs/AddProgramForm.tsx:115-126 | a field is reported exactly when it fails, with its message; keys stay distinct; no errors exactly when no field fails |
| FormErrors.RequiredErrorsKeys | src/components/Programs/AddProgramForm.tsx:115-126 | the errors' keys are the failing fields in field order |
| FormErrors.AllFailing | src/components/Programs/AddProgramForm.tsx:115-126 | when every field fails, every field is reported |
| FormErrors.CollectErrors | src/components/Programs/AddProgramForm.tsx:115-126 | the `forEach` builds exactly the specified errors |
| AddProgramForm.SubmitErrorsEmptyIff | src/components/Programs/AddProgramForm.tsx:115-134 | submit finds no error exactly when every field is truthy and an image file is chosen |
| AddProgramForm.SubmitErrorsReported | src/components/Programs/AddProgramForm.tsx:115-126 | every falsy field, and the image while no file is chosen, reads " required" |
| AddProgramForm.InitialFormValid | src/components/Programs/AddProgramForm.tsx:28-43 | the initial form's keys are its distinct field names, the image among them |
| AddProgramForm.BlankFormErrors | src/components/Programs/AddProgramForm.tsx:115-126 | an all-falsy form has an error on every field, in order |
| AddProgramForm.InitialFormErrors | src/components/Programs/AddProgramForm.tsx:28-43 | the untouched form has errors on all fourteen fields |
| AddProgramForm.FormPage.constructor | src/components/Programs/AddProgramForm.tsx:45-49 | the form opens blank, with no file, no errors and not loading |
| AddProgramForm.FormPage.HandleChange | src/components/Programs/AddProgramForm.tsx:68-76 | the named field holds the text (the parsed number for price) and its error is cleared; nothing else changes |
| AddProgramForm.FormPage.ChooseFile | src/components/Programs/AddProgramForm.tsx:54-65 | the file is selected, its name fills the image field, and the image error is cleared |
| AddProgramForm.FormPage.Submit | src/components/Programs/AddProgramForm.tsx:112-152 | with errors, nothing is posted and the errors are shown; otherwise the form with the uploaded URL is posted and the modal closes on success |
| AddNewUserForm.SubmitErrorsEmptyIff | src/components/Payment/AddNewUserForm.tsx:73-80 | submit finds no error exactly when every field but amount is truthy |
| AddNewUserForm.SubmitErrorsReported | src/components/Payment/AddNewUserForm.tsx:73-80 | every falsy field but amount reads "This field is required"; amount is never reported |
| AddNewUserForm.DistinctFieldNames | src/components/Payment/AddNewUserForm.tsx:27-40 | the twelve field names are distinct and amount is not among them |
| AddNewUserForm.InitialFormErrors | src/components/Payment/AddNewUserForm.tsx:27-40 | the untouched form has errors on all twelve fields, in order |
| AddNewUserForm.FormPage.constructor | src/components/Payment/AddNewUserForm.tsx:42-45 | the form opens blank, with no errors and not loading |
| AddNewUserForm.FormPage.HandleChange | src/components/Payment/AddNewUserForm.tsx:47-68 | the named field holds the text and its error is cleared |
| AddNewUserForm.FormPage.Submit | src/components/Payment/AddNewUserForm.tsx:71-103 | with errors, nothing is posted and the errors replace the old ones; otherwise the form is posted and the modal closes on success |
| TestingWizard.StepErrorsSpec | src/components/Testing.tsx:81-107 | a step has no errors exactly when all its fields are truthy, and each field reads its message or nothing |
| TestingWizard.DistinctStepOneFields | src/components/Testing.tsx:81-107 | the step-1 fields are distinct |
| TestingWizard.InitialFormBlank | src/components/Testing.tsx:42-71 | every field of the initial form is falsy |
| TestingWizard.InitialStepOneErrors | src/components/Testing.tsx:42-107 | Next on the untouched form reports all seventeen step-1 fields, in order |
| TestingWizard.Wizard.constructor | src/components/Testing.tsx:42-74 | the wizard opens on step 1 with a blank form and no errors |
| TestingWizard.Wizard.HandleChange | src/components/Testing.tsx:76-79 | exactly the named field changes |
| TestingWizard.Wizard.Validate | src/components/Testing.tsx:81-129 | the validator replaces the errors and passes exactly when the step is complete |
| TestingWizard.Wizard.HandleNext | src/components/Testing.tsx:131-136 | step 1 advances exactly when complete, else shows its errors; on step 2 nothing happens |
| TestingWizard.Wizard.HandleBack | src/components/Testing.tsx:138-143 | step 2 goes back to step 1 and clears errors; on step 1 nothing happens |
| TestingWizard.Wizard.HandleSubmit | src/components/Testing.tsx:145-156 | the form is posted exactly when step 2 is complete |
| ProgramsList.FetchError | src/components/Programs/Programs.tsx:34-41 | the shown error is the server's message if truthy, else a fixed fallback |
| ProgramsList.WithoutId | src/components/Programs/Programs.tsx:60 | exactly the programs with another id, in order, each as often as before |
| ProgramsList.ProgramsPage.constructor | src/components/Programs/Programs.tsx:19-23 | the page opens loading, with no programs, no error and nothing being deleted |
| ProgramsList.ProgramsPage.FetchDone | src/components/Programs/Programs.tsx:26-45 | loading ends; the list is replaced on success, the error set on failure |
| ProgramsList.ProgramsPage.StartDelete | src/components/Programs/Programs.tsx:52-58 | the id joins the set being deleted, its button is disabled, and the delete request goes to its URL |
| ProgramsList.ProgramsPage.FinishDelete | src/components/Programs/Programs.tsx:59-71 | on success the program is gone; either way only this id leaves the set being deleted |
| ProgramsList.DeleteRemovesRow | src/components/Programs/Programs.tsx:60 | with distinct ids, deleting row k's id removes exactly row k |
| RecordTables.WithoutId | src/Schedule.tsx:45 | exactly the rows with another id, in order, each as often as before |
| RecordTables.DeletesCommute | src/Schedule.tsx:45 | two deletes applied to the current list commute and remove both rows |
| RecordTables.StaleDeleteRestoresRow | src/Schedule.tsx:45 | filtering a stale snapshot brings back a row an earlier delete removed |
| RecordTables.TablePage.constructor | src/Schedule.tsx:15-18 | the page opens loading, with no rows, no error and no pending delete |
| RecordTables.TablePage.View | src/Schedule.tsx:53-63 | a spinner while loading, the error text after a failure, else the table with its heading |
| RecordTables.TablePage.FetchDone | src/Schedule.tsx:21-36 | loading ends; the rows on success, the fixed error text on failure |
| RecordTables.TablePage.StartDelete | src/Schedule.tsx:39-44 | only this row's button is disabled, the request goes to its URL, and the handler keeps a snapshot of the rows |
| RecordTables.TablePage.FinishDelete | src/Schedule.tsx:45-50 | as written: on success the rows become the snapshot without the id; on failure the error text |
| RecordTables.TablePage.FinishDeleteOnCurrent | src/Schedule.tsx:45-50 | corrected form of the same response: on success the current rows, not the snapshot, lose the id; on failure the error text |
| RecordTables.StaleDeleteOnPage | src/Schedule.tsx:22-50 | as written: fetch, delete A, delete B, both responses succeed in click order, and the page still lists A; it lists exactly the fetched rows other than B |
| RecordTables.CurrentDeleteOnPage | src/Schedule.tsx:22-50 | corrected: the same sequence leaves exactly the fetched rows other than A and B |
| InPersonTutoringList.Combined | src/components/InPerson-Tutoring/InPersonPrivateTutoring.tsx:36-39 | the first array followed by the second element |
| InPersonTutoringList.NameShown | src/components/InPerson-Tutoring/InPersonPrivateTutoring.tsx:98 | the program name when truthy, else the placeholder "Prpgram Name" |
| InPersonTutoringList.EditRoute | src/components/InPerson-Tutoring/InPersonPrivateTutoring.tsx:106-116 | the lesson editor exactly for id 18, the program editor otherwise |
| InPersonTutoringList.RenderRow | src/components/InPerson-Tutoring/InPersonPrivateTutoring.tsx:88-104 | a row renders exactly when the program is not null or undefined and its shown name and its price render as JSX children; it is numbered from 1 and shows the name, the price and the Edit route |
| InPersonTutoringList.ObjectPriceThrows | src/components/InPerson-Tutoring/InPersonPrivateTutoring.tsx:103 | a price that is a plain object crashes its row |
| InPersonTutoringList.ObjectNameThrows | src/components/InPerson-Tutoring/InPersonPrivateTutoring.tsx:98 | a program name that is a plain object crashes its row |
| InPersonTutoringList.RenderRows | src/components/InPerson-Tutoring/InPersonPrivateTutoring.tsx:86-120 | rendering succeeds exactly when every row renders, with one row per program |
| InPersonTutoringList.FetchedLayout | src/components/InPerson-Tutoring/InPersonPrivateTutoring.tsx:36-120 | after a fetch the page crashes exactly when some program's row cannot render, a missing second element included; when all render, the list has one more row than the first array, numbered from 1, ending with the extra program |
| InPersonTutoringList.FailureMessages | src/components/InPerson-Tutoring/InPersonPrivateTutoring.tsx:43-49 | a failed fetch shows one of the two fixed messages |
| PrivateLessons.NewId | src/components/Music-Classes/PrivateLessonEditPage.tsx:14 | a generated id is eight digits, not starting with 0, reading back as the draw |
| PrivateLessons.NewDraft | src/components/Music-Classes/PrivateLessonEditPage.tsx:12-17 | a fresh draft has a generated id and empty title and price |
| PrivateLessons.WithoutId | src/components/Music-Classes/PrivateLessonEditPage.tsx:28-30 | exactly the lessons with another id, in order, each as often as before |
| PrivateLessons.WithoutIdIdempotent | src/components/Music-Classes/PrivateLessonEditPage.tsx:28-30 | deleting twice is deleting once; an absent id changes nothing |
| PrivateLessons.LessonsPage.constructor | src/components/Music-Classes/PrivateLessonEditPage.tsx:12-17 | no lessons and a fresh draft |
| PrivateLessons.LessonsPage.SetTitle | src/components/Music-Classes/PrivateLessonEditPage.tsx:68-73 | only the draft's title changes |
| PrivateLessons.LessonsPage.SetPrice | src/components/Music-Classes/PrivateLessonEditPage.tsx:74-80 | only the draft's price changes |
| PrivateLessons.LessonsPage.AddLesson | src/components/Music-Classes/PrivateLessonEditPage.tsx:19-26 | the draft is appended and a new draft with a fresh id replaces it |
| PrivateLessons.LessonsPage.DeleteLesson | src/components/Music-Classes/PrivateLessonEditPage.tsx:28-30 | every lesson with that id goes; the draft stays |
| ProgramEdit.PricedOption.constructor | src/components/Private/OnlinePrivateTutoringEditPage.tsx:52-57 | a sub-option entry with the given texts |
| ProgramEdit.Pairs | src/components/Private/OnlinePrivateTutoringEditPage.tsx:39-50 | the texts of the entries, in order |
| ProgramEdit.SetOption | src/components/Private/OnlinePrivateTutoringEditPage.tsx:39-50 | only the changed input's text of the entry changes |
| ProgramEdit.ImageAfterUpload | src/components/Private/OnlinePrivateTutoringEditPage.tsx:68-88 | the uploaded URL when a file was chosen and uploaded, otherwise the current image |
| ProgramEdit.SavePayload | src/components/Private/OnlinePrivateTutoringEditPage.tsx:90-96 | `{ ...program, image }`: image reads as the new one and every other key as before |
| ProgramEdit.SaveRequestReplacesOnlyImage | src/components/Private/OnlinePrivateTutoringEditPage.tsx:90-111 | the saved record keeps its keys distinct and in place, and differs from the edited record only in the image |
| InPersonTutoringEdit.EditPage.constructor | src/components/InPerson-Tutoring/InPersonPrivateTutoringEditPage.tsx:33 | a shallow copy sharing the session entries, headed by the program name |
| InPersonTutoringEdit.EditPage.InputChange | src/components/InPerson-Tutoring/InPersonPrivateTutoringEditPage.tsx:36-41 | the named attribute holds the text; nothing else changes |
| InPersonTutoringEdit.EditPage.EditSession | src/components/InPerson-Tutoring/InPersonPrivateTutoringEditPage.tsx:47-58 | row index's input changes in the shared entry, and the edited list is stored as `sessionType` |
| InPersonTutoringEdit.EditPage.AddSession | src/components/InPerson-Tutoring/InPersonPrivateTutoringEditPage.tsx:60-65 | a new empty row at the end; earlier rows unchanged |
| InPersonTutoringEdit.EditPage.RemoveSession | src/components/InPerson-Tutoring/InPersonPrivateTutoringEditPage.tsx:67-74 | exactly row index is gone, the rest in order |
| InPersonTutoringEdit.EditPage.ChooseFile | src/components/InPerson-Tutoring/InPersonPrivateTutoringEditPage.tsx:137 | only the file choice changes |
| InPersonTutoringEdit.EditPage.Save | src/components/InPerson-Tutoring/InPersonPrivateTutoringEditPage.tsx:98-119 | the PUT carries the record with its current lists and the image after upload; navigates back on success |
| OnlineTutoringEdit.EditPage.constructor | src/components/Private/OnlinePrivateTutoringEditPage.tsx:25 | a shallow copy sharing the session entries, headed by the program name |
| OnlineTutoringEdit.EditPage.InputChange | src/components/Private/OnlinePrivateTutoringEditPage.tsx:28-33 | the named attribute holds the text; nothing else changes |
| OnlineTutoringEdit.EditPage.EditOption | src/components/Private/OnlinePrivateTutoringEditPage.tsx:39-50 | row index's input changes in the shared entry; the list stays the same objects |
| OnlineTutoringEdit.EditPage.AddOption | src/components/Private/OnlinePrivateTutoringEditPage.tsx:52-57 | a new empty row at the end; earlier rows unchanged |
| OnlineTutoringEdit.EditPage.RemoveOption | src/components/Private/OnlinePrivateTutoringEditPage.tsx:59-66 | exactly row index is gone, the rest in order |
| OnlineTutoringEdit.EditPage.ChooseFile | src/components/Private/OnlinePrivateTutoringEditPage.tsx:129 | only the file choice changes |
| OnlineTutoringEdit.EditPage.Save | src/components/Private/OnlinePrivateTutoringEditPage.tsx:90-111 | the PUT carries the record with the current list and the image after upload; navigates back on success |
| MusicClassesEdit.EditPage.constructor | src/components/Music-Classes/MusicClassesEditPage.tsx:30 | a shallow copy sharing the lesson-length entries, headed by the program name |
| MusicClassesEdit.EditPage.InputChange | src/components/Music-Classes/MusicClassesEditPage.tsx:34-39 | the named attribute holds the text; nothing else changes |
| MusicClassesEdit.EditPage.EditOption | src/components/Music-Classes/MusicClassesEditPage.tsx:45-56 | row index's input holds the text without leading whitespace |
| MusicClassesEdit.EditPage.AddOption | src/components/Music-Classes/MusicClassesEditPage.tsx:58-63 | a new empty row at the end; earlier rows unchanged |
| MusicClassesEdit.EditPage.RemoveOption | src/components/Music-Classes/MusicClassesEditPage.tsx:65-72 | exactly row index is gone, the rest in order |
| MusicClassesEdit.EditPage.ChooseFile | src/components/Music-Classes/MusicClassesEditPage.tsx:135 | only the file choice changes |
| MusicClassesEdit.EditPage.Save | src/components/Music-Classes/MusicClassesEditPage.tsx:96-118 | the PUT carries the record with the current list and the image after upload; navigates back on success |
| AfterSchoolEdit.EditPage.constructor | src/components/After-School/AfterSchoolEditPage.tsx:33-35 | a copy of the record, headed by its name, not loading |
| AfterSchoolEdit.EditPage.InputChange | src/components/After-School/AfterSchoolEditPage.tsx:37-44 | the named attribute holds the text; nothing else changes |
| AfterSchoolEdit.EditPage.ChooseFile | src/components/After-School/AfterSchoolEditPage.tsx:112 | only the file choice changes |
| AfterSchoolEdit.EditPage.Save | src/components/After-School/AfterSchoolEditPage.tsx:76-94 | the PUT carries the record with the image after upload; on success it navigates back and stays loading |
| SingleProgramEdit.EditPage.constructor | src/components/Programs/SingleProgramEditPage.tsx:29 | a copy of the record |
| SingleProgramEdit.EditPage.InputChange | src/components/Programs/SingleProgramEditPage.tsx:32-37 | the named attribute holds the text; the heading, the record's name, does not change |
| SingleProgramEdit.EditPage.ChooseFile | src/components/Programs/SingleProgramEditPage.tsx:97 | only the file choice changes |
| SingleProgramEdit.EditPage.Save | src/components/Programs/SingleProgramEditPage.tsx:63-79 | the PUT goes to the URL keyed by the program name, with the image after upload |
| SouthlakeCampEdit.EditPage.constructor | src/components/Southlake-Camps/SouthlakeCampEditPage.tsx:25-28 | a copy of the record, headed by the camp title |
| SouthlakeCampEdit.EditPage.InputChange | src/components/Southlake-Camps/SouthlakeCampEditPage.tsx:31-36 | the named attribute holds the text; nothing else changes |
| SouthlakeCampEdit.EditPage.ChooseFile | src/components/Southlake-Camps/SouthlakeCampEditPage.tsx:103 | only the file choice changes |
| SouthlakeCampEdit.EditPage.Save | src/components/Southlake-Camps/SouthlakeCampEditPage.tsx:64-85 | the PUT carries the record with the image after upload; navigates back on success, loading ends |

## Left out

- Network requests, the Cloudinary upload and their timing are not modelled. Each request's outcome (success or failure, the uploaded URL, the fetched data) is a parameter; the request itself is a returned value.
- jsPDF, jspdf-autotable and XLSX internals are not modelled. Where a table ends (`lastAutoTable.finalY`) is the parameter `finalY`; font sizes, styles and column widths are not modelled.
- `JSON.stringify` is an opaque `Json` cell; the text it produces is not modelled.
- Dates are parameters: `new Date().toLocaleString()`, the expiry date's `toLocaleDateString()`, and `Math.random()`, which is the integer draw `n` in the range the expression can produce.
- `parseFloat` is the parameter `parsedPrice`.
- Numbers are integers; floating point is not modelled.
- Regular expressions and case conversion work on ASCII only; Unicode letters are not modelled.
- JsValues.GreaterThanZero: a string, or an array or object through its string form, counts as a number only when trimmed it is a plain run of decimal digits; signs, fractions, exponents, hexadecimal and `Infinity` strings are treated as not above zero.
- JsValues.LengthOf: a string's length is its number of characters, not of UTF-16 code units.
- The DOM, toasts, navigation other than its outcome, modals opening, console output and the textarea auto-grow effects are not modelled.
- React state updates are applied in sequence. Batching and re-render timing are not modelled, except where a handler reads a stale value (the Findings row).
- A network call's asynchronous halves are separate methods (start and finish of a delete); interleavings between pages are not modelled.
- InPersonTutoringEdit.EditPage.Record: key order after a session edit. The first `EditSession` appends `sessionType` to the record, so an attribute that a later `InputChange` adds comes after `sessionType` in the page's object but before it in `Record()`. Existing `numberOfHours` and `sessionType` keys keep their places in both.
- Login, the protected routes, the App routes, the entry point, the sidebar, the dashboard, the Single Program enrolled students page, and the After School and Music Classes list pages' fetch and render are not part of this model.
- The Users and Payment tables' rendering (cell markup, the details modal opening) is modelled only through their rows; styling is not modelled.

## Findings

| source | as written | input that shows it | evidently intended | confidence | as-written member | corrected member |
|---|---|---|---|---|---|---|
| src/Schedule.tsx:45 | the delete handler filters the `data` the handler captured when it was called, so a response replaces the list with that old snapshot minus one id (the same at src/components/ContactUs.tsx:46) | delete row A, then delete row B before A's response: B's response sets the list to the snapshot without B, which still holds A | filter the current list (`setData(prev => prev.filter(...))`), so both rows are gone in either order | not executed | RecordTables.StaleDeleteRestoresRow, RecordTables.StaleDeleteOnPage | RecordTables.DeletesCommute, RecordTables.CurrentDeleteOnPage |
