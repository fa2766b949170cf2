/**
 * The Annual Registration page's per-student PDF: a title, twelve
 * "<label>: <value>" lines ten units apart, and a footer with the time of
 * generation.  Formatting a date for the user's locale and reading the clock
 * are outside the model: the expiry text, the generation time and the page
 * height are parameters.
 */
module AnnualRegistration {
  import opened Strings
  import opened Pdf

  datatype Student = Student(
    id: int,
    parentFirstName: string,
    parentLastName: string,
    firstName: string,
    lastName: string,
    address: string,
    zipCode: int,
    country: string,
    city: string,
    state: string,
    phone: string,
    email: string,
    amount: string,
    registrationId: int,
    expiryDate: string)

  const Title := "Enrolled Student Details"

  /** The labels of `userDetails`, in the order the lines are written. */
  const Labels: seq<string> := ["Parent Name", "Child Name", "Address", "City", "State", "Country",
                                "Zip Code", "Phone", "Email", "Payment Amount", "Registration ID", "Expiry Date"]

  /**
   * `userDetails`: the label/value pairs of one student.  `expiryText` is
   * what `new Date(expiryDate).toLocaleDateString()` gives.
   */
  function UserDetails(s: Student, expiryText: string): (d: seq<(string, string)>)
    ensures |d| == |Labels| == 12
    ensures forall i :: 0 <= i < |d| ==> d[i].0 == Labels[i]
  {
    [("Parent Name", s.parentFirstName + " " + s.parentLastName),
     ("Child Name", s.firstName + " " + s.lastName),
     ("Address", s.address),
     ("City", s.city),
     ("State", s.state),
     ("Country", s.country),
     ("Zip Code", IntToString(s.zipCode)),
     ("Phone", s.phone),
     ("Email", s.email),
     ("Payment Amount", "$" + s.amount),
     ("Registration ID", IntToString(s.registrationId)),
     ("Expiry Date", expiryText)]
  }

  /** The detail lines: pair `i` as "<label>: <value>" at x 14, y 30 + 10 i. */
  function Lines(details: seq<(string, string)>): (ops: seq<PdfOp>)
    ensures |ops| == |details|
    ensures forall i :: 0 <= i < |details| ==> ops[i] == Text(details[i].0 + ": " + details[i].1, 14, 30 + 10 * i)
  {
    seq(|details|, i requires 0 <= i < |details| => Text(details[i].0 + ": " + details[i].1, 14, 30 + 10 * i))
  }

  function FileName(s: Student): string
  {
    s.firstName + "_" + s.lastName + "_Details.pdf"
  }

  /** The document `handleDownload` saves. */
  function Download(s: Student, expiryText: string, generatedAt: string, pageHeight: int): Document
  {
    Document([Text(Title, 14, 20)] + Lines(UserDetails(s, expiryText)) + [Text("Generated on: " + generatedAt, 14, pageHeight - 10)],
             FileName(s))
  }

  /** `handleDownload`: the title, the `forEach` over the details, the footer. */
  method HandleDownload(s: Student, expiryText: string, generatedAt: string, pageHeight: int) returns (doc: Document)
    ensures doc == Download(s, expiryText, generatedAt, pageHeight)
  {
    var ops := [Text(Title, 14, 20)];
    var details := UserDetails(s, expiryText);
    var index := 0;
    while index < |details|
      invariant 0 <= index <= |details|
      invariant ops == [Text(Title, 14, 20)] + Lines(details)[..index]
      decreases |details| - index
    {
      var (key, value) := details[index];
      ops := ops + [Text(key + ": " + value, 14, 30 + index * 10)];
      index := index + 1;
    }
    assert Lines(details)[..index] == Lines(details);
    ops := ops + [Text("Generated on: " + generatedAt, 14, pageHeight - 10)];
    doc := Document(ops, FileName(s));
  }

  /**
   * The saved document: the title, then exactly twelve lines in the fixed
   * label order, line `i` at y = 30 + 10 i, each "<label>: <value>", then the
   * footer; it is saved as "<firstName>_<lastName>_Details.pdf".
   */
  lemma DownloadLayout(s: Student, expiryText: string, generatedAt: string, pageHeight: int)
    ensures var doc := Download(s, expiryText, generatedAt, pageHeight);
            |doc.ops| == 14 &&
            doc.ops[0] == Text(Title, 14, 20) &&
            (forall i :: 0 <= i < 12 ==>
               doc.ops[i + 1].Text? && doc.ops[i + 1].x == 14 && doc.ops[i + 1].y == 30 + 10 * i &&
               doc.ops[i + 1].line == Labels[i] + ": " + UserDetails(s, expiryText)[i].1) &&
            doc.ops[13] == Text("Generated on: " + generatedAt, 14, pageHeight - 10) &&
            doc.fileName == s.firstName + "_" + s.lastName + "_Details.pdf"
  {
    var doc := Download(s, expiryText, generatedAt, pageHeight);
    var lines := Lines(UserDetails(s, expiryText));
    assert doc.ops == [Text(Title, 14, 20)] + lines + [Text("Generated on: " + generatedAt, 14, pageHeight - 10)];
    forall i | 0 <= i < 12
      ensures doc.ops[i + 1] == lines[i]
    {
    }
  }

  /**
   * The values: the two names are "first last", the amount is prefixed with
   * "$", and the zip code and registration id are written in decimal, so
   * reading the digits back gives the numbers (for non-negative numbers).
   */
  lemma DetailValues(s: Student, expiryText: string)
    ensures var d := UserDetails(s, expiryText);
            d[0].1 == s.parentFirstName + " " + s.parentLastName &&
            d[1].1 == s.firstName + " " + s.lastName &&
            d[9].1 == "$" + s.amount &&
            d[11].1 == expiryText &&
            (s.zipCode >= 0 ==> DecimalValue(d[6].1) == s.zipCode) &&
            (s.registrationId >= 0 ==> DecimalValue(d[10].1) == s.registrationId)
  {
    if s.zipCode >= 0 {
      NatToStringRoundTrip(s.zipCode);
    }
    if s.registrationId >= 0 {
      NatToStringRoundTrip(s.registrationId);
    }
  }
}
