/**
 * The In-person Private Tutoring list: the backend answers with a pair, an
 * array of programs and one more program, which the page joins into one list;
 * each row shows its number, the name (or a placeholder) and the price, and
 * its Edit button opens the lesson editor for program 18 and the program
 * editor for the others.
 */
module InPersonTutoringList {
  import opened Wrappers
  import opened JsValues

  const LessonEditRoute := "/person-private-tutoring-lesson-edit-page"
  const ProgramEditRoute := "/person-private-tutoring-edit-page"
  /** The placeholder shown for a program without a name, spelled as the page spells it. */
  const NamePlaceholder := "Prpgram Name"

  /** How the fetch ended; `second` is `undefined` when the response has no second element. */
  datatype FetchOutcome =
    | Fetched(first: seq<JsValue>, second: JsValue)
    | AxiosFailure
    | OtherFailure

  /** One rendered row. */
  datatype Row = Row(number: nat, name: JsValue, price: JsValue, editRoute: string)

  /** What the page shows once loading ends; `Crashed` when rendering a row throws. */
  datatype View = ErrorText(message: string) | List(rows: seq<Row>) | Crashed

  /** `[...data[0], data[1]]`. */
  function Combined(first: seq<JsValue>, second: JsValue): (r: seq<JsValue>)
    ensures |r| == |first| + 1
    ensures r[..|first|] == first && r[|first|] == second
  {
    first + [second]
  }

  /** `p.key` on a non-null value: an object's property, `undefined` otherwise. */
  function Prop(p: JsValue, key: string): JsValue
  {
    if p.JObject? then Get(p.fields, key) else JUndefined
  }

  /** `program?.programName || "Prpgram Name"`. */
  function NameShown(p: JsValue): (name: JsValue)
    ensures Truthy(name)
    ensures Truthy(Prop(p, "programName")) && !(p.JNull? || p.JUndefined?) ==> name == Prop(p, "programName")
    ensures p.JNull? || p.JUndefined? || !Truthy(Prop(p, "programName")) ==> name == JStr(NamePlaceholder)
  {
    var n := if p.JNull? || p.JUndefined? then JUndefined else Prop(p, "programName");
    if Truthy(n) then n else JStr(NamePlaceholder)
  }

  /** Where the Edit button leads. */
  function EditRoute(p: JsValue): (route: string)
    ensures route == LessonEditRoute <==> Prop(p, "id") == JNum(18)
    ensures route == LessonEditRoute || route == ProgramEditRoute
  {
    if Prop(p, "id") == JNum(18) then LessonEditRoute else ProgramEditRoute
  }

  /**
   * A program's row renders: `program.price` throws on a null or undefined
   * program, and React throws on a name or price that is a plain object (or
   * an array holding one).
   */
  predicate RowRenders(p: JsValue)
  {
    !(p.JNull? || p.JUndefined?) && JsxText(NameShown(p)).Some? && JsxText(Prop(p, "price")).Some?
  }

  /** Row `index`, or `None` when rendering it throws. */
  function RenderRow(index: nat, p: JsValue): (r: Option<Row>)
    ensures r.Some? <==> RowRenders(p)
    ensures r.Some? ==> r.value.number == index + 1 && r.value.name == NameShown(p) &&
                        r.value.price == Prop(p, "price") && r.value.editRoute == EditRoute(p)
  {
    if RowRenders(p) then Some(Row(index + 1, NameShown(p), Prop(p, "price"), EditRoute(p)))
    else None
  }

  /** A program whose price is a plain object crashes its row, whatever its name. */
  lemma ObjectPriceThrows(index: nat, fields: JsObject)
    requires Get(fields, "price").JObject?
    ensures RenderRow(index, JObject(fields)) == None
  {
    assert JsxText(Prop(JObject(fields), "price")) == None;
  }

  /** A program whose truthy name is a plain object crashes its row. */
  lemma ObjectNameThrows(index: nat, fields: JsObject)
    requires Get(fields, "programName").JObject?
    ensures RenderRow(index, JObject(fields)) == None
  {
    assert NameShown(JObject(fields)) == Get(fields, "programName");
  }

  /** Every row renders without throwing. */
  predicate AllRender(programs: seq<JsValue>)
  {
    forall i :: 0 <= i < |programs| ==> RenderRow(i, programs[i]).Some?
  }

  /** `programs.map(...)`: all rows, or `None` when one of them throws. */
  function RenderRows(programs: seq<JsValue>): (r: Option<seq<Row>>)
    ensures r.Some? <==> AllRender(programs)
    ensures r.Some? ==> |r.value| == |programs| &&
                        forall i :: 0 <= i < |programs| ==> Some(r.value[i]) == RenderRow(i, programs[i])
  {
    if AllRender(programs) then
      Some(seq(|programs|, i requires 0 <= i < |programs| && AllRender(programs) => RenderRow(i, programs[i]).value))
    else None
  }

  /** The page after the fetch. */
  function PageView(outcome: FetchOutcome): View
  {
    match outcome
    case AxiosFailure => ErrorText("Failed to fetch programs")
    case OtherFailure => ErrorText("An unexpected error occurred")
    case Fetched(first, second) =>
      match RenderRows(Combined(first, second))
      case None => Crashed
      case Some(rows) => List(rows)
  }

  /**
   * After a successful fetch the page crashes exactly when some program's
   * row throws (a missing second element among them).  When every row
   * renders, the list has one row more than the array: rows are numbered
   * from 1, the last row is the extra program, every name shown is truthy,
   * and exactly program 18 opens the lesson editor.
   */
  lemma FetchedLayout(first: seq<JsValue>, second: JsValue)
    ensures PageView(Fetched(first, second)) == Crashed <==>
            !RowRenders(second) || exists i :: 0 <= i < |first| && !RowRenders(first[i])
    ensures second.JNull? || second.JUndefined? ==> PageView(Fetched(first, second)) == Crashed
    ensures (forall i :: 0 <= i < |first| ==> RowRenders(first[i])) && RowRenders(second) ==>
              var v := PageView(Fetched(first, second));
              v.List? && |v.rows| == |first| + 1 &&
              v.rows[|first|] == Row(|first| + 1, NameShown(second), Prop(second, "price"), EditRoute(second)) &&
              forall i :: 0 <= i < |v.rows| ==>
                v.rows[i].number == i + 1 && Truthy(v.rows[i].name) &&
                (v.rows[i].editRoute == LessonEditRoute <==> Prop(Combined(first, second)[i], "id") == JNum(18))
  {
    var all := Combined(first, second);
    if !RowRenders(second) {
      assert RenderRow(|first|, all[|first|]).None?;
    }
    if i :| 0 <= i < |first| && !RowRenders(first[i]) {
      assert all[i] == first[i];
      assert RenderRow(i, all[i]).None?;
    }
    if (forall i :: 0 <= i < |first| ==> RowRenders(first[i])) && RowRenders(second) {
      forall i | 0 <= i < |all|
        ensures RenderRow(i, all[i]).Some?
      {
        if i < |first| {
          assert all[i] == first[i];
        }
      }
    }
  }

  /** A failed fetch shows one of two fixed messages and never the list. */
  lemma FailureMessages(outcome: FetchOutcome)
    requires !outcome.Fetched?
    ensures PageView(outcome).ErrorText?
    ensures PageView(outcome).message == (if outcome.AxiosFailure? then "Failed to fetch programs" else "An unexpected error occurred")
  {
  }
}
