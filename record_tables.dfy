/**
 * The two submission tables, the Schedule page (trial lesson requests) and
 * the Contact Us page (messages).  Both fetch their rows once, show a spinner,
 * then either the error text or the table, and delete rows one request at a
 * time with a single "being deleted" slot.
 *
 * The delete handler removes the row from the list it saw when the button
 * was clicked, not from the list current when the request returns: that
 * list is the `snapshot` that StartDelete returns and FinishDelete takes.
 */
module RecordTables {
  import opened Wrappers
  import opened Strings
  import opened Seqs

  /** Which of the two pages. */
  datatype Page = Schedule | ContactUs

  /** A table row: its id and the texts of its data columns. */
  datatype Row = Row(id: int, cells: seq<string>)

  /** What the page renders. */
  datatype View = Spinner | ErrorText(message: string) | Table(heading: string, rows: seq<Row>)

  const FetchErrorText := "Error fetching data"
  const DeleteErrorText := "Error deleting data"

  function DeleteEndpoint(page: Page): string
  {
    match page
    case Schedule => "https://southlakebackend.onrender.com/api/deleteSchedule/"
    case ContactUs => "https://southlakebackend.onrender.com/api/deleteContact/"
  }

  function Heading(page: Page): string
  {
    match page
    case Schedule => "Students Data Table"
    case ContactUs => "Contact Details"
  }

  /** `rows.filter(item => item.id !== id)`. */
  function WithoutId(rows: seq<Row>, id: int): (r: seq<Row>)
    ensures IsSubsequence(r, rows)
    ensures forall row :: row in r <==> row in rows && row.id != id
    ensures forall row :: multiset(r)[row] == if row.id != id then multiset(rows)[row] else 0
  {
    Filter(rows, (row: Row) => row.id != id)
  }

  /**
   * Deletes applied to the current list compose: two deletes leave exactly
   * the rows with neither id, in their order, whichever finishes first.
   */
  lemma DeletesCommute(rows: seq<Row>, a: int, b: int)
    ensures WithoutId(WithoutId(rows, a), b) == WithoutId(WithoutId(rows, b), a)
    ensures forall row :: row in WithoutId(WithoutId(rows, a), b) <==> row in rows && row.id != a && row.id != b
  {
    FilterCommute(rows, (row: Row) => row.id != a, (row: Row) => row.id != b);
  }

  /**
   * Two overlapping deletes as written: `a` was deleted first, and then the
   * delete of `b`, clicked while `a`'s was in flight, filters the list both
   * saw.  The row deleted first is listed again.
   */
  lemma StaleDeleteRestoresRow(rows: seq<Row>, k: nat, b: int)
    requires k < |rows| && rows[k].id != b
    ensures var afterA := WithoutId(rows, rows[k].id);
            rows[k] !in afterA && rows[k] in WithoutId(rows, b)
  {
    assert rows[k] in rows;
  }

  class TablePage {
    const page: Page
    var data: seq<Row>
    var loading: bool
    var error: Option<string>
    /** The id of the row whose delete request was sent last, until a response clears it. */
    var loadingDelete: Option<int>

    constructor (page: Page)
      ensures this.page == page
      ensures data == [] && loading && error == None && loadingDelete == None
    {
      this.page := page;
      data := [];
      loading := true;
      error := None;
      loadingDelete := None;
    }

    /** The spinner while loading, then the error text if any, else the table. */
    function View(): (v: View)
      reads this
      ensures loading <==> v.Spinner?
      ensures !loading && error.Some? <==> v.ErrorText?
      ensures v.Table? ==> v.rows == data && v.heading == Heading(page)
    {
      if loading then Spinner
      else if error.Some? then ErrorText(error.value)
      else Table(Heading(page), data)
    }

    /** A row's Delete button is disabled. */
    predicate DeleteDisabled(id: int)
      reads this
    {
      loadingDelete == Some(id)
    }

    /** The fetch ends with the rows, or `None` when it failed. */
    method FetchDone(result: Option<seq<Row>>)
      modifies this
      ensures !loading
      ensures result.Some? ==> data == result.value && error == old(error)
      ensures result.None? ==> data == old(data) && error == Some(FetchErrorText) && View() == ErrorText(FetchErrorText)
      ensures loadingDelete == old(loadingDelete)
    {
      if result.Some? {
        data := result.value;
      } else {
        error := Some(FetchErrorText);
      }
      loading := false;
    }

    /**
     * Clicking an enabled Delete button: the row's id takes the slot (any
     * earlier id leaves it) and the request is sent; `snapshot` is the list
     * the handler filters when the response arrives.
     */
    method StartDelete(id: int) returns (snapshot: seq<Row>, url: string)
      requires !DeleteDisabled(id)
      modifies this
      ensures loadingDelete == Some(id) && DeleteDisabled(id)
      ensures forall other :: other != id ==> !DeleteDisabled(other)
      ensures snapshot == data == old(data)
      ensures url == DeleteEndpoint(page) + IntToString(id)
      ensures loading == old(loading) && error == old(error)
    {
      loadingDelete := Some(id);
      snapshot := data;
      url := DeleteEndpoint(page) + IntToString(id);
    }

    /**
     * The response to the delete of `id` clicked when the list was
     * `snapshot`: on success the list becomes the snapshot without that id;
     * on failure the page shows the delete error and the list stays.  The
     * slot is cleared either way, whichever id it holds.
     */
    method FinishDelete(snapshot: seq<Row>, id: int, ok: bool)
      modifies this
      ensures ok ==> data == WithoutId(snapshot, id) && error == old(error)
      ensures !ok ==> data == old(data) && error == Some(DeleteErrorText)
      ensures loadingDelete == None && loading == old(loading)
    {
      if ok {
        data := WithoutId(snapshot, id);
      } else {
        error := Some(DeleteErrorText);
      }
      loadingDelete := None;
    }

    /**
     * The response handled as evidently intended: the row leaves the list
     * current when the response arrives, so earlier deletes stay applied.
     */
    method FinishDeleteOnCurrent(id: int, ok: bool)
      modifies this
      ensures ok ==> data == WithoutId(old(data), id) && error == old(error)
      ensures !ok ==> data == old(data) && error == Some(DeleteErrorText)
      ensures loadingDelete == None && loading == old(loading)
    {
      if ok {
        data := WithoutId(data, id);
      } else {
        error := Some(DeleteErrorText);
      }
      loadingDelete := None;
    }
  }

  /**
   * Two deletes in flight on one page, answered in click order: the fetch
   * shows `rows`, row A (`rows[k]`) and then row B are clicked, and both
   * requests succeed.  Handled as written, the page ends up listing row A.
   */
  method StaleDeleteOnPage(t: TablePage, rows: seq<Row>, k: nat, b: int)
    requires k < |rows| && rows[k].id != b
    requires t.loadingDelete == None
    modifies t
    ensures rows[k] in t.data
    ensures forall row :: row in t.data <==> row in rows && row.id != b
  {
    var a := rows[k].id;
    t.FetchDone(Some(rows));
    var snapA, urlA := t.StartDelete(a);
    var snapB, urlB := t.StartDelete(b);
    t.FinishDelete(snapA, a, true);
    t.FinishDelete(snapB, b, true);
  }

  /**
   * The same clicks and responses handled on the current list: neither row
   * is left, whatever else the list holds.
   */
  method CurrentDeleteOnPage(t: TablePage, rows: seq<Row>, k: nat, b: int)
    requires k < |rows| && rows[k].id != b
    requires t.loadingDelete == None
    modifies t
    ensures rows[k] !in t.data
    ensures forall row :: row in t.data <==> row in rows && row.id != rows[k].id && row.id != b
  {
    var a := rows[k].id;
    t.FetchDone(Some(rows));
    var snapA, urlA := t.StartDelete(a);
    var snapB, urlB := t.StartDelete(b);
    t.FinishDeleteOnCurrent(a, true);
    t.FinishDeleteOnCurrent(b, true);
  }
}
