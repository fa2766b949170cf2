/**
 * The Enrichment Classes list: the programs fetched from the backend, a
 * loading flag and an error, and deletion with the set of ids whose delete
 * request is in flight.  A delete is split into the click that starts it and
 * the response that ends it, so that several deletes can overlap.
 */
module ProgramsList {
  import opened Strings
  import opened JsValues
  import opened Seqs

  datatype Program = Program(id: int, programName: string, price: JsValue)

  const DeleteEndpoint := "https://southlakebackend.onrender.com/api/deleteProgram/"

  /** How the initial fetch ended. */
  datatype FetchOutcome =
    | Fetched(programs: seq<Program>)
    /** An Axios error, with `err.response?.data?.message` (undefined when absent). */
    | AxiosFailure(message: JsValue)
    | OtherFailure

  /** The error the page shows after a failed fetch: the server's message, or a fallback. */
  function FetchError(outcome: FetchOutcome): (e: JsValue)
    requires !outcome.Fetched?
    ensures Truthy(e)
    ensures outcome.AxiosFailure? && Truthy(outcome.message) ==> e == outcome.message
    ensures outcome.AxiosFailure? && !Truthy(outcome.message) ==> e == JStr("Failed to fetch programs")
    ensures outcome.OtherFailure? ==> e == JStr("An unexpected error occurred")
  {
    if outcome.OtherFailure? then JStr("An unexpected error occurred")
    else if Truthy(outcome.message) then outcome.message
    else JStr("Failed to fetch programs")
  }

  /** `prev.filter(program => program.id !== id)`. */
  function WithoutId(programs: seq<Program>, id: int): (r: seq<Program>)
    ensures IsSubsequence(r, programs)
    ensures forall p :: p in r <==> p in programs && p.id != id
    ensures forall p :: multiset(r)[p] == if p.id != id then multiset(programs)[p] else 0
  {
    Filter(programs, (p: Program) => p.id != id)
  }

  class ProgramsPage {
    var programs: seq<Program>
    var loading: bool
    /** `null` until a fetch fails. */
    var error: JsValue
    var deleting: set<int>

    constructor ()
      ensures programs == [] && loading && error == JNull && deleting == {}
    {
      programs := [];
      loading := true;
      error := JNull;
      deleting := {};
    }

    /** The list is rendered: not loading, and no error. */
    predicate ListShown()
      reads this
    {
      !loading && !Truthy(error)
    }

    /** A row's Delete button is disabled. */
    predicate DeleteDisabled(id: int)
      reads this
    {
      id in deleting
    }

    /** The fetch ends: the programs on success, the error otherwise; loading ends either way. */
    method FetchDone(outcome: FetchOutcome)
      modifies this
      ensures !loading
      ensures outcome.Fetched? ==> programs == outcome.programs && error == old(error)
      ensures !outcome.Fetched? ==> programs == old(programs) && error == FetchError(outcome) && !ListShown()
      ensures deleting == old(deleting)
    {
      match outcome {
        case Fetched(ps) =>
          programs := ps;
        case AxiosFailure(_) =>
          error := FetchError(outcome);
        case OtherFailure =>
          error := FetchError(outcome);
      }
      loading := false;
    }

    /**
     * Clicking Delete on a row whose button is enabled: the id joins the
     * in-flight set and the DELETE request for it is issued.
     */
    method StartDelete(id: int) returns (url: string)
      requires !DeleteDisabled(id)
      modifies this
      ensures deleting == old(deleting) + {id}
      ensures DeleteDisabled(id)
      ensures url == DeleteEndpoint + IntToString(id)
      ensures programs == old(programs) && loading == old(loading) && error == old(error)
    {
      deleting := deleting + {id};
      url := DeleteEndpoint + IntToString(id);
    }

    /**
     * The DELETE for `id` answered (`ok` on success): on success every
     * program with that id leaves the list and the others keep their order;
     * either way the id leaves the in-flight set and the other in-flight ids
     * stay.
     */
    method FinishDelete(id: int, ok: bool)
      modifies this
      ensures ok ==> programs == WithoutId(old(programs), id)
      ensures !ok ==> programs == old(programs)
      ensures deleting == old(deleting) - {id}
      ensures !DeleteDisabled(id)
      ensures forall other :: other != id ==> (other in deleting <==> other in old(deleting))
      ensures loading == old(loading) && error == old(error)
    {
      if ok {
        programs := WithoutId(programs, id);
      }
      deleting := deleting - {id};
    }
  }

  /** No two programs share an id, as the backend's list has them. */
  predicate DistinctIds(programs: seq<Program>)
  {
    forall i, j :: 0 <= i < j < |programs| ==> programs[i].id != programs[j].id
  }

  /**
   * A successful delete of a listed program removes exactly its row: the
   * rows before it stay in place and the rows after it move up by one.
   */
  lemma DeleteRemovesRow(programs: seq<Program>, k: nat)
    requires DistinctIds(programs) && k < |programs|
    ensures WithoutId(programs, programs[k].id) == RemoveAt(programs, k)
  {
    var id := programs[k].id;
    forall j | 0 <= j < |programs| && j != k
      ensures programs[j].id != id
    {
      if j < k { assert programs[j].id != programs[k].id; }
      else { assert programs[k].id != programs[j].id; }
    }
    FilterRemovesOne(programs, (p: Program) => p.id != id, k);
  }
}
