/**
 * The client-side search box of the registration pages.  Every page searches
 * the same three attributes of a record: the parent's first name, the
 * parent's last name and the registration id.
 *
 *  - Users and Payment filter on every keystroke: the lower-cased query
 *    against the lower-cased names, the query as typed against the decimal id.
 *  - The After School and Music enrolment pages keep the whole list for a
 *    query that is blank after trimming; otherwise they lower-case the query
 *    once and match it against the id and the lower-cased names.
 */
module Search {
  import opened Strings
  import opened Seqs

  /** The attributes of a record the search box looks at. */
  datatype Who = Who(registrationId: int, parentFirstName: string, parentLastName: string)

  /** The Users/Payment rule for one record. */
  predicate MatchesNameOrId(query: string, w: Who)
  {
    Contains(LowerAll(w.parentFirstName), LowerAll(query)) ||
    Contains(LowerAll(w.parentLastName), LowerAll(query)) ||
    Contains(IntToString(w.registrationId), query)
  }

  /** The enrolment-page rule for one record, given the already lower-cased query. */
  predicate MatchesLowered(lowered: string, w: Who)
  {
    Contains(IntToString(w.registrationId), lowered) ||
    Contains(LowerAll(w.parentFirstName), lowered) ||
    Contains(LowerAll(w.parentLastName), lowered)
  }

  /**
   * `data.filter(...)` of Users and Payment: an order-preserving subsequence
   * of `data` holding exactly the records that match.
   */
  function FilterByNameOrId<T(==,!new)>(data: seq<T>, query: string, who: T -> Who): (r: seq<T>)
    ensures IsSubsequence(r, data)
    ensures forall i :: 0 <= i < |r| ==> r[i] in data && MatchesNameOrId(query, who(r[i]))
    ensures forall i :: 0 <= i < |data| && MatchesNameOrId(query, who(data[i])) ==> data[i] in r
    ensures forall x :: multiset(r)[x] == if MatchesNameOrId(query, who(x)) then multiset(data)[x] else 0
  {
    Filter(data, (x: T) => MatchesNameOrId(query, who(x)))
  }

  /**
   * The filter effect of the enrolment pages: the whole list for a blank
   * query, otherwise an order-preserving subsequence holding exactly the
   * records that match the lower-cased query.
   */
  function FilterEnrolled<T(==,!new)>(data: seq<T>, query: string, who: T -> Who): (r: seq<T>)
    ensures IsSubsequence(r, data)
    ensures Trim(query) == "" ==> r == data
    ensures Trim(query) != "" ==>
              (forall i :: 0 <= i < |r| ==> r[i] in data && MatchesLowered(LowerAll(query), who(r[i])))
    ensures Trim(query) != "" ==>
              (forall i :: 0 <= i < |data| && MatchesLowered(LowerAll(query), who(data[i])) ==> data[i] in r)
    ensures Trim(query) != "" ==>
              (forall x :: multiset(r)[x] == if MatchesLowered(LowerAll(query), who(x)) then multiset(data)[x] else 0)
  {
    if Trim(query) == "" then
      IsSubsequenceRefl(data);
      data
    else
      FilterLowered(data, LowerAll(query), who)
  }

  /** The records matching an already lower-cased query, in order, each as often as it occurs. */
  function FilterLowered<T(==,!new)>(data: seq<T>, lowered: string, who: T -> Who): (r: seq<T>)
    ensures IsSubsequence(r, data)
    ensures forall i :: 0 <= i < |r| ==> r[i] in data && MatchesLowered(lowered, who(r[i]))
    ensures forall i :: 0 <= i < |data| && MatchesLowered(lowered, who(data[i])) ==> data[i] in r
    ensures forall x :: multiset(r)[x] == if MatchesLowered(lowered, who(x)) then multiset(data)[x] else 0
  {
    Filter(data, (x: T) => MatchesLowered(lowered, who(x)))
  }

  lemma {:induction false} IsSubsequenceRefl<T>(s: seq<T>)
    ensures IsSubsequence(s, s)
  {
    if s != [] {
      IsSubsequenceRefl(s[1..]);
    }
  }

  /** An empty query keeps every record: "" occurs in every name. */
  lemma EmptyQueryKeepsAll<T(!new)>(data: seq<T>, who: T -> Who)
    ensures FilterByNameOrId(data, "", who) == data
  {
    forall i | 0 <= i < |data|
      ensures MatchesNameOrId("", who(data[i]))
    {
      ContainsEmpty(LowerAll(who(data[i]).parentFirstName));
    }
    FilterKeepsAll(data, (x: T) => MatchesNameOrId("", who(x)));
  }

  /** On the enrolment pages a query made only of whitespace keeps every record. */
  lemma BlankQueryKeepsAll<T(!new)>(data: seq<T>, query: string, who: T -> Who)
    requires AllWhitespace(query)
    ensures FilterEnrolled(data, query, who) == data
  {
    TrimEmptyIff(query);
  }

  /** A rendered integer holds only digits and a minus sign. */
  lemma IntToStringChars(n: int)
    ensures forall i :: 0 <= i < |IntToString(n)| ==>
              IsDigit(IntToString(n)[i]) || IntToString(n)[i] == '-'
  {
    if n < 0 {
      var d := NatToString(-n);
      assert IntToString(n) == "-" + d;
      forall i | 0 < i < |IntToString(n)|
        ensures IsDigit(IntToString(n)[i])
      {
        assert IntToString(n)[i] == d[i - 1];
      }
    }
  }

  /** A needle with a character that is neither a digit nor '-' occurs nowhere in a number's text. */
  lemma NoOccurrence(hay: string, needle: string, k: nat)
    requires forall i :: 0 <= i < |hay| ==> IsDigit(hay[i]) || hay[i] == '-'
    requires k < |needle| && !IsDigit(needle[k]) && needle[k] != '-'
    ensures forall j :: !OccursAt(hay, needle, j)
  {
    forall j
      ensures !OccursAt(hay, needle, j)
    {
      if 0 <= j && j + |needle| <= |hay| {
        assert hay[j..j + |needle|][k] == hay[j + k] != needle[k];
      }
    }
  }

  /**
   * The id test gives the same answer for the query as typed and for the
   * lower-cased query: a query with a capital letter matches no id either way.
   */
  lemma IdMatchIgnoresCase(id: int, query: string)
    ensures Contains(IntToString(id), query) <==> Contains(IntToString(id), LowerAll(query))
  {
    var s := IntToString(id);
    IntToStringChars(id);
    ContainsIff(s, query);
    ContainsIff(s, LowerAll(query));
    if exists k :: 0 <= k < |query| && IsUpper(query[k]) {
      var k :| 0 <= k < |query| && IsUpper(query[k]);
      NoOccurrence(s, query, k);
      NoOccurrence(s, LowerAll(query), k);
    } else {
      assert LowerAll(query) == query;
    }
  }

  /**
   * The two search rules agree on every query that is not blank: the Users
   * and Payment filters and the enrolment-page filters keep the same records.
   */
  lemma RulesAgree<T(!new)>(data: seq<T>, query: string, who: T -> Who)
    requires Trim(query) != ""
    ensures FilterEnrolled(data, query, who) == FilterByNameOrId(data, query, who)
  {
    var lowered := LowerAll(query);
    forall i | 0 <= i < |data|
      ensures MatchesLowered(lowered, who(data[i])) == MatchesNameOrId(query, who(data[i]))
    {
      IdMatchIgnoresCase(who(data[i]).registrationId, query);
    }
    FilterSameTest(data, (x: T) => MatchesLowered(lowered, who(x)), (x: T) => MatchesNameOrId(query, who(x)));
  }
}
