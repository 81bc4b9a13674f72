/**
 * The search handler's query: `SELECT * FROM expenses WHERE 1=1` followed by one
 * `AND ...` fragment per supplied filter, each with its bound parameter.
 */
module Search {
  import opened Wrappers
  import opened Integers
  import opened Collation
  import opened Form
  import opened Schema

  /** One `AND ...` fragment of the query together with the parameter bound to its `?`. */
  datatype Clause =
    | CategoryEquals(id: int)     // AND category_id = ?
    | DateOnOrAfter(low: string)  // AND date >= ?
    | DateOnOrBefore(high: string) // AND date <= ?

  /**
   * Whether a row satisfies a clause. A NULL column makes the comparison
   * unknown, which WHERE rejects; text in `category_id` never equals an integer.
   */
  predicate Holds(e: Expense, c: Clause)
  {
    match c
    case CategoryEquals(id) => e.category == IntegerRef(id)
    case DateOnOrAfter(low) => e.date.Some? && TextLe(low, e.date.value)
    case DateOnOrBefore(high) => e.date.Some? && TextLe(e.date.value, high)
  }

  /** `1=1 AND c1 AND c2 ...` */
  predicate AllHold(e: Expense, query: seq<Clause>)
  {
    forall i :: 0 <= i < |query| ==> Holds(e, query[i])
  }

  /** The rows a query admits, in table order. */
  function Select(rows: seq<Expense>, query: seq<Clause>): (r: seq<Expense>)
    ensures forall e :: e in r <==> e in rows && AllHold(e, query)
    ensures multiset(r) <= multiset(rows)
    ensures query == [] ==> r == rows
  {
    if rows == [] then []
    else
      var front, last := rows[..|rows| - 1], rows[|rows| - 1];
      assert rows == front + [last];
      var selected := Select(front, query);
      if AllHold(last, query) then selected + [last] else selected
  }

  /** `int(category_id)` raised ValueError: the text is not an integer. */
  datatype SearchError = InvalidCategoryId(text: string)

  /**
   * What the search page promises of a listed expense, for the fields as sent:
   * each supplied filter holds, both date bounds inclusive.
   */
  predicate Wanted(e: Expense, categoryId: Option<string>, startDate: Option<string>, endDate: Option<string>)
  {
    && (Supplied(categoryId) ==>
          ParseInt(categoryId.value).Some? && e.category == IntegerRef(ParseInt(categoryId.value).value))
    && (Supplied(startDate) ==> e.date.Some? && TextLe(startDate.value, e.date.value))
    && (Supplied(endDate) ==> e.date.Some? && TextLe(e.date.value, endDate.value))
  }

  /** The expenses the search page promises, in table order. */
  function Matching(rows: seq<Expense>, categoryId: Option<string>, startDate: Option<string>, endDate: Option<string>): (r: seq<Expense>)
    ensures forall e :: e in r <==> e in rows && Wanted(e, categoryId, startDate, endDate)
    ensures multiset(r) <= multiset(rows)
    ensures !Supplied(categoryId) && !Supplied(startDate) && !Supplied(endDate) ==> r == rows
    ensures Supplied(startDate) || Supplied(endDate) ==> forall e :: e in r ==> e.date.Some?
  {
    if rows == [] then []
    else
      var front, last := rows[..|rows| - 1], rows[|rows| - 1];
      assert rows == front + [last];
      var matching := Matching(front, categoryId, startDate, endDate);
      if Wanted(last, categoryId, startDate, endDate) then matching + [last] else matching
  }

  lemma AllHoldAppend(e: Expense, query: seq<Clause>, c: Clause)
    ensures AllHold(e, query + [c]) <==> AllHold(e, query) && Holds(e, c)
  {
    var q := query + [c];
    assert q[|query|] == c;
    assert forall i :: 0 <= i < |query| ==> q[i] == query[i];
  }

  /** A query whose clauses admit exactly the wanted expenses selects exactly what the page promises. */
  lemma {:induction false} SelectIsMatching(rows: seq<Expense>, query: seq<Clause>,
                                            categoryId: Option<string>, startDate: Option<string>, endDate: Option<string>)
    requires forall e :: AllHold(e, query) <==> Wanted(e, categoryId, startDate, endDate)
    ensures Select(rows, query) == Matching(rows, categoryId, startDate, endDate)
  {
    if rows != [] {
      SelectIsMatching(rows[..|rows| - 1], query, categoryId, startDate, endDate);
    }
  }

  /** When dates and bounds are all YYYY-MM-DD, the two date clauses select a chronological range. */
  lemma DateRangeIsChronological(e: Expense, low: string, high: string)
    requires IsIsoDate(low) && IsIsoDate(high)
    requires e.date.Some? && IsIsoDate(e.date.value)
    ensures AllHold(e, [DateOnOrAfter(low), DateOnOrBefore(high)])
        <==> DateKey(low) <= DateKey(e.date.value) <= DateKey(high)
  {
    IsoDateOrder(low, e.date.value);
    IsoDateOrder(e.date.value, high);
    var q := [DateOnOrAfter(low), DateOnOrBefore(high)];
    assert q[0] == DateOnOrAfter(low) && q[1] == DateOnOrBefore(high);
    assert AllHold(e, q) <==> Holds(e, q[0]) && Holds(e, q[1]);
  }
}
