/**
 * The two tables that the schema manager creates: `categories` and `expenses`.
 * A table is its rows in insertion order together with the counter SQLite keeps
 * in `sqlite_sequence` for an AUTOINCREMENT key: the largest id given to a stored row.
 */
module Schema {
  import opened Wrappers
  import opened Integers

  /** A row of `categories (id INTEGER PRIMARY KEY AUTOINCREMENT, name TEXT UNIQUE NOT NULL)`. */
  datatype Category = Category(id: int, name: string)

  /**
   * The value held in the `category_id INTEGER` column: NULL, an integer, or
   * text that did not read as an integer. The foreign key is not enforced, so
   * an integer need not name an existing category.
   */
  datatype CategoryRef = Null | IntegerRef(id: int) | TextRef(text: string)

  /** A row of `expenses`; amounts are whole cents. */
  datatype Expense = Expense(id: int, name: string, amount: int, category: CategoryRef, date: Option<string>)

  datatype CategoryTable = CategoryTable(rows: seq<Category>, lastId: int)
  {
    /** Ids are positive, issued in increasing order and never above the counter; names are UNIQUE. */
    ghost predicate Valid()
    {
      && 0 <= lastId
      && (forall i :: 0 <= i < |rows| ==> 0 < rows[i].id <= lastId)
      && (forall i, j :: 0 <= i < j < |rows| ==> rows[i].id < rows[j].id)
      && UniqueNames(rows)
    }
  }

  datatype ExpenseTable = ExpenseTable(rows: seq<Expense>, lastId: int)
  {
    /** Ids are positive, issued in increasing order and never above the counter. */
    ghost predicate Valid()
    {
      && 0 <= lastId
      && (forall i :: 0 <= i < |rows| ==> 0 < rows[i].id <= lastId)
      && (forall i, j :: 0 <= i < j < |rows| ==> rows[i].id < rows[j].id)
    }
  }

  /** No two categories share a name. */
  ghost predicate UniqueNames(rows: seq<Category>)
  {
    forall i, j :: 0 <= i < j < |rows| ==> rows[i].name != rows[j].name
  }

  /** No two categories share an id. */
  ghost predicate UniqueIds(rows: seq<Category>)
  {
    forall i, j :: 0 <= i < j < |rows| ==> rows[i].id != rows[j].id
  }

  /** The `name` column of the categories table, row by row. */
  function Names(rows: seq<Category>): (names: seq<string>)
    ensures |names| == |rows|
    ensures forall i :: 0 <= i < |rows| ==> names[i] == rows[i].name
  {
    seq(|rows|, i requires 0 <= i < |rows| => rows[i].name)
  }

  /** How SQLite's INTEGER affinity stores the text bound for `category_id`. */
  function StoredCategory(text: string): (r: CategoryRef)
    ensures r.IntegerRef? <==> ParseInt(text).Some?
    ensures r.IntegerRef? ==> ParseInt(text) == Some(r.id)
    ensures r.TextRef? ==> r.text == text
    ensures !r.Null?
  {
    match ParseInt(text)
    case Some(n) => IntegerRef(n)
    case None => TextRef(text)
  }

  /**
   * A category id rendered in decimal, as Python's `str` renders an integer,
   * is stored as that same integer, so it joins its category. That the
   * templates send `categories.id` back this way is an assumption about them.
   */
  lemma StoredShownId(n: int)
    ensures StoredCategory(ShowInt(n)) == IntegerRef(n)
  {
    ParseShowInt(n);
  }
}
