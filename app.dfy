/**
 * The expense tracker's database and its request handlers. A Ledger is the
 * store file: both tables, updated in place by `init_db` and the add handler,
 * read by the listing, chart and search handlers.
 */
module App {
  import opened Wrappers
  import opened Integers
  import opened Form
  import opened Schema
  import opened Seeding
  import opened Insertion
  import opened Search
  import opened Reports

  class Ledger {
    var categories: CategoryTable
    var expenses: ExpenseTable

    ghost predicate Valid()
      reads this
    {
      categories.Valid() && expenses.Valid()
    }

    /** A new store file: both tables created empty (`CREATE TABLE IF NOT EXISTS`). */
    constructor ()
      ensures Valid()
      ensures categories == CategoryTable([], 0) && expenses == ExpenseTable([], 0)
    {
      categories := CategoryTable([], 0);
      expenses := ExpenseTable([], 0);
    }

    /** `INSERT OR IGNORE INTO categories (name) VALUES (name)` */
    method InsertCategoryOrIgnore(name: string)
      requires Valid()
      modifies this
      ensures Valid()
      ensures categories == InsertOrIgnore(old(categories), name)
      ensures expenses == old(expenses)
    {
      categories := InsertOrIgnore(categories, name);
    }

    /** `init_db`: seeds the three default categories, keeping every row already there. */
    method InitDb()
      requires Valid()
      modifies this
      ensures Valid()
      ensures categories == Seeded(old(categories))
      ensures old(categories.rows) <= categories.rows
      ensures forall n :: n in DefaultCategories ==> multiset(Names(categories.rows))[n] == 1
      ensures expenses == old(expenses)
    {
      InsertCategoryOrIgnore("Food");
      InsertCategoryOrIgnore("Utilities");
      InsertCategoryOrIgnore("Entertainment");
      InitDbSeedsEachOnce(old(categories));
    }

    /** The add handler: the guarded insert, then a redirect to the listing. */
    method AddExpense(name: string, amount: int, categoryId: Option<string>, date: Option<string>)
      requires Valid()
      modifies this
      ensures Valid()
      ensures expenses == InsertExpense(old(expenses), name, amount, categoryId, date)
      ensures categories == old(categories)
    {
      expenses := InsertExpense(expenses, name, amount, categoryId, date);
    }

    /** The home handler: the joined listing and every category, for the page. */
    method Home() returns (listing: seq<ListedExpense>, cats: seq<Category>)
      requires Valid()
      ensures listing == Join(expenses.rows, categories.rows)
      ensures |listing| <= |expenses.rows|
      ensures forall i, j :: 0 <= i < j < |listing| ==> listing[i].expense.id != listing[j].expense.id
      ensures cats == categories.rows
    {
      listing := Join(expenses.rows, categories.rows);
      JoinAtMostOnePerExpense(expenses.rows, categories.rows);
      JoinListsEachExpenseOnce(expenses.rows, categories.rows);
      cats := categories.rows;
    }

    /** The chart handler, up to the drawing of the pie. */
    method ExpenseChart() returns (r: ChartOutcome)
      ensures r == Reports.ExpenseChart(expenses.rows, categories.rows)
    {
      r := Reports.ExpenseChart(expenses.rows, categories.rows);
    }

    /**
     * The search handler on the fields as read: the query grows by one clause
     * per supplied filter, then runs; a category id that is not an integer
     * makes `int(...)` raise before anything runs.
     */
    method Search(categoryId: Option<string>, startDate: Option<string>, endDate: Option<string>)
      returns (r: Result<seq<Expense>, SearchError>, cats: seq<Category>)
      ensures r.Failure? <==> Supplied(categoryId) && ParseInt(categoryId.value).None?
      ensures r.Failure? ==> r.error == InvalidCategoryId(categoryId.value) && cats == []
      ensures r.Success? ==> r.value == Matching(expenses.rows, categoryId, startDate, endDate)
      ensures r.Success? ==> cats == categories.rows
    {
      var query: seq<Clause> := [];
      cats := [];
      if Supplied(categoryId) {
        var n := ParseInt(categoryId.value);
        if n.None? {
          r := Failure(InvalidCategoryId(categoryId.value));
          return;
        }
        forall e: Expense ensures AllHold(e, query + [CategoryEquals(n.value)]) <==> Holds(e, CategoryEquals(n.value)) {
          AllHoldAppend(e, query, CategoryEquals(n.value));
        }
        query := query + [CategoryEquals(n.value)];
      }
      ghost var afterCategory := query;
      assert forall e :: AllHold(e, afterCategory) <==> Wanted(e, categoryId, None, None);
      if Supplied(startDate) {
        forall e: Expense ensures AllHold(e, query + [DateOnOrAfter(startDate.value)]) <==> AllHold(e, query) && Holds(e, DateOnOrAfter(startDate.value)) {
          AllHoldAppend(e, query, DateOnOrAfter(startDate.value));
        }
        query := query + [DateOnOrAfter(startDate.value)];
      }
      ghost var afterStart := query;
      assert forall e :: AllHold(e, afterStart) <==> Wanted(e, categoryId, startDate, None);
      if Supplied(endDate) {
        forall e: Expense ensures AllHold(e, query + [DateOnOrBefore(endDate.value)]) <==> AllHold(e, query) && Holds(e, DateOnOrBefore(endDate.value)) {
          AllHoldAppend(e, query, DateOnOrBefore(endDate.value));
        }
        query := query + [DateOnOrBefore(endDate.value)];
      }
      assert forall e :: AllHold(e, query) <==> Wanted(e, categoryId, startDate, endDate);
      SelectIsMatching(expenses.rows, query, categoryId, startDate, endDate);
      r := Success(Select(expenses.rows, query));
      cats := categories.rows;
    }

    /** The search route: POST reads the submitted form and GET the query string, with one meaning. */
    method SearchRequest(req: Request) returns (r: Result<seq<Expense>, SearchError>, cats: seq<Category>)
      ensures var fields := DataSource(req);
        && (r.Failure? <==> Supplied(Lookup(fields, "category_id")) && ParseInt(fields["category_id"]).None?)
        && (r.Success? ==> r.value == Matching(expenses.rows, Lookup(fields, "category_id"),
                                                Lookup(fields, "start_date"), Lookup(fields, "end_date")))
        && (r.Failure? ==> r.error == InvalidCategoryId(fields["category_id"]) && cats == [])
        && (r.Success? ==> cats == categories.rows)
    {
      var fields := DataSource(req);
      r, cats := Search(Lookup(fields, "category_id"), Lookup(fields, "start_date"), Lookup(fields, "end_date"));
    }
  }
}
