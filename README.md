# Smart Budget Planner: the expense ledger, modelled in Dafny

The expense tracker is a Flask application over a SQLite file with two tables:
`categories` (an AUTOINCREMENT id and a UNIQUE name) and `expenses` (id, name,
amount, `category_id`, `date`). This project models that ledger without a
database. It covers five operations of `app.py`:

- seeding the three default categories with `INSERT OR IGNORE` (`init_db`);
- the guarded insert of the add handler (`add_expense`);
- the search handler, which grows a conjunction of optional filters clause by
  clause (`search`);
- the inner-join listing (`home`);
- the per-category sums behind the pie chart, with its distinct "no data"
  answer (`expense_chart`).

Layout, one module per file:

- `wrappers.dfy` (`Wrappers`): `Option` and `Result`.
- `integers.dfy` (`Integers`): integer literals in text. This covers Python's
  `int(...)` in the search handler and SQLite's INTEGER affinity on the text
  bound for `category_id`. The file also proves a decimal rendering round trip.
- `collation.dfy` (`Collation`): SQLite's BINARY text order, used by
  `date >= ?` and `date <= ?`. It proves that this order is a total order, and
  that on `YYYY-MM-DD` text it is chronological order.
- `form.dfy` (`Form`): Python truthiness of a form value. It also models the
  search handler's choice between the form and the query string.
- `schema.dfy` (`Schema`): the rows, the two tables, and their invariants. Each
  table also keeps the AUTOINCREMENT counter.
- `seeding.dfy` (`Seeding`): `INSERT OR IGNORE` and `init_db`.
- `insertion.dfy` (`Insertion`): the guarded insert.
- `search.dfy` (`Search`): the query clauses, what a query selects, and the
  reference predicate of what the search page promises.
- `reports.dfy` (`Reports`): the join, the group-by-name sums and the chart
  outcome.
- `app.dfy` (`App`): class `Ledger`, the store. Its fields are the two tables,
  which its methods update in place. The methods are the request handlers.

Design choices:

- Amounts are whole cents (`int`).
- A table is its rows in insertion order, plus a counter standing for
  `sqlite_sequence`: the largest id given to a stored row. A new row gets that
  counter plus one.
- `category_id` holds one of three values: NULL, an integer, or text that does
  not read as an integer. Only an integer can match `categories.id`.
- The foreign key is inert, because `PRAGMA foreign_keys` is never turned on.
  So a category id that names no category is stored all the same.
- `int(category_id)` in the search handler raises `ValueError` on text that is
  not an integer. The model returns this as `Failure(InvalidCategoryId(..))`.
- SELECT has no ORDER BY, so the source promises no result order. The model
  returns rows in table order. Its contracts state membership, multiplicity,
  and equality with a reference filter.

Consequences of the code that the model keeps:

- The listing is an inner `JOIN`, so an expense whose category id names no
  category is stored but not listed.
- The chart reports "no data" exactly when that join is empty, so a table
  holding only such dangling expenses also gets "no data".
- `add_expense` writes a row only when both `category_id` and `date` are sent
  non-empty. When either is missing or empty, the request changes nothing.

## Model

| member | source | states |
|---|---|---|
| `Integers.ParseInt` | app.py:105-107 | The text is read as an integer exactly when it is an optionally signed decimal literal; the value is the literal's value with its sign. |
| `Integers.ParseShowInt` | app.py:104-107 | Every integer rendered in decimal, as Python's `str` renders it, parses back to that same integer. |
| `Collation.TextLe` | app.py:109-117 | SQLite's BINARY comparison of two texts: the first differing character decides, and a proper prefix sorts first. |
| `Form.Supplied` | app.py:62 | Python truthiness of a looked-up field: sent, and not the empty string. |
| `Collation.TextLeReflexive` | app.py:111 | Every date compares at-or-after itself, so `date >= start` keeps an expense dated exactly on the bound. |
| `Collation.TextLeAntisymmetric` | app.py:109-117 | Two texts that each compare at-or-before the other are equal. |
| `Collation.TextLeTransitive` | app.py:109-117 | Text order is transitive, so the two bounds delimit a range. |
| `Collation.TextLeTotal` | app.py:109-117 | Any two texts are comparable. |
| `Collation.DigitsOrder` | app.py:109-117 | Digit strings of one length compare as text exactly as their numeric values compare. |
| `Collation.IsoDateOrder` | app.py:109-117 | For `YYYY-MM-DD` dates, text order is chronological order (year, then month, then day). |
| `Schema.StoredShownId` | app.py:35 | A category id rendered in decimal, as Python's `str` renders an integer, is stored in `category_id INTEGER` as that same integer, so the stored expense joins its category. |
| `Seeding.InsertOrIgnore` | app.py:41-43 | After the insert the name is present. A name already present leaves the table unchanged. Otherwise exactly one row is appended, and existing rows are kept. The new id is above every existing id, and name uniqueness and the id invariants are preserved. |
| `Seeding.Seeded` | app.py:40-43 | `init_db` keeps every existing row. Afterwards the names are the old names plus the three defaults. The table invariants are preserved. |
| `Seeding.InitDbIdempotent` | app.py:41-43 | A second run of `init_db` leaves the category rows unchanged. |
| `Seeding.InitDbRepeated` | app.py:123-125 | One or more runs of `init_db` (one per process start) leave the same table as the first run. |
| `Seeding.UniqueNameOccursOnce` | app.py:26 | Under the UNIQUE constraint, a present name occurs exactly once in the name column. |
| `Seeding.InitDbSeedsEachOnce` | app.py:26-43 | After `init_db` on any valid table, "Food", "Utilities" and "Entertainment" each occur exactly once among the names. |
| `Seeding.InitDbAppendsMissingDefaults` | app.py:25-43 | On a store holding none of the defaults (a fresh store in particular), `init_db` appends "Food", "Utilities" and "Entertainment" with the next three ids, in statement order. On a fresh store these are ids 1, 2 and 3. |
| `Insertion.Accepted` | app.py:62 | The add guard `if category_id and date:`: both fields supplied. |
| `Insertion.InsertExpense` | app.py:60-63 | When both `category_id` and `date` are non-empty, exactly one row is appended with the given name, amount, stored category and date, and existing rows are untouched. Otherwise the table is unchanged. The new id is above every existing id, and the table invariants are preserved. |
| `Search.Holds` | app.py:104-117 | One WHERE clause: `category_id = ?` holds only of a stored integer equal to the bound one; `date >= ?` and `date <= ?` compare by text order and never hold of a NULL date. |
| `Search.Select` | app.py:98-119 | A query selects exactly the rows that satisfy all its clauses, never more copies than the table holds. An empty query (`WHERE 1=1`) selects the whole table. |
| `Search.Matching` | app.py:104-117 | The reference filter. It keeps exactly the rows that meet each supplied filter: category equality, `date >= start` and `date <= end`, both bounds inclusive. With no non-empty filter it keeps every row. When a date bound is supplied, no row with a NULL date is kept. |
| `Search.SelectIsMatching` | app.py:98-119 | A query whose clauses admit exactly the wanted rows selects the reference filter's result, row for row. |
| `Search.DateRangeIsChronological` | app.py:109-117 | For ISO dates, the start and end clauses together admit exactly the dates chronologically between the bounds, both included. |
| `Reports.Joins` | app.py:50 | The ON clause: the expense's stored `category_id` is the integer equal to the category's id. |
| `Reports.JoinOne` | app.py:50 | The joined rows of one expense are exactly that expense paired with the name of each category whose id its `category_id` equals; none when no category matches. |
| `Reports.JoinOneAtMostOne` | app.py:50 | With unique category ids an expense joins at most one category, and joins exactly the one it references when that category exists. |
| `Reports.Join` | app.py:50 | A listed row is an expense of the table paired with the name of a category whose id its `category_id` equals, and every such pair is listed. |
| `Reports.JoinAtMostOnePerExpense` | app.py:50 | Since category ids are unique, the listing is no longer than the expense table. |
| `Reports.JoinListsEachExpenseOnce` | app.py:50 | Since category ids and expense ids are unique, no two listed rows carry the same expense: each expense is listed at most once. |
| `Reports.AddedExpenseIsListed` | app.py:62-63 | On a valid table, an accepted expense whose category id names an existing category is appended to the listing, with exactly the fields given and that category's name, and occurs in it exactly once. The rows listed before stay listed, in order. |
| `Reports.DanglingExpenseIsNotListed` | app.py:35-37 | An accepted expense whose category id names no category is stored but leaves the listing unchanged. |
| `Reports.Accumulate` | app.py:73 | Adding one joined row to the grouped totals raises only its own name's total, by its amount. A new name gets a group of its own, names stay distinct, and the grand total grows by the amount. |
| `Reports.GroupByName` | app.py:73 | There is one group per distinct category name in the join, and each group's total is the sum of that name's amounts. The totals add up to the sum of all joined amounts. There are no groups exactly when the join is empty. |
| `Reports.Labels` | app.py:79 | The labels are the group names, position by position. |
| `Reports.Sizes` | app.py:80 | The sizes are the group totals, position by position. |
| `Reports.ExpenseChart` | app.py:73-80 | The result is "no data" (404, "No data available for chart.") exactly when the join is empty. Otherwise labels and sizes have equal length, the labels are the distinct joined category names, and each size is its label's sum. The sizes add up to the total joined amount. |
| `Reports.CategoryTotalIsSumOfItsExpenses` | app.py:73 | Names are unique, so a category's chart total is the sum of the amounts of exactly the expenses that reference its id. |
| `App.Ledger.constructor` | app.py:23-39 | A new store has both tables empty and valid. |
| `App.Ledger.InsertCategoryOrIgnore` | app.py:41 | The categories table becomes `InsertOrIgnore` of the old one; expenses are untouched; the invariants hold. |
| `App.Ledger.InitDb` | app.py:18-44 | The categories become `Seeded` of the old ones, and every old row is kept. Each default name occurs exactly once. Expenses are untouched, and the invariants, including unique names, hold. |
| `App.Ledger.AddExpense` | app.py:55-65 | Expenses become `InsertExpense` of the old table; categories are untouched; the invariants hold. |
| `App.Ledger.Home` | app.py:47-52 | Returns the inner-join listing, in which no expense appears twice, and every category. |
| `App.Ledger.ExpenseChart` | app.py:68-80 | Answers with the chart outcome of the current tables. |
| `App.Ledger.Search` | app.py:95-121 | Fails exactly when a non-empty category id is not an integer literal. Otherwise it returns exactly the reference filter's rows, plus every category. |
| `App.Ledger.SearchRequest` | app.py:94-121 | A POST is read from its form and a GET from its query string. It fails exactly when the source's `category_id` is non-empty and not an integer, with that text as the error and no categories. Otherwise it returns the reference filter's rows for the source's three fields, plus every category. |

## Left out

- HTTP routing, templates, redirects and `jsonify` are not modelled. The add handler takes its looked-up field values as parameters. Only the search handler is modelled down to the request: its choice between `request.form` and `request.args`, and `.get` on the chosen fields (`Form.Request`, `Form.DataSource`, `Form.Lookup`, `App.Ledger.SearchRequest`). A missing `name` or `amount` field (a 400 from Flask) is not modelled: both are parameters.
- The templates are not part of this model. Reading a category id back as the integer it names (`Schema.StoredShownId`) assumes the pages render `categories.id` in decimal, as Python's `str` does.
- Connection handling, `row_factory`, commits and process start-up are I/O; every operation acts directly on the in-memory store.
- The pie chart drawing, PNG encoding and `send_file` are an external plotting library; the model stops at the labels and sizes handed to it.
- Floating-point `REAL` amounts and SQLite's conversion of the `amount` form text are not modelled; amounts are whole cents.
- The catch-all `except Exception` returning 500 is not modelled. A failing `int(category_id)` is modelled as an error result instead.
- ParseInt accepts an optional sign and ASCII digits only. Python's `int()` also strips surrounding whitespace and accepts underscores between digits and non-ASCII digits. SQLite's affinity also converts text such as " 7" or "7.0". Those inputs are treated as non-integers here.
- Integers are unbounded. SQLite's 64-bit id limit, and the overflow when binding a huge parsed category id, are not modelled.
- The `date DATE` column has NUMERIC affinity. A stored date that reads as a number would be stored as a number, and numbers sort before text. The same affinity applies to the search's `start_date` and `end_date` bounds in `date >= ?` and `date <= ?`: a bound such as `3000` is compared as the number 3000, below every text date. Every stored date and every bound is treated as text here, which is what a `YYYY-MM-DD` date input always sends.
- Seeding.InsertOrIgnore: the counter stays put when the name is already present. SQLite picks the new rowid before the UNIQUE check and may advance `sqlite_sequence` for an ignored insert, so later ids can skip numbers. The model's ids are therefore consecutive where SQLite's need not be. Seeding.InitDbIdempotent is stated on the whole table, counter included; only its rows carry over to SQLite.
- Row order of SELECT results is not fixed by the source (no ORDER BY). Where the model returns a sequence, only its contents are promised.
- `CREATE TABLE IF NOT EXISTS` against a store file created by another revision of the schema is not modelled; the store always has this revision's two tables.
- Concurrent requests and SQLite's file locking are not modelled; operations run one at a time.
- The monthly summary and the forecast endpoint are not part of this revision of `app.py`, so they are not part of this model.
