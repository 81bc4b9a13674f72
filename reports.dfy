/**
 * The two read-only reports over the join of expenses with categories:
 * the home listing (`SELECT expenses.*, categories.name AS category_name FROM
 * expenses JOIN categories ON expenses.category_id = categories.id`) and the
 * chart's category totals (the same join, `SUM(expenses.amount)` grouped by
 * `categories.name`).
 */
module Reports {
  import opened Wrappers
  import opened Schema
  import opened Insertion

  /** An expense row with its category's name appended, as the listing shows it. */
  datatype ListedExpense = ListedExpense(expense: Expense, categoryName: string)

  /** `ON expenses.category_id = categories.id` */
  predicate Joins(e: Expense, c: Category)
  {
    e.category == IntegerRef(c.id)
  }

  /** The joined rows one expense contributes: one per matching category. */
  function JoinOne(e: Expense, cats: seq<Category>): (r: seq<ListedExpense>)
    ensures forall x :: x in r <==> x.expense == e && exists c :: c in cats && Joins(e, c) && x.categoryName == c.name
    ensures |r| <= |cats|
    ensures (forall c :: c in cats ==> !Joins(e, c)) ==> r == []
  {
    if cats == [] then []
    else (if Joins(e, cats[0]) then [ListedExpense(e, cats[0].name)] else []) + JoinOne(e, cats[1..])
  }

  /** The inner join, expense by expense. */
  function Join(rows: seq<Expense>, cats: seq<Category>): (r: seq<ListedExpense>)
    ensures forall x :: x in r <==>
      x.expense in rows && exists c :: c in cats && Joins(x.expense, c) && x.categoryName == c.name
  {
    if rows == [] then []
    else
      var front := rows[..|rows| - 1];
      assert rows == front + [rows[|rows| - 1]];
      Join(front, cats) + JoinOne(rows[|rows| - 1], cats)
  }

  /** Category ids are unique, so an expense joins at most one category. */
  lemma {:induction false} JoinOneAtMostOne(e: Expense, cats: seq<Category>)
    requires UniqueIds(cats)
    ensures |JoinOne(e, cats)| <= 1
    ensures forall c :: c in cats && Joins(e, c) ==> JoinOne(e, cats) == [ListedExpense(e, c.name)]
  {
    if cats != [] {
      JoinOneAtMostOne(e, cats[1..]);
      if Joins(e, cats[0]) {
        forall c | c in cats[1..]
          ensures !Joins(e, c)
        {
          var j :| 0 <= j < |cats[1..]| && cats[1..][j] == c;
          assert cats[0].id != cats[j + 1].id;
        }
      }
    }
  }

  /** With unique category ids the listing has at most one row per expense. */
  lemma {:induction false} JoinAtMostOnePerExpense(rows: seq<Expense>, cats: seq<Category>)
    requires UniqueIds(cats)
    ensures |Join(rows, cats)| <= |rows|
  {
    if rows != [] {
      JoinAtMostOnePerExpense(rows[..|rows| - 1], cats);
      JoinOneAtMostOne(rows[|rows| - 1], cats);
    }
  }

  /** Every listed row lists an expense of the table. */
  lemma ListedFromTable(rows: seq<Expense>, cats: seq<Category>, k: int)
    requires 0 <= k < |Join(rows, cats)|
    ensures exists m :: 0 <= m < |rows| && rows[m] == Join(rows, cats)[k].expense
  {
    assert Join(rows, cats)[k] in Join(rows, cats);
  }

  /** Expenses with distinct ids are listed on distinct rows: no expense is listed twice. */
  lemma {:induction false} JoinListsEachExpenseOnce(rows: seq<Expense>, cats: seq<Category>)
    requires UniqueIds(cats)
    requires forall i, j :: 0 <= i < j < |rows| ==> rows[i].id != rows[j].id
    ensures var r := Join(rows, cats);
      forall i, j :: 0 <= i < j < |r| ==> r[i].expense.id != r[j].expense.id
  {
    if rows != [] {
      var front, last := rows[..|rows| - 1], rows[|rows| - 1];
      JoinListsEachExpenseOnce(front, cats);
      JoinOneAtMostOne(last, cats);
      var a, b := Join(front, cats), JoinOne(last, cats);
      assert Join(rows, cats) == a + b;
      assert forall k :: 0 <= k < |b| ==> b[k].expense == last by {
        forall k | 0 <= k < |b|
          ensures b[k].expense == last
        {
          assert b[k] in b;
        }
      }
      forall k | 0 <= k < |a|
        ensures a[k].expense.id != last.id
      {
        ListedFromTable(front, cats, k);
        var m :| 0 <= m < |front| && front[m] == a[k].expense;
        assert rows[m] == front[m];
      }
      var r := a + b;
      forall i, j | 0 <= i < j < |r|
        ensures r[i].expense.id != r[j].expense.id
      {
        assert i < |a|;
        if j < |a| {
          assert r[i] == a[i] && r[j] == a[j];
        } else {
          assert r[i] == a[i] && r[j] == b[j - |a|];
        }
      }
    }
  }

  /**
   * add_expense followed by the home listing: an accepted expense whose
   * category id names an existing category is listed once with that category's
   * name, after the rows listed before.
   */
  lemma AddedExpenseIsListed(t: ExpenseTable, cats: seq<Category>, name: string, amount: int,
                             categoryId: Option<string>, date: Option<string>, c: Category)
    requires t.Valid() && Accepted(categoryId, date) && UniqueIds(cats)
    requires c in cats && StoredCategory(categoryId.value) == IntegerRef(c.id)
    ensures var r := InsertExpense(t, name, amount, categoryId, date);
      var x := ListedExpense(Expense(t.lastId + 1, name, amount, IntegerRef(c.id), date), c.name);
      && Join(r.rows, cats) == Join(t.rows, cats) + [x]
      && multiset(Join(r.rows, cats))[x] == 1
  {
    var r := InsertExpense(t, name, amount, categoryId, date);
    var e := r.rows[|t.rows|];
    assert r.rows[..|r.rows| - 1] == t.rows;
    JoinOneAtMostOne(e, cats);
    var x := ListedExpense(e, c.name);
    assert e !in t.rows by {
      forall i | 0 <= i < |t.rows|
        ensures t.rows[i] != e
      {
        assert t.rows[i].id <= t.lastId;
      }
    }
    assert x !in Join(t.rows, cats);
    assert Join(r.rows, cats) == Join(t.rows, cats) + [x];
  }

  /** An accepted expense whose category id names no category is stored but never listed. */
  lemma DanglingExpenseIsNotListed(t: ExpenseTable, cats: seq<Category>, name: string, amount: int,
                                   categoryId: Option<string>, date: Option<string>)
    requires Accepted(categoryId, date)
    requires forall c :: c in cats ==> StoredCategory(categoryId.value) != IntegerRef(c.id)
    ensures var r := InsertExpense(t, name, amount, categoryId, date);
      |r.rows| == |t.rows| + 1 && Join(r.rows, cats) == Join(t.rows, cats)
  {
    var r := InsertExpense(t, name, amount, categoryId, date);
    assert r.rows[..|r.rows| - 1] == t.rows;
  }

  /** One `(name, total)` row of the grouped query. */
  datatype Group = Group(name: string, total: int)

  /** `SUM(expenses.amount)` over the joined rows named n. */
  function SumOf(rows: seq<ListedExpense>, n: string): int
  {
    if rows == [] then 0
    else
      var last := rows[|rows| - 1];
      SumOf(rows[..|rows| - 1], n) + (if last.categoryName == n then last.expense.amount else 0)
  }

  /** The sum of the amounts of the expenses that reference category id. */
  function AmountFor(rows: seq<Expense>, id: int): int
  {
    if rows == [] then 0
    else
      var last := rows[|rows| - 1];
      AmountFor(rows[..|rows| - 1], id) + (if last.category == IntegerRef(id) then last.amount else 0)
  }

  /** The sum of all amounts listed. */
  function Spent(rows: seq<ListedExpense>): int
  {
    if rows == [] then 0 else Spent(rows[..|rows| - 1]) + rows[|rows| - 1].expense.amount
  }

  /** `labels = [i['name'] for i in results]` */
  function Labels(g: seq<Group>): (labels: seq<string>)
    ensures |labels| == |g|
    ensures forall k :: 0 <= k < |g| ==> labels[k] == g[k].name
  {
    if g == [] then [] else [g[0].name] + Labels(g[1..])
  }

  /** `sizes = [i['total'] for i in results]` */
  function Sizes(g: seq<Group>): (sizes: seq<int>)
    ensures |sizes| == |g|
    ensures forall k :: 0 <= k < |g| ==> sizes[k] == g[k].total
  {
    if g == [] then [] else [g[0].total] + Sizes(g[1..])
  }

  function Sum(s: seq<int>): int
  {
    if s == [] then 0 else s[0] + Sum(s[1..])
  }

  ghost predicate Distinct(s: seq<string>)
  {
    forall i, j :: 0 <= i < j < |s| ==> s[i] != s[j]
  }

  lemma DistinctCons(a: string, s: seq<string>)
    ensures Distinct([a] + s) <==> a !in s && Distinct(s)
  {
    var t := [a] + s;
    if Distinct(t) {
      forall i, j | 0 <= i < j < |s| ensures s[i] != s[j] {
        assert t[i + 1] == s[i] && t[j + 1] == s[j];
      }
      forall j | 0 <= j < |s| ensures s[j] != a {
        assert t[0] == a && t[j + 1] == s[j];
      }
    }
  }

  /** The total of the group named n, or 0 when there is none. */
  function TotalFor(g: seq<Group>, n: string): int
  {
    if g == [] then 0 else if g[0].name == n then g[0].total else TotalFor(g[1..], n)
  }

  /** Adds an amount to the group named n, opening that group at the end when it is new. */
  function Accumulate(g: seq<Group>, n: string, amount: int): (r: seq<Group>)
    ensures forall m :: m in Labels(r) <==> m in Labels(g) || m == n
    ensures Distinct(Labels(g)) ==> Distinct(Labels(r))
    ensures forall m :: TotalFor(r, m) == TotalFor(g, m) + (if m == n then amount else 0)
    ensures Sum(Sizes(r)) == Sum(Sizes(g)) + amount
    ensures r != []
  {
    if g == [] then [Group(n, amount)]
    else if g[0].name == n then [Group(n, g[0].total + amount)] + g[1..]
    else
      var rest := Accumulate(g[1..], n, amount);
      assert Labels(g) == [g[0].name] + Labels(g[1..]);
      assert Labels([g[0]] + rest) == [g[0].name] + Labels(rest);
      DistinctCons(g[0].name, Labels(g[1..]));
      DistinctCons(g[0].name, Labels(rest));
      [g[0]] + rest
  }

  /** `GROUP BY categories.name`: one group per name, holding the sum of its rows' amounts. */
  function GroupByName(rows: seq<ListedExpense>): (g: seq<Group>)
    ensures Distinct(Labels(g))
    ensures forall n :: n in Labels(g) <==> exists x :: x in rows && x.categoryName == n
    ensures forall n :: TotalFor(g, n) == SumOf(rows, n)
    ensures Sum(Sizes(g)) == Spent(rows)
    ensures g == [] <==> rows == []
  {
    if rows == [] then []
    else
      var front, last := rows[..|rows| - 1], rows[|rows| - 1];
      assert rows == front + [last];
      Accumulate(GroupByName(front), last.categoryName, last.expense.amount)
  }

  /** With distinct names, a group's total is the one TotalFor finds for its name. */
  lemma {:induction false} TotalOfDistinctGroup(g: seq<Group>, k: nat)
    requires Distinct(Labels(g)) && k < |g|
    ensures g[k].total == TotalFor(g, g[k].name)
  {
    if k > 0 {
      assert Labels(g)[0] != Labels(g)[k];
      assert Labels(g[1..]) == Labels(g)[1..];
      TotalOfDistinctGroup(g[1..], k - 1);
    }
  }

  const NoDataMessage: string := "No data available for chart."

  /** What the chart route answers: a 404 with an error message, or the pie's labels and sizes. */
  datatype ChartOutcome = NoData(status: int, message: string) | PieChart(labels: seq<string>, sizes: seq<int>)

  /** `expense_chart` without the drawing: the grouped totals, or "no data" when the join is empty. */
  function ExpenseChart(rows: seq<Expense>, cats: seq<Category>): (r: ChartOutcome)
    ensures r.NoData? <==> Join(rows, cats) == []
    ensures r.NoData? ==> r.status == 404 && r.message == NoDataMessage
    ensures r.PieChart? ==> |r.labels| == |r.sizes| > 0 && Distinct(r.labels)
    ensures r.PieChart? ==> forall n :: n in r.labels <==> exists x :: x in Join(rows, cats) && x.categoryName == n
    ensures r.PieChart? ==> forall k :: 0 <= k < |r.labels| ==> r.sizes[k] == SumOf(Join(rows, cats), r.labels[k])
    ensures r.PieChart? ==> Sum(r.sizes) == Spent(Join(rows, cats))
  {
    var results := GroupByName(Join(rows, cats));
    if results == [] then NoData(404, NoDataMessage)
    else
      forall k | 0 <= k < |results|
        ensures Sizes(results)[k] == SumOf(Join(rows, cats), Labels(results)[k])
      {
        TotalOfDistinctGroup(results, k);
      }
      PieChart(Labels(results), Sizes(results))
  }

  lemma {:induction false} SumOfAppend(a: seq<ListedExpense>, b: seq<ListedExpense>, n: string)
    ensures SumOf(a + b, n) == SumOf(a, n) + SumOf(b, n)
    decreases |b|
  {
    if b != [] {
      assert (a + b)[..|a + b| - 1] == a + b[..|b| - 1];
      SumOfAppend(a, b[..|b| - 1], n);
    } else {
      assert a + b == a;
    }
  }

  /** With unique names, the joined rows of one expense named after c sum to its amount exactly when it references c. */
  lemma {:induction false} SumOfJoinOne(e: Expense, cats: seq<Category>, c: Category)
    requires UniqueNames(cats) && c in cats
    ensures SumOf(JoinOne(e, cats), c.name) == if Joins(e, c) then e.amount else 0
  {
    var head := if Joins(e, cats[0]) then [ListedExpense(e, cats[0].name)] else [];
    SumOfAppend(head, JoinOne(e, cats[1..]), c.name);
    assert SumOf(head, c.name) == if Joins(e, cats[0]) && cats[0].name == c.name then e.amount else 0 by {
      if head != [] { assert head[..0] == []; }
    }
    if cats[0] == c {
      forall x | x in JoinOne(e, cats[1..])
        ensures x.categoryName != c.name
      {
        var d :| d in cats[1..] && Joins(e, d) && x.categoryName == d.name;
        var j :| 0 <= j < |cats[1..]| && cats[1..][j] == d;
        assert cats[0].name != cats[j + 1].name;
      }
      NoRowNamed(JoinOne(e, cats[1..]), c.name);
    } else {
      assert cats[0].name != c.name by {
        var j :| 0 <= j < |cats| && cats[j] == c;
        assert j != 0;
        assert cats[0].name != cats[j].name;
      }
      assert UniqueNames(cats[1..]);
      SumOfJoinOne(e, cats[1..], c);
    }
  }

  /** Rows none of which is named n sum to nothing for n. */
  lemma {:induction false} NoRowNamed(rows: seq<ListedExpense>, n: string)
    requires forall x :: x in rows ==> x.categoryName != n
    ensures SumOf(rows, n) == 0
  {
    if rows != [] {
      NoRowNamed(rows[..|rows| - 1], n);
    }
  }

  /**
   * Names are unique, so grouping by name groups by category: the chart total
   * for category c is the sum of the amounts of the expenses that reference c.
   */
  lemma {:induction false} CategoryTotalIsSumOfItsExpenses(rows: seq<Expense>, cats: seq<Category>, c: Category)
    requires UniqueNames(cats) && c in cats
    ensures SumOf(Join(rows, cats), c.name) == AmountFor(rows, c.id)
  {
    if rows != [] {
      var front, last := rows[..|rows| - 1], rows[|rows| - 1];
      CategoryTotalIsSumOfItsExpenses(front, cats, c);
      SumOfAppend(Join(front, cats), JoinOne(last, cats), c.name);
      SumOfJoinOne(last, cats, c);
    }
  }
}
