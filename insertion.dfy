/**
 * The guarded insert of the add handler (`add_expense`): a row is written only
 * when both `category_id` and `date` were sent non-empty; otherwise the request
 * changes nothing.
 */
module Insertion {
  import opened Wrappers
  import opened Schema
  import opened Form

  /** `if category_id and date:` */
  predicate Accepted(categoryId: Option<string>, date: Option<string>)
  {
    Supplied(categoryId) && Supplied(date)
  }

  /**
   * The expenses table after `INSERT INTO expenses (name, amount, category_id, date)`
   * behind the guard. The foreign key is inert, so a category id that names no
   * category is stored all the same.
   */
  function InsertExpense(t: ExpenseTable, name: string, amount: int, categoryId: Option<string>, date: Option<string>): (r: ExpenseTable)
    ensures Accepted(categoryId, date) ==>
      && |r.rows| == |t.rows| + 1
      && r.rows[..|t.rows|] == t.rows
      && r.rows[|t.rows|].name == name
      && r.rows[|t.rows|].amount == amount
      && r.rows[|t.rows|].category == StoredCategory(categoryId.value)
      && r.rows[|t.rows|].date == date
    ensures !Accepted(categoryId, date) ==> r == t
    ensures t.Valid() ==> r.Valid()
    ensures t.Valid() && Accepted(categoryId, date) ==>
      forall i :: 0 <= i < |t.rows| ==> t.rows[i].id < r.rows[|t.rows|].id
  {
    if Accepted(categoryId, date) then
      ExpenseTable(t.rows + [Expense(t.lastId + 1, name, amount, StoredCategory(categoryId.value), date)], t.lastId + 1)
    else t
  }
}
