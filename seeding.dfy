/**
 * The schema manager's seeding step (`init_db`): three
 * `INSERT OR IGNORE INTO categories (name) VALUES (...)` statements against
 * the UNIQUE `name` column.
 */
module Seeding {
  import opened Schema

  const DefaultCategories: seq<string> := ["Food", "Utilities", "Entertainment"]

  /**
   * INSERT OR IGNORE of a category name: the UNIQUE constraint makes an
   * existing name a no-op; otherwise a row with the next AUTOINCREMENT id is
   * appended.
   */
  function InsertOrIgnore(t: CategoryTable, name: string): (r: CategoryTable)
    ensures name in Names(r.rows)
    ensures forall n :: n in Names(r.rows) <==> n in Names(t.rows) || n == name
    ensures name in Names(t.rows) ==> r == t
    ensures t.rows <= r.rows && |r.rows| <= |t.rows| + 1
    ensures t.Valid() ==> r.Valid()
    ensures t.Valid() ==> forall i, j :: 0 <= i < |t.rows| <= j < |r.rows| ==> t.rows[i].id < r.rows[j].id
  {
    if name in Names(t.rows) then t
    else
      var r := CategoryTable(t.rows + [Category(t.lastId + 1, name)], t.lastId + 1);
      assert Names(r.rows) == Names(t.rows) + [name];
      r
  }

  /** The categories table as `init_db` leaves it: the three statements in order. */
  function Seeded(t: CategoryTable): (r: CategoryTable)
    ensures forall n :: n in Names(r.rows) <==> n in Names(t.rows) || n in DefaultCategories
    ensures t.rows <= r.rows
    ensures t.Valid() ==> r.Valid()
  {
    InsertOrIgnore(InsertOrIgnore(InsertOrIgnore(t, "Food"), "Utilities"), "Entertainment")
  }

  /** The categories table after k runs of `init_db`, one per process start. */
  function SeededTimes(t: CategoryTable, k: nat): CategoryTable
    decreases k
  {
    if k == 0 then t else SeededTimes(Seeded(t), k - 1)
  }

  /** A second run of `init_db` leaves the categories table unchanged. */
  lemma InitDbIdempotent(t: CategoryTable)
    ensures Seeded(Seeded(t)) == Seeded(t)
  {
  }

  /** Any number of runs of `init_db`, one or more, leaves what the first run left. */
  lemma {:induction false} InitDbRepeated(t: CategoryTable, k: nat)
    requires k >= 1
    ensures SeededTimes(t, k) == Seeded(t)
    decreases k
  {
    if k > 1 {
      InitDbRepeated(Seeded(t), k - 1);
      InitDbIdempotent(t);
    }
  }

  /** In a table with unique names, a present name occurs exactly once. */
  lemma {:induction false} UniqueNameOccursOnce(rows: seq<Category>, n: string)
    requires UniqueNames(rows)
    requires n in Names(rows)
    ensures multiset(Names(rows))[n] == 1
  {
    var front := rows[..|rows| - 1];
    assert Names(rows) == Names(front) + [rows[|rows| - 1].name];
    if rows[|rows| - 1].name == n {
      assert n !in Names(front);
    } else {
      UniqueNameOccursOnce(front, n);
    }
  }

  /** After `init_db`, each default category name appears exactly once. */
  lemma InitDbSeedsEachOnce(t: CategoryTable)
    requires t.Valid()
    ensures forall n :: n in DefaultCategories ==> multiset(Names(Seeded(t).rows))[n] == 1
  {
    forall n | n in DefaultCategories
      ensures multiset(Names(Seeded(t).rows))[n] == 1
    {
      UniqueNameOccursOnce(Seeded(t).rows, n);
    }
  }

  /**
   * On a store holding none of the defaults (a fresh one in particular),
   * `init_db` appends them with the next three ids, in statement order.
   */
  lemma InitDbAppendsMissingDefaults(t: CategoryTable)
    requires forall n :: n in DefaultCategories ==> n !in Names(t.rows)
    ensures Seeded(t).rows == t.rows + [Category(t.lastId + 1, "Food"), Category(t.lastId + 2, "Utilities"),
                                        Category(t.lastId + 3, "Entertainment")]
    ensures Seeded(t).lastId == t.lastId + 3
  {
    assert "Food" in DefaultCategories && "Utilities" in DefaultCategories && "Entertainment" in DefaultCategories;
    InsertNewName(t, "Food");
    var t1 := InsertOrIgnore(t, "Food");
    assert Names(t1.rows) == Names(t.rows) + ["Food"];
    InsertNewName(t1, "Utilities");
    var t2 := InsertOrIgnore(t1, "Utilities");
    assert Names(t2.rows) == Names(t1.rows) + ["Utilities"];
    InsertNewName(t2, "Entertainment");
  }

  /** A name not yet present is inserted with the next id. */
  lemma InsertNewName(t: CategoryTable, name: string)
    requires name !in Names(t.rows)
    ensures InsertOrIgnore(t, name) == CategoryTable(t.rows + [Category(t.lastId + 1, name)], t.lastId + 1)
  {
  }
}
