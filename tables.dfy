/**
 * A table reached through the data store's query interface, keyed by row id:
 * the insert of one row and the `delete().eq('id', id)` the admin actions issue.
 */
module Tables {

  /** Adds one row under a fresh id; every other row is kept. */
  function Insert<V>(rows: map<string, V>, id: string, row: V): (r: map<string, V>)
    requires id !in rows
    ensures r.Keys == rows.Keys + {id} && |r| == |rows| + 1
    ensures r[id] == row
    ensures forall k :: k in rows ==> r[k] == rows[k]
  {
    rows[id := row]
  }

  /** Removes the rows whose id equals `id`; every other row is kept. */
  function DeleteById<V>(rows: map<string, V>, id: string): (r: map<string, V>)
    ensures r.Keys == rows.Keys - {id}
    ensures forall k :: k in r ==> r[k] == rows[k]
    ensures id !in rows ==> r == rows
  {
    rows - {id}
  }

  /** Deleting the row just inserted gives back the table. */
  lemma DeleteUndoesInsert<V>(rows: map<string, V>, id: string, row: V)
    requires id !in rows
    ensures DeleteById(Insert(rows, id, row), id) == rows
  {
  }

  /** Deleting twice is deleting once. */
  lemma DeleteIdempotent<V>(rows: map<string, V>, id: string)
    ensures DeleteById(DeleteById(rows, id), id) == DeleteById(rows, id)
  {
  }
}
