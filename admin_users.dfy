/** `updateUserRole` (app/admin/users/actions.ts): a gated update of one user's role. */
module AdminUsers {
  import opened Wrappers
  import opened AdminAuth

  /** A row of `users` as far as the back office sees it. */
  datatype UserRow = UserRow(email: string, name: Option<string>, role: string, level: Option<string>)

  /** `update({ role }).eq('id', userId)`: only the `role` of the row with that id changes. */
  function WithRole(rows: map<string, UserRow>, userId: string, role: string): (r: map<string, UserRow>)
    ensures r.Keys == rows.Keys
    ensures forall k :: k in rows && k != userId ==> r[k] == rows[k]
    ensures userId in rows ==> r[userId] == rows[userId].(role := role)
    ensures userId !in rows ==> r == rows
  {
    if userId in rows then rows[userId := rows[userId].(role := role)] else rows
  }

  /** Setting a role twice is setting it once; the last role written wins. */
  lemma WithRoleLastWins(rows: map<string, UserRow>, userId: string, r1: string, r2: string)
    ensures WithRole(WithRole(rows, userId, r1), userId, r2) == WithRole(rows, userId, r2)
  {
  }

  class UsersTable {
    var rows: map<string, UserRow>

    constructor (initial: map<string, UserRow>)
      ensures rows == initial
    {
      rows := initial;
    }

    /**
     * The gate runs first; a non-admin changes nothing. The submitted role is
     * written as given; an update error (`fault`) is only logged, and the page is
     * revalidated either way.
     */
    method UpdateUserRole(req: AdminRequest, userId: string, newRole: string, fault: bool)
      returns (outcome: ActionOutcome)
      modifies this
      ensures GateOf(req).Redirect? ==> outcome == Halted(GateOf(req).target) && rows == old(rows)
      ensures GateOf(req).Allow? ==>
                outcome == Returned(None, ["/admin/users"], None)
                && rows == (if fault then old(rows) else WithRole(old(rows), userId, newRole))
    {
      var gate := GateOf(req);
      if gate.Redirect? {
        return Halted(gate.target);
      }
      if !fault {
        rows := WithRole(rows, userId, newRole);
      }
      outcome := Returned(None, ["/admin/users"], None);
    }
  }
}
