/** `createProgram` and `deleteProgram` (app/admin/programs/actions.ts). */
module AdminPrograms {
  import opened Wrappers
  import opened AdminAuth
  import opened Tables

  datatype ProgramRow = ProgramRow(title: string, description: string, coverImage: Option<string>)

  /** `cover_image || null`: an empty submission is stored as null, anything else verbatim. */
  function CoverImage(submitted: string): (c: Option<string>)
    ensures c.None? <==> submitted == ""
    ensures c.Some? ==> c.value == submitted
  {
    if submitted == "" then None else Some(submitted)
  }

  const ProgramsPath := "/admin/programs"

  class ProgramsTable {
    var rows: map<string, ProgramRow>

    constructor (initial: map<string, ProgramRow>)
      ensures rows == initial
    {
      rows := initial;
    }

    /**
     * Inserts one row carrying the submitted fields. `newId` is the id the store
     * generates; the insert fails (`fault`, or an id already taken) without change.
     * Errors are only logged; the list is revalidated either way.
     */
    method CreateProgram(req: AdminRequest, title: string, description: string, coverImage: string,
                         newId: string, fault: bool)
      returns (outcome: ActionOutcome)
      modifies this
      ensures GateOf(req).Redirect? ==> outcome == Halted(GateOf(req).target) && rows == old(rows)
      ensures GateOf(req).Allow? ==> outcome == Returned(None, [ProgramsPath], None)
      ensures GateOf(req).Allow? && !fault && newId !in old(rows) ==>
                rows == Insert(old(rows), newId, ProgramRow(title, description, CoverImage(coverImage)))
      ensures GateOf(req).Allow? && (fault || newId in old(rows)) ==> rows == old(rows)
    {
      var gate := GateOf(req);
      if gate.Redirect? {
        return Halted(gate.target);
      }
      if !fault && newId !in rows {
        rows := Insert(rows, newId, ProgramRow(title, description, CoverImage(coverImage)));
      }
      outcome := Returned(None, [ProgramsPath], None);
    }

    /** Removes the row with that id, if any; errors are only logged. */
    method DeleteProgram(req: AdminRequest, id: string, fault: bool)
      returns (outcome: ActionOutcome)
      modifies this
      ensures GateOf(req).Redirect? ==> outcome == Halted(GateOf(req).target) && rows == old(rows)
      ensures GateOf(req).Allow? ==>
                outcome == Returned(None, [ProgramsPath], None)
                && rows == (if fault then old(rows) else DeleteById(old(rows), id))
    {
      var gate := GateOf(req);
      if gate.Redirect? {
        return Halted(gate.target);
      }
      if !fault {
        rows := DeleteById(rows, id);
      }
      outcome := Returned(None, [ProgramsPath], None);
    }
  }
}
