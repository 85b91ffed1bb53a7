/**
 * `createResource` and `deleteResource` (app/admin/resources/actions.ts): unlike
 * the other admin actions, their store errors are returned as a `{message}` reply
 * and skip revalidation.
 */
module AdminResources {
  import opened Wrappers
  import opened AdminAuth
  import opened Tables

  datatype ResourceRow = ResourceRow(title: string, description: string, programId: string, fileUrl: string)

  const ResourcesPath := "/admin/resources"
  const CreateFailed := "Failed to create resource"
  const DeleteFailed := "Failed to delete resource"

  class ResourcesTable {
    var rows: map<string, ResourceRow>

    constructor (initial: map<string, ResourceRow>)
      ensures rows == initial
    {
      rows := initial;
    }

    /**
     * Inserts one row with the submitted fields. On success it revalidates the
     * list and the program's public page, then redirects to the list.
     */
    method CreateResource(req: AdminRequest, title: string, description: string, programId: string,
                          fileUrl: string, newId: string, fault: bool)
      returns (outcome: ActionOutcome)
      modifies this
      ensures GateOf(req).Redirect? ==> outcome == Halted(GateOf(req).target) && rows == old(rows)
      ensures GateOf(req).Allow? && (fault || newId in old(rows)) ==>
                outcome == Returned(Some(CreateFailed), [], None) && rows == old(rows)
      ensures GateOf(req).Allow? && !fault && newId !in old(rows) ==>
                outcome == Returned(None, [ResourcesPath, "/programs/" + programId], Some(ResourcesPath))
                && rows == Insert(old(rows), newId, ResourceRow(title, description, programId, fileUrl))
    {
      var gate := GateOf(req);
      if gate.Redirect? {
        return Halted(gate.target);
      }
      if fault || newId in rows {
        return Returned(Some(CreateFailed), [], None);
      }
      rows := Insert(rows, newId, ResourceRow(title, description, programId, fileUrl));
      outcome := Returned(None, [ResourcesPath, "/programs/" + programId], Some(ResourcesPath));
    }

    /** Removes the row with that id, if any; a delete error is returned and skips revalidation. */
    method DeleteResource(req: AdminRequest, id: string, fault: bool)
      returns (outcome: ActionOutcome)
      modifies this
      ensures GateOf(req).Redirect? ==> outcome == Halted(GateOf(req).target) && rows == old(rows)
      ensures GateOf(req).Allow? && fault ==>
                outcome == Returned(Some(DeleteFailed), [], None) && rows == old(rows)
      ensures GateOf(req).Allow? && !fault ==>
                outcome == Returned(None, [ResourcesPath], None) && rows == DeleteById(old(rows), id)
    {
      var gate := GateOf(req);
      if gate.Redirect? {
        return Halted(gate.target);
      }
      if fault {
        return Returned(Some(DeleteFailed), [], None);
      }
      rows := DeleteById(rows, id);
      outcome := Returned(None, [ResourcesPath], None);
    }
  }
}
