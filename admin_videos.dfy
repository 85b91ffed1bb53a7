/** `createVideo` and `deleteVideo` (app/admin/videos/actions.ts). */
module AdminVideos {
  import opened Wrappers
  import opened AdminAuth
  import opened Tables

  datatype VideoRow = VideoRow(title: string, description: string, youtubeUrl: string, programId: string)

  const VideosPath := "/admin/videos"

  class VideosTable {
    var rows: map<string, VideoRow>

    constructor (initial: map<string, VideoRow>)
      ensures rows == initial
    {
      rows := initial;
    }

    /** Inserts one row with the four submitted fields copied unchanged. */
    method CreateVideo(req: AdminRequest, title: string, description: string, youtubeUrl: string,
                       programId: string, newId: string, fault: bool)
      returns (outcome: ActionOutcome)
      modifies this
      ensures GateOf(req).Redirect? ==> outcome == Halted(GateOf(req).target) && rows == old(rows)
      ensures GateOf(req).Allow? ==> outcome == Returned(None, [VideosPath], None)
      ensures GateOf(req).Allow? && !fault && newId !in old(rows) ==>
                rows == Insert(old(rows), newId, VideoRow(title, description, youtubeUrl, programId))
      ensures GateOf(req).Allow? && (fault || newId in old(rows)) ==> rows == old(rows)
    {
      var gate := GateOf(req);
      if gate.Redirect? {
        return Halted(gate.target);
      }
      if !fault && newId !in rows {
        rows := Insert(rows, newId, VideoRow(title, description, youtubeUrl, programId));
      }
      outcome := Returned(None, [VideosPath], None);
    }

    /** Removes the row with that id, if any; errors are only logged. */
    method DeleteVideo(req: AdminRequest, id: string, fault: bool)
      returns (outcome: ActionOutcome)
      modifies this
      ensures GateOf(req).Redirect? ==> outcome == Halted(GateOf(req).target) && rows == old(rows)
      ensures GateOf(req).Allow? ==>
                outcome == Returned(None, [VideosPath], None)
                && rows == (if fault then old(rows) else DeleteById(old(rows), id))
    {
      var gate := GateOf(req);
      if gate.Redirect? {
        return Halted(gate.target);
      }
      if !fault {
        rows := DeleteById(rows, id);
      }
      outcome := Returned(None, [VideosPath], None);
    }
  }
}
