/**
 * `enrollInProgram` (app/actions/programs.ts): resolve the caller (the provider
 * user, else a `custom_session` cookie that `verifySession` accepts), then look up
 * the caller's progress row for the program and insert one only when there is none.
 * `verifySession` is a parameter: nothing is known about the token check.
 */
module Enrollment {
  import opened Wrappers
  import opened Session

  /** What `verifySession` yields on success. */
  datatype SessionPayload = SessionPayload(userId: string, role: Option<string>)

  /** What `supabase.auth.getUser()` does: return a user and/or an error flag, or throw. */
  datatype AuthCall = Returned(user: Option<Identity>, failed: bool) | Threw

  /** The action's reply objects. */
  datatype Reply =
    | Error(error: string)       // { error: ... }
    | Message(message: string)   // { message: ... }
    | Success                    // { success: true }

  const Unauthorized := "Unauthorized"
  const AlreadyEnrolled := "Already enrolled"
  const FailurePrefix := "Failed to enroll: "
  const Unexpected := "An unexpected error occurred"

  /**
   * Lines 16-38: the caller id, or `None` for `{error: "Unauthorized"}`. The cookie
   * is only consulted when the provider call failed or gave no user, and only a
   * payload with a non-empty `userId` stands in for a user.
   */
  function ResolveCaller(user: Option<Identity>, failed: bool, cookie: Option<string>,
                         verify: string -> Option<SessionPayload>): (id: Option<string>)
    ensures !failed && user.Some? ==> id == Some(user.value.id)
    ensures id.Some? ==>
              (user.Some? && id.value == user.value.id)
              || (cookie.Some? && verify(cookie.value).Some? && verify(cookie.value).value.userId == id.value && id.value != "")
    ensures (user.None? && (cookie.None? || verify(cookie.value).None? || verify(cookie.value).value.userId == "")) <==> id.None?
    ensures (failed || user.None?) && cookie.Some? && verify(cookie.value).Some? && verify(cookie.value).value.userId != "" ==>
              id == Some(verify(cookie.value).value.userId)
  {
    if failed || user.None? then
      var fromCookie :=
        if cookie.Some? && verify(cookie.value).Some? && verify(cookie.value).value.userId != ""
        then Some(verify(cookie.value).value.userId) else None;
      if fromCookie.Some? then fromCookie
      else if user.Some? then Some(user.value.id)
      else None
    else Some(user.value.id)
  }

  /** A cookie that `verifySession` rejects leaves a caller without a provider user unauthorized. */
  lemma RejectedCookieIsUnauthorized(cookie: string, verify: string -> Option<SessionPayload>, failed: bool)
    requires verify(cookie).None?
    ensures ResolveCaller(None, failed, Some(cookie), verify) == None
  {
  }

  /** A row of `user_progress`. */
  datatype ProgressRow = ProgressRow(userId: string, programId: string, totalVideos: int, watchedVideos: int, percentComplete: int)

  /** The row `enrollInProgram` creates: nothing watched yet. */
  function NewRow(userId: string, programId: string): ProgressRow {
    ProgressRow(userId, programId, 0, 0, 0)
  }

  predicate HasKey(rows: seq<ProgressRow>, userId: string, programId: string) {
    exists i :: 0 <= i < |rows| && rows[i].userId == userId && rows[i].programId == programId
  }

  /** At most one row per (user_id, program_id), as the table's unique index demands. */
  ghost predicate UniqueKeys(rows: seq<ProgressRow>) {
    forall i, j :: 0 <= i < j < |rows| ==>
      rows[i].userId != rows[j].userId || rows[i].programId != rows[j].programId
  }

  /** `findUnique` on the compound key. */
  function FindRow(rows: seq<ProgressRow>, userId: string, programId: string): (r: Option<ProgressRow>)
    ensures r.Some? <==> HasKey(rows, userId, programId)
    ensures r.Some? ==> r.value in rows && r.value.userId == userId && r.value.programId == programId
  {
    if rows == [] then None
    else if rows[0].userId == userId && rows[0].programId == programId then Some(rows[0])
    else
      var r := FindRow(rows[1..], userId, programId);
      assert HasKey(rows, userId, programId) ==> HasKey(rows[1..], userId, programId) by {
        if HasKey(rows, userId, programId) {
          var i :| 0 <= i < |rows| && rows[i].userId == userId && rows[i].programId == programId;
          if i > 0 { assert rows[1..][i - 1] == rows[i]; }
        }
      }
      assert HasKey(rows[1..], userId, programId) ==> HasKey(rows, userId, programId) by {
        if HasKey(rows[1..], userId, programId) {
          var i :| 0 <= i < |rows[1..]| && rows[1..][i].userId == userId && rows[1..][i].programId == programId;
          assert rows[i + 1] == rows[1..][i];
        }
      }
      r
  }

  /** The table after a successful enrollment: unchanged when the row exists, else one row more. */
  function Enrolled(rows: seq<ProgressRow>, userId: string, programId: string): seq<ProgressRow> {
    if HasKey(rows, userId, programId) then rows else rows + [NewRow(userId, programId)]
  }

  /** After enrolling, the caller is enrolled in the program. */
  lemma EnrolledHasKey(rows: seq<ProgressRow>, userId: string, programId: string)
    ensures HasKey(Enrolled(rows, userId, programId), userId, programId)
  {
    var r := Enrolled(rows, userId, programId);
    if !HasKey(rows, userId, programId) {
      assert r[|rows|] == NewRow(userId, programId);
    }
  }

  /** Enrolling twice leaves the table as enrolling once. */
  lemma EnrollIdempotent(rows: seq<ProgressRow>, userId: string, programId: string)
    ensures Enrolled(Enrolled(rows, userId, programId), userId, programId) == Enrolled(rows, userId, programId)
  {
    EnrolledHasKey(rows, userId, programId);
  }

  /** Enrolling keeps at most one row per (user, program). */
  lemma EnrollKeepsKeysUnique(rows: seq<ProgressRow>, userId: string, programId: string)
    requires UniqueKeys(rows)
    ensures UniqueKeys(Enrolled(rows, userId, programId))
  {
    var r := Enrolled(rows, userId, programId);
    if !HasKey(rows, userId, programId) {
      forall i, j | 0 <= i < j < |r|
        ensures r[i].userId != r[j].userId || r[i].programId != r[j].programId
      {
        if j == |rows| {
          assert r[i] == rows[i];
        }
      }
    }
  }

  /** Every row that was there is still there, in place; at most one row is added. */
  lemma EnrollOnlyAppends(rows: seq<ProgressRow>, userId: string, programId: string)
    ensures var r := Enrolled(rows, userId, programId);
      |rows| <= |r| <= |rows| + 1 && r[..|rows|] == rows
      && (|r| == |rows| + 1 ==> r[|rows|] == NewRow(userId, programId))
  {
  }

  /** The `user_progress` table as the action changes it. */
  class ProgressTable {
    var rows: seq<ProgressRow>

    ghost predicate Valid()
      reads this
    {
      UniqueKeys(rows)
    }

    constructor ()
      ensures Valid() && rows == []
    {
      rows := [];
    }

    /**
     * Lines 42-79: look up, then insert. `lookupFault` and `insertFault` are the
     * data store's failures, reported as `Failed to enroll: <message>`.
     */
    method Enroll(userId: string, programId: string, lookupFault: Option<string>, insertFault: Option<string>)
      returns (reply: Reply, revalidated: seq<string>)
      requires Valid()
      modifies this
      ensures Valid()
      ensures lookupFault.Some? ==>
                reply == Error(FailurePrefix + lookupFault.value) && rows == old(rows) && revalidated == []
      ensures lookupFault.None? && HasKey(old(rows), userId, programId) ==>
                reply == Message(AlreadyEnrolled) && rows == old(rows) && revalidated == []
      ensures lookupFault.None? && !HasKey(old(rows), userId, programId) && insertFault.Some? ==>
                reply == Error(FailurePrefix + insertFault.value) && rows == old(rows) && revalidated == []
      ensures lookupFault.None? && !HasKey(old(rows), userId, programId) && insertFault.None? ==>
                reply == Success && rows == Enrolled(old(rows), userId, programId)
                && revalidated == ["/dashboard", "/programs/" + programId]
      ensures reply == Success || rows == old(rows)
    {
      revalidated := [];
      if lookupFault.Some? {
        reply := Error(FailurePrefix + lookupFault.value);
        return;
      }
      var existing := FindRow(rows, userId, programId);
      if existing.Some? {
        reply := Message(AlreadyEnrolled);
        return;
      }
      if insertFault.Some? {
        reply := Error(FailurePrefix + insertFault.value);
        return;
      }
      EnrollKeepsKeysUnique(rows, userId, programId);
      rows := rows + [NewRow(userId, programId)];
      revalidated := ["/dashboard", "/programs/" + programId];
      reply := Success;
    }

    /** The whole action: resolve the caller, then enroll. */
    method EnrollInProgram(programId: string, auth: AuthCall, cookie: Option<string>,
                           verify: string -> Option<SessionPayload>,
                           lookupFault: Option<string>, insertFault: Option<string>)
      returns (reply: Reply, revalidated: seq<string>)
      requires Valid()
      modifies this
      ensures Valid()
      ensures auth.Threw? ==> reply == Error(Unexpected) && rows == old(rows) && revalidated == []
      ensures auth.Returned? && ResolveCaller(auth.user, auth.failed, cookie, verify).None? ==>
                reply == Error(Unauthorized) && rows == old(rows) && revalidated == []
      ensures auth.Returned? && ResolveCaller(auth.user, auth.failed, cookie, verify).Some? ==>
                var id := ResolveCaller(auth.user, auth.failed, cookie, verify).value;
                && (lookupFault.Some? ==>
                      reply == Error(FailurePrefix + lookupFault.value) && rows == old(rows) && revalidated == [])
                && (lookupFault.None? && HasKey(old(rows), id, programId) ==>
                      reply == Message(AlreadyEnrolled) && rows == old(rows) && revalidated == [])
                && (lookupFault.None? && !HasKey(old(rows), id, programId) && insertFault.Some? ==>
                      reply == Error(FailurePrefix + insertFault.value) && rows == old(rows) && revalidated == [])
                && (lookupFault.None? && !HasKey(old(rows), id, programId) && insertFault.None? ==>
                      reply == Success && rows == Enrolled(old(rows), id, programId)
                      && revalidated == ["/dashboard", "/programs/" + programId])
      ensures reply == Success || rows == old(rows)
    {
      revalidated := [];
      if auth.Threw? {
        reply := Error(Unexpected);
        return;
      }
      var caller := ResolveCaller(auth.user, auth.failed, cookie, verify);
      if caller.None? {
        reply := Error(Unauthorized);
        return;
      }
      reply, revalidated := Enroll(caller.value, programId, lookupFault, insertFault);
    }
  }
}
