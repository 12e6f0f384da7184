/** The health-record router, mounted at /api/records: `protect` runs for
    every request it sees; uploads and deletions are for patients, reads for
    any signed-in caller. The upload checks the role before the file. */
module HealthRecordRoutes {
  import opened Common
  import opened Users
  import opened Tokens
  import opened AuthMiddleware
  import opened Upload
  import opened Router

  const Records: Table := Table([Protect], [
    Route(POST, [], [Authorize([PatientRole]), UploadSingle], UploadHealthRecord),
    Route(DELETE, [Param], [Authorize([PatientRole])], DeleteHealthRecord),
    Route(GET, [], [], GetHealthRecords),
    Route(GET, [Param], [], GetHealthRecordById)
  ])

  /** Without verified claims every request gets 401, whichever path it names. */
  lemma EveryRouteNeedsLogin(req: Request, verifyAccess: string -> Option<Payload>)
    requires AuthMiddleware.Protect(req.authorization, verifyAccess).Reject?
    ensures Dispatch(Records, req, verifyAccess) == Answered(Unauthorized)
  {
    ProtectedRouterNeedsLogin(Records, req, verifyAccess);
  }

  /** POST /: 401, then 403 for a caller who is not a patient whatever the
      file, then 500 for a file the filter refuses; a request without a file
      reaches the handler. */
  lemma UploadChecksRoleThenFile(req: Request, verifyAccess: string -> Option<Payload>)
    requires req.verb == POST && req.path == []
    ensures var g := AuthMiddleware.Protect(req.authorization, verifyAccess);
      Dispatch(Records, req, verifyAccess) ==
        (if g.Reject? then Answered(Unauthorized)
         else if g.user.role != PatientRole then Answered(Forbidden)
         else if req.file.Some? && !Accepts(req.file.value.originalName, req.file.value.mimetype) then Answered(ServerError)
         else Reached(UploadHealthRecord, Some(g.user), []))
  {
    var g := AuthMiddleware.Protect(req.authorization, verifyAccess);
    ProtectChain(None, req, verifyAccess);
    FirstRouteIs(Records.routes, POST, [], 0);
    if g.Accept? {
      AuthorizeUploadChain([PatientRole], g.user, req, verifyAccess);
    }
  }

  /** A doctor uploading a Word document is refused for the role (403), a
      patient uploading it for the file (500). */
  lemma WordUploadRefusals(req: Request, verifyAccess: string -> Option<Payload>, name: string)
    requires req.verb == POST && req.path == [] && req.file == Some(FileInfo(name, "application/msword"))
    requires AuthMiddleware.Protect(req.authorization, verifyAccess).Accept?
    ensures var u := AuthMiddleware.Protect(req.authorization, verifyAccess).user;
      Dispatch(Records, req, verifyAccess) == (if u.role == PatientRole then Answered(ServerError) else Answered(Forbidden))
  {
    UploadChecksRoleThenFile(req, verifyAccess);
    WordMimetypeRefused(name);
  }

  /** DELETE /:id: 401, then 403 for a caller who is not a patient. */
  lemma DeleteIsPatientOnly(req: Request, verifyAccess: string -> Option<Payload>)
    requires req.verb == DELETE && |req.path| == 1 && req.path[0] != ""
    ensures var g := AuthMiddleware.Protect(req.authorization, verifyAccess);
      Dispatch(Records, req, verifyAccess) ==
        (if g.Reject? then Answered(Unauthorized)
         else if g.user.role != PatientRole then Answered(Forbidden)
         else Reached(DeleteHealthRecord, Some(g.user), req.path))
  {
    var g := AuthMiddleware.Protect(req.authorization, verifyAccess);
    ProtectChain(None, req, verifyAccess);
    FirstRouteIs(Records.routes, DELETE, req.path, 1);
    assert Params([Param], req.path) == [req.path[0]] + Params([], []);
    if g.Accept? {
      AuthorizeChain([PatientRole], g.user, req, verifyAccess);
    }
  }

  /** GET / and GET /:id need a signed-in caller of any role. */
  lemma ReadsNeedLoginOnly(req: Request, verifyAccess: string -> Option<Payload>)
    requires req.verb == GET && (req.path == [] || (|req.path| == 1 && req.path[0] != ""))
    requires AuthMiddleware.Protect(req.authorization, verifyAccess).Accept?
    ensures Dispatch(Records, req, verifyAccess)
         == Reached(if req.path == [] then GetHealthRecords else GetHealthRecordById,
                    Some(AuthMiddleware.Protect(req.authorization, verifyAccess).user), req.path)
  {
    ProtectChain(None, req, verifyAccess);
    FirstRouteIs(Records.routes, GET, req.path, if req.path == [] then 2 else 3);
    if req.path != [] {
      assert Params([Param], req.path) == [req.path[0]] + Params([], []);
    }
  }
}
