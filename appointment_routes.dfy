/** The appointment router, mounted at /api/appointments: `protect` runs for
    every request it sees; booking is for patients, status and prescriptions
    for doctors, reads and cancellation for any signed-in caller. */
module AppointmentRoutes {
  import opened Common
  import opened Users
  import opened Tokens
  import opened AuthMiddleware
  import opened Router

  const Appointments: Table := Table([Protect], [
    Route(POST, [], [Authorize([PatientRole])], BookAppointment),
    Route(GET, [], [], GetAppointments),
    Route(GET, [Param], [], GetAppointmentById),
    Route(PUT, [Param, Lit("cancel")], [], CancelAppointment),
    Route(PUT, [Param, Lit("status")], [Authorize([DoctorRole])], UpdateAppointmentStatus),
    Route(PUT, [Param, Lit("prescription")], [Authorize([DoctorRole])], AddPrescription)
  ])

  /** Without verified claims every request gets 401, never 403, even on the
      role-restricted routes. */
  lemma EveryRouteNeedsLogin(req: Request, verifyAccess: string -> Option<Payload>)
    requires AuthMiddleware.Protect(req.authorization, verifyAccess).Reject?
    ensures Dispatch(Appointments, req, verifyAccess) == Answered(Unauthorized)
  {
    ProtectedRouterNeedsLogin(Appointments, req, verifyAccess);
  }

  /** The claims a role-checked route sees, and what it answers. */
  function RoleGate(u: Payload, role: Role, handler: Handler, params: seq<string>): Outcome {
    if u.role == role then Reached(handler, Some(u), params) else Answered(Forbidden)
  }

  /** POST / books for patients only. */
  lemma BookingIsPatientOnly(req: Request, verifyAccess: string -> Option<Payload>)
    requires req.verb == POST && req.path == []
    requires AuthMiddleware.Protect(req.authorization, verifyAccess).Accept?
    ensures Dispatch(Appointments, req, verifyAccess)
         == RoleGate(AuthMiddleware.Protect(req.authorization, verifyAccess).user, PatientRole, BookAppointment, [])
  {
    var u := AuthMiddleware.Protect(req.authorization, verifyAccess).user;
    ProtectChain(None, req, verifyAccess);
    FirstRouteIs(Appointments.routes, POST, [], 0);
    AuthorizeChain([PatientRole], u, req, verifyAccess);
  }

  /** GET / and GET /:id need a signed-in caller of any role. */
  lemma ReadsNeedLoginOnly(req: Request, verifyAccess: string -> Option<Payload>)
    requires req.verb == GET && (req.path == [] || (|req.path| == 1 && req.path[0] != ""))
    requires AuthMiddleware.Protect(req.authorization, verifyAccess).Accept?
    ensures Dispatch(Appointments, req, verifyAccess)
         == Reached(if req.path == [] then GetAppointments else GetAppointmentById,
                    Some(AuthMiddleware.Protect(req.authorization, verifyAccess).user), req.path)
  {
    ProtectChain(None, req, verifyAccess);
    FirstRouteIs(Appointments.routes, GET, req.path, if req.path == [] then 1 else 2);
    if req.path != [] {
      assert Params([Param], req.path) == [req.path[0]] + Params([], []);
    }
  }

  /** The id and the action of a PUT /:id/<action> path. */
  predicate ActionPath(path: seq<string>, action: string) {
    |path| == 2 && path[0] != "" && SameSegment(path[1], action)
  }

  lemma ActionsDiffer()
    ensures !SameSegment("status", "cancel") && !SameSegment("prescription", "cancel")
    ensures !SameSegment("prescription", "status")
  {
    SegmentsDiffer("status", "cancel", 0);
    SegmentsDiffer("prescription", "cancel", 0);
    SegmentsDiffer("prescription", "status", 0);
  }

  /** PUT /:id/cancel needs a signed-in caller of any role. */
  lemma CancelNeedsLoginOnly(req: Request, verifyAccess: string -> Option<Payload>)
    requires req.verb == PUT && ActionPath(req.path, "cancel")
    requires AuthMiddleware.Protect(req.authorization, verifyAccess).Accept?
    ensures Dispatch(Appointments, req, verifyAccess)
         == Reached(CancelAppointment, Some(AuthMiddleware.Protect(req.authorization, verifyAccess).user), [req.path[0]])
  {
    ProtectChain(None, req, verifyAccess);
    FirstRouteIs(Appointments.routes, PUT, req.path, 3);
    assert Params([Lit("cancel")], req.path[1..]) == [];
    assert Params([Param, Lit("cancel")], req.path) == [req.path[0]];
  }

  /** SameSegment is an equivalence: a segment naming one action does not name another. */
  lemma OtherAction(s: string, a: string, b: string)
    requires SameSegment(s, a) && !SameSegment(a, b)
    ensures !SameSegment(s, b)
  {
  }

  /** PUT /:id/status is for doctors only. */
  lemma StatusIsDoctorOnly(req: Request, verifyAccess: string -> Option<Payload>)
    requires req.verb == PUT && ActionPath(req.path, "status")
    requires AuthMiddleware.Protect(req.authorization, verifyAccess).Accept?
    ensures Dispatch(Appointments, req, verifyAccess)
         == RoleGate(AuthMiddleware.Protect(req.authorization, verifyAccess).user, DoctorRole, UpdateAppointmentStatus, [req.path[0]])
  {
    var u := AuthMiddleware.Protect(req.authorization, verifyAccess).user;
    ProtectChain(None, req, verifyAccess);
    ActionsDiffer();
    OtherAction(req.path[1], "status", "cancel");
    FirstRouteIs(Appointments.routes, PUT, req.path, 4);
    assert Params([Lit("status")], req.path[1..]) == [];
    assert Params([Param, Lit("status")], req.path) == [req.path[0]];
    AuthorizeChain([DoctorRole], u, req, verifyAccess);
  }

  /** PUT /:id/prescription is for doctors only. */
  lemma PrescriptionIsDoctorOnly(req: Request, verifyAccess: string -> Option<Payload>)
    requires req.verb == PUT && ActionPath(req.path, "prescription")
    requires AuthMiddleware.Protect(req.authorization, verifyAccess).Accept?
    ensures Dispatch(Appointments, req, verifyAccess)
         == RoleGate(AuthMiddleware.Protect(req.authorization, verifyAccess).user, DoctorRole, AddPrescription, [req.path[0]])
  {
    var u := AuthMiddleware.Protect(req.authorization, verifyAccess).user;
    ProtectChain(None, req, verifyAccess);
    ActionsDiffer();
    OtherAction(req.path[1], "prescription", "cancel");
    OtherAction(req.path[1], "prescription", "status");
    FirstRouteIs(Appointments.routes, PUT, req.path, 5);
    assert Params([Lit("prescription")], req.path[1..]) == [];
    assert Params([Param, Lit("prescription")], req.path) == [req.path[0]];
    AuthorizeChain([DoctorRole], u, req, verifyAccess);
  }
}
