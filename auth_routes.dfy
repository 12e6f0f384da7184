/** The auth router, mounted at /api/auth: four public POSTs, then logout
    and the current-user read behind `protect`. No route checks a role, and
    the profile update the controller defines has no route. */
module AuthRoutes {
  import opened Common
  import opened Users
  import opened Tokens
  import opened AuthMiddleware
  import opened Router
  import DoctorRoutes
  import AppointmentRoutes
  import HealthRecordRoutes
  import MedicineRoutes
  import PharmacyRoutes

  const Auth: Table := Table([], [
    Route(POST, [Lit("register")], [], Register),
    Route(POST, [Lit("send-otp")], [], SendOtp),
    Route(POST, [Lit("verify-otp")], [], VerifyOtp),
    Route(POST, [Lit("refresh-token")], [], RefreshToken),
    Route(POST, [Lit("logout")], [Protect], Logout),
    Route(GET, [Lit("me")], [Protect], GetMe)
  ])

  /** The public entry points, by name. */
  function PublicHandler(name: string): Option<Handler> {
    if name == "register" then Some(Register)
    else if name == "send-otp" then Some(SendOtp)
    else if name == "verify-otp" then Some(VerifyOtp)
    else if name == "refresh-token" then Some(RefreshToken)
    else None
  }

  /** register, send-otp, verify-otp and refresh-token run for anyone,
      whatever the Authorization header holds. */
  lemma SignInIsPublic(req: Request, verifyAccess: string -> Option<Payload>, name: string)
    requires PublicHandler(name).Some?
    requires req.verb == POST && req.path == [name]
    ensures Dispatch(Auth, req, verifyAccess) == Reached(PublicHandler(name).value, None, [])
  {
    PublicNamesDiffer();
    var i: nat := if name == "register" then 0 else if name == "send-otp" then 1 else if name == "verify-otp" then 2 else 3;
    forall j | 0 <= j < i
      ensures !Hits(Auth.routes[j], POST, [name])
    {
      var other := ["register", "send-otp", "verify-otp"][j];
      LiteralMiss(Auth.routes[j], POST, name, other);
    }
    FirstRouteIs(Auth.routes, POST, [name], i);
    assert Params(Auth.routes[i].pattern, [name]) == [];
    UnguardedRoute(Auth, req, verifyAccess, i);
  }

  lemma PublicNamesDiffer()
    ensures !SameSegment("send-otp", "register")
    ensures !SameSegment("verify-otp", "register") && !SameSegment("verify-otp", "send-otp")
    ensures !SameSegment("refresh-token", "register") && !SameSegment("refresh-token", "send-otp")
    ensures !SameSegment("refresh-token", "verify-otp")
  {
    SegmentsDiffer("send-otp", "register", 0);
    SegmentsDiffer("verify-otp", "register", 0);
    SegmentsDiffer("verify-otp", "send-otp", 0);
    SegmentsDiffer("refresh-token", "register", 2);
    SegmentsDiffer("refresh-token", "send-otp", 0);
    SegmentsDiffer("refresh-token", "verify-otp", 0);
  }

  /** logout and me: 401 without verified claims, and otherwise the handler
      runs with them, whatever the role. */
  lemma SessionRoutesNeedLogin(req: Request, verifyAccess: string -> Option<Payload>)
    requires (req.verb == POST && req.path == ["logout"]) || (req.verb == GET && req.path == ["me"])
    ensures var g := AuthMiddleware.Protect(req.authorization, verifyAccess);
      Dispatch(Auth, req, verifyAccess) ==
        (if g.Reject? then Answered(Unauthorized)
         else Reached(if req.verb == POST then Logout else GetMe, Some(g.user), []))
  {
    if req.verb == POST {
      LogoutNeedsLogin(req, verifyAccess);
    } else {
      MeNeedsLogin(req, verifyAccess);
    }
  }

  lemma LogoutNeedsLogin(req: Request, verifyAccess: string -> Option<Payload>)
    requires req.verb == POST && req.path == ["logout"]
    ensures var g := AuthMiddleware.Protect(req.authorization, verifyAccess);
      Dispatch(Auth, req, verifyAccess) == (if g.Reject? then Answered(Unauthorized) else Reached(Logout, Some(g.user), []))
  {
    ProtectChain(None, req, verifyAccess);
    forall j | 0 <= j < 4
      ensures !Hits(Auth.routes[j], POST, req.path)
    {
      var other := ["register", "send-otp", "verify-otp", "refresh-token"][j];
      SegmentsDiffer("logout", other, 0);
      LiteralMiss(Auth.routes[j], POST, "logout", other);
    }
    FirstRouteIs(Auth.routes, POST, req.path, 4);
    assert Params([Lit("logout")], req.path) == [];
  }

  lemma MeNeedsLogin(req: Request, verifyAccess: string -> Option<Payload>)
    requires req.verb == GET && req.path == ["me"]
    ensures var g := AuthMiddleware.Protect(req.authorization, verifyAccess);
      Dispatch(Auth, req, verifyAccess) == (if g.Reject? then Answered(Unauthorized) else Reached(GetMe, Some(g.user), []))
  {
    ProtectChain(None, req, verifyAccess);
    FirstRouteIs(Auth.routes, GET, req.path, 5);
    assert Params([Lit("me")], req.path) == [];
  }

  /** No auth route answers 403. */
  lemma NoRoleRestriction(req: Request, verifyAccess: string -> Option<Payload>)
    ensures Dispatch(Auth, req, verifyAccess) != Answered(Forbidden)
  {
    NeverForbidden(Auth, req, verifyAccess);
  }

  /** The profile update is routed by none of the six routers. */
  lemma UpdateProfileUnreachable(t: Table, req: Request, verifyAccess: string -> Option<Payload>)
    requires t in {Auth, DoctorRoutes.Doctors, AppointmentRoutes.Appointments, HealthRecordRoutes.Records,
                   MedicineRoutes.Medicines, PharmacyRoutes.Pharmacies}
    ensures !(Dispatch(t, req, verifyAccess).Reached? && Dispatch(t, req, verifyAccess).handler == UpdateProfile)
  {
    Unrouted(t, UpdateProfile, req, verifyAccess);
  }
}
