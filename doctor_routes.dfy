/** The doctor router, mounted at /api/doctors: three public reads, then two
    doctor-only routes. Because `/:id` is registered before `/my-profile`,
    the doctor's own-profile route is never dispatched. */
module DoctorRoutes {
  import opened Common
  import opened Users
  import opened Tokens
  import opened AuthMiddleware
  import opened Router

  const DoctorOnly: seq<Guard> := [Protect, Authorize([DoctorRole])]

  const Doctors: Table := Table([], [
    Route(GET, [], [], GetDoctors),
    Route(GET, [Lit("specializations")], [], GetSpecializations),
    Route(GET, [Param], [], GetDoctorById),
    Route(GET, [Lit("my-profile")], DoctorOnly, GetMyDoctorProfile),
    Route(PUT, [Lit("profile")], DoctorOnly, UpdateDoctorProfile)
  ])

  /** GET / lists the directory for anyone. */
  lemma DirectoryIsPublic(req: Request, verifyAccess: string -> Option<Payload>)
    requires req.verb == GET && req.path == []
    ensures Dispatch(Doctors, req, verifyAccess) == Reached(GetDoctors, None, [])
  {
    FirstRouteIs(Doctors.routes, GET, [], 0);
  }

  /** GET /specializations is registered ahead of `/:id`, so it reaches its
      own handler, for anyone. */
  lemma SpecializationsReached(req: Request, verifyAccess: string -> Option<Payload>)
    requires req.verb == GET && |req.path| == 1 && SameSegment(req.path[0], "specializations")
    ensures Dispatch(Doctors, req, verifyAccess) == Reached(GetSpecializations, None, [])
  {
    FirstRouteIs(Doctors.routes, GET, req.path, 1);
    assert Params([Lit("specializations")], req.path) == [];
  }

  /** Any other single segment after GET is taken as a profile id, for anyone. */
  lemma ProfileByIdIsPublic(req: Request, verifyAccess: string -> Option<Payload>)
    requires req.verb == GET && |req.path| == 1 && req.path[0] != ""
    requires !SameSegment(req.path[0], "specializations")
    ensures Dispatch(Doctors, req, verifyAccess) == Reached(GetDoctorById, None, req.path)
  {
    FirstRouteIs(Doctors.routes, GET, req.path, 2);
    assert Params([Param], req.path) == [req.path[0]] + Params([], []);
  }

  /** GET /my-profile goes to the by-id handler with the id "my-profile",
      without consulting the caller's token. */
  lemma MyProfileTakenAsId(req: Request, verifyAccess: string -> Option<Payload>)
    requires req.verb == GET && req.path == ["my-profile"]
    ensures Dispatch(Doctors, req, verifyAccess) == Reached(GetDoctorById, None, ["my-profile"])
  {
    assert !SameSegment("my-profile", "specializations") by {
      assert |Text.Lower("my-profile")| != |Text.Lower("specializations")|;
    }
    ProfileByIdIsPublic(req, verifyAccess);
  }

  /** The doctor's own-profile handler is unreachable, whatever the request. */
  lemma MyDoctorProfileUnreachable(req: Request, verifyAccess: string -> Option<Payload>)
    ensures !(Dispatch(Doctors, req, verifyAccess).Reached? && Dispatch(Doctors, req, verifyAccess).handler == GetMyDoctorProfile)
  {
    Shadowed(Doctors.routes, 2, 3, req.verb, req.path);
  }

  /** PUT /profile: 401 without a verified token, then 403 unless the caller
      is a doctor, and otherwise the update runs with the caller's claims. */
  lemma ProfileUpdateIsDoctorOnly(req: Request, verifyAccess: string -> Option<Payload>)
    requires req.verb == PUT && |req.path| == 1 && SameSegment(req.path[0], "profile")
    ensures var g := AuthMiddleware.Protect(req.authorization, verifyAccess);
      Dispatch(Doctors, req, verifyAccess) ==
        (if g.Reject? then Answered(Unauthorized)
         else if g.user.role != DoctorRole then Answered(Forbidden)
         else Reached(UpdateDoctorProfile, Some(g.user), []))
  {
    FirstRouteIs(Doctors.routes, PUT, req.path, 4);
    ProtectAuthorizeChain([DoctorRole], None, req, verifyAccess);
    assert Params([Lit("profile")], req.path) == [];
  }

  /** A handler that runs either is one of the public reads, without claims,
      or is the profile update, for a doctor. */
  lemma ReachedHandlers(req: Request, verifyAccess: string -> Option<Payload>)
    requires Dispatch(Doctors, req, verifyAccess).Reached?
    ensures var o := Dispatch(Doctors, req, verifyAccess);
      if o.handler == UpdateDoctorProfile then o.user.Some? && o.user.value.role == DoctorRole
      else o.handler in {GetDoctors, GetSpecializations, GetDoctorById} && o.user.None?
  {
    ReachedVia(Doctors, req, verifyAccess);
    Shadowed(Doctors.routes, 2, 3, req.verb, req.path);
    var i := FirstRoute(Doctors.routes, req.verb, req.path).value;
    var o := Dispatch(Doctors, req, verifyAccess);
    if i < 3 {
      assert RunGuards([], None, req, verifyAccess) == Pass(o.user);
    } else {
      assert i == 4;
      ProtectAuthorizeChain([DoctorRole], None, req, verifyAccess);
    }
  }
}
