/** The pharmacy router, mounted at /api/pharmacies: two public reads, then
    two pharmacy-only routes. `/:id` is registered before `/my-profile`, so
    the pharmacy's own-profile route is never dispatched; `/profile` is the
    only PUT route and is dispatched normally. */
module PharmacyRoutes {
  import opened Common
  import opened Users
  import opened Tokens
  import opened AuthMiddleware
  import opened Router

  const PharmacyOnly: seq<Guard> := [Protect, Authorize([PharmacyRole])]

  const Pharmacies: Table := Table([], [
    Route(GET, [], [], GetPharmacies),
    Route(GET, [Param], [], GetPharmacyById),
    Route(GET, [Lit("my-profile")], PharmacyOnly, GetMyPharmacyProfile),
    Route(PUT, [Lit("profile")], PharmacyOnly, UpdatePharmacyProfile)
  ])

  /** GET / lists pharmacies for anyone. */
  lemma DirectoryIsPublic(req: Request, verifyAccess: string -> Option<Payload>)
    requires req.verb == GET && req.path == []
    ensures Dispatch(Pharmacies, req, verifyAccess) == Reached(GetPharmacies, None, [])
  {
    FirstRouteIs(Pharmacies.routes, GET, [], 0);
  }

  /** Every single segment after GET is taken as a pharmacy id, for anyone;
      "my-profile" among them. */
  lemma ByIdIsPublic(req: Request, verifyAccess: string -> Option<Payload>)
    requires req.verb == GET && |req.path| == 1 && req.path[0] != ""
    ensures Dispatch(Pharmacies, req, verifyAccess) == Reached(GetPharmacyById, None, req.path)
  {
    FirstRouteIs(Pharmacies.routes, GET, req.path, 1);
    assert Params([Param], req.path) == [req.path[0]] + Params([], []);
  }

  /** The pharmacy's own-profile handler is unreachable, whatever the request. */
  lemma MyPharmacyProfileUnreachable(req: Request, verifyAccess: string -> Option<Payload>)
    ensures !(Dispatch(Pharmacies, req, verifyAccess).Reached? && Dispatch(Pharmacies, req, verifyAccess).handler == GetMyPharmacyProfile)
  {
    Shadowed(Pharmacies.routes, 1, 2, req.verb, req.path);
  }

  /** PUT /profile: no earlier PUT route takes it; 401 without a verified
      token, then 403 unless the caller is a pharmacy, and otherwise the
      update runs with the caller's claims. */
  lemma ProfileUpdateIsPharmacyOnly(req: Request, verifyAccess: string -> Option<Payload>)
    requires req.verb == PUT && |req.path| == 1 && SameSegment(req.path[0], "profile")
    ensures var g := AuthMiddleware.Protect(req.authorization, verifyAccess);
      Dispatch(Pharmacies, req, verifyAccess) ==
        (if g.Reject? then Answered(Unauthorized)
         else if g.user.role != PharmacyRole then Answered(Forbidden)
         else Reached(UpdatePharmacyProfile, Some(g.user), []))
  {
    FirstRouteIs(Pharmacies.routes, PUT, req.path, 3);
    ProtectAuthorizeChain([PharmacyRole], None, req, verifyAccess);
    assert Params([Lit("profile")], req.path) == [];
  }

  /** A handler that runs either is one of the public reads, without claims,
      or is the profile update, for a pharmacy. */
  lemma ReachedHandlers(req: Request, verifyAccess: string -> Option<Payload>)
    requires Dispatch(Pharmacies, req, verifyAccess).Reached?
    ensures var o := Dispatch(Pharmacies, req, verifyAccess);
      if o.handler == UpdatePharmacyProfile then o.user.Some? && o.user.value.role == PharmacyRole
      else o.handler in {GetPharmacies, GetPharmacyById} && o.user.None?
  {
    ReachedVia(Pharmacies, req, verifyAccess);
    Shadowed(Pharmacies.routes, 1, 2, req.verb, req.path);
    var i := FirstRoute(Pharmacies.routes, req.verb, req.path).value;
    var o := Dispatch(Pharmacies, req, verifyAccess);
    if i < 2 {
      assert RunGuards([], None, req, verifyAccess) == Pass(o.user);
    } else {
      assert i == 3;
      ProtectAuthorizeChain([PharmacyRole], None, req, verifyAccess);
    }
  }
}
