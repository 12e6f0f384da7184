/** The medicine router, mounted at /api/medicines: public reads, with
    `/categories` registered ahead of `/:id`, and writes for pharmacies only. */
module MedicineRoutes {
  import opened Common
  import opened Users
  import opened Tokens
  import opened AuthMiddleware
  import opened Router

  const PharmacyOnly: seq<Guard> := [Protect, Authorize([PharmacyRole])]

  const Medicines: Table := Table([], [
    Route(GET, [], [], GetMedicines),
    Route(GET, [Lit("categories")], [], GetMedicineCategories),
    Route(GET, [Param], [], GetMedicineById),
    Route(POST, [], PharmacyOnly, AddMedicine),
    Route(PUT, [Param], PharmacyOnly, UpdateMedicine),
    Route(DELETE, [Param], PharmacyOnly, DeleteMedicine)
  ])

  /** GET / searches the catalogue for anyone. */
  lemma CatalogueIsPublic(req: Request, verifyAccess: string -> Option<Payload>)
    requires req.verb == GET && req.path == []
    ensures Dispatch(Medicines, req, verifyAccess) == Reached(GetMedicines, None, [])
  {
    FirstRouteIs(Medicines.routes, GET, [], 0);
  }

  /** GET /categories is not captured by `/:id`. */
  lemma CategoriesReached(req: Request, verifyAccess: string -> Option<Payload>)
    requires req.verb == GET && |req.path| == 1 && SameSegment(req.path[0], "categories")
    ensures Dispatch(Medicines, req, verifyAccess) == Reached(GetMedicineCategories, None, [])
  {
    FirstRouteIs(Medicines.routes, GET, req.path, 1);
    assert Params([Lit("categories")], req.path) == [];
  }

  /** Any other single segment after GET is a medicine id, for anyone. */
  lemma ByIdIsPublic(req: Request, verifyAccess: string -> Option<Payload>)
    requires req.verb == GET && |req.path| == 1 && req.path[0] != ""
    requires !SameSegment(req.path[0], "categories")
    ensures Dispatch(Medicines, req, verifyAccess) == Reached(GetMedicineById, None, req.path)
  {
    FirstRouteIs(Medicines.routes, GET, req.path, 2);
    assert Params([Param], req.path) == [req.path[0]] + Params([], []);
  }

  /** The outcome of a pharmacy-only chain in front of `handler`. */
  function PharmacyGate(req: Request, verifyAccess: string -> Option<Payload>, handler: Handler, params: seq<string>): Outcome {
    var g := AuthMiddleware.Protect(req.authorization, verifyAccess);
    if g.Reject? then Answered(Unauthorized)
    else if g.user.role != PharmacyRole then Answered(Forbidden)
    else Reached(handler, Some(g.user), params)
  }

  /** POST / adds a medicine: 401, then 403 for every role but pharmacy. */
  lemma AddIsPharmacyOnly(req: Request, verifyAccess: string -> Option<Payload>)
    requires req.verb == POST && req.path == []
    ensures Dispatch(Medicines, req, verifyAccess) == PharmacyGate(req, verifyAccess, AddMedicine, [])
  {
    FirstRouteIs(Medicines.routes, POST, [], 3);
    ProtectAuthorizeChain([PharmacyRole], None, req, verifyAccess);
  }

  /** PUT /:id and DELETE /:id: 401, then 403 for every role but pharmacy. */
  lemma ChangesArePharmacyOnly(req: Request, verifyAccess: string -> Option<Payload>)
    requires req.verb in {PUT, DELETE} && |req.path| == 1 && req.path[0] != ""
    ensures Dispatch(Medicines, req, verifyAccess) ==
      PharmacyGate(req, verifyAccess, if req.verb == PUT then UpdateMedicine else DeleteMedicine, req.path)
  {
    FirstRouteIs(Medicines.routes, req.verb, req.path, if req.verb == PUT then 4 else 5);
    ProtectAuthorizeChain([PharmacyRole], None, req, verifyAccess);
    assert Params([Param], req.path) == [req.path[0]] + Params([], []);
  }

  /** No medicine route lets a patient or a doctor through with claims: a
      handler runs either without claims or for a pharmacy, and a write
      answered with 403 was asked for by another role. */
  lemma OnlyPharmacyRoleMatters(req: Request, verifyAccess: string -> Option<Payload>)
    ensures var o := Dispatch(Medicines, req, verifyAccess);
      (o.Reached? ==> (o.handler in {GetMedicines, GetMedicineCategories, GetMedicineById} && o.user.None?)
                      || (o.handler in {AddMedicine, UpdateMedicine, DeleteMedicine} && o.user.Some? && o.user.value.role == PharmacyRole))
      && (o == Answered(Forbidden) ==> AuthMiddleware.Protect(req.authorization, verifyAccess).Accept?
                                       && AuthMiddleware.Protect(req.authorization, verifyAccess).user.role != PharmacyRole)
  {
    ProtectAuthorizeChain([PharmacyRole], None, req, verifyAccess);
    var o := Dispatch(Medicines, req, verifyAccess);
    if o.Reached? {
      ReachedVia(Medicines, req, verifyAccess);
    }
  }
}
