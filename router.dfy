/** Express routing as the route files use it: a router runs the middleware
    it was given with `router.use`, then the first registered route whose
    method and path pattern match, each route running its middleware chain
    before its handler. A `:param` segment matches any single non-empty
    segment, and a literal segment matches regardless of ASCII case, as
    Express routers do by default. */
module Router {
  import opened Common
  import opened Users
  import opened Tokens
  import opened AuthMiddleware
  import opened Upload
  import opened Text

  datatype Verb = GET | POST | PUT | DELETE

  datatype Segment = Lit(name: string) | Param

  /** The middleware a route table registers ahead of a handler. */
  datatype Guard = Protect | Authorize(roles: seq<Role>) | UploadSingle

  /** Every handler the controllers export. */
  datatype Handler =
    | Register | SendOtp | VerifyOtp | RefreshToken | Logout | GetMe | UpdateProfile
    | GetDoctors | GetSpecializations | GetDoctorById | GetMyDoctorProfile | UpdateDoctorProfile
    | BookAppointment | GetAppointments | GetAppointmentById | CancelAppointment
    | UpdateAppointmentStatus | AddPrescription
    | UploadHealthRecord | DeleteHealthRecord | GetHealthRecords | GetHealthRecordById
    | GetMedicines | GetMedicineCategories | GetMedicineById | AddMedicine | UpdateMedicine | DeleteMedicine
    | GetPharmacies | GetPharmacyById | GetMyPharmacyProfile | UpdatePharmacyProfile

  /** One registration: `router.<verb>(pattern, ...guards, handler)`. */
  datatype Route = Route(verb: Verb, pattern: seq<Segment>, guards: seq<Guard>, handler: Handler)

  /** A router: the middleware of `router.use`, then the routes in registration order. */
  datatype Table = Table(prelude: seq<Guard>, routes: seq<Route>)

  /** The uploaded file's name and declared type, when the request carries one. */
  datatype FileInfo = FileInfo(originalName: string, mimetype: string)

  /** A request as the router sees it: the path split into segments below the
      router's mount point. */
  datatype Request = Request(verb: Verb, path: seq<string>, authorization: Option<string>, file: Option<FileInfo>)

  /** What becomes of a request: a middleware answers it, no route matches
      (Express answers 404), or a handler runs with the claims `protect` set
      and the path parameters. */
  datatype Outcome = Answered(failure: Failure) | NoRoute | Reached(handler: Handler, user: Option<Payload>, params: seq<string>)

  /** Two path segments the router does not tell apart. */
  predicate SameSegment(a: string, b: string) {
    Lower(a) == Lower(b)
  }

  /** Segments that differ, ignoring case, at some position or in length. */
  lemma SegmentsDiffer(a: string, b: string, k: nat)
    requires (k < |a| && k < |b| && LowerChar(a[k]) != LowerChar(b[k])) || |a| != |b|
    ensures !SameSegment(a, b)
  {
    if |a| == |b| {
      assert Lower(a)[k] != Lower(b)[k];
    } else {
      assert |Lower(a)| != |Lower(b)|;
    }
  }

  predicate Matches(pattern: seq<Segment>, path: seq<string>) {
    |pattern| == |path|
    && forall i :: 0 <= i < |pattern| ==> if pattern[i].Lit? then SameSegment(path[i], pattern[i].name) else path[i] != ""
  }

  predicate Hits(r: Route, verb: Verb, path: seq<string>) {
    r.verb == verb && Matches(r.pattern, path)
  }

  /** The index of the first route that matches. */
  function FirstRoute(routes: seq<Route>, verb: Verb, path: seq<string>): (r: Option<nat>)
    ensures r.Some? ==> r.value < |routes| && Hits(routes[r.value], verb, path)
    ensures r.Some? ==> forall j :: 0 <= j < r.value ==> !Hits(routes[j], verb, path)
    ensures r.None? <==> forall j :: 0 <= j < |routes| ==> !Hits(routes[j], verb, path)
  {
    if routes == [] then None
    else if Hits(routes[0], verb, path) then Some(0)
    else
      var rest := FirstRoute(routes[1..], verb, path);
      assert forall j :: 1 <= j < |routes| ==> routes[j] == routes[1..][j - 1];
      if rest.None? then None else Some(rest.value + 1)
  }

  /** The values of the `:param` segments, in order. */
  function Params(pattern: seq<Segment>, path: seq<string>): seq<string>
    requires |pattern| == |path|
  {
    if pattern == [] then []
    else (if pattern[0].Param? then [path[0]] else []) + Params(pattern[1..], path[1..])
  }

  /** The result of a middleware chain: it answered, or it passed the request
      on with the claims set so far. */
  datatype Passage = Stop(failure: Failure) | Pass(user: Option<Payload>)

  /** Runs a chain in order. `protect` answers 401 or sets the claims;
      `authorize` answers 403 outside its roles, and throws (500) when no
      claims were set; the upload step answers 500, through the default
      error handler, for a file the filter refuses, and lets a request
      without a file through. */
  function RunGuards(guards: seq<Guard>, user: Option<Payload>, req: Request,
                     verifyAccess: string -> Option<Payload>): Passage
  {
    if guards == [] then Pass(user)
    else
      var next := match guards[0]
        case Protect =>
          var g := AuthMiddleware.Protect(req.authorization, verifyAccess);
          if g.Reject? then Stop(g.failure) else Pass(Some(g.user))
        case Authorize(roles) =>
          if user.None? then Stop(ServerError)
          else
            var g := AuthMiddleware.Authorize(roles, user.value);
            if g.Reject? then Stop(g.failure) else Pass(user)
        case UploadSingle =>
          if req.file.Some? && !Accepts(req.file.value.originalName, req.file.value.mimetype) then Stop(ServerError)
          else Pass(user);
      if next.Stop? then next else RunGuards(guards[1..], next.user, req, verifyAccess)
  }

  /** The whole of a router's handling of one request. */
  function Dispatch(t: Table, req: Request, verifyAccess: string -> Option<Payload>): Outcome {
    var pre := RunGuards(t.prelude, None, req, verifyAccess);
    if pre.Stop? then Answered(pre.failure)
    else
      var i := FirstRoute(t.routes, req.verb, req.path);
      if i.None? then NoRoute
      else
        var r := t.routes[i.value];
        var chain := RunGuards(r.guards, pre.user, req, verifyAccess);
        if chain.Stop? then Answered(chain.failure)
        else Reached(r.handler, chain.user, Params(r.pattern, req.path))
  }

  // ---------------------------------------------------------------- general facts

  /** The route at `i` is the one dispatched when it matches and none before it does. */
  lemma FirstRouteIs(routes: seq<Route>, verb: Verb, path: seq<string>, i: nat)
    requires i < |routes| && Hits(routes[i], verb, path)
    requires forall j :: 0 <= j < i ==> !Hits(routes[j], verb, path)
    ensures FirstRoute(routes, verb, path) == Some(i)
  {
  }

  /** A one-literal route does not take a segment that differs from its literal. */
  lemma LiteralMiss(r: Route, verb: Verb, seg: string, name: string)
    requires r.pattern == [Lit(name)] && !SameSegment(seg, name)
    ensures !Hits(r, verb, [seg])
  {
    assert [seg][0] == seg;
  }

  /** A route without middleware in a router without a prelude runs its
      handler for anyone. */
  lemma UnguardedRoute(t: Table, req: Request, verifyAccess: string -> Option<Payload>, i: nat)
    requires t.prelude == [] && FirstRoute(t.routes, req.verb, req.path) == Some(i)
    requires t.routes[i].guards == []
    ensures Dispatch(t, req, verifyAccess) == Reached(t.routes[i].handler, None, Params(t.routes[i].pattern, req.path))
  {
  }

  /** Every path a pattern matches, the other matches too. */
  predicate Subsumes(general: seq<Segment>, specific: seq<Segment>) {
    |general| == |specific|
    && forall i :: 0 <= i < |general| ==>
         general[i].Param? || (specific[i].Lit? && specific[i].name == general[i].name)
  }

  /** A route registered after one with the same verb whose pattern subsumes
      its own is never dispatched. */
  lemma Shadowed(routes: seq<Route>, j: nat, i: nat, verb: Verb, path: seq<string>)
    requires j < i < |routes| && routes[j].verb == routes[i].verb
    requires Subsumes(routes[j].pattern, routes[i].pattern)
    requires forall k :: 0 <= k < |routes[i].pattern| ==> routes[i].pattern[k].Param? || routes[i].pattern[k].name != ""
    ensures FirstRoute(routes, verb, path) != Some(i)
  {
    if Hits(routes[i], verb, path) {
      SubsumedMatch(routes[j].pattern, routes[i].pattern, path);
    }
  }

  /** A path the specific pattern matches, the subsuming one matches too. */
  lemma SubsumedMatch(general: seq<Segment>, specific: seq<Segment>, path: seq<string>)
    requires Subsumes(general, specific) && Matches(specific, path)
    requires forall k :: 0 <= k < |specific| ==> specific[k].Param? || specific[k].name != ""
    ensures Matches(general, path)
  {
    forall k | 0 <= k < |general|
      ensures if general[k].Lit? then SameSegment(path[k], general[k].name) else path[k] != ""
    {
      if specific[k].Lit? {
        assert |Lower(path[k])| == |path[k]| && |Lower(specific[k].name)| == |specific[k].name|;
      }
    }
  }

  /** A handler that no route names is never reached. */
  lemma Unrouted(t: Table, h: Handler, req: Request, verifyAccess: string -> Option<Payload>)
    requires forall i :: 0 <= i < |t.routes| ==> t.routes[i].handler != h
    ensures !(Dispatch(t, req, verifyAccess).Reached? && Dispatch(t, req, verifyAccess).handler == h)
  {
  }

  /** A handler reached through a route is named by the first matching route. */
  lemma ReachedVia(t: Table, req: Request, verifyAccess: string -> Option<Payload>)
    requires Dispatch(t, req, verifyAccess).Reached?
    ensures var i := FirstRoute(t.routes, req.verb, req.path);
      i.Some? && t.routes[i.value].handler == Dispatch(t, req, verifyAccess).handler
      && RunGuards(t.routes[i.value].guards, RunGuards(t.prelude, None, req, verifyAccess).user, req, verifyAccess)
         == Pass(Dispatch(t, req, verifyAccess).user)
  {
  }

  // ---------------------------------------------------------------- the chains the tables use

  /** `protect` alone: 401 without verified claims, otherwise exactly those claims. */
  lemma ProtectChain(user: Option<Payload>, req: Request, verifyAccess: string -> Option<Payload>)
    ensures var g := AuthMiddleware.Protect(req.authorization, verifyAccess);
      RunGuards([Protect], user, req, verifyAccess) == (if g.Reject? then Stop(Unauthorized) else Pass(Some(g.user)))
  {
  }

  /** `protect, authorize(roles)`: 401 first, then 403 outside the roles; a
      caller that passes holds one of the roles. */
  lemma ProtectAuthorizeChain(roles: seq<Role>, user: Option<Payload>, req: Request, verifyAccess: string -> Option<Payload>)
    ensures var g := AuthMiddleware.Protect(req.authorization, verifyAccess);
      RunGuards([Protect, Authorize(roles)], user, req, verifyAccess) ==
        (if g.Reject? then Stop(Unauthorized)
         else if g.user.role !in roles then Stop(Forbidden)
         else Pass(Some(g.user)))
  {
    var g := AuthMiddleware.Protect(req.authorization, verifyAccess);
    if g.Accept? {
      assert [Protect, Authorize(roles)][1..] == [Authorize(roles)];
      assert RunGuards([Protect, Authorize(roles)], user, req, verifyAccess)
          == RunGuards([Authorize(roles)], Some(g.user), req, verifyAccess);
      AuthorizeChain(roles, g.user, req, verifyAccess);
    }
  }

  /** `authorize(roles)` after the claims are set: 403 outside the roles. */
  lemma AuthorizeChain(roles: seq<Role>, u: Payload, req: Request, verifyAccess: string -> Option<Payload>)
    ensures RunGuards([Authorize(roles)], Some(u), req, verifyAccess) ==
      (if u.role in roles then Pass(Some(u)) else Stop(Forbidden))
  {
  }

  /** `authorize(roles), upload.single("file")`: the role is checked before
      the file, so a caller outside the roles gets 403 whatever the file. */
  lemma AuthorizeUploadChain(roles: seq<Role>, u: Payload, req: Request, verifyAccess: string -> Option<Payload>)
    ensures RunGuards([Authorize(roles), UploadSingle], Some(u), req, verifyAccess) ==
      (if u.role !in roles then Stop(Forbidden)
       else if req.file.Some? && !Accepts(req.file.value.originalName, req.file.value.mimetype) then Stop(ServerError)
       else Pass(Some(u)))
  {
    if u.role in roles {
      assert [Authorize(roles), UploadSingle][1..] == [UploadSingle];
      assert RunGuards([Authorize(roles), UploadSingle], Some(u), req, verifyAccess)
          == RunGuards([UploadSingle], Some(u), req, verifyAccess);
    }
  }

  // ---------------------------------------------------------------- tables without role checks

  predicate NoRoleCheck(guards: seq<Guard>) {
    forall i :: 0 <= i < |guards| ==> !guards[i].Authorize?
  }

  /** Only `authorize` answers 403. */
  lemma {:induction false} ForbiddenNeedsRoleCheck(guards: seq<Guard>, user: Option<Payload>, req: Request,
                                                   verifyAccess: string -> Option<Payload>)
    requires NoRoleCheck(guards)
    ensures RunGuards(guards, user, req, verifyAccess) != Stop(Forbidden)
    decreases |guards|
  {
    if guards != [] {
      assert !guards[0].Authorize?;
      var g := AuthMiddleware.Protect(req.authorization, verifyAccess);
      if guards[0].Protect? && g.Accept? {
        ForbiddenNeedsRoleCheck(guards[1..], Some(g.user), req, verifyAccess);
      } else if guards[0].UploadSingle? {
        ForbiddenNeedsRoleCheck(guards[1..], user, req, verifyAccess);
      }
    }
  }

  /** A router none of whose chains checks a role never answers 403. */
  lemma NeverForbidden(t: Table, req: Request, verifyAccess: string -> Option<Payload>)
    requires NoRoleCheck(t.prelude)
    requires forall i :: 0 <= i < |t.routes| ==> NoRoleCheck(t.routes[i].guards)
    ensures Dispatch(t, req, verifyAccess) != Answered(Forbidden)
  {
    ForbiddenNeedsRoleCheck(t.prelude, None, req, verifyAccess);
    var pre := RunGuards(t.prelude, None, req, verifyAccess);
    var i := FirstRoute(t.routes, req.verb, req.path);
    if pre.Pass? && i.Some? {
      ForbiddenNeedsRoleCheck(t.routes[i.value].guards, pre.user, req, verifyAccess);
    }
  }

  // ---------------------------------------------------------------- routers behind `router.use(protect)`

  /** Behind a `protect` prelude every request without verified claims gets
      401, whether or not a route matches and whatever role a route wants. */
  lemma ProtectedRouterNeedsLogin(t: Table, req: Request, verifyAccess: string -> Option<Payload>)
    requires t.prelude == [Protect]
    requires AuthMiddleware.Protect(req.authorization, verifyAccess).Reject?
    ensures Dispatch(t, req, verifyAccess) == Answered(Unauthorized)
  {
    ProtectChain(None, req, verifyAccess);
  }

  /** Behind a `protect` prelude the chain of the matched route starts from
      the verified claims. */
  lemma ProtectedRouterClaims(t: Table, req: Request, verifyAccess: string -> Option<Payload>)
    requires t.prelude == [Protect]
    requires AuthMiddleware.Protect(req.authorization, verifyAccess).Accept?
    ensures RunGuards(t.prelude, None, req, verifyAccess) == Pass(Some(AuthMiddleware.Protect(req.authorization, verifyAccess).user))
  {
    ProtectChain(None, req, verifyAccess);
  }
}
