/** The doctor handlers: the public directory (a filtered, rating-ordered
    page, then a name search over that page only), one profile by its id,
    the caller's own profile, the in-place profile update, and the list of
    specializations. */
module DoctorController {
  import opened Common
  import opened Text
  import opened Query
  import opened Users
  import opened Doctors
  import opened Tokens
  import opened Store

  // ---------------------------------------------------------------- the directory

  /** The query string of `GET /api/doctors`; `None` is an absent or empty
      parameter. The fee bounds are the numbers `Number(...)` gives for a
      numeric text; a text that is not a number is not modelled. */
  datatype DoctorParams = DoctorParams(
    specialization: Option<string>,
    language: Option<string>,
    minFee: Option<real>,
    maxFee: Option<real>,
    search: Option<string>)

  /** The store query: available profiles, a specialization containing the
      given one ignoring case, the given language among the profile's
      languages, and the fee within the given bounds. The name search is
      not part of it. */
  function DoctorMatches(p: DoctorParams): Doctor -> bool {
    (d: Doctor) =>
      d.isAvailable
      && (Truthy(p.specialization) ==> ContainsIgnoreCase(d.specialization, p.specialization.value))
      && (Truthy(p.language) ==> p.language.value in d.languages)
      && (p.minFee.Some? ==> d.consultationFee >= p.minFee.value)
      && (p.maxFee.Some? ==> d.consultationFee <= p.maxFee.value)
  }

  /** `sort({ rating: -1, totalRatings: -1 })`. */
  function BestRatedFirst(a: Doc<Doctor>, b: Doc<Doctor>): bool {
    a.val.rating > b.val.rating || (a.val.rating == b.val.rating && a.val.totalRatings >= b.val.totalRatings)
  }

  lemma BestRatedFirstIsOrder()
    ensures Total(BestRatedFirst) && Transitive(BestRatedFirst)
  {
  }

  function MatchingDoctors(m: map<Id, Doctor>, p: DoctorParams): seq<Doc<Doctor>> {
    Filter(Docs(m), (d: Doc<Doctor>) => DoctorMatches(p)(d.val))
  }

  /** The page the store returns, before the name search. */
  function DoctorPage(m: map<Id, Doctor>, p: DoctorParams, page: nat, limit: nat): Listing<Doc<Doctor>>
    requires page >= 1 && limit >= 1
  {
    Paginate(SortBy(MatchingDoctors(m, p), BestRatedFirst), page, limit)
  }

  /** The name search run on the page: the populated user's name must contain
      the search text, ignoring case. */
  function NameMatches(users: map<Id, User>, search: string): Doc<Doctor> -> bool {
    (d: Doc<Doctor>) => d.val.userId in users && ContainsIgnoreCase(users[d.val.userId].name, search)
  }

  /** A doctor on the page whose user no longer exists: `doctor.userId.name` throws. */
  predicate OrphanOnPage(users: map<Id, User>, items: seq<Doc<Doctor>>) {
    exists i :: 0 <= i < |items| && items[i].val.userId !in users
  }

  /** `getDoctors`: the store page, then, when a search is given, only the
      doctors on that page whose name matches; the totals are the store's. */
  function ListDoctors(m: map<Id, Doctor>, users: map<Id, User>, p: DoctorParams,
                       page: nat, limit: nat): Reply<Listing<Doc<Doctor>>>
    requires page >= 1 && limit >= 1
  {
    var l := DoctorPage(m, p, page, limit);
    if !Truthy(p.search) then Ok(l)
    else if OrphanOnPage(users, l.items) then Fail(ServerError)
    else Ok(l.(items := Filter(l.items, NameMatches(users, p.search.value))))
  }

  /** Every listed doctor is a stored, available profile passing the query;
      with a search, its name matches; the listing is ordered best rated
      first; and the totals count the query's matches whatever the search. */
  lemma DoctorListing(m: map<Id, Doctor>, users: map<Id, User>, p: DoctorParams, page: nat, limit: nat)
    requires page >= 1 && limit >= 1
    requires ListDoctors(m, users, p, page, limit).Ok?
    ensures var l := ListDoctors(m, users, p, page, limit).value;
      (forall i :: 0 <= i < |l.items| ==>
         l.items[i].id in m && l.items[i].val == m[l.items[i].id] && l.items[i].val.isAvailable
         && DoctorMatches(p)(l.items[i].val)
         && (Truthy(p.search) ==> NameMatches(users, p.search.value)(l.items[i])))
      && IsSubsequence(l.items, DoctorPage(m, p, page, limit).items)
      && |l.items| <= limit
      && l.total == |MatchingDoctors(m, p)| && l.pages == PageCount(l.total, limit)
  {
    ListedDoctorsQualify(m, users, p, page, limit);
    ListingWithinPage(m, users, p, page, limit);
  }

  /** A stored profile, under its own id, that passes the store query. */
  predicate StoredMatch(m: map<Id, Doctor>, p: DoctorParams, x: Doc<Doctor>) {
    x.id in m && x.val == m[x.id] && DoctorMatches(p)(x.val)
  }

  lemma ListedDoctorsQualify(m: map<Id, Doctor>, users: map<Id, User>, p: DoctorParams, page: nat, limit: nat)
    requires page >= 1 && limit >= 1
    requires ListDoctors(m, users, p, page, limit).Ok?
    ensures var l := ListDoctors(m, users, p, page, limit).value;
      forall i :: 0 <= i < |l.items| ==>
        l.items[i].id in m && l.items[i].val == m[l.items[i].id] && l.items[i].val.isAvailable
        && DoctorMatches(p)(l.items[i].val)
        && (Truthy(p.search) ==> NameMatches(users, p.search.value)(l.items[i]))
  {
    var items := ListDoctors(m, users, p, page, limit).value.items;
    var store := DoctorPage(m, p, page, limit).items;
    DoctorPageScoped(m, p, page, limit);
    if Truthy(p.search) {
      var f := NameMatches(users, p.search.value);
      assert items == Filter(store, f);
      FilterKeeps(store, f, (x: Doc<Doctor>) => StoredMatch(m, p, x));
      forall i | 0 <= i < |items|
        ensures StoredMatch(m, p, items[i]) && f(items[i])
      {
      }
    } else {
      assert items == store;
    }
  }

  lemma ListingWithinPage(m: map<Id, Doctor>, users: map<Id, User>, p: DoctorParams, page: nat, limit: nat)
    requires page >= 1 && limit >= 1
    requires ListDoctors(m, users, p, page, limit).Ok?
    ensures var l := ListDoctors(m, users, p, page, limit).value;
      IsSubsequence(l.items, DoctorPage(m, p, page, limit).items) && |l.items| <= limit
  {
    var store := DoctorPage(m, p, page, limit);
    assert |store.items| <= limit;
    if Truthy(p.search) {
      FilterIsSubsequence(store.items, NameMatches(users, p.search.value));
    } else {
      SubsequenceRefl(store.items);
    }
  }

  lemma DoctorPageScoped(m: map<Id, Doctor>, p: DoctorParams, page: nat, limit: nat)
    requires page >= 1 && limit >= 1
    ensures var l := DoctorPage(m, p, page, limit);
      forall i :: 0 <= i < |l.items| ==> StoredMatch(m, p, l.items[i])
  {
    var sel := MatchingDoctors(m, p);
    var sorted := SortBy(sel, BestRatedFirst);
    var l := DoctorPage(m, p, page, limit);
    forall i | 0 <= i < |l.items|
      ensures StoredMatch(m, p, l.items[i])
    {
      var x := l.items[i];
      assert x == sorted[Skip(page, limit) + i];
      assert x in multiset(sorted);
      assert x in sel;
    }
  }

  /** The store page, and so the listing, is ordered best rated first. */
  lemma DoctorListingOrdered(m: map<Id, Doctor>, users: map<Id, User>, p: DoctorParams, page: nat, limit: nat)
    requires page >= 1 && limit >= 1
    requires ListDoctors(m, users, p, page, limit).Ok?
    ensures SortedBy(ListDoctors(m, users, p, page, limit).value.items, BestRatedFirst)
  {
    BestRatedFirstIsOrder();
    SortBySorted(MatchingDoctors(m, p), BestRatedFirst);
    PageOfSorted(SortBy(MatchingDoctors(m, p), BestRatedFirst), BestRatedFirst, page, limit);
    var items := DoctorPage(m, p, page, limit).items;
    if Truthy(p.search) {
      FilterSorted(items, NameMatches(users, p.search.value), BestRatedFirst);
    }
  }

  /** The search does not change the totals. */
  lemma TotalIgnoresSearch(m: map<Id, Doctor>, users: map<Id, User>, p: DoctorParams, search: Option<string>,
                           page: nat, limit: nat)
    requires page >= 1 && limit >= 1
    requires ListDoctors(m, users, p, page, limit).Ok?
    requires ListDoctors(m, users, p.(search := search), page, limit).Ok?
    ensures ListDoctors(m, users, p, page, limit).value.total == ListDoctors(m, users, p.(search := search), page, limit).value.total
    ensures ListDoctors(m, users, p, page, limit).value.pages == ListDoctors(m, users, p.(search := search), page, limit).value.pages
  {
    MatchingIgnoresSearch(m, p, search);
    DoctorPageTotals(m, users, p, page, limit);
    DoctorPageTotals(m, users, p.(search := search), page, limit);
  }

  /** The store query does not look at the search text. */
  lemma MatchingIgnoresSearch(m: map<Id, Doctor>, p: DoctorParams, search: Option<string>)
    ensures MatchingDoctors(m, p) == MatchingDoctors(m, p.(search := search))
  {
    var q := p.(search := search);
    var docs := Docs(m);
    forall i | 0 <= i < |docs|
      ensures DoctorMatches(p)(docs[i].val) == DoctorMatches(q)(docs[i].val)
    {
      MatchIgnoresSearch(p, search, docs[i].val);
    }
    FilterAgrees(docs, (d: Doc<Doctor>) => DoctorMatches(p)(d.val), (d: Doc<Doctor>) => DoctorMatches(q)(d.val));
  }

  lemma MatchIgnoresSearch(p: DoctorParams, search: Option<string>, d: Doctor)
    ensures DoctorMatches(p)(d) == DoctorMatches(p.(search := search))(d)
  {
  }

  /** The totals of a listing are those of the store page. */
  lemma DoctorPageTotals(m: map<Id, Doctor>, users: map<Id, User>, p: DoctorParams, page: nat, limit: nat)
    requires page >= 1 && limit >= 1
    requires ListDoctors(m, users, p, page, limit).Ok?
    ensures ListDoctors(m, users, p, page, limit).value.total == |MatchingDoctors(m, p)|
    ensures ListDoctors(m, users, p, page, limit).value.pages == PageCount(|MatchingDoctors(m, p)|, limit)
  {
  }

  /** A search whose page holds a doctor without a user fails with 500. */
  lemma OrphanOnPageFails(m: map<Id, Doctor>, users: map<Id, User>, p: DoctorParams, page: nat, limit: nat)
    requires page >= 1 && limit >= 1 && Truthy(p.search)
    ensures ListDoctors(m, users, p, page, limit).Fail? <==> OrphanOnPage(users, DoctorPage(m, p, page, limit).items)
  {
  }

  /** The search runs on the page only: of two doctors passing the query,
      one per page, where only the lower rated one's name matches, page 1
      comes back empty though the listing reports a total of 2. */
  lemma SearchMissesOtherPages(x: Doctor, y: Doctor, u: User, v: User, p: DoctorParams)
    requires DoctorMatches(p)(x) && DoctorMatches(p)(y) && x.rating > y.rating
    requires x.userId == 0 && y.userId == 1 && Truthy(p.search)
    requires !ContainsIgnoreCase(u.name, p.search.value) && ContainsIgnoreCase(v.name, p.search.value)
    ensures var users := map[0 := u, 1 := v];
      var r := ListDoctors(map[2 := x, 3 := y], users, p, 1, 1);
      r.Ok? && r.value.items == [] && r.value.total == 2 && NameMatches(users, p.search.value)(Doc(3, y))
  {
    TwoDoctorsFirstPage(x, y, p);
    OnlyPageDoctorUnnamed(map[2 := x, 3 := y], map[0 := u, 1 := v], p, Doc(2, x));
  }

  /** A page holding one doctor whose name does not match comes back empty. */
  lemma OnlyPageDoctorUnnamed(m: map<Id, Doctor>, users: map<Id, User>, p: DoctorParams, d: Doc<Doctor>)
    requires Truthy(p.search) && DoctorPage(m, p, 1, 1).items == [d]
    requires d.val.userId in users && !ContainsIgnoreCase(users[d.val.userId].name, p.search.value)
    ensures ListDoctors(m, users, p, 1, 1) == Ok(DoctorPage(m, p, 1, 1).(items := []))
  {
    var l := DoctorPage(m, p, 1, 1);
    assert !OrphanOnPage(users, l.items);
    assert Filter(l.items, NameMatches(users, p.search.value)) == [] by {
      assert !NameMatches(users, p.search.value)(l.items[0]);
      assert l.items[1..] == [];
    }
  }

  /** The two users and doctors above exist: a 5-star and a 4-star doctor,
      named "Asha" and "Ravi", searched for "R". */
  lemma SearchMissesOtherPagesExample()
    ensures !ContainsIgnoreCase("Asha", "R") && ContainsIgnoreCase("Ravi", "R")
    ensures DoctorMatches(DoctorParams(None, None, None, None, Some("R")))(RatedDoctor(0, 5.0))
  {
    var l := Lower("Asha");
    assert l == "asha";
    assert Lower("R") == "r";
    MissingCharNotContained(l, "r", 'r');
    var r := Lower("Ravi");
    assert r[0] == 'r';
    OccursImpliesContains(r, "r", 0);
  }

  /** Two doctors that pass the query, the first better rated: the first
      page of one holds the first, and the total is 2. */
  lemma TwoDoctorsFirstPage(x: Doctor, y: Doctor, p: DoctorParams)
    requires DoctorMatches(p)(x) && DoctorMatches(p)(y) && x.rating > y.rating
    ensures var doctors := map[2 := x, 3 := y];
      DoctorPage(doctors, p, 1, 1).items == [Doc(2, x)] && DoctorPage(doctors, p, 1, 1).total == 2
  {
    var doctors := map[2 := x, 3 := y];
    DocsOfTwo(doctors, 2, 3);
    var d := Docs(doctors);
    assert MatchingDoctors(doctors, p) == d by {
      FilterAll(d, (e: Doc<Doctor>) => DoctorMatches(p)(e.val));
    }
    SortTwo(Doc(2, x), Doc(3, y), BestRatedFirst);
  }

  function UserNamed(name: string): User {
    User("9876543210", None, name, DoctorRole, true, true, 0, None, None, None, None, "English")
  }

  function RatedDoctor(userId: Id, rating: real): Doctor {
    NewDoctor(userId).(rating := rating)
  }

  // ---------------------------------------------------------------- one profile

  /** `getDoctorById`: by the profile's own id, 404 when there is none. */
  function GetDoctor(m: map<Id, Doctor>, id: Id): (r: Reply<Doc<Doctor>>)
    ensures r.Ok? <==> id in m
    ensures r.Ok? ==> r.value == Doc(id, m[id])
    ensures r.Fail? ==> r.failure == NotFound
  {
    if id !in m then Fail(NotFound) else Ok(Doc(id, m[id]))
  }

  function OwnedBy(userId: Id): Doctor -> bool {
    (d: Doctor) => d.userId == userId
  }

  /** `getMyDoctorProfile`: the profile whose `userId` is the caller, 404 when there is none. */
  function GetMyDoctor(m: map<Id, Doctor>, userId: Id): (r: Reply<Doc<Doctor>>)
    ensures r.Ok? ==> r.value.id in m && r.value.val == m[r.value.id] && r.value.val.userId == userId
    ensures r.Fail? <==> forall k :: k in m ==> m[k].userId != userId
    ensures r.Fail? ==> r.failure == NotFound
  {
    var d := FindOne(m, OwnedBy(userId));
    if d.None? then Fail(NotFound) else Ok(d.value)
  }

  /** Looking a doctor up by the user id is not looking it up by profile id:
      a profile stored under another id is not found by its user's id. */
  lemma ProfileIdIsNotUserId(m: map<Id, Doctor>, k: Id)
    requires k in m && m[k].userId !in m
    ensures GetDoctor(m, m[k].userId) == Fail(NotFound)
    ensures GetMyDoctor(m, m[k].userId).Ok?
  {
  }

  // ---------------------------------------------------------------- the profile update

  /** The update body; `None` is a field the body leaves out. */
  datatype DoctorChanges = DoctorChanges(
    specialization: Option<string>,
    experience: Option<int>,
    qualifications: Option<seq<string>>,
    languages: Option<seq<string>>,
    consultationFee: Option<real>,
    availableSlots: Option<seq<Slot>>,
    isAvailable: Option<bool>)

  /** The assignments: the specialization when non-empty, the arrays whenever
      given (an empty array is truthy), and the numbers and flag whenever given. */
  function ApplyChanges(d: Doctor, c: DoctorChanges): Doctor {
    d.(specialization := if Truthy(c.specialization) then c.specialization.value else d.specialization,
       experience := c.experience.GetOr(d.experience),
       qualifications := c.qualifications.GetOr(d.qualifications),
       languages := c.languages.GetOr(d.languages),
       consultationFee := c.consultationFee.GetOr(d.consultationFee),
       availableSlots := c.availableSlots.GetOr(d.availableSlots),
       isAvailable := c.isAvailable.GetOr(d.isAvailable))
  }

  /** `updateDoctorProfile`: 404 without a profile of the caller; the changes
      applied and saved; 500 when the schema rejects the result. */
  function UpdateDecision(m: map<Id, Doctor>, userId: Id, c: DoctorChanges): Reply<Doc<Doctor>> {
    var found := FindOne(m, OwnedBy(userId));
    if found.None? then Fail(NotFound)
    else
      var updated := ApplyChanges(found.value.val, c);
      if !DoctorValid(updated) then Fail(ServerError) else Ok(Doc(found.value.id, updated))
  }

  /** Each field takes the given value or keeps its own; the owner, the
      rating and the number of ratings never change. */
  lemma ApplyChangesFields(d: Doctor, c: DoctorChanges)
    ensures var u := ApplyChanges(d, c);
      u.userId == d.userId && u.rating == d.rating && u.totalRatings == d.totalRatings
      && u.specialization == (if c.specialization.Some? && c.specialization.value != "" then c.specialization.value else d.specialization)
      && u.experience == (if c.experience.Some? then c.experience.value else d.experience)
      && u.qualifications == (if c.qualifications.Some? then c.qualifications.value else d.qualifications)
      && u.languages == (if c.languages.Some? then c.languages.value else d.languages)
      && u.consultationFee == (if c.consultationFee.Some? then c.consultationFee.value else d.consultationFee)
      && u.availableSlots == (if c.availableSlots.Some? then c.availableSlots.value else d.availableSlots)
      && u.isAvailable == (if c.isAvailable.Some? then c.isAvailable.value else d.isAvailable)
  {
  }

  /** 404 exactly when the caller has no profile; otherwise the update of
      the caller's first profile succeeds exactly when the result satisfies
      the schema, and fails with 500 when it does not. */
  lemma UpdateFailures(m: map<Id, Doctor>, userId: Id, c: DoctorChanges)
    ensures UpdateDecision(m, userId, c) == Fail(NotFound) <==> forall k :: k in m ==> m[k].userId != userId
    ensures var found := FindOne(m, OwnedBy(userId));
      found.Some? ==>
        (UpdateDecision(m, userId, c).Ok? <==> DoctorValid(ApplyChanges(found.value.val, c)))
        && (UpdateDecision(m, userId, c).Fail? ==> UpdateDecision(m, userId, c).failure == ServerError)
  {
  }

  /** A successful update replaces the caller's own profile, and only it,
      with the changes applied, and the result satisfies the schema. */
  lemma UpdateWritesOwnProfile(m: map<Id, Doctor>, userId: Id, c: DoctorChanges)
    requires UpdateDecision(m, userId, c).Ok?
    ensures var r := UpdateDecision(m, userId, c).value;
      r.id in m && m[r.id].userId == userId
      && r.val == ApplyChanges(m[r.id], c) && DoctorValid(r.val)
      && forall j :: j in m && j < r.id ==> m[j].userId != userId
  {
  }

  /** `!== undefined` lets a fee of 0 and `isAvailable: false` through, while
      an empty specialization is ignored. */
  lemma ZeroFeeAndEmptySpecialization(d: Doctor)
    requires DoctorValid(d)
    ensures var u := ApplyChanges(d, DoctorChanges(Some(""), None, None, None, Some(0.0), None, Some(false)));
      DoctorValid(u) && u.consultationFee == 0.0 && !u.isAvailable && u.specialization == d.specialization
  {
  }

  /** The handler's assignments to the loaded profile, one field at a time. */
  method AssignChanges(d: Doctor, c: DoctorChanges) returns (doctor: Doctor)
    ensures doctor == ApplyChanges(d, c)
  {
    ghost var target := ApplyChanges(d, c);
    doctor := d;
    if Truthy(c.specialization) {
      doctor := doctor.(specialization := c.specialization.value);
    }
    if c.experience.Some? {
      doctor := doctor.(experience := c.experience.value);
    }
    if c.qualifications.Some? {
      doctor := doctor.(qualifications := c.qualifications.value);
    }
    assert doctor == d.(specialization := target.specialization, experience := target.experience,
                        qualifications := target.qualifications);
    if c.languages.Some? {
      doctor := doctor.(languages := c.languages.value);
    }
    if c.consultationFee.Some? {
      doctor := doctor.(consultationFee := c.consultationFee.value);
    }
    assert doctor == target.(availableSlots := d.availableSlots, isAvailable := d.isAvailable);
    if c.availableSlots.Some? {
      doctor := doctor.(availableSlots := c.availableSlots.value);
    }
    if c.isAvailable.Some? {
      doctor := doctor.(isAvailable := c.isAvailable.value);
    }
  }

  /** `updateDoctorProfile` on the store: the loaded profile's fields are
      assigned one by one, then the document is validated and saved. Only
      the profiles change, so appointments already booked keep the fee they
      were booked with. */
  method UpdateDoctorProfile(db: Database, caller: Payload, c: DoctorChanges) returns (reply: Reply<Doc<Doctor>>)
    requires db.Valid()
    modifies db`doctors
    ensures db.Valid()
    ensures reply == UpdateDecision(old(db.doctors), caller.userId, c)
    ensures db.doctors == (if reply.Ok? then old(db.doctors)[reply.value.id := reply.value.val] else old(db.doctors))
  {
    var found := FindOne(db.doctors, OwnedBy(caller.userId));
    if found.None? {
      return Fail(NotFound);
    }
    var doctor := AssignChanges(found.value.val, c);
    if !DoctorValid(doctor) {
      return Fail(ServerError);
    }
    db.ReplaceDoctor(found.value.id, doctor);
    return Ok(Doc(found.value.id, doctor));
  }

  // ---------------------------------------------------------------- specializations

  function SpecializationOf(d: Doctor): string {
    d.specialization
  }

  /** `getSpecializations`: the distinct specializations of every profile,
      available or not, with empty ones removed; each is listed once and
      nothing else is. */
  lemma SpecializationsDistinctNonEmpty(m: map<Id, Doctor>)
    ensures var r := DistinctNonEmpty(m, SpecializationOf);
      (forall s :: s in r <==> s != "" && exists k :: k in m && m[k].specialization == s)
      && NoDuplicates(r)
  {
    DistinctNonEmptyComplete(m, SpecializationOf);
    DistinctNonEmptyNoDuplicates(m, SpecializationOf);
  }
}
