/** The pharmacy handlers: the public directory (an `isOpen` filter, a page
    in natural order, a name search over that page only, and each listed
    pharmacy's count of available medicines), one pharmacy with up to 20 of
    its medicines, the in-place profile update, and the caller's own
    profile. */
module PharmacyController {
  import opened Common
  import opened Text
  import opened Query
  import opened Users
  import opened Profiles
  import opened Medicines
  import opened Tokens
  import opened Store

  // ---------------------------------------------------------------- the directory

  /** `isOpen` when given: the pharmacy's flag must equal `isOpen === "true"`,
      so any other text selects the closed ones. */
  function OpenFilter(isOpen: Option<string>): Pharmacy -> bool {
    (x: Pharmacy) => isOpen.Some? ==> x.isOpen == (isOpen.value == "true")
  }

  function SelectedPharmacies(m: map<Id, Pharmacy>, isOpen: Option<string>): seq<Doc<Pharmacy>> {
    Filter(Docs(m), (d: Doc<Pharmacy>) => OpenFilter(isOpen)(d.val))
  }

  /** The name search run on the page: the pharmacy name must contain the
      search text, ignoring case. */
  function NameMatches(search: string): Doc<Pharmacy> -> bool {
    (d: Doc<Pharmacy>) => ContainsIgnoreCase(d.val.pharmacyName, search)
  }

  /** A listed pharmacy with the number of its available medicines. */
  datatype PharmacyEntry = PharmacyEntry(pharmacy: Doc<Pharmacy>, medicineCount: nat)

  /** The medicines the store lists for a pharmacy user: available, owned by it. */
  function AvailableFrom(userId: Id): Doc<Medicine> -> bool {
    (d: Doc<Medicine>) => d.val.pharmacyId == userId && d.val.isAvailable
  }

  /** `countDocuments({ pharmacyId, isAvailable: true })`. */
  function MedicineCount(medicines: map<Id, Medicine>, userId: Id): nat {
    Count(Docs(medicines), AvailableFrom(userId))
  }

  /** The page after the search: the entries, each with its count. */
  function WithCounts(items: seq<Doc<Pharmacy>>, medicines: map<Id, Medicine>): (r: seq<PharmacyEntry>)
    ensures |r| == |items|
    ensures forall i :: 0 <= i < |r| ==>
      r[i].pharmacy == items[i] && r[i].medicineCount == MedicineCount(medicines, items[i].val.userId)
  {
    seq(|items|, i requires 0 <= i < |items| => PharmacyEntry(items[i], MedicineCount(medicines, items[i].val.userId)))
  }

  /** A listed pharmacy whose user no longer exists: `pharmacy.userId._id` throws. */
  predicate OrphanIn(users: map<Id, User>, items: seq<Doc<Pharmacy>>) {
    exists i :: 0 <= i < |items| && items[i].val.userId !in users
  }

  /** The pharmacies the store returns for the page, after the name search. */
  function PharmacyPage(m: map<Id, Pharmacy>, search: Option<string>, isOpen: Option<string>,
                        page: nat, limit: nat): seq<Doc<Pharmacy>>
    requires page >= 1 && limit >= 1
  {
    var items := PageOf(SelectedPharmacies(m, isOpen), page, limit);
    if Truthy(search) then Filter(items, NameMatches(search.value)) else items
  }

  /** `getPharmacies`: a page of the selection in natural order, then the
      name search over that page, then the counts; the totals are those of
      the selection, whatever the search. */
  function ListPharmacies(m: map<Id, Pharmacy>, users: map<Id, User>, medicines: map<Id, Medicine>,
                          search: Option<string>, isOpen: Option<string>,
                          page: nat, limit: nat): Reply<Listing<PharmacyEntry>>
    requires page >= 1 && limit >= 1
  {
    var l := Paginate(SelectedPharmacies(m, isOpen), page, limit);
    var items := PharmacyPage(m, search, isOpen, page, limit);
    if OrphanIn(users, items) then Fail(ServerError)
    else Ok(Listing(WithCounts(items, medicines), l.total, l.page, l.pages))
  }

  /** Every pharmacy on the page is stored, passes the `isOpen` filter and,
      with a search, has a matching name; there are at most `limit`. */
  lemma PharmacyPageScoped(m: map<Id, Pharmacy>, search: Option<string>, isOpen: Option<string>, page: nat, limit: nat)
    requires page >= 1 && limit >= 1
    ensures var items := PharmacyPage(m, search, isOpen, page, limit);
      |items| <= limit
      && forall i :: 0 <= i < |items| ==>
           items[i].id in m && items[i].val == m[items[i].id] && OpenFilter(isOpen)(items[i].val)
           && (Truthy(search) ==> ContainsIgnoreCase(items[i].val.pharmacyName, search.value))
  {
    var items := PharmacyPage(m, search, isOpen, page, limit);
    var page_ := PageOf(SelectedPharmacies(m, isOpen), page, limit);
    SelectedPageStored(m, isOpen, page, limit);
    if Truthy(search) {
      var f := NameMatches(search.value);
      assert items == Filter(page_, f);
      FilterKeeps(page_, f, (x: Doc<Pharmacy>) => StoredOpen(m, isOpen, x));
      forall i | 0 <= i < |items|
        ensures StoredOpen(m, isOpen, items[i]) && ContainsIgnoreCase(items[i].val.pharmacyName, search.value)
      {
        assert f(items[i]);
      }
    }
  }

  /** A stored pharmacy, under its own id, that passes the `isOpen` filter. */
  predicate StoredOpen(m: map<Id, Pharmacy>, isOpen: Option<string>, x: Doc<Pharmacy>) {
    x.id in m && x.val == m[x.id] && OpenFilter(isOpen)(x.val)
  }

  lemma SelectedPageStored(m: map<Id, Pharmacy>, isOpen: Option<string>, page: nat, limit: nat)
    requires page >= 1 && limit >= 1
    ensures var items := PageOf(SelectedPharmacies(m, isOpen), page, limit);
      forall i :: 0 <= i < |items| ==> StoredOpen(m, isOpen, items[i])
  {
    var sel := SelectedPharmacies(m, isOpen);
    var items := PageOf(sel, page, limit);
    forall i | 0 <= i < |items|
      ensures StoredOpen(m, isOpen, items[i])
    {
      assert items[i] == sel[Skip(page, limit) + i];
    }
  }

  /** Each listed pharmacy is one of the page, with the count of its
      available medicines; the totals count the selection. */
  lemma PharmacyListing(m: map<Id, Pharmacy>, users: map<Id, User>, medicines: map<Id, Medicine>,
                        search: Option<string>, isOpen: Option<string>, page: nat, limit: nat)
    requires page >= 1 && limit >= 1
    ensures var r := ListPharmacies(m, users, medicines, search, isOpen, page, limit);
      var items := PharmacyPage(m, search, isOpen, page, limit);
      (r.Fail? <==> OrphanIn(users, items))
      && (r.Ok? ==>
        |r.value.items| == |items|
        && (forall i :: 0 <= i < |items| ==>
              r.value.items[i].pharmacy == items[i]
              && r.value.items[i].medicineCount == |Filter(Docs(medicines), AvailableFrom(items[i].val.userId))|)
        && r.value.total == |SelectedPharmacies(m, isOpen)| && r.value.pages == PageCount(r.value.total, limit))
  {
  }

  /** Without `isOpen` every pharmacy is selected; with it, exactly those
      whose flag equals whether the text is "true". */
  lemma OpenFilterMeaning(isOpen: Option<string>, x: Pharmacy)
    ensures isOpen.None? ==> OpenFilter(isOpen)(x)
    ensures isOpen == Some("true") ==> (OpenFilter(isOpen)(x) <==> x.isOpen)
    ensures isOpen.Some? && isOpen.value != "true" ==> (OpenFilter(isOpen)(x) <==> !x.isOpen)
  {
  }

  /** The search does not change the totals. */
  lemma PharmacyTotalIgnoresSearch(m: map<Id, Pharmacy>, users: map<Id, User>, medicines: map<Id, Medicine>,
                                   search: Option<string>, search': Option<string>, isOpen: Option<string>,
                                   page: nat, limit: nat)
    requires page >= 1 && limit >= 1
    requires ListPharmacies(m, users, medicines, search, isOpen, page, limit).Ok?
    requires ListPharmacies(m, users, medicines, search', isOpen, page, limit).Ok?
    ensures ListPharmacies(m, users, medicines, search, isOpen, page, limit).value.total
         == ListPharmacies(m, users, medicines, search', isOpen, page, limit).value.total
  {
  }

  // ---------------------------------------------------------------- one pharmacy

  /** A pharmacy with the first 20 of its available medicines, in natural order. */
  datatype PharmacyDetail = PharmacyDetail(pharmacy: Doc<Pharmacy>, medicines: seq<Doc<Medicine>>)

  const MedicinesShown: nat := 20

  /** `find({ pharmacyId, isAvailable: true }).limit(20)`. */
  function ShownMedicines(medicines: map<Id, Medicine>, userId: Id): seq<Doc<Medicine>> {
    var own := Filter(Docs(medicines), AvailableFrom(userId));
    if |own| <= MedicinesShown then own else own[..MedicinesShown]
  }

  /** `getPharmacyById`: 404 when absent, 500 when its user is gone, else the
      pharmacy with up to 20 of its available medicines. */
  function GetPharmacy(m: map<Id, Pharmacy>, users: map<Id, User>, medicines: map<Id, Medicine>, id: Id): (r: Reply<PharmacyDetail>)
    ensures r.Fail? <==> id !in m || m[id].userId !in users
    ensures r.Fail? ==> r.failure == (if id !in m then NotFound else ServerError)
    ensures r.Ok? ==> r.value == PharmacyDetail(Doc(id, m[id]), ShownMedicines(medicines, m[id].userId))
  {
    if id !in m then Fail(NotFound)
    else if m[id].userId !in users then Fail(ServerError)
    else Ok(PharmacyDetail(Doc(id, m[id]), ShownMedicines(medicines, m[id].userId)))
  }

  /** At most 20 medicines are shown, each stored, available and the pharmacy's own. */
  lemma ShownMedicinesOwn(medicines: map<Id, Medicine>, userId: Id)
    ensures var r := ShownMedicines(medicines, userId);
      |r| <= 20
      && forall i :: 0 <= i < |r| ==>
           r[i].id in medicines && r[i].val == medicines[r[i].id] && r[i].val.isAvailable && r[i].val.pharmacyId == userId
  {
    var own := Filter(Docs(medicines), AvailableFrom(userId));
    var r := ShownMedicines(medicines, userId);
    forall i | 0 <= i < |r|
      ensures r[i] in own
    {
      if |own| > 20 {
        assert r[i] == own[i];
      }
    }
  }

  /** A pharmacy with at most 20 available medicines has all of them shown. */
  lemma ShownMedicinesAll(medicines: map<Id, Medicine>, userId: Id)
    requires MedicineCount(medicines, userId) <= 20
    ensures forall k :: k in medicines && medicines[k].isAvailable && medicines[k].pharmacyId == userId ==>
      Doc(k, medicines[k]) in ShownMedicines(medicines, userId)
  {
    forall k | k in medicines && medicines[k].isAvailable && medicines[k].pharmacyId == userId
      ensures Doc(k, medicines[k]) in Filter(Docs(medicines), AvailableFrom(userId))
    {
      var i := DocIndex(medicines, k);
      assert AvailableFrom(userId)(Docs(medicines)[i]);
    }
  }

  function OwnedBy(userId: Id): Pharmacy -> bool {
    (x: Pharmacy) => x.userId == userId
  }

  /** `getMyPharmacyProfile`: the profile whose `userId` is the caller, 404 when there is none. */
  function GetMyPharmacy(m: map<Id, Pharmacy>, userId: Id): (r: Reply<Doc<Pharmacy>>)
    ensures r.Ok? ==> r.value.id in m && r.value.val == m[r.value.id] && r.value.val.userId == userId
    ensures r.Fail? <==> forall k :: k in m ==> m[k].userId != userId
    ensures r.Fail? ==> r.failure == NotFound
  {
    var d := FindOne(m, OwnedBy(userId));
    if d.None? then Fail(NotFound) else Ok(d.value)
  }

  // ---------------------------------------------------------------- the profile update

  /** The update body; `None` is a field the body leaves out. */
  datatype PharmacyChanges = PharmacyChanges(
    pharmacyName: Option<string>,
    address: Option<string>,
    location: Option<Location>,
    isOpen: Option<bool>)

  /** The assignments: the name and address when non-empty, the location
      when given, and the flag whenever given (so `false` too). */
  function ApplyPharmacyChanges(x: Pharmacy, c: PharmacyChanges): Pharmacy {
    x.(pharmacyName := if Truthy(c.pharmacyName) then c.pharmacyName.value else x.pharmacyName,
       address := if Truthy(c.address) then c.address.value else x.address,
       location := c.location.GetOr(x.location),
       isOpen := c.isOpen.GetOr(x.isOpen))
  }

  /** `updatePharmacyProfile`: 404 without a profile of the caller; the
      changes applied and saved; 500 when the schema rejects the result. */
  function UpdatePharmacyDecision(m: map<Id, Pharmacy>, userId: Id, c: PharmacyChanges): Reply<Doc<Pharmacy>> {
    var found := FindOne(m, OwnedBy(userId));
    if found.None? then Fail(NotFound)
    else
      var updated := ApplyPharmacyChanges(found.value.val, c);
      if !PharmacyValid(updated) then Fail(ServerError) else Ok(Doc(found.value.id, updated))
  }

  /** Each field takes the given value or keeps its own; the owner never changes. */
  lemma ApplyPharmacyChangesFields(x: Pharmacy, c: PharmacyChanges)
    ensures var u := ApplyPharmacyChanges(x, c);
      u.userId == x.userId
      && u.pharmacyName == (if c.pharmacyName.Some? && c.pharmacyName.value != "" then c.pharmacyName.value else x.pharmacyName)
      && u.address == (if c.address.Some? && c.address.value != "" then c.address.value else x.address)
      && u.location == (if c.location.Some? then c.location.value else x.location)
      && u.isOpen == (if c.isOpen.Some? then c.isOpen.value else x.isOpen)
  {
  }

  /** 404 exactly when the caller has no profile. */
  lemma UpdatePharmacyNotFound(m: map<Id, Pharmacy>, userId: Id, c: PharmacyChanges)
    ensures UpdatePharmacyDecision(m, userId, c) == Fail(NotFound) <==> forall k :: k in m ==> m[k].userId != userId
  {
  }

  /** A valid profile stays valid whatever the body, because empty names
      and addresses are ignored; so the update of a valid profile succeeds. */
  lemma UpdateKeepsPharmacyValid(x: Pharmacy, c: PharmacyChanges)
    requires PharmacyValid(x)
    ensures PharmacyValid(ApplyPharmacyChanges(x, c))
  {
  }

  /** A successful update replaces the caller's own profile with the changes applied. */
  lemma UpdatePharmacyWritesOwnProfile(m: map<Id, Pharmacy>, userId: Id, c: PharmacyChanges)
    requires UpdatePharmacyDecision(m, userId, c).Ok?
    ensures var r := UpdatePharmacyDecision(m, userId, c).value;
      r.id in m && m[r.id].userId == userId && r.val == ApplyPharmacyChanges(m[r.id], c) && PharmacyValid(r.val)
      && forall j :: j in m && j < r.id ==> m[j].userId != userId
  {
  }

  /** The handler's assignments to the loaded profile, one field at a time. */
  method AssignPharmacyChanges(x: Pharmacy, c: PharmacyChanges) returns (pharmacy: Pharmacy)
    ensures pharmacy == ApplyPharmacyChanges(x, c)
  {
    pharmacy := x;
    if Truthy(c.pharmacyName) {
      pharmacy := pharmacy.(pharmacyName := c.pharmacyName.value);
    }
    if Truthy(c.address) {
      pharmacy := pharmacy.(address := c.address.value);
    }
    if c.location.Some? {
      pharmacy := pharmacy.(location := c.location.value);
    }
    if c.isOpen.Some? {
      pharmacy := pharmacy.(isOpen := c.isOpen.value);
    }
  }

  /** `updatePharmacyProfile` on the store: the loaded profile's fields are
      assigned one by one, then the document is validated and saved. */
  method UpdatePharmacyProfile(db: Database, caller: Payload, c: PharmacyChanges) returns (reply: Reply<Doc<Pharmacy>>)
    requires db.Valid()
    modifies db`pharmacies
    ensures db.Valid()
    ensures reply == UpdatePharmacyDecision(old(db.pharmacies), caller.userId, c)
    ensures db.pharmacies == (if reply.Ok? then old(db.pharmacies)[reply.value.id := reply.value.val] else old(db.pharmacies))
  {
    var found := FindOne(db.pharmacies, OwnedBy(caller.userId));
    if found.None? {
      return Fail(NotFound);
    }
    var pharmacy := AssignPharmacyChanges(found.value.val, c);
    if !PharmacyValid(pharmacy) {
      return Fail(ServerError);
    }
    db.ReplacePharmacy(found.value.id, pharmacy);
    return Ok(Doc(found.value.id, pharmacy));
  }
}
