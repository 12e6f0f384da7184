/** The medicine handlers: the public catalogue query (the filter built
    field by field, then sorted by stock and name and paginated), reading one
    medicine, adding one, the owner-only update and delete, and the list of
    categories. */
module MedicineController {
  import opened Common
  import opened Text
  import opened Query
  import opened Medicines
  import opened Tokens
  import opened Store

  // ---------------------------------------------------------------- the catalogue query

  /** The query string of `GET /api/medicines`; `None` is an absent or empty
      parameter. The price bounds are the numbers `Number(...)` gives for a
      numeric text; a text that is not a number is not modelled. */
  datatype MedicineParams = MedicineParams(
    search: Option<string>,
    category: Option<string>,
    pharmacyId: Option<Id>,
    minPrice: Option<real>,
    maxPrice: Option<real>,
    inStock: Option<string>)

  /** The documented filter: available medicines only; a search must occur in
      the name or the generic name and a category in the category, both
      ignoring case; the pharmacy must be the given one; the price must lie
      within the given bounds; and `inStock=true`, and only that value,
      requires stock. */
  function MedicineMatches(p: MedicineParams): Medicine -> bool {
    (x: Medicine) =>
      x.isAvailable
      && (Truthy(p.search) ==> ContainsIgnoreCase(x.name, p.search.value) || ContainsIgnoreCase(x.genericName, p.search.value))
      && (Truthy(p.category) ==> ContainsIgnoreCase(x.category, p.category.value))
      && (p.pharmacyId.Some? ==> x.pharmacyId == p.pharmacyId.value)
      && (p.minPrice.Some? ==> x.price >= p.minPrice.value)
      && (p.maxPrice.Some? ==> x.price <= p.maxPrice.value)
      && (p.inStock == Some("true") ==> x.stock > 0)
  }

  /** The query document the handler builds: each member is one condition of
      the store's query language, `None` where the member is not set. */
  datatype Criteria = Criteria(
    isAvailable: Option<bool>,
    nameOrGenericName: Option<string>,
    category: Option<string>,
    pharmacyId: Option<Id>,
    priceGte: Option<real>,
    priceLte: Option<real>,
    stockGt: Option<int>)

  /** What a query document selects: every condition that is set holds. */
  predicate Selects(c: Criteria, x: Medicine) {
    (c.isAvailable.Some? ==> x.isAvailable == c.isAvailable.value)
    && (c.nameOrGenericName.Some? ==>
          ContainsIgnoreCase(x.name, c.nameOrGenericName.value) || ContainsIgnoreCase(x.genericName, c.nameOrGenericName.value))
    && (c.category.Some? ==> ContainsIgnoreCase(x.category, c.category.value))
    && (c.pharmacyId.Some? ==> x.pharmacyId == c.pharmacyId.value)
    && (c.priceGte.Some? ==> x.price >= c.priceGte.value)
    && (c.priceLte.Some? ==> x.price <= c.priceLte.value)
    && (c.stockGt.Some? ==> x.stock > c.stockGt.value)
  }

  /** The handler's query building: the document starts as `{ isAvailable: true }`
      and gains one condition per given parameter; it selects exactly the
      medicines of the documented filter. */
  method BuildQuery(p: MedicineParams) returns (c: Criteria)
    ensures forall x :: Selects(c, x) <==> MedicineMatches(p)(x)
  {
    c := Criteria(Some(true), None, None, None, None, None, None);
    if Truthy(p.search) {
      c := c.(nameOrGenericName := p.search);
    }
    if Truthy(p.category) {
      c := c.(category := p.category);
    }
    if p.pharmacyId.Some? {
      c := c.(pharmacyId := p.pharmacyId);
    }
    if p.minPrice.Some? || p.maxPrice.Some? {
      if p.minPrice.Some? {
        c := c.(priceGte := p.minPrice);
      }
      if p.maxPrice.Some? {
        c := c.(priceLte := p.maxPrice);
      }
    }
    if p.inStock == Some("true") {
      c := c.(stockGt := Some(0));
    }
  }

  /** `sort({ stock: -1, name: 1 })`: more stock first, then names in code-point order. */
  function StockThenName(a: Doc<Medicine>, b: Doc<Medicine>): bool {
    a.val.stock > b.val.stock || (a.val.stock == b.val.stock && !LexLess(b.val.name, a.val.name))
  }

  /** The order is total and transitive, so the sorted result is ordered by it. */
  lemma StockThenNameIsOrder()
    ensures Total(StockThenName) && Transitive(StockThenName)
  {
    forall a: Doc<Medicine>, b: Doc<Medicine> ensures StockThenName(a, b) || StockThenName(b, a) {
      LexLessTrichotomy(a.val.name, b.val.name);
    }
    forall a: Doc<Medicine>, b: Doc<Medicine>, c: Doc<Medicine> | StockThenName(a, b) && StockThenName(b, c)
      ensures StockThenName(a, c)
    {
      if a.val.stock == b.val.stock == c.val.stock {
        LexLessTrichotomy(a.val.name, b.val.name);
        LexLessTrichotomy(b.val.name, c.val.name);
        LexLessTrichotomy(a.val.name, c.val.name);
        if LexLess(a.val.name, b.val.name) && LexLess(b.val.name, c.val.name) {
          LexLessTransitive(a.val.name, b.val.name, c.val.name);
        }
      }
    }
  }

  function MatchingMedicines(m: map<Id, Medicine>, p: MedicineParams): seq<Doc<Medicine>> {
    Filter(Docs(m), (d: Doc<Medicine>) => MedicineMatches(p)(d.val))
  }

  /** `getMedicines`. */
  function ListMedicines(m: map<Id, Medicine>, p: MedicineParams, page: nat, limit: nat): Listing<Doc<Medicine>>
    requires page >= 1 && limit >= 1
  {
    Paginate(SortBy(MatchingMedicines(m, p), StockThenName), page, limit)
  }

  /** Every listed medicine is stored, available and passes the filter, and
      the totals count every match. */
  lemma MedicinePageScoped(m: map<Id, Medicine>, p: MedicineParams, page: nat, limit: nat)
    requires page >= 1 && limit >= 1
    ensures var l := ListMedicines(m, p, page, limit);
      (forall i :: 0 <= i < |l.items| ==>
         l.items[i].id in m && l.items[i].val == m[l.items[i].id]
         && l.items[i].val.isAvailable && MedicineMatches(p)(l.items[i].val))
      && l.total == |MatchingMedicines(m, p)|
      && l.pages == PageCount(l.total, limit)
  {
    var l := ListMedicines(m, p, page, limit);
    forall i | 0 <= i < |l.items|
      ensures l.items[i].id in m && l.items[i].val == m[l.items[i].id] && MedicineMatches(p)(l.items[i].val)
    {
      ListedMedicineMatches(m, p, page, limit, i);
    }
  }

  lemma ListedMedicineMatches(m: map<Id, Medicine>, p: MedicineParams, page: nat, limit: nat, i: nat)
    requires page >= 1 && limit >= 1 && i < |ListMedicines(m, p, page, limit).items|
    ensures var x := ListMedicines(m, p, page, limit).items[i];
      x.id in m && x.val == m[x.id] && MedicineMatches(p)(x.val)
  {
    var sel := MatchingMedicines(m, p);
    var sorted := SortBy(sel, StockThenName);
    var x := ListMedicines(m, p, page, limit).items[i];
    assert x == sorted[Skip(page, limit) + i];
    assert x in multiset(sorted);
    assert x in sel;
  }

  /** The page is ordered by stock, most first, and then by name. */
  lemma MedicinePageOrdered(m: map<Id, Medicine>, p: MedicineParams, page: nat, limit: nat)
    requires page >= 1 && limit >= 1
    ensures SortedBy(ListMedicines(m, p, page, limit).items, StockThenName)
  {
    var sorted := SortBy(MatchingMedicines(m, p), StockThenName);
    StockThenNameIsOrder();
    SortBySorted(MatchingMedicines(m, p), StockThenName);
    PageOfSorted(sorted, StockThenName, page, limit);
  }

  /** Only `inStock=true` filters on stock: with any other value an
      out-of-stock medicine passes exactly when it would with stock. */
  lemma OnlyTrueFiltersStock(p: MedicineParams, x: Medicine, stock: int)
    requires p.inStock != Some("true")
    ensures MedicineMatches(p)(x) == MedicineMatches(p)(x.(stock := stock))
  {
  }

  /** An empty search, category and pharmacy, no bounds and no stock filter
      keep every available medicine. */
  lemma NoParamsKeepsAvailable(x: Medicine)
    ensures MedicineMatches(MedicineParams(None, None, None, None, None, None))(x) == x.isAvailable
  {
  }

  // ---------------------------------------------------------------- one medicine

  /** `getMedicineById`. */
  function GetMedicine(m: map<Id, Medicine>, id: Id): (r: Reply<Doc<Medicine>>)
    ensures r.Ok? <==> id in m
    ensures r.Ok? ==> r.value == Doc(id, m[id])
    ensures r.Fail? ==> r.failure == NotFound
  {
    if id !in m then Fail(NotFound) else Ok(Doc(id, m[id]))
  }

  // ---------------------------------------------------------------- adding

  /** The body of `POST /api/medicines`; `None` is an absent field (or, for the
      strings and the date, a falsy one). */
  datatype AddRequest = AddRequest(
    name: Option<string>,
    genericName: Option<string>,
    manufacturer: Option<string>,
    description: Option<string>,
    price: Option<real>,
    stock: Option<int>,
    category: Option<string>,
    requiresPrescription: Option<bool>,
    expiryDate: Option<int>,
    imageUrl: Option<string>)

  /** `!price` rejects an absent price and a price of 0; `stock === undefined`
      rejects only an absent stock. */
  predicate AddFieldsPresent(req: AddRequest) {
    Truthy(req.name) && Truthy(req.genericName) && Truthy(req.manufacturer) && Truthy(req.description)
    && req.price.Some? && req.price.value != 0.0 && req.stock.Some? && Truthy(req.category)
  }

  /** `addMedicine`: 400 for a missing field; the document owned by the caller,
      available, with `requiresPrescription` defaulting to false, which the
      schema then trims and validates (500 when it rejects it). */
  function AddDecision(callerId: Id, req: AddRequest): Reply<Medicine> {
    if !AddFieldsPresent(req) then Fail(BadRequest)
    else
      var doc := Medicine(callerId, req.name.value, req.genericName.value, req.manufacturer.value,
                          req.description.value, req.price.value, req.stock.value, req.category.value,
                          req.requiresPrescription == Some(true), req.expiryDate,
                          if Truthy(req.imageUrl) then req.imageUrl else None, true);
      var saved := Validate(doc);
      if saved.None? then Fail(ServerError) else Ok(saved.value)
  }

  /** Adding succeeds exactly with every field present, a positive price, a
      non-negative stock and a name and generic name that are not blank. */
  lemma AddSucceedsIff(callerId: Id, req: AddRequest)
    ensures AddDecision(callerId, req).Ok? <==>
      AddFieldsPresent(req) && req.price.value > 0.0 && req.stock.value >= 0
      && Trim(req.name.value) != "" && Trim(req.genericName.value) != ""
  {
    if AddFieldsPresent(req) {
      TrimIdempotent(req.name.value);
      TrimIdempotent(req.genericName.value);
    }
  }

  /** A price of 0 is refused as missing; a stock of 0 is accepted. */
  lemma ZeroPriceRefusedZeroStockAccepted(callerId: Id, req: AddRequest)
    ensures AddDecision(callerId, req.(price := Some(0.0))) == Fail(BadRequest)
    ensures AddDecision(callerId, req).Ok? && req.stock == Some(0) ==> AddDecision(callerId, req).value.stock == 0
  {
  }

  /** The added medicine belongs to the caller, is available, needs a
      prescription only when asked, and is stored with trimmed names. */
  lemma AddedMedicine(callerId: Id, req: AddRequest)
    requires AddDecision(callerId, req).Ok?
    ensures var x := AddDecision(callerId, req).value;
      x.pharmacyId == callerId && x.isAvailable
      && x.requiresPrescription == (req.requiresPrescription == Some(true))
      && x.name == Trim(req.name.value) && x.genericName == Trim(req.genericName.value)
      && x.price == req.price.value && x.stock == req.stock.value && x.category == req.category.value
      && MedicineValid(x)
  {
  }

  /** `addMedicine` on the store. */
  method AddMedicine(db: Database, caller: Payload, req: AddRequest) returns (reply: Reply<Doc<Medicine>>)
    requires db.Valid()
    modifies db`medicines, db`nextId
    ensures db.Valid()
    ensures match AddDecision(caller.userId, req)
      case Fail(f) => reply == Fail(f) && db.medicines == old(db.medicines)
      case Ok(x) => reply == Ok(Doc(old(db.nextId), x)) && old(db.nextId) !in old(db.medicines)
                    && db.medicines == old(db.medicines)[old(db.nextId) := x]
  {
    if !AddFieldsPresent(req) {
      return Fail(BadRequest);
    }
    var doc := Medicine(caller.userId, req.name.value, req.genericName.value, req.manufacturer.value,
                        req.description.value, req.price.value, req.stock.value, req.category.value,
                        req.requiresPrescription == Some(true), None, None, true);
    if req.expiryDate.Some? {
      doc := doc.(expiryDate := req.expiryDate);
    }
    if Truthy(req.imageUrl) {
      doc := doc.(imageUrl := req.imageUrl);
    }
    var saved := Validate(doc);
    if saved.None? {
      return Fail(ServerError);
    }
    var id := db.InsertMedicine(saved.value);
    return Ok(Doc(id, saved.value));
  }

  // ---------------------------------------------------------------- update and delete

  /** The fields an update body sets; `None` is a field the body leaves out.
      The body is applied as given, so it may also set the owner. */
  datatype MedicineChanges = MedicineChanges(
    pharmacyId: Option<Id>,
    name: Option<string>,
    genericName: Option<string>,
    manufacturer: Option<string>,
    description: Option<string>,
    price: Option<real>,
    stock: Option<int>,
    category: Option<string>,
    requiresPrescription: Option<bool>,
    expiryDate: Option<int>,
    imageUrl: Option<string>,
    isAvailable: Option<bool>)

  /** `findByIdAndUpdate(id, req.body)`: every field the body gives replaces
      the stored one, `pharmacyId` included. */
  function Merge(x: Medicine, c: MedicineChanges): Medicine {
    Medicine(c.pharmacyId.GetOr(x.pharmacyId), c.name.GetOr(x.name), c.genericName.GetOr(x.genericName),
             c.manufacturer.GetOr(x.manufacturer), c.description.GetOr(x.description),
             c.price.GetOr(x.price), c.stock.GetOr(x.stock), c.category.GetOr(x.category),
             c.requiresPrescription.GetOr(x.requiresPrescription),
             if c.expiryDate.Some? then c.expiryDate else x.expiryDate,
             if c.imageUrl.Some? then c.imageUrl else x.imageUrl,
             c.isAvailable.GetOr(x.isAvailable))
  }

  /** `updateMedicine`: 404, 403 unless the caller owns the medicine, then
      the body merged in and validated (500 when the validators reject it). */
  function UpdateDecision(m: map<Id, Medicine>, id: Id, callerId: Id, c: MedicineChanges): Reply<Medicine> {
    if id !in m then Fail(NotFound)
    else if m[id].pharmacyId != callerId then Fail(Forbidden)
    else
      var updated := Validate(Merge(m[id], c));
      if updated.None? then Fail(ServerError) else Ok(updated.value)
  }

  /** Only the owner can update; the result keeps every field the body leaves out. */
  lemma UpdateOwnerOnly(m: map<Id, Medicine>, id: Id, callerId: Id, c: MedicineChanges)
    ensures UpdateDecision(m, id, callerId, c).Ok? ==> id in m && m[id].pharmacyId == callerId
    ensures id !in m ==> UpdateDecision(m, id, callerId, c) == Fail(NotFound)
    ensures id in m && m[id].pharmacyId != callerId ==> UpdateDecision(m, id, callerId, c) == Fail(Forbidden)
    ensures UpdateDecision(m, id, callerId, c).Ok? ==>
      var x := UpdateDecision(m, id, callerId, c).value;
      (c.pharmacyId.None? ==> x.pharmacyId == callerId)
      && (c.price.None? ==> x.price == m[id].price)
      && (c.stock.None? ==> x.stock == m[id].stock)
      && (c.category.None? ==> x.category == m[id].category)
      && (c.isAvailable.None? ==> x.isAvailable == m[id].isAvailable)
      && MedicineValid(x)
  {
  }

  /** The body may hand the medicine to another pharmacy, after which the
      former owner can neither update nor delete it. */
  lemma UpdateCanTransferOwnership(m: map<Id, Medicine>, id: Id, owner: Id, other: Id)
    requires id in m && m[id].pharmacyId == owner && owner != other && MedicineValid(m[id])
    ensures var c := MedicineChanges(Some(other), None, None, None, None, None, None, None, None, None, None, None);
      var r := UpdateDecision(m, id, owner, c);
      r.Ok? && r.value.pharmacyId == other
      && UpdateDecision(m[id := r.value], id, owner, c) == Fail(Forbidden)
      && DeleteDecision(m[id := r.value], id, owner).0 == Fail(Forbidden)
  {
    var c := MedicineChanges(Some(other), None, None, None, None, None, None, None, None, None, None, None);
    assert Merge(m[id], c) == m[id].(pharmacyId := other);
  }

  /** `updateMedicine` on the store. */
  method UpdateMedicine(db: Database, caller: Payload, id: Id, c: MedicineChanges) returns (reply: Reply<Medicine>)
    requires db.Valid()
    modifies db`medicines
    ensures db.Valid()
    ensures reply == UpdateDecision(old(db.medicines), id, caller.userId, c)
    ensures db.medicines == (if reply.Ok? then old(db.medicines)[id := reply.value] else old(db.medicines))
  {
    if id !in db.medicines {
      return Fail(NotFound);
    }
    var medicine := db.medicines[id];
    if medicine.pharmacyId != caller.userId {
      return Fail(Forbidden);
    }
    var updated := Validate(Merge(medicine, c));
    assert UpdateDecision(db.medicines, id, caller.userId, c)
      == (if updated.None? then Fail(ServerError) else Ok(updated.value));
    if updated.None? {
      return Fail(ServerError);
    }
    db.ReplaceMedicine(id, updated.value);
    return Ok(updated.value);
  }

  /** `deleteMedicine`: 404, 403 unless the caller owns the medicine, then it is removed. */
  function DeleteDecision(m: map<Id, Medicine>, id: Id, callerId: Id): (Reply<Ack>, map<Id, Medicine>) {
    if id !in m then (Fail(NotFound), m)
    else if m[id].pharmacyId != callerId then (Fail(Forbidden), m)
    else (Ok(Ack), m - {id})
  }

  /** Deletion succeeds exactly for the owner and removes exactly that medicine. */
  lemma DeleteOwnerOnly(m: map<Id, Medicine>, id: Id, callerId: Id)
    ensures var (reply, after) := DeleteDecision(m, id, callerId);
      (reply.Ok? <==> id in m && m[id].pharmacyId == callerId)
      && (reply.Fail? ==> after == m && reply.failure == (if id in m then Forbidden else NotFound))
      && (reply.Ok? ==> after.Keys == m.Keys - {id} && forall k :: k in after ==> after[k] == m[k])
  {
  }

  /** `deleteMedicine` on the store. */
  method DeleteMedicine(db: Database, caller: Payload, id: Id) returns (reply: Reply<Ack>)
    requires db.Valid()
    modifies db`medicines
    ensures db.Valid()
    ensures (reply, db.medicines) == DeleteDecision(old(db.medicines), id, caller.userId)
  {
    if id !in db.medicines {
      return Fail(NotFound);
    }
    if db.medicines[id].pharmacyId != caller.userId {
      return Fail(Forbidden);
    }
    db.medicines := db.medicines - {id};
    return Ok(Ack);
  }

  // ---------------------------------------------------------------- categories

  function CategoryOf(x: Medicine): string {
    x.category
  }

  /** `getMedicineCategories`: the distinct categories of every medicine,
      available or not, with empty ones removed; each non-empty category of
      a stored medicine is listed once and nothing else is. */
  lemma CategoriesDistinctNonEmpty(m: map<Id, Medicine>)
    ensures var r := DistinctNonEmpty(m, CategoryOf);
      (forall c :: c in r <==> c != "" && exists k :: k in m && m[k].category == c)
      && NoDuplicates(r)
  {
    DistinctNonEmptyComplete(m, CategoryOf);
    DistinctNonEmptyNoDuplicates(m, CategoryOf);
  }
}
