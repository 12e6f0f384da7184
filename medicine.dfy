/** The `Medicine` document: a pharmacy's catalogue entry (the owner is the
    pharmacy's user id). */
module Medicines {
  import opened Common
  import opened Text

  datatype Medicine = Medicine(
    pharmacyId: Id,
    name: string,
    genericName: string,
    manufacturer: string,
    description: string,
    price: real,
    stock: int,
    category: string,
    requiresPrescription: bool,
    expiryDate: Option<int>,
    imageUrl: Option<string>,
    isAvailable: bool)

  /** The validators after the `trim` setters of name and genericName:
      every required string non-empty, price and stock at least 0. */
  predicate MedicineValid(m: Medicine) {
    m.name != "" && Trim(m.name) == m.name
    && m.genericName != "" && Trim(m.genericName) == m.genericName
    && m.manufacturer != "" && m.description != "" && m.category != ""
    && m.price >= 0.0 && m.stock >= 0
  }

  /** Running the setters and validators on a document about to be saved:
      the trimmed document, or `None` when a validator rejects it. */
  function Validate(m: Medicine): (r: Option<Medicine>)
    ensures r.Some? ==> MedicineValid(r.value)
    ensures r.Some? ==> r.value == m.(name := Trim(m.name), genericName := Trim(m.genericName))
    ensures MedicineValid(m) ==> r == Some(m)
  {
    var t := m.(name := Trim(m.name), genericName := Trim(m.genericName));
    TrimIdempotent(m.name);
    TrimIdempotent(m.genericName);
    if MedicineValid(t) then Some(t) else None
  }
}
