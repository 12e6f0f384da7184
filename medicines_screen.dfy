/** The medicines screen of the frontend: one search box filters the
    medicine list by name or generic name and the pharmacy list by name,
    ignoring case; the tabs count the unfiltered lists and the results line
    counts what is shown. */
module MedicinesScreen {
  import opened Text
  import opened Query
  import opened Labels

  datatype Medicine = Medicine(id: string, name: string, genericName: string)
  datatype Pharmacy = Pharmacy(id: string, name: string)

  function MedicineKept(query: string): Medicine -> bool {
    (m: Medicine) => ContainsIgnoreCase(m.name, query) || ContainsIgnoreCase(m.genericName, query)
  }

  function PharmacyKept(query: string): Pharmacy -> bool {
    (p: Pharmacy) => ContainsIgnoreCase(p.name, query)
  }

  function FilteredMedicines(all: seq<Medicine>, query: string): seq<Medicine> {
    Filter(all, MedicineKept(query))
  }

  function FilteredPharmacies(all: seq<Pharmacy>, query: string): seq<Pharmacy> {
    Filter(all, PharmacyKept(query))
  }

  /** A medicine is shown exactly when the query, lowercased, occurs in its
      lowercased name or generic name; the shown ones keep their order. */
  lemma MedicineSearch(all: seq<Medicine>, query: string)
    ensures forall m :: m in FilteredMedicines(all, query) <==>
      m in all && (Contains(Lower(m.name), Lower(query)) || Contains(Lower(m.genericName), Lower(query)))
    ensures IsSubsequence(FilteredMedicines(all, query), all)
  {
    FilterMembership(all, MedicineKept(query));
    FilterIsSubsequence(all, MedicineKept(query));
  }

  /** A pharmacy is shown exactly when the query occurs in its name, ignoring
      case; the shown ones keep their order. */
  lemma PharmacySearch(all: seq<Pharmacy>, query: string)
    ensures forall p :: p in FilteredPharmacies(all, query) <==> p in all && Contains(Lower(p.name), Lower(query))
    ensures IsSubsequence(FilteredPharmacies(all, query), all)
  {
    FilterMembership(all, PharmacyKept(query));
    FilterIsSubsequence(all, PharmacyKept(query));
  }

  /** An empty search box shows both lists whole. */
  lemma EmptyQueryShowsAll(medicines: seq<Medicine>, pharmacies: seq<Pharmacy>)
    ensures FilteredMedicines(medicines, "") == medicines
    ensures FilteredPharmacies(pharmacies, "") == pharmacies
  {
    forall i | 0 <= i < |medicines| ensures MedicineKept("")(medicines[i]) {
      ContainsIgnoreCaseEmpty(medicines[i].name);
    }
    FilterAll(medicines, MedicineKept(""));
    forall i | 0 <= i < |pharmacies| ensures PharmacyKept("")(pharmacies[i]) {
      ContainsIgnoreCaseEmpty(pharmacies[i].name);
    }
    FilterAll(pharmacies, PharmacyKept(""));
  }

  /** The line above the results: a "nothing found" message for an empty
      result, and otherwise the count. */
  datatype Header = NothingFound(message: string) | Found(line: string)

  function MedicinesHeader(n: nat): Header {
    if n == 0 then NothingFound("No medicines found") else Found(CountLabel(n, "medicine", "medicines", "found"))
  }

  function PharmaciesHeader(n: nat): Header {
    if n == 0 then NothingFound("No pharmacies found") else Found(CountLabel(n, "pharmacy", "pharmacies", "nearby"))
  }

  /** What the screen shows for a query. */
  datatype View = View(medicinesTab: string, pharmaciesTab: string,
                       medicines: seq<Medicine>, pharmacies: seq<Pharmacy>,
                       medicinesHeader: Header, pharmaciesHeader: Header)

  /** The tabs, the two filtered lists and their results lines. */
  function Render(medicines: seq<Medicine>, pharmacies: seq<Pharmacy>, query: string): View {
    var ms := FilteredMedicines(medicines, query);
    var ps := FilteredPharmacies(pharmacies, query);
    View("Medicines (" + NatToString(|medicines|) + ")", "Pharmacies (" + NatToString(|pharmacies|) + ")",
         ms, ps, MedicinesHeader(|ms|), PharmaciesHeader(|ps|))
  }

  /** The tab labels do not depend on the query, while the results line
      counts what the query keeps and reads back as that count. */
  lemma TabsCountEverything(medicines: seq<Medicine>, pharmacies: seq<Pharmacy>, q1: string, q2: string)
    ensures Render(medicines, pharmacies, q1).medicinesTab == Render(medicines, pharmacies, q2).medicinesTab
    ensures Render(medicines, pharmacies, q1).pharmaciesTab == Render(medicines, pharmacies, q2).pharmaciesTab
    ensures var v := Render(medicines, pharmacies, q1);
      (v.medicinesHeader.Found? <==> v.medicines != [])
      && (v.medicinesHeader.Found? ==> DigitsValue(LeadingDigits(v.medicinesHeader.line)) == |v.medicines|)
  {
    var n := |FilteredMedicines(medicines, q1)|;
    if n > 0 {
      CountLabelReadsBack(n, "medicine", "medicines", "found");
    }
  }

  /** "s" is added for every count but one. */
  lemma MedicinePlural(n: nat)
    requires n > 0
    ensures MedicinesHeader(n) == Found(NatToString(n) + " medicines found") <==> n != 1
    ensures MedicinesHeader(n) == Found(NatToString(n) + " medicine found") <==> n == 1
  {
    assert |NatToString(n) + " medicines found"| != |NatToString(n) + " medicine found"|;
  }

  /** "pharmacies" for every count but one, "pharmacy" for one. */
  lemma PharmacyPlural(n: nat)
    requires n > 0
    ensures PharmaciesHeader(n) == Found(NatToString(n) + " pharmacies nearby") <==> n != 1
    ensures PharmaciesHeader(n) == Found(NatToString(n) + " pharmacy nearby") <==> n == 1
  {
    assert |NatToString(n) + " pharmacies nearby"| != |NatToString(n) + " pharmacy nearby"|;
  }
}
