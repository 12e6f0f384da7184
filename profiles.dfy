/** The two other role profiles, `Patient` and `Pharmacy`, and the profile
    variant registration creates for each role. */
module Profiles {
  import opened Common
  import opened Users
  import opened Doctors

  datatype BloodGroup = APos | ANeg | BPos | BNeg | ABPos | ABNeg | OPos | ONeg

  datatype Patient = Patient(
    userId: Id,
    bloodGroup: Option<BloodGroup>,
    emergencyContact: Option<string>,
    medicalHistory: Option<string>,
    allergies: seq<string>)

  datatype Location = Location(latitude: real, longitude: real)

  datatype Pharmacy = Pharmacy(
    userId: Id,
    pharmacyName: string,
    address: string,
    location: Location,
    isOpen: bool)

  /** `required` on a string rejects the empty string. */
  predicate PharmacyValid(p: Pharmacy) {
    p.pharmacyName != "" && p.address != ""
  }

  /** The role-specific document a new user gets. */
  datatype RoleProfile =
    | PatientProfile(patient: Patient)
    | DoctorProfile(doctor: Doctor)
    | PharmacyProfile(pharmacy: Pharmacy)
    | NoProfile

  /** `Pharmacy.create(...)`: the validators reject an empty name or address. */
  function CreatePharmacy(userId: Id, name: string, address: string): (r: Option<Pharmacy>)
    ensures r.Some? <==> name != "" && address != ""
    ensures r.Some? ==> PharmacyValid(r.value) && r.value.userId == userId && r.value.isOpen
                        && r.value.pharmacyName == name && r.value.address == address
  {
    var p := Pharmacy(userId, name, address, Location(0.0, 0.0), true);
    if PharmacyValid(p) then Some(p) else None
  }

  /** The profile registration writes for a role: patient, doctor and
      pharmacy users get one of their own kind, an admin none. `None` means
      the profile's validators rejected it. */
  function ProfileFor(role: Role, userId: Id, name: string, address: Option<string>): (r: Option<RoleProfile>)
    ensures role == PatientRole ==> r == Some(PatientProfile(Patient(userId, None, None, None, [])))
    ensures role == DoctorRole ==> r == Some(DoctorProfile(NewDoctor(userId)))
    ensures role == PharmacyRole ==>
      var addr := if address.Some? && address.value != "" then address.value else "";
      (r.Some? <==> name != "" && addr != "")
      && (r.Some? ==> r.value.PharmacyProfile? && r.value.pharmacy.userId == userId
                      && r.value.pharmacy.pharmacyName == name && r.value.pharmacy.address == addr)
    ensures role == AdminRole ==> r == Some(NoProfile)
  {
    match role
    case PatientRole => Some(PatientProfile(Patient(userId, None, None, None, [])))
    case DoctorRole => Some(DoctorProfile(NewDoctor(userId)))
    case PharmacyRole =>
      var addr := if address.Some? && address.value != "" then address.value else "";
      var p := CreatePharmacy(userId, name, addr);
      if p.Some? then Some(PharmacyProfile(p.value)) else None
    case AdminRole => Some(NoProfile)
  }
}
