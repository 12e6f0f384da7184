/** The authentication handlers: registration with its role profile, OTP
    issue and login, refresh, logout, and the caller's own user document.
    The user table and the three profile tables are bundled as `Accounts`
    so that the rules about them can be stated on values. */
module AuthController {
  import opened Common
  import opened Text
  import opened Query
  import opened Users
  import opened Doctors
  import opened Profiles
  import opened Otp
  import opened Tokens
  import opened Store

  datatype Accounts = Accounts(
    users: map<Id, User>,
    patients: map<Id, Patient>,
    doctors: map<Id, Doctor>,
    pharmacies: map<Id, Pharmacy>)

  /** Every document id is below `next`, the next id to be allocated. */
  predicate IdsBelow(acc: Accounts, next: Id) {
    (forall k :: k in acc.users ==> k < next)
    && (forall k :: k in acc.patients ==> k < next)
    && (forall k :: k in acc.doctors ==> k < next)
    && (forall k :: k in acc.pharmacies ==> k < next)
  }

  // ---------------------------------------------------------------- profiles

  /** The user has a profile of the kind its role calls for (an admin needs none). */
  predicate HasOwnProfile(acc: Accounts, id: Id, role: Role) {
    match role
    case PatientRole => exists k :: k in acc.patients && acc.patients[k].userId == id
    case DoctorRole => exists k :: k in acc.doctors && acc.doctors[k].userId == id
    case PharmacyRole => exists k :: k in acc.pharmacies && acc.pharmacies[k].userId == id
    case AdminRole => true
  }

  /** Every patient profile belongs to a stored user, and no user has two. */
  predicate PatientsOwned(acc: Accounts) {
    (forall k :: k in acc.patients ==> acc.patients[k].userId in acc.users)
    && (forall a, b :: a in acc.patients && b in acc.patients && acc.patients[a].userId == acc.patients[b].userId ==> a == b)
  }

  predicate DoctorsOwned(acc: Accounts) {
    (forall k :: k in acc.doctors ==> acc.doctors[k].userId in acc.users)
    && (forall a, b :: a in acc.doctors && b in acc.doctors && acc.doctors[a].userId == acc.doctors[b].userId ==> a == b)
  }

  predicate PharmaciesOwned(acc: Accounts) {
    (forall k :: k in acc.pharmacies ==> acc.pharmacies[k].userId in acc.users)
    && (forall a, b :: a in acc.pharmacies && b in acc.pharmacies && acc.pharmacies[a].userId == acc.pharmacies[b].userId ==> a == b)
  }

  /** Every profile belongs to a stored user, and no user has two profiles of one kind. */
  predicate ProfilesOwned(acc: Accounts) {
    PatientsOwned(acc) && DoctorsOwned(acc) && PharmaciesOwned(acc)
  }

  /** Each patient, doctor and pharmacy user has exactly one profile of its kind. */
  predicate ProfilesComplete(acc: Accounts) {
    ProfilesOwned(acc) && forall id :: id in acc.users ==> HasOwnProfile(acc, id, acc.users[id].role)
  }

  /** Writes a registration profile under id `profileId`. */
  function AddProfile(acc: Accounts, profileId: Id, profile: RoleProfile): (r: Accounts)
    ensures r.users == acc.users
  {
    match profile
    case PatientProfile(p) => acc.(patients := acc.patients[profileId := p])
    case DoctorProfile(d) => acc.(doctors := acc.doctors[profileId := d])
    case PharmacyProfile(p) => acc.(pharmacies := acc.pharmacies[profileId := p])
    case NoProfile => acc
  }

  /** The accounts after storing user `u` under `next` and its profile under `next + 1`. */
  function WithNewUser(acc: Accounts, next: Id, u: User, profile: RoleProfile): (r: Accounts)
    ensures r.users == acc.users[next := u]
  {
    AddProfile(acc.(users := acc.users[next := u]), next + 1, profile)
  }

  /** The user a profile is for. */
  function ProfileOwner(profile: RoleProfile): Option<Id> {
    match profile
    case PatientProfile(p) => Some(p.userId)
    case DoctorProfile(d) => Some(d.userId)
    case PharmacyProfile(p) => Some(p.userId)
    case NoProfile => None
  }

  // ---------------------------------------------------------------- register

  /** The body of `POST /api/auth/register`. */
  datatype RegisterRequest = RegisterRequest(
    phone: Option<string>,
    name: Option<string>,
    role: Option<string>,
    email: Option<string>,
    address: Option<string>)

  /** The 201 reply's data. */
  datatype Registered = Registered(userId: Id, phone: string, name: string, role: Role)

  /** A registration's reply, the accounts it leaves, and whether an OTP was sent. */
  datatype Registration = Registration(reply: Reply<Registered>, after: Accounts, otpSent: bool)

  function WithPhone(phone: string): User -> bool {
    (u: User) => HasPhone(u, phone)
  }

  predicate RegisterFieldsPresent(req: RegisterRequest) {
    Truthy(req.phone) && Truthy(req.name) && Truthy(req.role)
  }

  function NewUser(req: RegisterRequest): Option<User>
    requires RegisterFieldsPresent(req)
  {
    CreateUser(req.phone.value, req.name.value, req.role.value, req.email, req.address)
  }

  /** The checks `register` makes before its first write: the three fields,
      a phone not yet registered, and a user document its validators accept. */
  function Admission(users: map<Id, User>, req: RegisterRequest): Reply<User> {
    if !RegisterFieldsPresent(req) then Fail(BadRequest)
    else if FindOne(users, WithPhone(req.phone.value)).Some? then Fail(BadRequest)
    else
      var user := NewUser(req);
      if user.None? then Fail(ServerError) else Ok(user.value)
  }

  /** Admission succeeds exactly for the three fields, a phone no stored
      user has (after trimming), and a user document that validates; the
      admitted user is that document. */
  lemma AdmissionIff(users: map<Id, User>, req: RegisterRequest)
    ensures Admission(users, req).Ok? <==>
      RegisterFieldsPresent(req)
      && (forall k :: k in users ==> users[k].phone != Trim(req.phone.value))
      && NewUser(req).Some?
    ensures Admission(users, req).Ok? ==> Admission(users, req).value == NewUser(req).value
  {
    if RegisterFieldsPresent(req) {
      var p := WithPhone(req.phone.value);
      if FindOne(users, p).Some? {
        var f := FindOne(users, p).value;
        assert users[f.id].phone == Trim(req.phone.value);
      } else {
        forall k | k in users ensures users[k].phone != Trim(req.phone.value) {
          assert !p(users[k]);
        }
      }
    }
  }

  /** An admitted user is unverified, without a session, and carries the
      trimmed phone and the requested role. */
  lemma AdmittedUser(users: map<Id, User>, req: RegisterRequest)
    requires Admission(users, req).Ok?
    ensures var u := Admission(users, req).value;
      UserValid(u) && u.phone == Trim(req.phone.value) && RoleName(u.role) == req.role.value
      && !u.isVerified && u.refreshToken.None?
      && forall k :: k in users ==> users[k].phone != u.phone
  {
    AdmissionIff(users, req);
  }

  /** The reply of a registration that gets past admission. */
  function RegisteredReply(next: Id, u: User): Reply<Registered> {
    Ok(Registered(next, u.phone, u.name, u.role))
  }

  /** `register` as written: the user is stored before its profile is
      validated, so a profile that fails validation leaves the user behind. */
  function RegisterAsWritten(acc: Accounts, req: RegisterRequest, next: Id): Registration {
    var admitted := Admission(acc.users, req);
    if admitted.Fail? then Registration(Fail(admitted.failure), acc, false)
    else
      var stored := acc.(users := acc.users[next := admitted.value]);
      var profile := ProfileFor(admitted.value.role, next, req.name.value, req.address);
      if profile.None? then Registration(Fail(ServerError), stored, false)
      else Registration(RegisteredReply(next, admitted.value), WithNewUser(acc, next, admitted.value, profile.value), true)
  }

  /** `register` with the profile validated before anything is written, so a
      failed registration stores nothing. The replies are those of `register`. */
  function RegisterPlan(acc: Accounts, req: RegisterRequest, next: Id): Registration {
    var admitted := Admission(acc.users, req);
    if admitted.Fail? then Registration(Fail(admitted.failure), acc, false)
    else
      var profile := ProfileFor(admitted.value.role, next, req.name.value, req.address);
      if profile.None? then Registration(Fail(ServerError), acc, false)
      else Registration(RegisteredReply(next, admitted.value), WithNewUser(acc, next, admitted.value, profile.value), true)
  }

  /** The two give the same replies and send the same OTPs, and the same
      writes whenever registration succeeds. */
  lemma RegisterPlanAgrees(acc: Accounts, req: RegisterRequest, next: Id)
    ensures RegisterPlan(acc, req, next).reply == RegisterAsWritten(acc, req, next).reply
    ensures RegisterPlan(acc, req, next).otpSent == RegisterAsWritten(acc, req, next).otpSent
    ensures RegisterAsWritten(acc, req, next).reply.Ok? ==> RegisterPlan(acc, req, next) == RegisterAsWritten(acc, req, next)
  {
  }

  /** As written, an admitted pharmacy without an address gets a 500, keeps
      its user but no pharmacy profile, receives no OTP, and every later
      registration with that phone, address or not, is refused as a duplicate. */
  lemma PharmacyWithoutAddressOrphansUser(acc: Accounts, req: RegisterRequest, next: Id, retry: RegisterRequest)
    requires ProfilesComplete(acc) && IdsBelow(acc, next)
    requires Admission(acc.users, req).Ok? && Admission(acc.users, req).value.role == PharmacyRole
    requires !Truthy(req.address)
    requires Truthy(retry.phone) && Trim(retry.phone.value) == Trim(req.phone.value)
    ensures var r := RegisterAsWritten(acc, req, next);
      r.reply == Fail(ServerError) && !r.otpSent
      && next in r.after.users && !HasOwnProfile(r.after, next, PharmacyRole)
      && !ProfilesComplete(r.after)
      && RegisterAsWritten(r.after, retry, next + 1).reply == Fail(BadRequest)
  {
    AdmittedUser(acc.users, req);
    var u := Admission(acc.users, req).value;
    assert ProfileFor(u.role, next, req.name.value, req.address).None?;
    AsWrittenProfileRefused(acc, req, next);
    var r := RegisterAsWritten(acc, req, next);
    assert next !in acc.users;
    StoredWithoutProfile(acc, next, u);
    DuplicatePhoneRefused(r.after, retry, next, next + 1);
  }

  /** As written, an admitted user whose profile fails validation stays stored, with a 500. */
  lemma AsWrittenProfileRefused(acc: Accounts, req: RegisterRequest, next: Id)
    requires Admission(acc.users, req).Ok?
    requires ProfileFor(Admission(acc.users, req).value.role, next, req.name.value, req.address).None?
    ensures RegisterAsWritten(acc, req, next)
      == Registration(Fail(ServerError), acc.(users := acc.users[next := Admission(acc.users, req).value]), false)
  {
  }

  /** A pharmacy user stored under a fresh id, with no profile written, has none. */
  lemma StoredWithoutProfile(acc: Accounts, next: Id, u: User)
    requires PharmaciesOwned(acc) && next !in acc.users && u.role == PharmacyRole
    ensures var after := acc.(users := acc.users[next := u]);
      !HasOwnProfile(after, next, PharmacyRole) && !ProfilesComplete(after)
  {
    var after := acc.(users := acc.users[next := u]);
    assert forall k :: k in after.pharmacies ==> after.pharmacies[k].userId in acc.users;
    assert after.users[next].role == PharmacyRole;
  }

  /** A registration whose trimmed phone a stored user has is refused with 400. */
  lemma DuplicatePhoneRefused(acc: Accounts, req: RegisterRequest, holder: Id, next: Id)
    requires Truthy(req.phone) && holder in acc.users && acc.users[holder].phone == Trim(req.phone.value)
    ensures RegisterAsWritten(acc, req, next).reply == Fail(BadRequest)
  {
    AdmissionIff(acc.users, req);
  }

  /** An input that reaches that case: a new pharmacy with a valid phone and
      name but no address. */
  lemma PharmacyWithoutAddressExample()
    ensures Admission(map[], RegisterRequest(Some("9876543210"), Some("Apollo"), Some("pharmacy"), None, None)).Ok?
    ensures Admission(map[], RegisterRequest(Some("9876543210"), Some("Apollo"), Some("pharmacy"), None, None)).value.role == PharmacyRole
  {
    var req := RegisterRequest(Some("9876543210"), Some("Apollo"), Some("pharmacy"), None, None);
    ExampleUserValidates();
    assert RegisterFieldsPresent(req);
    assert NewUser(req) == CreateUser("9876543210", "Apollo", "pharmacy", None, None);
    AdmittedIntoEmpty(req);
  }

  /** Into an empty store, a request whose user document validates is admitted as that user. */
  lemma AdmittedIntoEmpty(req: RegisterRequest)
    requires RegisterFieldsPresent(req) && NewUser(req).Some?
    ensures Admission(map[], req) == Ok(NewUser(req).value)
  {
    AdmissionIff(map[], req);
  }

  lemma ExampleUserValidates()
    ensures CreateUser("9876543210", "Apollo", "pharmacy", None, None).Some?
    ensures CreateUser("9876543210", "Apollo", "pharmacy", None, None).value.role == PharmacyRole
  {
    ExamplePhoneValid();
    ExampleNameTrimmed();
    assert ParseRole("pharmacy") == Some(PharmacyRole);
  }

  lemma ExamplePhoneValid()
    ensures ValidPhone(Trim("9876543210"))
  {
    var phone: string := "9876543210";
    assert NoWhitespace(phone) by {
      forall i | 0 <= i < |phone| ensures !IsWhitespace(phone[i]) {}
    }
    assert AllDigits(phone) by {
      forall i | 0 <= i < |phone| ensures IsDigit(phone[i]) {}
    }
    assert ValidPhone(phone);
    TrimNoWhitespace(phone);
  }

  lemma ExampleNameTrimmed()
    ensures Trim("Apollo") == "Apollo"
  {
    var name: string := "Apollo";
    assert NoWhitespace(name) by {
      forall i | 0 <= i < |name| ensures !IsWhitespace(name[i]) {}
    }
    TrimNoWhitespace(name);
  }

  /** A failed registration writes nothing and sends no OTP. */
  lemma RegisterFailureWritesNothing(acc: Accounts, req: RegisterRequest, next: Id)
    requires RegisterPlan(acc, req, next).reply.Fail?
    ensures RegisterPlan(acc, req, next).after == acc && !RegisterPlan(acc, req, next).otpSent
  {
  }

  /** Exactly when registration succeeds: admission, and a profile that
      passes validation (only a pharmacy's can fail, for want of an address). */
  lemma RegisterSucceedsIff(acc: Accounts, req: RegisterRequest, next: Id)
    ensures RegisterPlan(acc, req, next).reply.Ok? <==>
      Admission(acc.users, req).Ok?
      && (Admission(acc.users, req).value.role == PharmacyRole ==> Truthy(req.address))
  {
    if Admission(acc.users, req).Ok? {
      var u := Admission(acc.users, req).value;
      assert req.name.value != "";
    }
  }

  /** A registered user is stored under the new id, no other user changes,
      and an OTP is sent. */
  lemma RegisteredUser(acc: Accounts, req: RegisterRequest, next: Id)
    requires RegisterPlan(acc, req, next).reply.Ok?
    ensures var r := RegisterPlan(acc, req, next);
      r.otpSent && r.reply.value.userId == next
      && r.after.users == acc.users[next := Admission(acc.users, req).value]
  {
  }

  /** Registration keeps phone numbers unique. */
  lemma RegisterKeepsPhonesUnique(acc: Accounts, req: RegisterRequest, next: Id)
    requires UniquePhones(acc.users) && IdsBelow(acc, next)
    ensures UniquePhones(RegisterPlan(acc, req, next).after.users)
  {
    if RegisterPlan(acc, req, next).reply.Ok? {
      AdmittedUser(acc.users, req);
      RegisteredUser(acc, req, next);
      var u := Admission(acc.users, req).value;
      assert next !in acc.users;
      InsertKeepsPhonesUnique(acc.users, next, u);
    }
  }

  /** A user stored under a fresh id with a phone no stored user has keeps phones unique. */
  lemma InsertKeepsPhonesUnique(users: map<Id, User>, next: Id, u: User)
    requires UniquePhones(users) && next !in users
    requires forall k :: k in users ==> users[k].phone != u.phone
    ensures UniquePhones(users[next := u])
  {
    var after := users[next := u];
    forall a, b | a in after && b in after && after[a].phone == after[b].phone
      ensures a == b
    {
      if a != next && b != next {
        assert users[a].phone == users[b].phone;
      }
    }
  }

  /** The profile a new user gets names that user and is of its role's kind. */
  lemma ProfileForOwner(role: Role, userId: Id, name: string, address: Option<string>)
    requires ProfileFor(role, userId, name, address).Some?
    ensures var p := ProfileFor(role, userId, name, address).value;
      (role == AdminRole <==> p.NoProfile?) && (p.PatientProfile? <==> role == PatientRole)
      && (p.DoctorProfile? <==> role == DoctorRole) && (p.PharmacyProfile? <==> role == PharmacyRole)
      && (!p.NoProfile? ==> ProfileOwner(p) == Some(userId))
  {
  }

  /** `after` keeps every user and profile of `acc`. */
  predicate Extends(acc: Accounts, after: Accounts) {
    (forall k :: k in acc.users ==> k in after.users && after.users[k] == acc.users[k])
    && (forall k :: k in acc.patients ==> k in after.patients && after.patients[k] == acc.patients[k])
    && (forall k :: k in acc.doctors ==> k in after.doctors && after.doctors[k] == acc.doctors[k])
    && (forall k :: k in acc.pharmacies ==> k in after.pharmacies && after.pharmacies[k] == acc.pharmacies[k])
  }

  lemma ExtendsKeepsProfile(acc: Accounts, after: Accounts, id: Id, role: Role)
    requires Extends(acc, after) && HasOwnProfile(acc, id, role)
    ensures HasOwnProfile(after, id, role)
  {
    match role
    case PatientRole =>
      var k :| k in acc.patients && acc.patients[k].userId == id;
      assert k in after.patients && after.patients[k].userId == id;
    case DoctorRole =>
      var k :| k in acc.doctors && acc.doctors[k].userId == id;
      assert k in after.doctors && after.doctors[k].userId == id;
    case PharmacyRole =>
      var k :| k in acc.pharmacies && acc.pharmacies[k].userId == id;
      assert k in after.pharmacies && after.pharmacies[k].userId == id;
    case AdminRole =>
  }

  lemma AddUserKeepsPatientsOwned(acc: Accounts, next: Id, u: User, profile: RoleProfile)
    requires PatientsOwned(acc) && IdsBelow(acc, next)
    requires !profile.NoProfile? ==> ProfileOwner(profile) == Some(next)
    ensures PatientsOwned(WithNewUser(acc, next, u, profile))
  {
    assert next !in acc.users && next + 1 !in acc.patients;
    assert forall k :: k in acc.patients ==> acc.patients[k].userId != next;
  }

  lemma AddUserKeepsDoctorsOwned(acc: Accounts, next: Id, u: User, profile: RoleProfile)
    requires DoctorsOwned(acc) && IdsBelow(acc, next)
    requires !profile.NoProfile? ==> ProfileOwner(profile) == Some(next)
    ensures DoctorsOwned(WithNewUser(acc, next, u, profile))
  {
    assert next !in acc.users && next + 1 !in acc.doctors;
    assert forall k :: k in acc.doctors ==> acc.doctors[k].userId != next;
  }

  lemma AddUserKeepsPharmaciesOwned(acc: Accounts, next: Id, u: User, profile: RoleProfile)
    requires PharmaciesOwned(acc) && IdsBelow(acc, next)
    requires !profile.NoProfile? ==> ProfileOwner(profile) == Some(next)
    ensures PharmaciesOwned(WithNewUser(acc, next, u, profile))
  {
    assert next !in acc.users && next + 1 !in acc.pharmacies;
    assert forall k :: k in acc.pharmacies ==> acc.pharmacies[k].userId != next;
  }

  /** Storing a new user together with a profile of its role's kind keeps
      every user at exactly one profile of its kind. */
  lemma AddUserWithProfile(acc: Accounts, next: Id, u: User, profile: RoleProfile)
    requires ProfilesComplete(acc) && IdsBelow(acc, next)
    requires profile.PatientProfile? <==> u.role == PatientRole
    requires profile.DoctorProfile? <==> u.role == DoctorRole
    requires profile.PharmacyProfile? <==> u.role == PharmacyRole
    requires !profile.NoProfile? ==> ProfileOwner(profile) == Some(next)
    ensures ProfilesComplete(WithNewUser(acc, next, u, profile))
  {
    AddUserKeepsPatientsOwned(acc, next, u, profile);
    AddUserKeepsDoctorsOwned(acc, next, u, profile);
    AddUserKeepsPharmaciesOwned(acc, next, u, profile);
    var after := WithNewUser(acc, next, u, profile);
    assert next !in acc.users;
    NewUserExtends(acc, next, u, profile);
    NewUserHasProfile(acc, next, u, profile);
    forall id | id in after.users ensures HasOwnProfile(after, id, after.users[id].role) {
      if id != next {
        ExtendsKeepsProfile(acc, after, id, acc.users[id].role);
      }
    }
  }

  lemma NewUserExtends(acc: Accounts, next: Id, u: User, profile: RoleProfile)
    requires IdsBelow(acc, next)
    ensures Extends(acc, WithNewUser(acc, next, u, profile))
  {
    assert next !in acc.users;
    assert next + 1 !in acc.patients && next + 1 !in acc.doctors && next + 1 !in acc.pharmacies;
  }

  lemma NewUserHasProfile(acc: Accounts, next: Id, u: User, profile: RoleProfile)
    requires profile.PatientProfile? <==> u.role == PatientRole
    requires profile.DoctorProfile? <==> u.role == DoctorRole
    requires profile.PharmacyProfile? <==> u.role == PharmacyRole
    requires !profile.NoProfile? ==> ProfileOwner(profile) == Some(next)
    ensures HasOwnProfile(WithNewUser(acc, next, u, profile), next, u.role)
  {
    var after := WithNewUser(acc, next, u, profile);
    match profile
    case PatientProfile(p) => assert after.patients[next + 1].userId == next;
    case DoctorProfile(d) => assert after.doctors[next + 1].userId == next;
    case PharmacyProfile(p) => assert after.pharmacies[next + 1].userId == next;
    case NoProfile =>
  }

  /** Registration keeps every user at exactly one profile of its kind. */
  lemma RegisterKeepsProfilesComplete(acc: Accounts, req: RegisterRequest, next: Id)
    requires ProfilesComplete(acc) && IdsBelow(acc, next)
    ensures ProfilesComplete(RegisterPlan(acc, req, next).after)
  {
    if RegisterPlan(acc, req, next).reply.Ok? {
      var u := Admission(acc.users, req).value;
      var profile := ProfileFor(u.role, next, req.name.value, req.address).value;
      ProfileForOwner(u.role, next, req.name.value, req.address);
      AddUserWithProfile(acc, next, u, profile);
    }
  }

  lemma RegisterKeepsInvariants(acc: Accounts, req: RegisterRequest, next: Id)
    requires IdsBelow(acc, next)
    ensures ProfilesComplete(acc) ==> ProfilesComplete(RegisterPlan(acc, req, next).after)
    ensures UniquePhones(acc.users) ==> UniquePhones(RegisterPlan(acc, req, next).after.users)
  {
    if ProfilesComplete(acc) {
      RegisterKeepsProfilesComplete(acc, req, next);
    }
    if UniquePhones(acc.users) {
      RegisterKeepsPhonesUnique(acc, req, next);
    }
  }

  function AccountsOf(db: Database): Accounts
    reads db
  {
    Accounts(db.users, db.patients, db.doctors, db.pharmacies)
  }

  lemma AccountsIdsBelow(db: Database)
    requires db.Valid()
    ensures IdsBelow(AccountsOf(db), db.nextId)
  {
  }

  /** The two writes of a registration: the user, then its profile under the next id. */
  method StoreUserAndProfile(db: Database, user: User, profile: RoleProfile) returns (id: Id)
    requires db.Valid()
    modifies db`users, db`patients, db`doctors, db`pharmacies, db`nextId
    ensures db.Valid() && id == old(db.nextId)
    ensures AccountsOf(db) == WithNewUser(old(AccountsOf(db)), id, user, profile)
  {
    ghost var stored := AccountsOf(db).(users := db.users[db.nextId := user]);
    id := db.InsertUser(user);
    assert AccountsOf(db) == stored;
    match profile {
      case PatientProfile(p) =>
        var _ := db.InsertPatient(p);
        assert AccountsOf(db) == stored.(patients := stored.patients[id + 1 := p]);
      case DoctorProfile(d) =>
        var _ := db.InsertDoctor(d);
        assert AccountsOf(db) == stored.(doctors := stored.doctors[id + 1 := d]);
      case PharmacyProfile(p) =>
        var _ := db.InsertPharmacy(p);
        assert AccountsOf(db) == stored.(pharmacies := stored.pharmacies[id + 1 := p]);
      case NoProfile =>
    }
  }

  /** `register` on the store, as written: the user is stored first, so a
      profile that fails validation leaves it behind with a 500 (see
      `RegisterAsWritten`; `RegisterPlanAgrees` relates it to the corrected
      `RegisterPlan`). */
  method Register(db: Database, otp: OtpStore, req: RegisterRequest, now: int)
    returns (reply: Reply<Registered>)
    requires db.Valid()
    modifies db`users, db`patients, db`doctors, db`pharmacies, db`nextId, otp
    ensures db.Valid()
    ensures var r := RegisterAsWritten(old(AccountsOf(db)), req, old(db.nextId));
      reply == r.reply && AccountsOf(db) == r.after
      && otp.entries == (if r.otpSent then SendStep(old(otp.entries), req.phone.value, now) else old(otp.entries))
  {
    var user := Admission(db.users, req);
    if user.Fail? {
      return Fail(user.failure);
    }
    AsWrittenAdmitted(AccountsOf(db), req, db.nextId);
    reply := StoreAdmitted(db, otp, user.value, req.name.value, req.address, req.phone.value, now);
  }

  /** The writes of `register` past admission, in the source's order: the
      user, then its profile; when the profile is refused the user stays
      behind and the reply is a 500. */
  method StoreAdmitted(db: Database, otp: OtpStore, user: User, name: string, address: Option<string>, phone: string, now: int)
    returns (reply: Reply<Registered>)
    requires db.Valid()
    modifies db`users, db`patients, db`doctors, db`pharmacies, db`nextId, otp
    ensures db.Valid()
    ensures var p := ProfileFor(user.role, old(db.nextId), name, address);
      if p.None? then
        reply == Fail(ServerError) && otp.entries == old(otp.entries)
        && AccountsOf(db) == old(AccountsOf(db)).(users := old(db.users)[old(db.nextId) := user])
      else
        reply == Ok(Registered(old(db.nextId), user.phone, user.name, user.role))
        && AccountsOf(db) == WithNewUser(old(AccountsOf(db)), old(db.nextId), user, p.value)
        && otp.entries == SendStep(old(otp.entries), phone, now)
  {
    var profile := ProfileFor(user.role, db.nextId, name, address);
    if profile.None? {
      ghost var stored := AccountsOf(db).(users := db.users[db.nextId := user]);
      var _ := db.InsertUser(user);
      assert AccountsOf(db) == stored;
      return Fail(ServerError);
    }
    var id := StoreUserAndProfile(db, user, profile.value);
    var _ := otp.Send(phone, now);
    return Ok(Registered(id, user.phone, user.name, user.role));
  }

  /** Past admission, `register` as written stores the user and then either
      fails on the profile or stores it too. */
  lemma AsWrittenAdmitted(acc: Accounts, req: RegisterRequest, next: Id)
    requires Admission(acc.users, req).Ok?
    ensures var u := Admission(acc.users, req).value;
      var p := ProfileFor(u.role, next, req.name.value, req.address);
      RegisterAsWritten(acc, req, next)
        == if p.None? then Registration(Fail(ServerError), acc.(users := acc.users[next := u]), false)
           else Registration(Ok(Registered(next, u.phone, u.name, u.role)), WithNewUser(acc, next, u, p.value), true)
  {
  }

  // ---------------------------------------------------------------- OTP and login

  /** `sendOTPToUser`: 400 without a phone, 404 for an unknown one. */
  function SendOtpDecision(users: map<Id, User>, phone: Option<string>): (r: Reply<Ack>)
    ensures r.Ok? <==> Truthy(phone) && exists k :: k in users && users[k].phone == Trim(phone.value)
    ensures r.Fail? ==> r.failure == (if Truthy(phone) then NotFound else BadRequest)
  {
    if !Truthy(phone) then Fail(BadRequest)
    else
      var found := FindOne(users, WithPhone(phone.value));
      if found.None? then
        assert forall k :: k in users ==> !WithPhone(phone.value)(users[k]);
        Fail(NotFound)
      else Ok(Ack)
  }

  method SendOtpToUser(db: Database, otp: OtpStore, phone: Option<string>, now: int)
    returns (reply: Reply<Ack>)
    modifies otp
    ensures reply == SendOtpDecision(db.users, phone)
    ensures otp.entries == (if reply.Ok? then SendStep(old(otp.entries), phone.value, now) else old(otp.entries))
  {
    if !Truthy(phone) {
      return Fail(BadRequest);
    }
    var user := FindOne(db.users, WithPhone(phone.value));
    if user.None? {
      return Fail(NotFound);
    }
    var _ := otp.Send(phone.value, now);
    return Ok(Ack);
  }

  /** The 200 reply of a login. */
  datatype Session = Session(userId: Id, user: User, accessToken: string, refreshToken: string)

  datatype LoginOutcome = LoginOutcome(reply: Reply<Session>, users: map<Id, User>, otp: map<string, Entry>)

  /** `verifyOTPAndLogin`: the user is looked up before the code is checked;
      a valid code marks the user verified and stores the new refresh token. */
  function LoginStep(users: map<Id, User>, otp: map<string, Entry>, ts: TokenService,
                     phone: Option<string>, code: Option<string>, now: int): (o: LoginOutcome)
    ensures o.reply.Ok? ==> o.reply.value.userId in users
  {
    if !Truthy(phone) || !Truthy(code) then LoginOutcome(Fail(BadRequest), users, otp)
    else
      var found := FindOne(users, WithPhone(phone.value));
      if found.None? then LoginOutcome(Fail(NotFound), users, otp)
      else
        var v := VerifyStep(otp, phone.value, code.value, now);
        if !v.ok then LoginOutcome(Fail(BadRequest), users, v.store)
        else
          var id := found.value.id;
          var p := PayloadOf(id, found.value.val);
          var refresh := ts.signRefresh(p);
          var user := found.value.val.(isVerified := true, refreshToken := Some(refresh));
          LoginOutcome(Ok(Session(id, user, ts.signAccess(p), refresh)), users[id := user], v.store)
  }

  /** An unknown phone is 404 and consumes no OTP entry. */
  lemma LoginUnknownUser(users: map<Id, User>, otp: map<string, Entry>, ts: TokenService,
                         phone: string, code: string, now: int)
    requires phone != "" && code != ""
    requires forall k :: k in users ==> users[k].phone != Trim(phone)
    ensures LoginStep(users, otp, ts, Some(phone), Some(code), now) == LoginOutcome(Fail(NotFound), users, otp)
  {
  }

  /** An invalid code is 400 and leaves the users unchanged. */
  lemma LoginInvalidCode(users: map<Id, User>, otp: map<string, Entry>, ts: TokenService,
                         phone: string, code: string, now: int)
    requires phone != "" && code != ""
    requires !VerifyStep(otp, phone, code, now).ok
    ensures LoginStep(users, otp, ts, Some(phone), Some(code), now).reply.Fail?
    ensures LoginStep(users, otp, ts, Some(phone), Some(code), now).users == users
  {
    var found := FindOne(users, WithPhone(phone));
    if found.Some? {
      assert LoginStep(users, otp, ts, Some(phone), Some(code), now)
          == LoginOutcome(Fail(BadRequest), users, VerifyStep(otp, phone, code, now).store);
    }
  }

  /** A login verifies the user, stores the refresh token it hands out, and
      signs both tokens with that user's claims; nothing else changes. */
  lemma LoginSession(users: map<Id, User>, otp: map<string, Entry>, ts: TokenService,
                     phone: Option<string>, code: Option<string>, now: int)
    requires LoginStep(users, otp, ts, phone, code, now).reply.Ok?
    ensures var o := LoginStep(users, otp, ts, phone, code, now);
      var s := o.reply.value;
      s.userId in users && users[s.userId].phone == Trim(phone.value)
      && VerifyStep(otp, phone.value, code.value, now).ok
      && s.accessToken == ts.signAccess(PayloadOf(s.userId, users[s.userId]))
      && s.refreshToken == ts.signRefresh(PayloadOf(s.userId, users[s.userId]))
      && s.user == users[s.userId].(isVerified := true, refreshToken := Some(s.refreshToken))
      && o.users == users[s.userId := s.user]
  {
    var found := FindOne(users, WithPhone(phone.value));
    assert found.Some?;
    var id, u := found.value.id, found.value.val;
    assert id in users && u == users[id] && HasPhone(u, phone.value);
    assert VerifyStep(otp, phone.value, code.value, now).ok;
  }

  method VerifyOtpAndLogin(db: Database, otp: OtpStore, ts: TokenService,
                           phone: Option<string>, code: Option<string>, now: int)
    returns (reply: Reply<Session>)
    requires db.Valid()
    modifies db`users, otp
    ensures db.Valid()
    ensures LoginOutcome(reply, db.users, otp.entries) == LoginStep(old(db.users), old(otp.entries), ts, phone, code, now)
  {
    if !Truthy(phone) || !Truthy(code) {
      return Fail(BadRequest);
    }
    var found := FindOne(db.users, WithPhone(phone.value));
    if found.None? {
      return Fail(NotFound);
    }
    var ok := otp.Verify(phone.value, code.value, now);
    if !ok {
      return Fail(BadRequest);
    }
    var id, user := found.value.id, found.value.val;
    user := user.(isVerified := true);
    var payload := PayloadOf(id, user);
    var accessToken := ts.signAccess(payload);
    var refreshToken := ts.signRefresh(payload);
    user := user.(refreshToken := Some(refreshToken));
    db.ReplaceUser(id, user);
    return Ok(Session(id, user, accessToken, refreshToken));
  }

  // ---------------------------------------------------------------- refresh and logout

  /** `refreshAccessToken`: a fresh access token for the stored user, only
      when the presented refresh token verifies and is the one on file. The
      stored token is not rotated. */
  function RefreshDecision(users: map<Id, User>, ts: TokenService, token: Option<string>): (r: Reply<string>)
    ensures r.Fail? ==> r.failure == (if Truthy(token) then Unauthorized else BadRequest)
  {
    if !Truthy(token) then Fail(BadRequest)
    else
      var decoded := ts.verifyRefresh(token.value);
      if decoded.None? then Fail(Unauthorized)
      else
        var id := decoded.value.userId;
        if id !in users || users[id].refreshToken != Some(token.value) then Fail(Unauthorized)
        else Ok(ts.signAccess(PayloadOf(id, users[id])))
  }

  /** Refresh succeeds exactly for a verifying token that is the one stored
      for the user it names. */
  lemma RefreshSucceedsIff(users: map<Id, User>, ts: TokenService, token: string)
    ensures RefreshDecision(users, ts, Some(token)).Ok? <==>
      token != "" && ts.verifyRefresh(token).Some?
      && ts.verifyRefresh(token).value.userId in users
      && users[ts.verifyRefresh(token).value.userId].refreshToken == Some(token)
  {
  }

  /** The refresh token handed out at login refreshes, with the claims of
      the logged-in user. */
  lemma LoginThenRefresh(users: map<Id, User>, otp: map<string, Entry>, ts: TokenService,
                         phone: Option<string>, code: Option<string>, now: int)
    requires LoginStep(users, otp, ts, phone, code, now).reply.Ok?
    requires var s := LoginStep(users, otp, ts, phone, code, now).reply.value;
      RoundTrips(ts, PayloadOf(s.userId, users[s.userId])) && s.refreshToken != ""
    ensures var o := LoginStep(users, otp, ts, phone, code, now);
      var s := o.reply.value;
      RefreshDecision(o.users, ts, Some(s.refreshToken)) == Ok(ts.signAccess(PayloadOf(s.userId, users[s.userId])))
  {
    LoginSession(users, otp, ts, phone, code, now);
  }

  /** A login replaces the stored token: any other refresh token naming
      that user stops working. */
  lemma LoginEndsOtherSessions(users: map<Id, User>, otp: map<string, Entry>, ts: TokenService,
                               phone: Option<string>, code: Option<string>, now: int, earlier: string)
    requires LoginStep(users, otp, ts, phone, code, now).reply.Ok?
    requires earlier != LoginStep(users, otp, ts, phone, code, now).reply.value.refreshToken
    requires ts.verifyRefresh(earlier).Some?
    requires ts.verifyRefresh(earlier).value.userId == LoginStep(users, otp, ts, phone, code, now).reply.value.userId
    ensures RefreshDecision(LoginStep(users, otp, ts, phone, code, now).users, ts, Some(earlier)).Fail?
  {
    LoginSession(users, otp, ts, phone, code, now);
  }

  /** `logout`: the stored refresh token is cleared; a missing user is no error. */
  function LogoutStep(users: map<Id, User>, userId: Id): (r: map<Id, User>)
    ensures r.Keys == users.Keys
    ensures userId in users ==> r[userId] == users[userId].(refreshToken := None)
    ensures forall k :: k in users && k != userId ==> r[k] == users[k]
  {
    if userId in users then users[userId := users[userId].(refreshToken := None)] else users
  }

  /** After logout no refresh token naming that user works. */
  lemma LogoutThenRefreshFails(users: map<Id, User>, ts: TokenService, userId: Id, token: string)
    requires ts.verifyRefresh(token).Some? && ts.verifyRefresh(token).value.userId == userId
    ensures RefreshDecision(LogoutStep(users, userId), ts, Some(token)).Fail?
  {
  }

  method Logout(db: Database, caller: Payload) returns (reply: Reply<Ack>)
    requires db.Valid()
    modifies db`users
    ensures db.Valid()
    ensures reply == Ok(Ack)
    ensures db.users == LogoutStep(old(db.users), caller.userId)
  {
    if caller.userId in db.users {
      db.users := db.users[caller.userId := db.users[caller.userId].(refreshToken := None)];
    }
    return Ok(Ack);
  }

  // ---------------------------------------------------------------- own user document

  /** `getMe`. */
  function GetMe(users: map<Id, User>, caller: Payload): (r: Reply<User>)
    ensures r.Ok? <==> caller.userId in users
    ensures r.Ok? ==> r.value == users[caller.userId]
    ensures r.Fail? ==> r.failure == NotFound
  {
    if caller.userId !in users then Fail(NotFound) else Ok(users[caller.userId])
  }

  /** The body of `updateProfile`; `None` is an absent or falsy field. */
  datatype ProfileChanges = ProfileChanges(
    name: Option<string>,
    email: Option<string>,
    address: Option<string>,
    language: Option<string>)

  /** The fields assigned, each only when truthy, through the schema's setters. */
  function ApplyChanges(u: User, c: ProfileChanges): User {
    u.(name := if Truthy(c.name) then Trim(c.name.value) else u.name,
       email := if Truthy(c.email) then Some(NormalizeEmail(c.email.value)) else u.email,
       address := if Truthy(c.address) then c.address else u.address,
       language := if Truthy(c.language) then c.language.value else u.language)
  }

  /** `updateProfile`: 404 without a user, 500 when the save's validators refuse. */
  function UpdateProfileDecision(users: map<Id, User>, caller: Payload, c: ProfileChanges): (r: Reply<User>)
    ensures r.Ok? ==> UserValid(r.value)
  {
    if caller.userId !in users then Fail(NotFound)
    else
      var u := ApplyChanges(users[caller.userId], c);
      if !UserValid(u) then Fail(ServerError) else Ok(u)
  }

  /** Only name, email, address and language can change, each only when a
      truthy value is given; phone, role, verification and the session are
      untouched. */
  lemma UpdateProfileFrame(users: map<Id, User>, caller: Payload, c: ProfileChanges)
    requires UpdateProfileDecision(users, caller, c).Ok?
    ensures var u := users[caller.userId];
      var v := UpdateProfileDecision(users, caller, c).value;
      v.phone == u.phone && v.role == u.role && v.isVerified == u.isVerified
      && v.refreshToken == u.refreshToken && v.isActive == u.isActive && v.gender == u.gender
      && (!Truthy(c.name) ==> v.name == u.name) && (Truthy(c.name) ==> v.name == Trim(c.name.value))
      && (!Truthy(c.email) ==> v.email == u.email)
      && (!Truthy(c.address) ==> v.address == u.address) && (Truthy(c.address) ==> v.address == c.address)
      && (!Truthy(c.language) ==> v.language == u.language)
      && (Truthy(c.language) ==> v.language == c.language.value)
  {
  }

  /** With nothing to change, a valid user is saved as it was. */
  lemma UpdateProfileNothing(users: map<Id, User>, caller: Payload)
    requires caller.userId in users && UserValid(users[caller.userId])
    ensures UpdateProfileDecision(users, caller, ProfileChanges(None, None, None, None)) == Ok(users[caller.userId])
  {
  }

  /** Replacing a user by one with the same phone keeps phones unique. */
  lemma SamePhoneKeepsUnique(users: map<Id, User>, id: Id, u: User)
    requires UniquePhones(users) && id in users && u.phone == users[id].phone
    ensures UniquePhones(users[id := u])
  {
    var after := users[id := u];
    forall a, b | a in after && b in after && after[a].phone == after[b].phone ensures a == b {
      assert users[a].phone == after[a].phone && users[b].phone == after[b].phone;
    }
  }

  method UpdateProfile(db: Database, caller: Payload, c: ProfileChanges) returns (reply: Reply<User>)
    requires db.Valid()
    modifies db`users
    ensures db.Valid()
    ensures reply == UpdateProfileDecision(old(db.users), caller, c)
    ensures db.users == (if reply.Ok? then old(db.users)[caller.userId := reply.value] else old(db.users))
    ensures UniquePhones(old(db.users)) ==> UniquePhones(db.users)
  {
    if caller.userId !in db.users {
      return Fail(NotFound);
    }
    var user := ApplyChanges(db.users[caller.userId], c);
    if !UserValid(user) {
      return Fail(ServerError);
    }
    if UniquePhones(db.users) {
      SamePhoneKeepsUnique(db.users, caller.userId, user);
    }
    db.users := db.users[caller.userId := user];
    return Ok(user);
  }
}
