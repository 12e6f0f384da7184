/** The `User` document: the account every role shares, with the schema's
    setters (trim, lower-case), defaults and validators. */
module Users {
  import opened Common
  import opened Text

  datatype Role = PatientRole | DoctorRole | PharmacyRole | AdminRole

  function RoleName(r: Role): string {
    match r
    case PatientRole => "patient"
    case DoctorRole => "doctor"
    case PharmacyRole => "pharmacy"
    case AdminRole => "admin"
  }

  /** The `enum` validator: exactly the four role names are accepted. */
  function ParseRole(s: string): (r: Option<Role>)
    ensures r.Some? ==> RoleName(r.value) == s
    ensures r.None? ==> forall role :: RoleName(role) != s
  {
    if s == "patient" then Some(PatientRole)
    else if s == "doctor" then Some(DoctorRole)
    else if s == "pharmacy" then Some(PharmacyRole)
    else if s == "admin" then Some(AdminRole)
    else None
  }

  /** A role that is left out defaults to patient; a given one must be in the enum. */
  function RoleOrDefault(s: Option<string>): (r: Option<Role>)
    ensures s.None? ==> r == Some(PatientRole)
    ensures s.Some? ==> r == ParseRole(s.value)
  {
    if s.None? then Some(PatientRole) else ParseRole(s.value)
  }

  datatype Gender = Male | Female | Other

  function GenderName(g: Gender): string {
    match g
    case Male => "male"
    case Female => "female"
    case Other => "other"
  }

  function ParseGender(s: string): (r: Option<Gender>)
    ensures r.Some? ==> GenderName(r.value) == s
    ensures r.None? ==> forall g :: GenderName(g) != s
  {
    if s == "male" then Some(Male)
    else if s == "female" then Some(Female)
    else if s == "other" then Some(Other)
    else None
  }

  datatype User = User(
    phone: string,
    email: Option<string>,
    name: string,
    role: Role,
    isVerified: bool,
    isActive: bool,
    otpAttempts: nat,
    refreshToken: Option<string>,
    profileImage: Option<string>,
    gender: Option<Gender>,
    address: Option<string>,
    language: string)

  /** `^[0-9]{10}$`: exactly ten ASCII digits. */
  predicate ValidPhone(p: string) {
    |p| == 10 && AllDigits(p)
  }

  /** `^\S+@\S+\.\S+$`: no blank anywhere, an '@' after at least one
      character, and a later '.' with at least one character on each side. */
  predicate EmailMatches(e: string) {
    NoWhitespace(e)
    && exists i, j :: 0 < i && i + 1 < j && j + 1 < |e| && e[i] == '@' && e[j] == '.'
  }

  /** The `match` validator lets the empty string through. */
  predicate EmailAccepted(e: string) {
    e == "" || EmailMatches(e)
  }

  /** The `trim` and `lowercase` setters of the email path. */
  function NormalizeEmail(e: string): string {
    Lower(Trim(e))
  }

  /** What the schema guarantees of every stored user. */
  predicate UserValid(u: User) {
    ValidPhone(u.phone)
    && u.name != "" && Trim(u.name) == u.name
    && (u.email.Some? ==> EmailAccepted(u.email.value) && NormalizeEmail(u.email.value) == u.email.value)
  }

  /** `User.create({phone, name, role, email, address, isVerified: false})`:
      the setters run first, then the validators; any failure rejects the
      whole document. */
  function CreateUser(phone: string, name: string, role: string, email: Option<string>,
                      address: Option<string>): (r: Option<User>)
    ensures r.Some? <==>
      ValidPhone(Trim(phone)) && Trim(name) != "" && ParseRole(role).Some?
      && (email.Some? ==> EmailAccepted(NormalizeEmail(email.value)))
    ensures r.Some? ==> UserValid(r.value)
    ensures r.Some? ==> r.value.phone == Trim(phone) && r.value.name == Trim(name)
                        && RoleName(r.value.role) == role && r.value.address == address
    ensures r.Some? ==> !r.value.isVerified && r.value.isActive && r.value.otpAttempts == 0
                        && r.value.refreshToken.None? && r.value.language == "English"
  {
    var p := Trim(phone);
    var n := Trim(name);
    var e := if email.Some? then Some(NormalizeEmail(email.value)) else None;
    var ro := RoleOrDefault(Some(role));
    if ValidPhone(p) && n != "" && ro.Some? && (e.Some? ==> EmailAccepted(e.value)) then
      TrimIdempotent(name);
      NormalizeEmailIdempotent(email);
      Some(User(p, e, n, ro.value, false, true, 0, None, None, None, address, "English"))
    else None
  }

  /** Normalising an email twice changes nothing. */
  lemma NormalizeEmailIdempotent(email: Option<string>)
    ensures email.Some? ==> NormalizeEmail(NormalizeEmail(email.value)) == NormalizeEmail(email.value)
  {
    if email.Some? {
      TrimIdempotent(email.value);
      LowerTrimCommute(Trim(email.value));
    }
  }

  lemma LowerTrimCommute(t: string)
    requires Trim(t) == t
    ensures Lower(Trim(Lower(t))) == Lower(t)
  {
    var l := Lower(t);
    LowerIdempotent(t);
    if l != [] {
      assert !IsWhitespace(t[0]) && !IsWhitespace(t[|t| - 1]);
      assert !IsWhitespace(l[0]) && !IsWhitespace(l[|l| - 1]);
      assert TrimStart(l) == l;
    }
  }

  /** The address a well-formed email needs: both separators and five characters. */
  lemma EmailShape(e: string)
    requires EmailMatches(e)
    ensures '@' in e && '.' in e && |e| >= 5
  {
    var i, j :| 0 < i && i + 1 < j && j + 1 < |e| && e[i] == '@' && e[j] == '.';
  }

  lemma EmailExamples()
    ensures EmailMatches("a@b.co")
    ensures !EmailMatches("a@b")
    ensures !EmailMatches("a b@c.d")
    ensures !EmailMatches("@b.co")
  {
    var e := "a@b.co";
    assert e[1] == '@' && e[3] == '.';
    assert "a b@c.d"[1] == ' ';
    var f := "@b.co";
    assert forall i :: 0 < i < |f| ==> f[i] != '@';
  }

  /** Phone numbers are unique across the user table (the `unique` index). */
  predicate UniquePhones(users: map<Id, User>) {
    forall a, b :: a in users && b in users && users[a].phone == users[b].phone ==> a == b
  }

  /** `User.findOne({ phone })`: the query value is cast with the `trim` setter. */
  predicate HasPhone(u: User, phone: string) {
    u.phone == Trim(phone)
  }
}
