# JevenCare in Dafny

JevenCare is a telehealth application. Patients register and log in by phone with a one-time code. They browse doctors and book video or chat consultations. They keep health records and buy medicines from pharmacies. Doctors run the consultations they are booked for and write prescriptions. Pharmacies keep their medicine catalogue.

This project models the core of the Express/Mongoose backend: the document schemas, the in-memory OTP service, the authentication middleware, the upload filter, the six controllers and the six routers. It also models the pure logic of four frontend screens: the booking screen, the symptom checker, the medicines screen and the health-record card.

The layout follows the program:

- `common.dfy`, `text.dfy` and `query.dfy` hold the shared vocabulary:
  - the reply and failure codes;
  - the JavaScript string operations the code relies on (`trim`, `toLowerCase`, `includes`, `split`, `parseInt`) on ASCII text;
  - the Mongo query operators over a collection held as a map from id to document (`find`, `findOne`, `countDocuments`, `distinct`, `sort`, `skip`/`limit`).
- `user.dfy`, `appointment.dfy`, `doctor.dfy`, `medicine.dfy`, `health_record.dfy` and `profiles.dfy` are the schemas. Each has a datatype per document, the `enum` parsers, and a validity predicate for what the validators and setters guarantee of a stored document.
- `db.dfy` is the database. `Store.Database` is a class with one map field per collection and an id allocator; ascending ids stand for insertion order.
- `tokens.dfy` describes JWT signing and verification as functions passed in (`TokenService`). `otp.dfy` is the OTP service. It has pure steps (`SendStep`, `VerifyStep`) and the `OtpStore` class that owns the map as a field.
- Each controller file has two parts. The first is a pure decision function, which gives the reply and, for a write, the new state of the collections. The second is a method on the `Database` whose `ensures` ties its reply and its writes to that decision. Lemmas beside them prove what the handler promises: who may see or change what; which writes happen and which do not; that the listing filters, orders and paginates; and the invariants the writes keep.
- `router.dfy` models Express dispatch: the first route whose verb and path match runs its guards in order, then its handler. Each `*_routes.dfy` file is one router's table, with lemmas about which handler each request reaches and under which guards.
- `book_appointment.dfy`, `symptom_checker.dfy`, `medicines_screen.dfy`, `record_card.dfy` and `labels.dfy` model the frontend functions.

Times are integers of milliseconds since the epoch. Money, ratings and coordinates are `real`. The clock, the token secrets and the OTP delivery are parameters.

## Model

| member | source | states |
|---|---|---|
| Common.Failure.Code | jevencare-backend/src/middleware/authMiddleware.ts:12-58 | every failure maps to an HTTP error status in 400..599 (400, 401, 403, 404, 500) |
| Text.Trim | jevencare-backend/src/models/User.ts:41 | the trimmed text neither starts nor ends with whitespace and sits at an offset of the input with only whitespace before and after it, so only leading and trailing whitespace is dropped |
| Text.TrimIdempotent | jevencare-backend/src/models/User.ts:53 | trimming an already trimmed value changes nothing, so a stored name is a fixed point of the `trim` setter |
| Text.TrimNoWhitespace | jevencare-backend/src/models/User.ts:41 | text without any whitespace is left as it is by `trim` |
| Text.Lower | jevencare-backend/src/models/User.ts:47 | lower-casing keeps the length and maps each character to its lower-case form |
| Text.LowerIdempotent | jevencare-backend/src/models/User.ts:47 | lower-casing twice is lower-casing once |
| Text.ContainsIffOccurs | JevenCare-frontend/app/medicines.tsx:25-26 | `includes` holds exactly when the piece occurs at some offset |
| Text.ContainsEmpty | JevenCare-frontend/app/medicines.tsx:25-30 | the empty query is contained in every text, so an empty search keeps everything |
| Text.ContainsIgnoreCaseEmpty | jevencare-backend/src/controllers/medicineController.ts:30-31 | a case-insensitive match of the empty pattern always succeeds |
| Text.MissingCharNotContained | JevenCare-frontend/app/medicines.tsx:25-26 | a piece holding a character the text lacks is not contained in it |
| Text.LongerNotContained | JevenCare-frontend/app/medicines.tsx:25-26 | a piece longer than the text is not contained in it |
| Text.ContainsPastPrefix | jevencare-backend/src/middleware/uploadMiddleware.ts:10-13 | an occurrence cannot start inside a prefix that lacks the piece's first character |
| Text.Split | JevenCare-frontend/components/cards/RecordCard.tsx:40 | `split` gives at least one piece, no piece holds the separator, and every character of a piece comes from the input |
| Text.JoinSplit | JevenCare-frontend/components/cards/RecordCard.tsx:39-42 | joining the pieces of `split` with the same separator gives the input back |
| Text.SplitOfSeparatorFree | JevenCare-frontend/app/book-appointment.tsx:93-94 | text without the separator splits into itself alone |
| Text.SplitAfterPrefix | JevenCare-frontend/app/book-appointment.tsx:93-94 | a separator-free prefix followed by the separator contributes exactly one leading piece |
| Text.LastPiece | jevencare-backend/src/controllers/healthRecordController.ts:246 | `split(sep).pop()` never holds the separator |
| Text.SplitLast | jevencare-backend/src/controllers/healthRecordController.ts:246 | the piece after the last separator is what `pop` returns |
| Text.NatToString | JevenCare-frontend/app/medicines.tsx:124-127 | a count prints as a non-empty run of decimal digits |
| Text.DigitsValueOfNatToString | JevenCare-frontend/app/medicines.tsx:124-127 | reading the printed digits back gives the count |
| Text.LeadingDigits | JevenCare-frontend/app/book-appointment.tsx:95 | the leading run of digits is a prefix of the text and is followed by a non-digit or the end |
| Text.ParseInt | JevenCare-frontend/app/book-appointment.tsx:95 | `parseInt` is NaN (None) exactly when no digit follows the leading blanks |
| Query.SortedKeys | jevencare-backend/src/controllers/doctorController.ts:46 | the ids of a collection, each once, in strictly ascending (insertion) order |
| Query.MinimumExists | jevencare-backend/src/controllers/doctorController.ts:46 | a non-empty set of ids has a least element |
| Query.Docs | jevencare-backend/src/controllers/doctorController.ts:46 | `find` lists every stored document once with its own value, in ascending id order |
| Query.DocIndex | jevencare-backend/src/controllers/doctorController.ts:46 | every stored document appears in the natural-order listing, at a position the lemma returns |
| Query.DocsComplete | jevencare-backend/src/controllers/doctorController.ts:46 | nothing stored is missing from the natural-order listing |
| Query.FirstMatch | jevencare-backend/src/controllers/authController.ts:30 | the position of the first passing document: every earlier one fails, and the one found passes |
| Query.FindOne | jevencare-backend/src/controllers/authController.ts:30-31 | `findOne` finds nothing exactly when no stored document passes; otherwise it returns a stored passing document, and every document with a smaller id fails |
| Query.Filter | jevencare-backend/src/controllers/doctorController.ts:53-58 | a filtered result keeps exactly the passing elements and adds none |
| Query.FilterAgrees | jevencare-backend/src/controllers/doctorController.ts:53-58 | two filters that agree on every element select the same result |
| Query.FilterKeeps | jevencare-backend/src/controllers/doctorController.ts:53-58 | a property of every input element holds of every kept element, and every kept element passes |
| Query.FilterIsSubsequence | jevencare-backend/src/controllers/doctorController.ts:53-58 | filtering keeps the input order: the result is a subsequence of the input |
| Query.FilterMembership | jevencare-backend/src/controllers/medicineController.ts:28-37 | a value is in the result exactly when it is in the input and passes |
| Query.FilterAll | JevenCare-frontend/app/medicines.tsx:23-31 | a filter every element passes keeps the whole list |
| Query.FilterSorted | jevencare-backend/src/controllers/doctorController.ts:53-58 | filtering an ordered list keeps it ordered |
| Query.Count | jevencare-backend/src/controllers/doctorController.ts:60 | `countDocuments` is the length of the filtered result |
| Query.Distinct | jevencare-backend/src/controllers/doctorController.ts:187 | `distinct` lists every value of the input, and no value twice |
| Query.DistinctFilter | jevencare-backend/src/controllers/doctorController.ts:187-191 | filtering a duplicate-free list keeps it duplicate-free |
| Query.Project | jevencare-backend/src/controllers/medicineController.ts:308 | the projection keeps the length and takes the field of each document in order |
| Query.ValueStored | jevencare-backend/src/controllers/medicineController.ts:308 | a value is projected exactly when some stored document has it |
| Query.DistinctNonEmptyComplete | jevencare-backend/src/controllers/medicineController.ts:308-312 | a value is listed exactly when it is non-empty and some stored document has it |
| Query.DistinctNonEmptyNoDuplicates | jevencare-backend/src/controllers/medicineController.ts:308-312 | no value is listed twice |
| Query.DocsOfTwo | jevencare-backend/src/controllers/doctorController.ts:46 | a collection of two documents lists them in id order |
| Query.Insert | jevencare-backend/src/controllers/doctorController.ts:48 | inserting into a list adds exactly that element (as a multiset) |
| Query.SortBy | jevencare-backend/src/controllers/doctorController.ts:48 | `sort` permutes its input: the same length and the same multiset |
| Query.SortBySorted | jevencare-backend/src/controllers/doctorController.ts:48 | for a total, transitive order, `sort` returns an ordered list |
| Query.InsertSorted | jevencare-backend/src/controllers/doctorController.ts:48 | inserting into an ordered list keeps it ordered |
| Query.SortTwo | jevencare-backend/src/controllers/doctorController.ts:48 | two elements already in order stay as they are (stability on ties) |
| Query.LexLessTrichotomy | jevencare-backend/src/controllers/medicineController.ts:62 | string order is a strict total order: exactly one of less, equal or greater |
| Query.LexLessTransitive | jevencare-backend/src/controllers/medicineController.ts:62 | string order is transitive |
| Query.PageOf | jevencare-backend/src/controllers/doctorController.ts:43-50 | `skip((page-1)*limit).limit(limit)` returns at most `limit` elements, each the element at its offset past the skip, and a full page when enough remain |
| Query.PageCount | jevencare-backend/src/controllers/doctorController.ts:68 | `Math.ceil(total / limit)` pages are the fewest that hold `total` elements |
| Query.ElementOnPage | jevencare-backend/src/controllers/doctorController.ts:43-68 | every element of the ordered result sits on page `k / limit + 1`, within the reported page count, at offset `k % limit` |
| Query.Paginate | jevencare-backend/src/controllers/doctorController.ts:43-68 | a listing reports the total of the whole result and the requested page; its items are that page, and the page count covers the total |
| Query.PageOfSorted | jevencare-backend/src/controllers/doctorController.ts:48-50 | a page of an ordered result is ordered |
| Users.UserValid | jevencare-backend/src/models/User.ts:36-54 | what the schema holds of every stored user: a ten-digit phone, a non-empty name with no blank at either end, and an email, when present, that the pattern accepts and that is already trimmed and lower-cased; kept by CreateUser, AdmittedUser, UpdateProfileDecision and UpdateProfile |
| Users.NormalizeEmail | jevencare-backend/src/models/User.ts:44-47 | the `trim` and `lowercase` setters on an email; NormalizeEmailIdempotent proves applying them twice changes nothing, which CreateUser and ApplyChanges use |
| Users.EmailAccepted | jevencare-backend/src/models/User.ts:48 | the `match` validator: the empty string or a text of the pattern `^\S+@\S+\.\S+$`; EmailShape and EmailExamples state what it accepts and refuses, and CreateUser refuses any other email |
| Users.ParseRole | jevencare-backend/src/models/User.ts:55-59 | the role `enum`: a name is accepted exactly when it names one of the four roles, and parses to it |
| Users.RoleOrDefault | jevencare-backend/src/models/User.ts:58 | an absent role defaults to patient; a given one must be in the enum |
| Users.ParseGender | jevencare-backend/src/models/User.ts:90-93 | the gender `enum` accepts exactly "male", "female" and "other" |
| Users.CreateUser | jevencare-backend/src/models/User.ts:37-59 | `User.create` succeeds exactly when the trimmed phone is ten digits, the trimmed name is non-empty, the role is in the enum and a given email, trimmed and lower-cased, is empty or matches the pattern; a created user is valid, with the trimmed phone and name, unverified and without a refresh token |
| Users.NormalizeEmailIdempotent | jevencare-backend/src/models/User.ts:44-49 | the `trim` and `lowercase` setters applied twice give what they give once |
| Users.EmailShape | jevencare-backend/src/models/User.ts:48 | an email the pattern accepts holds an '@' and a '.' and has at least five characters |
| Users.EmailExamples | jevencare-backend/src/models/User.ts:48 | the pattern accepts "a@b.co" and refuses "a@b", a blank inside, and a missing local part |
| Appointments.AppointmentValid | jevencare-backend/src/models/Appointment.ts:54-67 | `required` on the symptoms and on every prescribed medicine's name, dosage and duration; BookedAppointment shows that a booking is stored only when it holds |
| Appointments.ParseStatus | jevencare-backend/src/models/Appointment.ts:44-48 | the status `enum` accepts exactly the four names |
| Appointments.ParseKind | jevencare-backend/src/models/Appointment.ts:49-53 | the consultation type `enum` accepts exactly "video" and "chat" |
| Appointments.AddToFreeSlot | jevencare-backend/src/models/Appointment.ts:35-48 | adding an appointment to a slot no active appointment of that doctor holds keeps every doctor's instant booked at most once |
| Doctors.DoctorValid | jevencare-backend/src/models/Doctor.ts:26-52 | the validators of a doctor profile: non-empty specialization, experience and fee at least 0, rating within 0 to 5; NewDoctor meets it, UpdateDecision, UpdateFailures and UpdateWritesOwnProfile show that an update is written only when it holds |
| Doctors.NewDoctor | jevencare-backend/src/controllers/authController.ts:52-61 | the profile registration creates for a doctor passes the doctor validators and carries the registration defaults (General Physician, no experience, fee 300, English and Hindi, available, unrated) |
| Medicines.MedicineValid | jevencare-backend/src/models/Medicine.ts:27-59 | the validators after the `trim` setters: name and generic name non-empty and trimmed, manufacturer, description and category non-empty, price and stock at least 0; Validate, AddedMedicine and UpdateOwnerOnly show a stored medicine meets it |
| Medicines.Validate | jevencare-backend/src/models/Medicine.ts:20-69 | saving a medicine trims its name and generic name and then accepts it only if every required field is present and price and stock are at least 0; an already valid document is saved unchanged |
| HealthRecords.RecordValid | jevencare-backend/src/models/HealthRecord.ts:38-45 | `required` on title and description: both non-empty; UploadedRecord shows that a stored upload meets it |
| HealthRecords.ParseType | jevencare-backend/src/models/HealthRecord.ts:33-37 | the record type `enum` accepts exactly the five names |
| Profiles.PharmacyValid | jevencare-backend/src/models/Pharmacy.ts:24-31 | `required` on the pharmacy name and address: both non-empty; CreatePharmacy, UpdatePharmacyDecision and UpdateKeepsPharmacyValid show it holds for every stored pharmacy |
| Profiles.CreatePharmacy | jevencare-backend/src/models/Pharmacy.ts:16-39 | `Pharmacy.create` succeeds exactly when name and address are non-empty; the profile is open, owned by the user and carries the name and address |
| Profiles.ProfileFor | jevencare-backend/src/controllers/authController.ts:49-69 | the profile registration writes for each role: an empty patient profile, the default doctor profile, a pharmacy profile named after the user that exists exactly when name and address are non-empty, and none for an admin |
| Store.Database.constructor | jevencare-backend/src/config/db.ts:1-12 | the database starts with every collection empty |
| Store.Database.NewId | jevencare-backend/src/models/User.ts:35 | a fresh id, used by no collection, one past the previous ones |
| Store.Database.InsertUser | jevencare-backend/src/controllers/authController.ts:40-47 | `User.create` stores the document under a fresh id and changes nothing else |
| Store.Database.InsertPatient | jevencare-backend/src/controllers/authController.ts:51 | `Patient.create` stores the document under a fresh id |
| Store.Database.InsertDoctor | jevencare-backend/src/controllers/authController.ts:53-61 | `Doctor.create` stores the document under a fresh id |
| Store.Database.InsertPharmacy | jevencare-backend/src/controllers/authController.ts:63-68 | `Pharmacy.create` stores the document under a fresh id |
| Store.Database.InsertMedicine | jevencare-backend/src/controllers/medicineController.ts:127-200 | `Medicine.create` stores the document under a fresh id |
| Store.Database.InsertAppointment | jevencare-backend/src/controllers/appointmentController.ts:61-70 | `Appointment.create` stores the document under a fresh id |
| Store.Database.InsertRecord | jevencare-backend/src/controllers/healthRecordController.ts:77 | `HealthRecord.create` stores the document under a fresh id |
| Store.Database.ReplaceUser | jevencare-backend/src/controllers/authController.ts:193-207 | `user.save()` replaces the stored user under its id and changes nothing else |
| Store.Database.ReplaceDoctor | jevencare-backend/src/controllers/doctorController.ts:157 | `doctor.save()` replaces the stored profile under its id |
| Store.Database.ReplacePharmacy | jevencare-backend/src/controllers/pharmacyController.ts:148 | `pharmacy.save()` replaces the stored profile under its id |
| Store.Database.ReplaceMedicine | jevencare-backend/src/controllers/medicineController.ts:234-237 | `findByIdAndUpdate` replaces the stored medicine under its id |
| Otp.GenerateOtp | jevencare-backend/src/services/twilioService.ts:7-13 | the code is six decimal digits (the fixed development code) |
| Otp.Key | jevencare-backend/src/services/twilioService.ts:18 | the store key always starts with "+": a number that has one is kept, any other gets "+91" in front |
| Otp.KeyIdempotent | jevencare-backend/src/services/twilioService.ts:18 | formatting a formatted number changes nothing |
| Otp.KeySharedBySpellings | jevencare-backend/src/services/twilioService.ts:18 | a national number and its "+91" spelling share one entry |
| Otp.SendStep | jevencare-backend/src/services/twilioService.ts:15-30 | sending stores the code with an expiry ten minutes on under the key, replacing any earlier entry, and leaves every other entry alone |
| Otp.VerifyStep | jevencare-backend/src/services/twilioService.ts:37-68 | verification succeeds exactly when an entry exists under the key, has not expired and holds the given code; a success deletes that entry, and every other key's entry is left as it was |
| Otp.VerifyWithoutEntry | jevencare-backend/src/services/twilioService.ts:45-50 | with no entry the answer is false and the store is untouched |
| Otp.VerifyExpired | jevencare-backend/src/services/twilioService.ts:52-57 | past the expiry the answer is false and that entry, and only it, is removed |
| Otp.WrongCodeThenRetry | jevencare-backend/src/services/twilioService.ts:59-63 | a wrong code leaves the entry in place, so the right code still verifies until the expiry |
| Otp.SingleUse | jevencare-backend/src/services/twilioService.ts:65-68 | a code that verified once does not verify again |
| Otp.SendThenVerify | jevencare-backend/src/services/twilioService.ts:15-68 | after a send, the fixed code verifies exactly until ten minutes have passed |
| Otp.SendThenVerifyOtherSpelling | jevencare-backend/src/services/twilioService.ts:42 | a code sent to a national number verifies for its "+91" spelling |
| Otp.EntriesWereIssued | jevencare-backend/src/services/twilioService.ts:4-25 | every pending entry was stored by an earlier send under its key, with the fixed code and that send's expiry |
| Otp.VerifiedCodeWasSent | jevencare-backend/src/services/twilioService.ts:37-68 | a code that verifies after any history of calls is the fixed code, and some earlier send under the same key is less than ten minutes old |
| Otp.OtpStore.constructor | jevencare-backend/src/services/twilioService.ts:4 | the store starts empty |
| Otp.OtpStore.Send | jevencare-backend/src/services/twilioService.ts:15-35 | `sendOTP` always answers true and leaves the store as `SendStep` gives it |
| Otp.OtpStore.Verify | jevencare-backend/src/services/twilioService.ts:37-73 | `verifyOTP` answers and leaves the store as `VerifyStep` gives them |
| AuthMiddleware.BearerToken | jevencare-backend/src/middleware/authMiddleware.ts:10-28 | a token is found only under a header starting with exactly "Bearer " and is then non-empty and free of blanks; a missing header or another scheme yields none |
| AuthMiddleware.BearerOfToken | jevencare-backend/src/middleware/authMiddleware.ts:20 | "Bearer " followed by a well-formed token yields that token |
| AuthMiddleware.BearerIgnoresExtraFields | jevencare-backend/src/middleware/authMiddleware.ts:20 | fields after the token are ignored |
| AuthMiddleware.BearerEmptyToken | jevencare-backend/src/middleware/authMiddleware.ts:22-28 | "Bearer " alone, or followed by a second blank, yields no token |
| AuthMiddleware.SchemeAlone | jevencare-backend/src/middleware/authMiddleware.ts:22-28 | the header "Bearer " alone yields no token |
| AuthMiddleware.SchemeThenBlank | jevencare-backend/src/middleware/authMiddleware.ts:20-28 | a second blank after the scheme leaves the token field empty |
| AuthMiddleware.SchemeIsCaseSensitive | jevencare-backend/src/middleware/authMiddleware.ts:12 | "bearer" and "BEARER" are refused: the scheme test is case-sensitive, unlike section 2.1 of RFC 7235 |
| AuthMiddleware.Protect | jevencare-backend/src/middleware/authMiddleware.ts:4-47 | `protect` admits exactly a request whose bearer token verifies, with that token's claims as the caller, and answers 401 otherwise |
| AuthMiddleware.ProtectAcceptsIssuedToken | jevencare-backend/src/middleware/authMiddleware.ts:30-40 | a well-formed access token signed for some claims is admitted with exactly those claims |
| AuthMiddleware.Authorize | jevencare-backend/src/middleware/authMiddleware.ts:49-63 | `authorize(...roles)` passes the caller unchanged exactly when its role is listed, and answers 403 otherwise |
| AuthMiddleware.AuthorizeNobody | jevencare-backend/src/middleware/authMiddleware.ts:53 | with no roles listed every caller is refused with 403 |
| Upload.MatchesAllowed | jevencare-backend/src/middleware/uploadMiddleware.ts:10-14 | `allowedTypes.test(s)`: one of the six alternatives occurs anywhere in the text, the pattern having no anchors; MatchesAt, DocxRedundant, NoAllowedLetters and NoAllowedNamesBeforeFinalD state what it accepts and refuses |
| Upload.LastDot | jevencare-backend/src/middleware/uploadMiddleware.ts:12 | the position found holds the last dot of the base name; none is found only when there is no dot |
| Upload.Extname | jevencare-backend/src/middleware/uploadMiddleware.ts:12 | `path.extname` is empty or starts with a dot and never holds a slash |
| Upload.DocxRedundant | jevencare-backend/src/middleware/uploadMiddleware.ts:10 | the "docx" alternative adds nothing: a text matches the six alternatives exactly when it matches the first five |
| Upload.NoAllowedLetters | jevencare-backend/src/middleware/uploadMiddleware.ts:10 | a text with none of the letters j, g and d matches no alternative |
| Upload.LastDotOf | jevencare-backend/src/middleware/uploadMiddleware.ts:12 | the last dot of `a.b`, for `b` without a dot, is the one after `a` |
| Upload.ExtnameOf | jevencare-backend/src/middleware/uploadMiddleware.ts:12 | a base name `stem.ext` has the extension `.ext` |
| Upload.Accepts | jevencare-backend/src/middleware/uploadMiddleware.ts:8-24 | the multer file filter; specified by NoExtensionRefused, AcceptedHasExtension, UppercaseExtensionAccepted, UnanchoredExtensionAccepted, UppercaseMimetypeRefused and WordMimetypeRefused |
| Upload.NoExtensionRefused | jevencare-backend/src/middleware/uploadMiddleware.ts:11-23 | a file whose base name has no dot has an empty extension and is refused, whatever its mimetype |
| Upload.AcceptedHasExtension | jevencare-backend/src/middleware/uploadMiddleware.ts:11-20 | an accepted file has a non-empty extension, its base name has a dot, and its mimetype contains an allowed type |
| Upload.MatchesAt | jevencare-backend/src/middleware/uploadMiddleware.ts:10-14 | an allowed type occurring anywhere in the text makes the unanchored pattern match |
| Upload.UppercaseExtensionAccepted | jevencare-backend/src/middleware/uploadMiddleware.ts:11-13 | the extension is lower-cased first, so a ".PDF" file sent as "application/pdf" is accepted |
| Upload.UnanchoredExtensionAccepted | jevencare-backend/src/middleware/uploadMiddleware.ts:10-13 | the pattern is unanchored, so a ".jpgx" file sent as "image/jpeg" is accepted |
| Upload.UppercaseMimetypeRefused | jevencare-backend/src/middleware/uploadMiddleware.ts:14 | the mimetype is tested as it is, so "IMAGE/PNG" is refused whatever the name |
| Upload.NoAllowedNamesBeforeFinalD | jevencare-backend/src/middleware/uploadMiddleware.ts:10 | a text with a "d" only at its end, and none of j, g, f or x, matches no alternative |
| Upload.WordMimetypeRefused | jevencare-backend/src/middleware/uploadMiddleware.ts:14-20 | a Word file's mimetype "application/msword" contains none of the alternatives, so the filter refuses every ".doc" upload although its error message names DOC as allowed |
| AuthController.AddProfile | jevencare-backend/src/controllers/authController.ts:50-69 | writing a registration profile never touches the users |
| AuthController.WithNewUser | jevencare-backend/src/controllers/authController.ts:40-69 | registration's two writes put the new user under its id and leave the other users as they were |
| AuthController.Admission | jevencare-backend/src/controllers/authController.ts:21-47 | the checks before `register`'s first write and the user it creates; specified by AdmissionIff and AdmittedUser |
| AuthController.AdmissionIff | jevencare-backend/src/controllers/authController.ts:21-47 | registration gets past its checks exactly when phone, name and role are given, no stored user has the trimmed phone, and `User.create` validates the document, which is then the user written |
| AuthController.AdmittedUser | jevencare-backend/src/controllers/authController.ts:30-47 | an admitted user is valid, has the trimmed phone and the requested role, is unverified, has no refresh token, and shares its phone with no stored user |
| AuthController.RegisterAsWritten | jevencare-backend/src/controllers/authController.ts:16-99 | `register` as written, user first and profile second; specified by PharmacyWithoutAddressOrphansUser, AsWrittenProfileRefused and DuplicatePhoneRefused, and tied to the store by Register |
| AuthController.RegisterPlan | jevencare-backend/src/controllers/authController.ts:16-99 | the corrected registration, which validates the profile before writing; related to the handler by RegisterPlanAgrees and specified by RegisterSucceedsIff, RegisteredUser, RegisterFailureWritesNothing and RegisterKeepsInvariants |
| AuthController.RegisterPlanAgrees | jevencare-backend/src/controllers/authController.ts:16-99 | the corrected registration answers as the handler does and sends an OTP exactly when it does, and on success also writes the same documents |
| AuthController.PharmacyWithoutAddressOrphansUser | jevencare-backend/src/controllers/authController.ts:40-69 | as written, an admitted pharmacy without an address gets a 500 and no OTP, while its user is stored with no pharmacy profile, which breaks the one-profile-per-user invariant; a retry with the same phone is refused with 400 |
| AuthController.AsWrittenProfileRefused | jevencare-backend/src/controllers/authController.ts:40-69 | as written, a profile the validators refuse turns into a 500 after the user has already been stored |
| AuthController.StoredWithoutProfile | jevencare-backend/src/controllers/authController.ts:40-47 | a pharmacy user stored under a fresh id with no profile written has none |
| AuthController.DuplicatePhoneRefused | jevencare-backend/src/controllers/authController.ts:30-37 | a phone some stored user already has is refused with 400 |
| AuthController.PharmacyWithoutAddressExample | jevencare-backend/src/controllers/authController.ts:62-68 | a concrete request reaches that case: a new pharmacy with a valid phone and name and no address |
| AuthController.AdmittedIntoEmpty | jevencare-backend/src/controllers/authController.ts:21-47 | into an empty user table every request with the three fields and a valid document is admitted |
| AuthController.ExampleUserValidates | jevencare-backend/src/controllers/authController.ts:40-47 | the document of that example passes the user validators as a pharmacy user |
| AuthController.RegisterFailureWritesNothing | jevencare-backend/src/controllers/authController.ts:16-99 | in the corrected registration a refusal writes nothing and sends no OTP |
| AuthController.RegisterSucceedsIff | jevencare-backend/src/controllers/authController.ts:16-90 | registration succeeds exactly when it is admitted and, for a pharmacy, an address is given |
| AuthController.RegisteredUser | jevencare-backend/src/controllers/authController.ts:81-90 | a successful registration sends an OTP, answers with the new id and stores exactly the admitted user under it |
| AuthController.RegisterKeepsPhonesUnique | jevencare-backend/src/controllers/authController.ts:30-47 | registration keeps phone numbers unique across users |
| AuthController.InsertKeepsPhonesUnique | jevencare-backend/src/controllers/authController.ts:40-47 | storing a user whose phone no stored user has keeps phones unique |
| AuthController.ProfileForOwner | jevencare-backend/src/controllers/authController.ts:49-69 | the registration profile matches the role (none exactly for an admin) and belongs to the new user |
| AuthController.ExtendsKeepsProfile | jevencare-backend/src/controllers/authController.ts:49-69 | adding documents never takes a profile away from a user |
| AuthController.AddUserKeepsPatientsOwned | jevencare-backend/src/controllers/authController.ts:50-51 | after registration every patient profile still belongs to a stored user, and no user has two |
| AuthController.AddUserKeepsDoctorsOwned | jevencare-backend/src/controllers/authController.ts:52-61 | after registration every doctor profile still belongs to a stored user, and no user has two |
| AuthController.AddUserKeepsPharmaciesOwned | jevencare-backend/src/controllers/authController.ts:62-68 | after registration every pharmacy profile still belongs to a stored user, and no user has two |
| AuthController.AddUserWithProfile | jevencare-backend/src/controllers/authController.ts:40-69 | a new user stored with the profile of its role keeps every patient, doctor and pharmacy user with exactly one profile of its kind |
| AuthController.NewUserExtends | jevencare-backend/src/controllers/authController.ts:40-69 | registration's writes keep every stored document as it was |
| AuthController.NewUserHasProfile | jevencare-backend/src/controllers/authController.ts:49-69 | the new user has a profile of its own role |
| AuthController.RegisterKeepsProfilesComplete | jevencare-backend/src/controllers/authController.ts:16-99 | the corrected registration keeps every patient, doctor and pharmacy user with exactly one profile of its kind |
| AuthController.RegisterKeepsInvariants | jevencare-backend/src/controllers/authController.ts:16-99 | the corrected registration keeps both invariants of the user table: complete profiles and unique phones |
| AuthController.AccountsIdsBelow | jevencare-backend/src/controllers/authController.ts:40-69 | every stored account id lies below the next id, so the next id is fresh |
| AuthController.StoreUserAndProfile | jevencare-backend/src/controllers/authController.ts:40-69 | the user is inserted, and then its profile under the following id, as the pure registration writes them |
| AuthController.Register | jevencare-backend/src/controllers/authController.ts:16-99 | `register` answers and writes as the handler is written: the user is stored before its profile, so a refused profile leaves the user stored with a 500; the OTP store changes by one send exactly when the OTP is sent |
| AuthController.AsWrittenAdmitted | jevencare-backend/src/controllers/authController.ts:40-90 | past admission, `register` as written stores the user and then either answers 500 with only the user stored, or stores the profile too, sends an OTP and answers 201 |
| AuthController.StoreAdmitted | jevencare-backend/src/controllers/authController.ts:40-90 | the store writes past admission: the user, then its profile; a refused profile leaves the user stored, sends no OTP and answers 500 |
| AuthController.SendOtpDecision | jevencare-backend/src/controllers/authController.ts:104-151 | `sendOTPToUser` succeeds exactly when a phone is given and some user has it after trimming; otherwise 400 without a phone and 404 without a user |
| AuthController.SendOtpToUser | jevencare-backend/src/controllers/authController.ts:104-151 | the handler answers as the decision says and sends an OTP exactly when it succeeds |
| Tokens.PayloadOf | jevencare-backend/src/controllers/authController.ts:196-200 | the claims of jwtUtils.ts:3-7 issued for a user: its id, phone and role; LoginSession and LoginThenRefresh show the login tokens carry exactly these |
| AuthController.LoginStep | jevencare-backend/src/controllers/authController.ts:156-234 | a session is only ever opened for a stored user |
| AuthController.LoginUnknownUser | jevencare-backend/src/controllers/authController.ts:171-179 | an unknown phone gets 404 and changes neither the users nor the OTP store, whatever the code |
| AuthController.LoginInvalidCode | jevencare-backend/src/controllers/authController.ts:181-189 | an invalid or expired code gets a failure and leaves the users unchanged |
| AuthController.LoginSession | jevencare-backend/src/controllers/authController.ts:191-225 | a login succeeds only for the stored user with that phone and a code that verifies; both tokens carry that user's id, phone and role, the user ends verified and holding the refresh token, and no other user changes |
| AuthController.VerifyOtpAndLogin | jevencare-backend/src/controllers/authController.ts:156-234 | the handler answers and changes the users and the OTP store as the login step says |
| AuthController.RefreshDecision | jevencare-backend/src/controllers/authController.ts:239-298 | a refusal is 400 without a token and 401 with one |
| AuthController.RefreshSucceedsIff | jevencare-backend/src/controllers/authController.ts:246-281 | a refresh succeeds exactly when the token verifies and names a stored user that holds that very token |
| AuthController.LoginThenRefresh | jevencare-backend/src/controllers/authController.ts:202-287 | the refresh token handed out at login refreshes, to an access token with the same claims |
| AuthController.LoginEndsOtherSessions | jevencare-backend/src/controllers/authController.ts:205-207 | a login replaces the stored refresh token, so any other refresh token of that user stops working |
| AuthController.LogoutStep | jevencare-backend/src/controllers/authController.ts:303-308 | logout clears the caller's refresh token and changes nothing else |
| AuthController.LogoutThenRefreshFails | jevencare-backend/src/controllers/authController.ts:308 | after logout no refresh token naming that user refreshes |
| AuthController.Logout | jevencare-backend/src/controllers/authController.ts:303-313 | the handler always answers success and clears the caller's refresh token |
| AuthController.GetMe | jevencare-backend/src/controllers/authController.ts:327-353 | `getMe` returns the caller's stored user, and 404 exactly when there is none |
| AuthController.UpdateProfileDecision | jevencare-backend/src/controllers/authController.ts:364-402 | an updated user is always valid |
| AuthController.ApplyChanges | jevencare-backend/src/controllers/authController.ts:382-388 | `updateProfile`'s truthy-field assignments through the setters; specified by UpdateProfileFrame and UpdateProfileNothing |
| AuthController.UpdateProfileFrame | jevencare-backend/src/controllers/authController.ts:382-388 | an update changes only the truthy fields among name, email, address and language, through the setters, and nothing else of the user |
| AuthController.UpdateProfileNothing | jevencare-backend/src/controllers/authController.ts:382-388 | a request with no truthy field saves the user unchanged |
| AuthController.SamePhoneKeepsUnique | jevencare-backend/src/controllers/authController.ts:382-388 | replacing a user by one with the same phone keeps phones unique |
| AuthController.UpdateProfile | jevencare-backend/src/controllers/authController.ts:364-411 | the handler answers as the decision says, stores the updated user only on success, and keeps phones unique |
| AppointmentController.BookDecision | jevencare-backend/src/controllers/appointmentController.ts:17-70 | `bookAppointment`'s reply and the appointment it inserts; specified by BookChecksFieldsFirst, BookUnknownDoctor, BookSucceedsIff, BookedAppointment and BookPreservesSlots |
| AppointmentController.BookChecksFieldsFirst | jevencare-backend/src/controllers/appointmentController.ts:17-24 | a booking without doctor, time, type or symptoms is refused with 400 before anything is looked up |
| AppointmentController.BookUnknownDoctor | jevencare-backend/src/controllers/appointmentController.ts:26-34 | with the fields present, a doctor id no profile has is 404, whatever the time |
| AppointmentController.DoctorFound | jevencare-backend/src/controllers/appointmentController.ts:27 | the doctor lookup finds a profile exactly when some profile has that user id |
| AppointmentController.SlotFree | jevencare-backend/src/controllers/appointmentController.ts:46-51 | the availability lookup finds nothing exactly when no stored appointment of that doctor at that instant is active |
| AppointmentController.BookSucceedsIff | jevencare-backend/src/controllers/appointmentController.ts:17-70 | booking succeeds exactly when the fields are present, the doctor has a profile, the time is not in the past, no active appointment holds that doctor's instant, and the type is "video" or "chat" |
| AppointmentController.BookedAppointment | jevencare-backend/src/controllers/appointmentController.ts:60-70 | the new appointment is scheduled, paid, not cancelled, for the caller as patient with the requested doctor, time, type and symptoms, valid, and priced as that doctor's profile says |
| AppointmentController.BookPreservesSlots | jevencare-backend/src/controllers/appointmentController.ts:45-70 | a booking keeps every doctor's instant held by at most one active appointment |
| AppointmentController.BookAppointment | jevencare-backend/src/controllers/appointmentController.ts:9-90 | the handler inserts exactly the appointment the decision gives, under a fresh id, or writes nothing; it keeps the slot invariant |
| AppointmentController.ListAppointments | jevencare-backend/src/controllers/appointmentController.ts:95-139 | `getAppointments`'s role-scoped, status-filtered, latest-first page; specified by ListingScopedAndOrdered and PatientSeesOnlyOwn |
| AppointmentController.ListingScopedAndOrdered | jevencare-backend/src/controllers/appointmentController.ts:95-139 | every listed appointment is stored and in the caller's scope (a patient's own, a doctor's own, all for other roles, and of the status asked for), the page is latest first, and total and page count are over the whole scope |
| AppointmentController.PatientSeesOnlyOwn | jevencare-backend/src/controllers/appointmentController.ts:107-108 | a patient's listing holds only the patient's own appointments |
| AppointmentController.GetAppointment | jevencare-backend/src/controllers/appointmentController.ts:153-209 | a read that succeeds returns the stored appointment under that id |
| AppointmentController.GetAppointmentAccess | jevencare-backend/src/controllers/appointmentController.ts:174-195 | with both parties on file, reading succeeds exactly for the owning patient, the owning doctor, and any caller of another role; otherwise 403 |
| AppointmentController.StatusDecision | jevencare-backend/src/controllers/appointmentController.ts:223-251 | `updateAppointmentStatus`'s reply and rewritten appointment; specified by StatusNoTransitionCheck, StatusRejectsUnknown and the witness StatusUpdateCanDoubleBook |
| AppointmentController.StatusNoTransitionCheck | jevencare-backend/src/controllers/appointmentController.ts:223-251 | the appointment's doctor can set any status from any status, completed and cancelled included, and only the status changes |
| AppointmentController.StatusRejectsUnknown | jevencare-backend/src/controllers/appointmentController.ts:223-229 | a status outside the four names is 400 |
| AppointmentController.StatusUpdateCanDoubleBook | jevencare-backend/src/controllers/appointmentController.ts:241-251 | a status update can break the slot invariant: un-cancelling an appointment whose instant was rebooked leaves two active appointments for one doctor and instant |
| AppointmentController.UpdateAppointmentStatus | jevencare-backend/src/controllers/appointmentController.ts:214-270 | the handler writes exactly the appointment the status decision gives, or nothing |
| AppointmentController.CancelDecision | jevencare-backend/src/controllers/appointmentController.ts:285-319 | `cancelAppointment`'s reply and cancelled appointment; specified by CancelSucceedsIff, CancelAgain and CancelPreservesSlots |
| AppointmentController.CancelSucceedsIff | jevencare-backend/src/controllers/appointmentController.ts:285-319 | cancelling succeeds exactly for the owning patient, as a patient, or the owning doctor, as a doctor, on an appointment not completed; it changes only the status, to cancelled, and the reason, which is never empty |
| AppointmentController.CancelAgain | jevencare-backend/src/controllers/appointmentController.ts:309-319 | an appointment already cancelled can be cancelled again by its owner |
| AppointmentController.CancelPreservesSlots | jevencare-backend/src/controllers/appointmentController.ts:317-319 | cancelling keeps the slot invariant |
| AppointmentController.CancelAppointment | jevencare-backend/src/controllers/appointmentController.ts:275-334 | the handler writes exactly the appointment the cancel decision gives, or nothing, and keeps the slot invariant |
| AppointmentController.PrescriptionDecision | jevencare-backend/src/controllers/appointmentController.ts:348-377 | `addPrescription`'s reply and rewritten appointment; specified by PrescriptionStatus and PrescriptionPreservesSlots |
| AppointmentController.PrescriptionOf | jevencare-backend/src/controllers/appointmentController.ts:366-370 | the prescription takes the medicines and lab tests given, or empty lists, and the notes given, or the empty string |
| AppointmentController.PrescriptionStatus | jevencare-backend/src/controllers/appointmentController.ts:366-377 | adding a prescription completes an ongoing appointment, leaves any other status alone, and changes nothing but status and prescription |
| AppointmentController.PrescriptionPreservesSlots | jevencare-backend/src/controllers/appointmentController.ts:372-377 | adding a prescription keeps the slot invariant |
| AppointmentController.AddPrescription | jevencare-backend/src/controllers/appointmentController.ts:339-396 | the handler writes exactly the appointment the prescription decision gives, or nothing, and keeps the slot invariant |
| DoctorController.BestRatedFirstIsOrder | jevencare-backend/src/controllers/doctorController.ts:48 | the sort by rating, then number of ratings, both descending, is a total and transitive order |
| DoctorController.DoctorPage | jevencare-backend/src/controllers/doctorController.ts:24-50 | the store's page of doctors before the name search; specified by DoctorPageScoped and DoctorPageTotals |
| DoctorController.ListDoctors | jevencare-backend/src/controllers/doctorController.ts:8-70 | `getDoctors`'s reply; specified by DoctorListing, ListedDoctorsQualify, ListingWithinPage, DoctorListingOrdered, TotalIgnoresSearch, OrphanOnPageFails and SearchMissesOtherPages |
| DoctorController.DoctorListing | jevencare-backend/src/controllers/doctorController.ts:8-70 | every listed doctor is a stored, available profile that passes the specialization, language and fee filters and, under a search, the name search; the items are a subsequence of the store's page and at most `limit`; total and page count are those of the whole query |
| DoctorController.ListedDoctorsQualify | jevencare-backend/src/controllers/doctorController.ts:24-58 | every listed doctor is a stored, available profile passing the query and, under a search, whose user's name matches |
| DoctorController.ListingWithinPage | jevencare-backend/src/controllers/doctorController.ts:49-58 | the listed doctors keep the order of the store's page, and there are at most `limit` of them |
| DoctorController.DoctorPageScoped | jevencare-backend/src/controllers/doctorController.ts:24-50 | every doctor on the store's page is stored and passes the query |
| DoctorController.DoctorListingOrdered | jevencare-backend/src/controllers/doctorController.ts:48-58 | the listing is ordered best rated first |
| DoctorController.TotalIgnoresSearch | jevencare-backend/src/controllers/doctorController.ts:53-68 | the name search changes neither the total nor the page count |
| DoctorController.MatchingIgnoresSearch | jevencare-backend/src/controllers/doctorController.ts:24-38 | the store query does not depend on the search text |
| DoctorController.MatchIgnoresSearch | jevencare-backend/src/controllers/doctorController.ts:24-38 | whether a profile passes the store query does not depend on the search text |
| DoctorController.DoctorPageTotals | jevencare-backend/src/controllers/doctorController.ts:60-68 | a listing's total and page count are those of every profile passing the query |
| DoctorController.OrphanOnPageFails | jevencare-backend/src/controllers/doctorController.ts:53-57 | a searched listing fails with 500 exactly when the page holds a doctor whose user no longer exists |
| DoctorController.SearchMissesOtherPages | jevencare-backend/src/controllers/doctorController.ts:46-68 | the name search runs on one page only: with two matching doctors on pages of one, page 1 can come back empty although the other doctor's name matches and the total is 2 |
| DoctorController.OnlyPageDoctorUnnamed | jevencare-backend/src/controllers/doctorController.ts:53-58 | a page holding one doctor whose name does not match comes back empty |
| DoctorController.SearchMissesOtherPagesExample | jevencare-backend/src/controllers/doctorController.ts:53-57 | a search for "R" misses "Asha" and matches "Ravi", and a 5-star default profile passes the query |
| DoctorController.TwoDoctorsFirstPage | jevencare-backend/src/controllers/doctorController.ts:46-50 | with two matching doctors, the first page of size one holds the better rated of them, and the total is 2 |
| DoctorController.GetDoctor | jevencare-backend/src/controllers/doctorController.ts:84-116 | `getDoctorById` finds the profile stored under that profile id, and 404 exactly when there is none |
| DoctorController.GetMyDoctor | jevencare-backend/src/controllers/doctorController.ts:206-238 | `getMyDoctorProfile` finds a profile owned by the caller, and 404 exactly when the caller owns none |
| DoctorController.ProfileIdIsNotUserId | jevencare-backend/src/controllers/doctorController.ts:89-94 | looking a doctor up by its user's id through the by-id route fails with 404 while the own-profile lookup finds it |
| DoctorController.ApplyChanges | jevencare-backend/src/controllers/doctorController.ts:148-155 | `updateDoctorProfile`'s field assignments; specified by ApplyChangesFields and ZeroFeeAndEmptySpecialization |
| DoctorController.ApplyChangesFields | jevencare-backend/src/controllers/doctorController.ts:148-155 | each field takes the value given or keeps its own (an empty specialization is ignored), and owner, rating and rating count never change |
| DoctorController.UpdateDecision | jevencare-backend/src/controllers/doctorController.ts:137-168 | `updateDoctorProfile`'s reply and saved profile; specified by UpdateFailures and UpdateWritesOwnProfile |
| DoctorController.UpdateFailures | jevencare-backend/src/controllers/doctorController.ts:137-157 | the update is 404 exactly when the caller has no profile, and otherwise succeeds exactly when the changed profile passes the validators, 500 when not |
| DoctorController.UpdateWritesOwnProfile | jevencare-backend/src/controllers/doctorController.ts:137-168 | a successful update writes the first profile the caller owns with the changes applied, and the result passes the validators |
| DoctorController.ZeroFeeAndEmptySpecialization | jevencare-backend/src/controllers/doctorController.ts:149-155 | a fee of 0 and `isAvailable: false` are applied, while an empty specialization is ignored |
| DoctorController.AssignChanges | jevencare-backend/src/controllers/doctorController.ts:148-155 | the field-by-field assignments give the changed profile |
| DoctorController.UpdateDoctorProfile | jevencare-backend/src/controllers/doctorController.ts:121-177 | the handler answers as the decision says and writes only the caller's profile, only on success |
| DoctorController.SpecializationsDistinctNonEmpty | jevencare-backend/src/controllers/doctorController.ts:182-201 | the specializations listed are exactly the non-empty specializations of the stored profiles, available or not, each once |
| HealthRecordController.UploadDecision | jevencare-backend/src/controllers/healthRecordController.ts:41-77 | `uploadHealthRecord`'s reply and the record it inserts; specified by UploadSucceedsIff and UploadedRecord |
| HealthRecordController.UploadSucceedsIff | jevencare-backend/src/controllers/healthRecordController.ts:41-77 | an upload succeeds exactly when type, title and description are given and the type is one of the five; otherwise 400 for a missing field and 500 for a type the schema refuses |
| HealthRecordController.UploadedRecord | jevencare-backend/src/controllers/healthRecordController.ts:60-77 | the record belongs to the caller, with the requested type, title and description, the given date or now, the doctor and appointment given, and the file's URL, mimetype and size each only when truthy |
| HealthRecordController.UploadHealthRecord | jevencare-backend/src/controllers/healthRecordController.ts:32-96 | the handler inserts exactly the record the decision gives, under a fresh id, or writes nothing |
| HealthRecordController.ListRecords | jevencare-backend/src/controllers/healthRecordController.ts:110-151 | `getHealthRecords`'s role-scoped, newest-first page; specified by RecordPageScopedAndOrdered, ListRecordsAccess and ListRecordsComplete |
| HealthRecordController.RecordPageScopedAndOrdered | jevencare-backend/src/controllers/healthRecordController.ts:110-151 | every listed record is stored and in the caller's scope (a patient's own, a doctor's attributed ones, of the type asked for), the page is newest first, and total and page count are over the whole scope |
| HealthRecordController.ListRecordsAccess | jevencare-backend/src/controllers/healthRecordController.ts:113-123 | listing is refused with 403 exactly for callers who are neither patient nor doctor, and is otherwise that page |
| HealthRecordController.ListRecordsComplete | jevencare-backend/src/controllers/healthRecordController.ts:134-142 | every record in the caller's scope is in the ordered result that the pages are taken from |
| HealthRecordController.GetRecord | jevencare-backend/src/controllers/healthRecordController.ts:166-212 | a read that succeeds returns the stored record under that id |
| HealthRecordController.GetRecordAccess | jevencare-backend/src/controllers/healthRecordController.ts:188-198 | with its patient on file, a record can be read exactly by its patient, as a patient, or by its attributed doctor, as a doctor on file; otherwise 403 |
| HealthRecordController.OtherRolesCannotRead | jevencare-backend/src/controllers/healthRecordController.ts:189-198 | a pharmacy or admin caller never reads a record: 403, or 404 when there is none |
| HealthRecordController.GetRecordAsWritten | jevencare-backend/src/controllers/healthRecordController.ts:188-198 | as written, a read succeeds exactly for the owning patient, because the doctor test compares the string form of the populated doctor document with an id |
| HealthRecordController.AsWrittenRefusesNamedDoctor | jevencare-backend/src/controllers/healthRecordController.ts:190 | as written no doctor reads a record by id, and the written and the corrected reads differ exactly for the doctor the record names |
| HealthRecordController.PublicId | jevencare-backend/src/controllers/healthRecordController.ts:246 | the public id of a file URL holds neither a slash nor a dot |
| HealthRecordController.PublicIdOf | jevencare-backend/src/controllers/healthRecordController.ts:246 | a URL ending in `/name.ext`, with a name without a dot, has that name as its public id |
| HealthRecordController.PublicIdStopsAtFirstDot | jevencare-backend/src/controllers/healthRecordController.ts:246 | the public id stops at the first dot: "records/my.report.pdf" gives "my" |
| HealthRecordController.PublicIdAfterTrailingSlash | jevencare-backend/src/controllers/healthRecordController.ts:246-247 | a URL ending in a slash has an empty public id, so no file is destroyed |
| HealthRecordController.DeleteDecision | jevencare-backend/src/controllers/healthRecordController.ts:225-252 | `deleteHealthRecord`'s reply, removal and file destruction; specified by DeleteSucceedsIff and DeleteDestroysFile |
| HealthRecordController.DeleteSucceedsIff | jevencare-backend/src/controllers/healthRecordController.ts:225-252 | deletion succeeds exactly for the record's own patient and removes exactly that record; a refusal (404 or 403) changes nothing and destroys no file |
| HealthRecordController.DeleteDestroysFile | jevencare-backend/src/controllers/healthRecordController.ts:244-250 | a file is destroyed exactly when the deleted record has a URL with a non-empty public id, and then under the records folder |
| HealthRecordController.DeleteHealthRecord | jevencare-backend/src/controllers/healthRecordController.ts:217-266 | the handler answers, deletes and destroys as the decision says |
| HealthRecordController.UploadThenReadAndDelete | jevencare-backend/src/controllers/healthRecordController.ts:32-266 | a record a patient uploads can be read back by that patient and deleted by that patient, which takes out exactly that record |
| MedicineController.BuildQuery | jevencare-backend/src/controllers/medicineController.ts:24-53 | the query document built from the parameters selects exactly the available medicines that pass the search, category, pharmacy, price and stock filters |
| MedicineController.StockThenNameIsOrder | jevencare-backend/src/controllers/medicineController.ts:62 | the sort by stock descending, then name ascending, is a total and transitive order |
| MedicineController.ListMedicines | jevencare-backend/src/controllers/medicineController.ts:8-76 | `getMedicines`'s page; specified by MedicinePageScoped and MedicinePageOrdered, with the filter given by BuildQuery |
| MedicineController.MedicinePageScoped | jevencare-backend/src/controllers/medicineController.ts:60-75 | every listed medicine is stored, available and passes the filter, and total and page count are over every match |
| MedicineController.ListedMedicineMatches | jevencare-backend/src/controllers/medicineController.ts:60-75 | the medicine at any position of the page is stored under its id and passes the filter |
| MedicineController.MedicinePageOrdered | jevencare-backend/src/controllers/medicineController.ts:60-64 | the page is ordered by stock descending, then by name |
| MedicineController.OnlyTrueFiltersStock | jevencare-backend/src/controllers/medicineController.ts:51-53 | only `inStock=true` filters on stock: with any other value the stock does not affect the match |
| MedicineController.NoParamsKeepsAvailable | jevencare-backend/src/controllers/medicineController.ts:25 | with no parameters exactly the available medicines match |
| MedicineController.GetMedicine | jevencare-backend/src/controllers/medicineController.ts:90-122 | `getMedicineById` returns the stored medicine under that id, and 404 exactly when there is none |
| MedicineController.AddDecision | jevencare-backend/src/controllers/medicineController.ts:146-180 | `addMedicine`'s reply and the medicine it inserts; specified by AddSucceedsIff, ZeroPriceRefusedZeroStockAccepted and AddedMedicine |
| MedicineController.AddSucceedsIff | jevencare-backend/src/controllers/medicineController.ts:146-180 | adding succeeds exactly when every required field is given, the price is positive, the stock is not negative, and name and generic name are not blank |
| MedicineController.ZeroPriceRefusedZeroStockAccepted | jevencare-backend/src/controllers/medicineController.ts:152-153 | a price of 0 is refused as missing while a stock of 0 is accepted and stored as 0 |
| MedicineController.AddedMedicine | jevencare-backend/src/controllers/medicineController.ts:163-180 | the new medicine belongs to the caller, is available, needs a prescription only when asked, has the given price, stock and category and the trimmed names, and is valid |
| MedicineController.AddMedicine | jevencare-backend/src/controllers/medicineController.ts:127-200 | the handler inserts exactly the medicine the decision gives, under a fresh id, or writes nothing |
| MedicineController.Merge | jevencare-backend/src/controllers/medicineController.ts:234-237 | `findByIdAndUpdate` with the body as given; specified by UpdateOwnerOnly and UpdateCanTransferOwnership |
| MedicineController.UpdateDecision | jevencare-backend/src/controllers/medicineController.ts:214-237 | `updateMedicine`'s reply and merged medicine; specified by UpdateOwnerOnly and UpdateCanTransferOwnership |
| MedicineController.UpdateOwnerOnly | jevencare-backend/src/controllers/medicineController.ts:214-237 | an update is 404 without the medicine and 403 for anyone but its owner; a successful one keeps every field the body leaves out |
| MedicineController.UpdateCanTransferOwnership | jevencare-backend/src/controllers/medicineController.ts:234-237 | the body is applied as given, so the owner can hand a medicine to another pharmacy and then can no longer update or delete it |
| MedicineController.UpdateMedicine | jevencare-backend/src/controllers/medicineController.ts:205-252 | the handler answers as the decision says and writes only that medicine, only on success |
| MedicineController.DeleteDecision | jevencare-backend/src/controllers/medicineController.ts:265-284 | `deleteMedicine`'s reply and removal; specified by DeleteOwnerOnly |
| MedicineController.DeleteOwnerOnly | jevencare-backend/src/controllers/medicineController.ts:265-284 | deletion succeeds exactly for the owner and removes exactly that medicine; a refusal (404 or 403) changes nothing |
| MedicineController.DeleteMedicine | jevencare-backend/src/controllers/medicineController.ts:257-298 | the handler answers and deletes as the decision says |
| MedicineController.CategoriesDistinctNonEmpty | jevencare-backend/src/controllers/medicineController.ts:303-322 | the categories listed are exactly the non-empty categories of the stored medicines, available or not, each once |
| PharmacyController.MedicineCount | jevencare-backend/src/controllers/pharmacyController.ts:44-47 | a pharmacy's count of available medicines; specified by Query.Count, WithCounts and ShownMedicinesAll |
| PharmacyController.WithCounts | jevencare-backend/src/controllers/pharmacyController.ts:41-52 | each listed pharmacy is paired, in order, with the count of its available medicines |
| PharmacyController.PharmacyPage | jevencare-backend/src/controllers/pharmacyController.ts:14-38 | the store's page of pharmacies after the name search; specified by PharmacyPageScoped |
| PharmacyController.ListPharmacies | jevencare-backend/src/controllers/pharmacyController.ts:9-73 | `getPharmacies`'s reply; specified by PharmacyListing and PharmacyTotalIgnoresSearch |
| PharmacyController.PharmacyPageScoped | jevencare-backend/src/controllers/pharmacyController.ts:14-38 | the page holds at most `limit` pharmacies, each stored and passing the open filter, and after a search each name contains the search text ignoring case |
| PharmacyController.PharmacyListing | jevencare-backend/src/controllers/pharmacyController.ts:9-73 | `getPharmacies` fails exactly when a listed pharmacy's user is gone, and otherwise pairs each page entry with the number of that pharmacy's available medicines |
| PharmacyController.OpenFilterMeaning | jevencare-backend/src/controllers/pharmacyController.ts:18-20 | without `isOpen` every pharmacy passes; `isOpen=true` keeps the open ones and any other value keeps the closed ones |
| PharmacyController.PharmacyTotalIgnoresSearch | jevencare-backend/src/controllers/pharmacyController.ts:54-62 | the total does not depend on the search, which is applied to the page only |
| PharmacyController.GetPharmacy | jevencare-backend/src/controllers/pharmacyController.ts:78-119 | `getPharmacyById` gives 404 for an unknown id, 500 when its user is gone, and otherwise the pharmacy with its listed medicines |
| PharmacyController.ShownMedicines | jevencare-backend/src/controllers/pharmacyController.ts:99-102 | the medicines `getPharmacyById` shows; specified by ShownMedicinesOwn and ShownMedicinesAll |
| PharmacyController.ShownMedicinesOwn | jevencare-backend/src/controllers/pharmacyController.ts:99-102 | at most 20 medicines are shown, each stored, available and the pharmacy's own |
| PharmacyController.ShownMedicinesAll | jevencare-backend/src/controllers/pharmacyController.ts:99-102 | when the pharmacy has at most 20 available medicines, every one of them is shown |
| PharmacyController.GetMyPharmacy | jevencare-backend/src/controllers/pharmacyController.ts:173-205 | the caller's own profile is returned, and 404 exactly when no profile belongs to the caller |
| PharmacyController.ApplyPharmacyChanges | jevencare-backend/src/controllers/pharmacyController.ts:143-146 | `updatePharmacyProfile`'s field assignments; specified by ApplyPharmacyChangesFields and UpdateKeepsPharmacyValid |
| PharmacyController.ApplyPharmacyChangesFields | jevencare-backend/src/controllers/pharmacyController.ts:143-146 | name and address change only when given non-empty, location and open flag when given, and the owner never changes |
| PharmacyController.UpdatePharmacyDecision | jevencare-backend/src/controllers/pharmacyController.ts:132-148 | `updatePharmacyProfile`'s reply and saved profile; specified by UpdatePharmacyNotFound, UpdateKeepsPharmacyValid and UpdatePharmacyWritesOwnProfile |
| PharmacyController.UpdatePharmacyNotFound | jevencare-backend/src/controllers/pharmacyController.ts:132-140 | the update is 404 exactly when the caller has no profile |
| PharmacyController.UpdateKeepsPharmacyValid | jevencare-backend/src/controllers/pharmacyController.ts:143-148 | applying any body to a valid profile leaves it valid, so the save cannot be refused |
| PharmacyController.UpdatePharmacyWritesOwnProfile | jevencare-backend/src/controllers/pharmacyController.ts:132-148 | a successful update rewrites the first profile owned by the caller with the changes applied |
| PharmacyController.AssignPharmacyChanges | jevencare-backend/src/controllers/pharmacyController.ts:143-146 | the handler's field-by-field assignments give the changed profile |
| PharmacyController.UpdatePharmacyProfile | jevencare-backend/src/controllers/pharmacyController.ts:124-168 | the handler answers as the decision says and writes only the caller's profile, only on success |
| Router.SegmentsDiffer | jevencare-backend/src/routes/authRoutes.ts:15-18 | two segments that differ, ignoring case, at one position or in length are told apart by the router |
| Router.RunGuards | jevencare-backend/src/routes/healthRecordRoutes.ts:17-22 | a route's middleware chain run in order; specified by ProtectChain, ProtectAuthorizeChain, AuthorizeChain, AuthorizeUploadChain and ForbiddenNeedsRoleCheck |
| Router.Dispatch | jevencare-backend/src/routes/doctorRoutes.ts:14-20 | a router's handling of one request; specified by FirstRouteIs, UnguardedRoute, Shadowed, Unrouted, ReachedVia, NeverForbidden, ProtectedRouterNeedsLogin and ProtectedRouterClaims |
| Router.FirstRoute | jevencare-backend/src/routes/doctorRoutes.ts:14-20 | the route dispatched is the first registered one whose method and pattern match, and there is none exactly when no route matches |
| Router.FirstRouteIs | jevencare-backend/src/routes/doctorRoutes.ts:14-20 | a matching route with no matching route before it is the one dispatched |
| Router.LiteralMiss | jevencare-backend/src/routes/medicineRoutes.ts:16-17 | a literal route does not take a segment that differs from its literal ignoring case |
| Router.UnguardedRoute | jevencare-backend/src/routes/medicineRoutes.ts:15-17 | a route registered without middleware, in a router without `router.use`, runs its handler for anyone, without claims |
| Router.Shadowed | jevencare-backend/src/routes/doctorRoutes.ts:16-19 | a route registered after another with the same method whose pattern takes every path it takes is never dispatched |
| Router.SubsumedMatch | jevencare-backend/src/routes/pharmacyRoutes.ts:14-17 | every path the later, more specific pattern matches, the earlier `/:id` pattern matches as well |
| Router.Unrouted | jevencare-backend/src/routes/authRoutes.ts:15-22 | a handler no route names is never reached |
| Router.ReachedVia | jevencare-backend/src/routes/doctorRoutes.ts:14-20 | a handler that runs is the one named by the first matching route, and its middleware passed the request with the claims it runs with |
| Router.ProtectChain | jevencare-backend/src/routes/authRoutes.ts:21-22 | `protect` alone answers 401 without verified claims and otherwise passes exactly those claims on |
| Router.ProtectAuthorizeChain | jevencare-backend/src/routes/doctorRoutes.ts:19-20 | `protect, authorize(roles)` answers 401 first, then 403 outside the roles, and otherwise passes the caller's claims |
| Router.AuthorizeChain | jevencare-backend/src/routes/appointmentRoutes.ts:28-29 | `authorize(roles)` after `protect` passes callers in the roles and answers 403 to everyone else |
| Router.AuthorizeUploadChain | jevencare-backend/src/routes/healthRecordRoutes.ts:17-22 | the role is checked before the file: 403 outside the roles whatever the file, then 500 for a refused file |
| Router.ForbiddenNeedsRoleCheck | jevencare-backend/src/routes/authRoutes.ts:21-22 | a middleware chain without `authorize` never answers 403 |
| Router.NeverForbidden | jevencare-backend/src/routes/authRoutes.ts:15-22 | a router none of whose chains checks a role never answers 403 |
| Router.ProtectedRouterNeedsLogin | jevencare-backend/src/routes/appointmentRoutes.ts:15 | behind `router.use(protect)` every request without verified claims gets 401, whether or not a route matches |
| Router.ProtectedRouterClaims | jevencare-backend/src/routes/healthRecordRoutes.ts:14 | behind `router.use(protect)` every route's chain starts from the verified claims |
| AuthRoutes.SignInIsPublic | jevencare-backend/src/routes/authRoutes.ts:15-18 | register, send-otp, verify-otp and refresh-token run for anyone, whatever the Authorization header holds |
| AuthRoutes.PublicNamesDiffer | jevencare-backend/src/routes/authRoutes.ts:15-18 | the four public paths are pairwise different to the router |
| AuthRoutes.SessionRoutesNeedLogin | jevencare-backend/src/routes/authRoutes.ts:21-22 | logout and me answer 401 without verified claims and otherwise run with them, whatever the role |
| AuthRoutes.LogoutNeedsLogin | jevencare-backend/src/routes/authRoutes.ts:21 | POST /logout answers 401 without verified claims and otherwise runs logout with them |
| AuthRoutes.MeNeedsLogin | jevencare-backend/src/routes/authRoutes.ts:22 | GET /me answers 401 without verified claims and otherwise runs getMe with them |
| AuthRoutes.NoRoleRestriction | jevencare-backend/src/routes/authRoutes.ts:15-22 | no auth route answers 403 |
| AuthRoutes.UpdateProfileUnreachable | jevencare-backend/src/routes/authRoutes.ts:2-9 | the exported profile update is registered on no router, so no request reaches it |
| DoctorRoutes.DirectoryIsPublic | jevencare-backend/src/routes/doctorRoutes.ts:14 | GET / lists doctors for anyone |
| DoctorRoutes.SpecializationsReached | jevencare-backend/src/routes/doctorRoutes.ts:15-16 | GET /specializations, registered ahead of `/:id`, reaches its own handler for anyone |
| DoctorRoutes.ProfileByIdIsPublic | jevencare-backend/src/routes/doctorRoutes.ts:16 | any other single segment is taken as a doctor profile id, for anyone |
| DoctorRoutes.MyProfileTakenAsId | jevencare-backend/src/routes/doctorRoutes.ts:16-19 | GET /my-profile runs the by-id handler with the id "my-profile", without looking at the token |
| DoctorRoutes.MyDoctorProfileUnreachable | jevencare-backend/src/routes/doctorRoutes.ts:16-19 | the doctor's own-profile handler is never reached, whatever the request |
| DoctorRoutes.ProfileUpdateIsDoctorOnly | jevencare-backend/src/routes/doctorRoutes.ts:20 | PUT /profile answers 401 without verified claims, 403 unless the caller is a doctor, and otherwise runs with the caller's claims |
| DoctorRoutes.ReachedHandlers | jevencare-backend/src/routes/doctorRoutes.ts:14-20 | a handler that runs is a public read without claims or the profile update for a doctor |
| PharmacyRoutes.DirectoryIsPublic | jevencare-backend/src/routes/pharmacyRoutes.ts:13 | GET / lists pharmacies for anyone |
| PharmacyRoutes.ByIdIsPublic | jevencare-backend/src/routes/pharmacyRoutes.ts:14 | every single segment after GET is taken as a pharmacy id, "my-profile" among them, for anyone |
| PharmacyRoutes.MyPharmacyProfileUnreachable | jevencare-backend/src/routes/pharmacyRoutes.ts:14-17 | the pharmacy's own-profile handler is never reached, whatever the request |
| PharmacyRoutes.ProfileUpdateIsPharmacyOnly | jevencare-backend/src/routes/pharmacyRoutes.ts:18 | PUT /profile answers 401 without verified claims, 403 unless the caller is a pharmacy, and otherwise runs with the caller's claims |
| PharmacyRoutes.ReachedHandlers | jevencare-backend/src/routes/pharmacyRoutes.ts:13-18 | a handler that runs is a public read without claims or the profile update for a pharmacy |
| MedicineRoutes.CatalogueIsPublic | jevencare-backend/src/routes/medicineRoutes.ts:15 | GET / searches the catalogue for anyone |
| MedicineRoutes.CategoriesReached | jevencare-backend/src/routes/medicineRoutes.ts:16-17 | GET /categories is not taken by `/:id` and reaches its own handler |
| MedicineRoutes.ByIdIsPublic | jevencare-backend/src/routes/medicineRoutes.ts:17 | any other single segment is taken as a medicine id, for anyone |
| MedicineRoutes.AddIsPharmacyOnly | jevencare-backend/src/routes/medicineRoutes.ts:20 | POST / answers 401, then 403 for every role but pharmacy, and otherwise adds with the caller's claims |
| MedicineRoutes.ChangesArePharmacyOnly | jevencare-backend/src/routes/medicineRoutes.ts:21-22 | PUT and DELETE on `/:id` answer 401, then 403 for every role but pharmacy, and otherwise run with the id and the caller's claims |
| MedicineRoutes.OnlyPharmacyRoleMatters | jevencare-backend/src/routes/medicineRoutes.ts:15-22 | a handler runs either without claims for a read or for a pharmacy for a write, and a 403 goes only to a signed-in caller of another role |
| HealthRecordRoutes.EveryRouteNeedsLogin | jevencare-backend/src/routes/healthRecordRoutes.ts:14 | without verified claims every request gets 401, whichever path it names |
| HealthRecordRoutes.UploadChecksRoleThenFile | jevencare-backend/src/routes/healthRecordRoutes.ts:17-22 | POST / answers 401, then 403 for a caller who is not a patient whatever the file, then 500 for a refused file, and otherwise uploads |
| HealthRecordRoutes.WordUploadRefusals | jevencare-backend/src/routes/healthRecordRoutes.ts:17-22 | a Word upload is refused for the role (403) when a doctor sends it and for the file (500) when a patient does |
| HealthRecordRoutes.DeleteIsPatientOnly | jevencare-backend/src/routes/healthRecordRoutes.ts:23 | DELETE /:id answers 401, then 403 for a caller who is not a patient, and otherwise deletes with the id and the caller's claims |
| HealthRecordRoutes.ReadsNeedLoginOnly | jevencare-backend/src/routes/healthRecordRoutes.ts:26-27 | GET / and GET /:id run for a signed-in caller of any role |
| AppointmentRoutes.EveryRouteNeedsLogin | jevencare-backend/src/routes/appointmentRoutes.ts:15 | without verified claims every request gets 401, never 403, even on the role-restricted routes |
| AppointmentRoutes.BookingIsPatientOnly | jevencare-backend/src/routes/appointmentRoutes.ts:18 | POST / books for patients and answers 403 to every other signed-in caller |
| AppointmentRoutes.ReadsNeedLoginOnly | jevencare-backend/src/routes/appointmentRoutes.ts:21-22 | GET / and GET /:id run for a signed-in caller of any role |
| AppointmentRoutes.ActionsDiffer | jevencare-backend/src/routes/appointmentRoutes.ts:25-29 | the cancel, status and prescription actions are pairwise different to the router |
| AppointmentRoutes.CancelNeedsLoginOnly | jevencare-backend/src/routes/appointmentRoutes.ts:25 | PUT /:id/cancel runs for a signed-in caller of any role, with the id |
| AppointmentRoutes.OtherAction | jevencare-backend/src/routes/appointmentRoutes.ts:25-29 | a segment naming one action names no other |
| AppointmentRoutes.StatusIsDoctorOnly | jevencare-backend/src/routes/appointmentRoutes.ts:28 | PUT /:id/status runs for doctors and answers 403 to every other signed-in caller |
| AppointmentRoutes.PrescriptionIsDoctorOnly | jevencare-backend/src/routes/appointmentRoutes.ts:29 | PUT /:id/prescription runs for doctors and answers 403 to every other signed-in caller |
| BookAppointment.Hour24IsModular | JevenCare-frontend/app/book-appointment.tsx:96-97 | for a 12-hour reading the hour becomes the hour modulo 12, plus 12 after noon, and is below 24 |
| BookAppointment.Hour24Injective | JevenCare-frontend/app/book-appointment.tsx:96-97 | two different 12-hour readings never give the same 24-hour hour |
| BookAppointment.TwoDigits | JevenCare-frontend/app/book-appointment.tsx:35-48 | a two-digit rendering is two digits |
| BookAppointment.AllLeadingDigits | JevenCare-frontend/app/book-appointment.tsx:95 | `parseInt` reads the whole of a string of digits |
| BookAppointment.ParseTwoDigits | JevenCare-frontend/app/book-appointment.tsx:95-100 | `parseInt` reads back a two-digit rendering as its number |
| BookAppointment.SplitAtOnly | JevenCare-frontend/app/book-appointment.tsx:93-94 | splitting at the one separator gives the two sides |
| BookAppointment.SlotTextClock | JevenCare-frontend/app/book-appointment.tsx:93-100 | a slot written as hours, minutes and a period converts to the 24-hour time the 12-hour rule gives |
| BookAppointment.SlotsMorning | JevenCare-frontend/app/book-appointment.tsx:36-41 | the six morning slots are the readings 9:00 AM to 11:30 AM half an hour apart |
| BookAppointment.SlotsAfternoon | JevenCare-frontend/app/book-appointment.tsx:42-47 | the six afternoon slots are the readings 2:00 PM to 4:30 PM half an hour apart |
| BookAppointment.TimeSlotsConvert | JevenCare-frontend/app/book-appointment.tsx:35-48 | there are twelve slots and each converts to a valid time |
| BookAppointment.SlotMinutesOf | JevenCare-frontend/app/book-appointment.tsx:35-48 | each slot's minute of the day |
| BookAppointment.TimeSlotsOrdered | JevenCare-frontend/app/book-appointment.tsx:35-48 | every slot converts to a time between 9:00 and 16:30, in strictly increasing order |
| BookAppointment.PressBook | JevenCare-frontend/app/book-appointment.tsx:81-125 | pressing "Book"; specified by ChecksBeforeSending, SentRequest, PressWithClock, OfferedSlotSends, SentPassesServerChecks and NullUserRefused |
| BookAppointment.ChecksBeforeSending | JevenCare-frontend/app/book-appointment.tsx:82-90 | without a slot, or with blank symptoms, the screen alerts with its message and sends nothing; a request is sent only with both |
| BookAppointment.DoctorUserId | JevenCare-frontend/app/book-appointment.tsx:111 | the id sent is missing exactly when the profile's user is null, and otherwise is that user's id whether populated or not |
| BookAppointment.SentRequest | JevenCare-frontend/app/book-appointment.tsx:93-125 | a sent request carries the chosen day at the slot's time, which is not in the past, the trimmed symptoms, the consultation type and the doctor's user id, which is missing exactly when the profile's user is null |
| BookAppointment.OfferedSlotSends | JevenCare-frontend/app/book-appointment.tsx:103-106 | every offered slot is either refused as past with its alert or sent at its own time |
| BookAppointment.SlotsNonEmpty | JevenCare-frontend/app/book-appointment.tsx:35-48 | no offered slot is empty, so choosing one passes the first check |
| BookAppointment.PressWithClock | JevenCare-frontend/app/book-appointment.tsx:99-106 | with a slot that converts, the request is refused as past exactly when its time is before now, and otherwise sent at that time |
| BookAppointment.SentPassesServerChecks | JevenCare-frontend/app/book-appointment.tsx:120-125 | a request the screen sends has every field the server requires exactly when the profile's user is not null, a time that is not past and a type the server accepts |
| BookAppointment.NullUserRefused | JevenCare-frontend/app/book-appointment.tsx:111-125 | with the profile's user null the screen still sends the request, without a doctor id, and the booking handler answers 400 whatever the collections hold |
| SymptomChecker.Toggle | JevenCare-frontend/app/symptom-checker.tsx:27-33 | after a toggle an id is selected exactly when it was selected before or it is the toggled id, but not both |
| SymptomChecker.ToggleRemovesInOrder | JevenCare-frontend/app/symptom-checker.tsx:28-29 | toggling a selected id removes it and keeps the others in order |
| SymptomChecker.ToggleKeepsDistinct | JevenCare-frontend/app/symptom-checker.tsx:27-33 | a selection without repeats stays without repeats |
| SymptomChecker.ToggleTwice | JevenCare-frontend/app/symptom-checker.tsx:27-33 | toggling an unselected id twice gives back the selection |
| SymptomChecker.FilterLast | JevenCare-frontend/app/symptom-checker.tsx:29 | filtering a list with a removed id appended gives the filter of the list before it, which makes toggling twice the identity |
| SymptomChecker.Analyse | JevenCare-frontend/app/symptom-checker.tsx:35-48 | the analysis is refused exactly when nothing is selected, and otherwise shows the results with the selection kept |
| SymptomChecker.Reset | JevenCare-frontend/app/symptom-checker.tsx:168-172 | "Check Again" returns to the initial state |
| SymptomChecker.ResetThenAnalyseRefused | JevenCare-frontend/app/symptom-checker.tsx:35-39 | after a reset the analysis is refused until a symptom is selected |
| SymptomChecker.SelectedLine | JevenCare-frontend/app/symptom-checker.tsx:262-272 | the count line under the selection; specified by SelectedLineCounts |
| SymptomChecker.SelectedLineCounts | JevenCare-frontend/app/symptom-checker.tsx:262-272 | the count line appears exactly when something is selected and reads back as the number selected, singular for one |
| Labels.LeadingDigitsOf | JevenCare-frontend/app/medicines.tsx:124-127 | the leading digits of a number followed by a non-digit are that number's digits |
| Labels.CountLabelReadsBack | JevenCare-frontend/app/medicines.tsx:124-127 | a count line starts with the count, which reads back as that count |
| Labels.CountLabelInjective | JevenCare-frontend/app/symptom-checker.tsx:271-272 | different counts give different lines |
| MedicinesScreen.MedicineSearch | JevenCare-frontend/app/medicines.tsx:23-27 | a medicine is shown exactly when the query occurs, ignoring case, in its name or generic name, and the shown ones keep their order |
| MedicinesScreen.PharmacySearch | JevenCare-frontend/app/medicines.tsx:29-31 | a pharmacy is shown exactly when the query occurs in its name ignoring case, in order |
| MedicinesScreen.EmptyQueryShowsAll | JevenCare-frontend/app/medicines.tsx:23-31 | the empty query shows every medicine and every pharmacy |
| MedicinesScreen.Render | JevenCare-frontend/app/medicines.tsx:81-157 | what the screen shows for a query; specified by TabsCountEverything, MedicineSearch, PharmacySearch, MedicinePlural and PharmacyPlural |
| MedicinesScreen.TabsCountEverything | JevenCare-frontend/app/medicines.tsx:81-127 | the tab counts do not depend on the query, and the results line appears exactly when something is found and counts what is shown |
| MedicinesScreen.MedicinePlural | JevenCare-frontend/app/medicines.tsx:108-127 | a positive count of medicines reads "medicines found", singular exactly for one |
| MedicinesScreen.PharmacyPlural | JevenCare-frontend/app/medicines.tsx:140-157 | a positive count of pharmacies reads "pharmacies nearby", singular exactly for one |
| RecordCard.IconAndColorAgree | JevenCare-frontend/components/cards/RecordCard.tsx:12-36 | icon and colour single out the same three types, each its own, and every other type gets the plain document icon in the secondary colour |
| RecordCard.StoredTypesIcons | JevenCare-frontend/components/cards/RecordCard.tsx:12-23 | of the stored record types, prescriptions, lab reports and visit summaries get their own icon and scans and other records the default |
| RecordCard.Capitalize | JevenCare-frontend/components/cards/RecordCard.tsx:41 | capitalising keeps the length |
| RecordCard.CapitalizeAll | JevenCare-frontend/components/cards/RecordCard.tsx:41 | every word is capitalised, in order |
| RecordCard.JoinCons | JevenCare-frontend/components/cards/RecordCard.tsx:42 | joining a word with the rest puts one separator between them |
| RecordCard.FormatType | JevenCare-frontend/components/cards/RecordCard.tsx:38-43 | the record type's label; specified by FormatTypePointwise, FormatTypeShape, LabReportLabel, TwoWords and EmptyWordsKept |
| RecordCard.FormatAfterUnderscore | JevenCare-frontend/components/cards/RecordCard.tsx:38-43 | a leading underscore becomes a space before the rest |
| RecordCard.FormatAfterLetter | JevenCare-frontend/components/cards/RecordCard.tsx:38-43 | a leading letter is upper-cased and the rest keeps its own text |
| RecordCard.FirstWordJoined | JevenCare-frontend/components/cards/RecordCard.tsx:38-43 | formatting with and without a leading letter agrees after the first word |
| RecordCard.FormatTypePointwise | JevenCare-frontend/components/cards/RecordCard.tsx:38-43 | the type label has the type's length, with a space for each underscore, an upper-cased letter at the start of each word and the character itself elsewhere |
| RecordCard.UpperKeepsLetter | JevenCare-frontend/components/cards/RecordCard.tsx:41 | upper-casing keeps the letter ignoring case and makes no underscore |
| RecordCard.FormatTypeShape | JevenCare-frontend/components/cards/RecordCard.tsx:38-43 | the label has no underscore left and every other character is the type's own ignoring case |
| RecordCard.LabReportLabel | JevenCare-frontend/components/cards/RecordCard.tsx:38-43 | "lab_report" reads "Lab Report" |
| RecordCard.LabReportWords | JevenCare-frontend/components/cards/RecordCard.tsx:38-43 | the words of "lab_report", capitalised, read "Lab Report" |
| RecordCard.TwoWords | JevenCare-frontend/components/cards/RecordCard.tsx:38-43 | two words joined by an underscore become the two capitalised words joined by a space |
| RecordCard.EmptyWordsKept | JevenCare-frontend/components/cards/RecordCard.tsx:38-43 | empty words stay empty, so "a__b" reads "A  B" |
| RecordCard.ShowCard | JevenCare-frontend/components/cards/RecordCard.tsx:60-86 | the download badge shows exactly when the record has a non-empty file link, and the label is as long as the type |
| RecordCard.StoredRecordCard | JevenCare-frontend/components/cards/RecordCard.tsx:64-86 | a stored record's card shows the badge exactly when it has a file link, and a scan gets the default icon and colour and the label "Scan" |

## Left out

- Text: `trim`, `toLowerCase` and `toUpperCase` are modelled on ASCII only (space, tab, line feed, carriage return, vertical tab and form feed as whitespace), because Unicode case tables and whitespace classes are outside the model.
- Searches: `$regex` and `new RegExp(search, "i")` take the user's text as a pattern; the model treats it as a literal substring matched ignoring ASCII case, because regular-expression syntax is not modelled.
- Query.Skip, Query.PageOf, Query.PageCount, Query.Paginate, Query.PageOfSorted, Query.ElementOnPage: require page and limit of at least 1, because the `Number()` parse of the query string (NaN, 0, negative, fractional, Infinity) is not modelled.
- AppointmentController.ListAppointments: require page and limit of at least 1, for the same reason.
- AppointmentController.ListingScopedAndOrdered, AppointmentController.PatientSeesOnlyOwn: require page and limit of at least 1, for the same reason.
- DoctorController.DoctorPage, DoctorController.ListDoctors: require page and limit of at least 1, for the same reason.
- DoctorController.DoctorListing, DoctorController.DoctorListingOrdered, DoctorController.DoctorPageScoped, DoctorController.DoctorPageTotals, DoctorController.ListedDoctorsQualify, DoctorController.ListingWithinPage, DoctorController.OrphanOnPageFails, DoctorController.TotalIgnoresSearch: require page and limit of at least 1, for the same reason.
- HealthRecordController.ListRecords: require page and limit of at least 1, for the same reason.
- HealthRecordController.ListRecordsAccess, HealthRecordController.RecordPageScopedAndOrdered: require page and limit of at least 1, for the same reason.
- MedicineController.ListMedicines, MedicineController.ListedMedicineMatches: require page and limit of at least 1, for the same reason.
- MedicineController.MedicinePageOrdered, MedicineController.MedicinePageScoped: require page and limit of at least 1, for the same reason.
- PharmacyController.PharmacyPage, PharmacyController.ListPharmacies, PharmacyController.SelectedPageStored: require page and limit of at least 1, for the same reason.
- PharmacyController.PharmacyListing, PharmacyController.PharmacyPageScoped, PharmacyController.PharmacyTotalIgnoresSearch: require page and limit of at least 1, for the same reason.
- Ids: ObjectIds are natural numbers handed out in increasing order. An id that does not parse as an ObjectId would give a CastError and a 500; it is not modelled, so every id is well formed.
- Persistence: Mongoose documents are values in maps. `populate` projections, `select: false`, indexes other than the unique phone and the unique profile owner, and the bcrypt pre-save hook and `comparePassword` (`User.ts:106-118`, never called by the handlers) are not modelled.
- Validation: a failed `create` or `save` is a 500 that writes nothing. The model keeps the validators' outcome (required, enum, bounds, phone and email patterns, setters) but not the text of the error messages.
- Ordering: ties in a Mongo sort are broken by ascending id, and `distinct` returns values in order of first appearance, because Mongo promises neither order.
- Medicine stock: a JSON `null` stock passes `stock === undefined` and is left out; the request body's fields are either absent or values of the right type.
- Concurrency: requests are handled one at a time. The read-then-write race in booking and the `Promise.all` of `getPharmacies` are not modelled.
- Numbers: fees, prices, ratings and coordinates are `real`, with no float rounding, because floating point is outside the model. The query parameters `minFee` and `maxFee` (doctorController.ts:34-38) and `minPrice` and `maxPrice` (medicineController.ts:44-48) are taken as numbers already: a text such as `minFee=abc`, which `Number` turns into NaN and which then builds a filter no document passes, cannot be expressed.
- Time: instants are integers of milliseconds passed in as `now`. Parsing `dateTime` strings, `toISOString`, locale date formatting and the local time zone and daylight saving behaviour of `setHours` are not modelled; the booking screen takes the chosen day as the instant of its local midnight.
- Tokens: JWT signing and verification (`jevencare-backend/src/utils/jwtUtils.ts`) are parameters of the model, the `TokenService` functions. That verification returns what signing put in is a hypothesis of the lemmas that need it. Expiry strings and cryptography are not modelled.
- OTP delivery: `sendOTP` only writes to the map and logs, so its catch branch (`twilioService.ts:31-34`) cannot be taken and the model always answers true; the 500 that `register` and `sendOTPToUser` give when sending fails is therefore never reached.
- Files: the file host upload and deletion, the file streams, multer's memory storage and its 10 MB limit (`uploadMiddleware.ts:27-33`) are not modelled. The upload handler takes the stored file's URL, type and size as a parameter, and deletion takes the public id only.
- Upload.Extname: `path.extname` is modelled for names without a trailing slash, because the platform rules for such names are outside the model.
- Routing: paths arrive split into segments without the mount prefix and without URL decoding. HEAD requests, trailing slashes and Express's own 404 page for an unmatched path (`NoRoute`) are not modelled.
- Frontend: transport, storage and screen state are not modelled, nor are the mock data of the medicines screen, the canned two-second analysis of the symptom checker (`symptom-checker.tsx:43-47`) and mock payment. The booking screen's doctor reference has three cases: the populated user, the bare id, and null for a profile whose user document is gone (`getDoctorById` populates `userId`, `doctorController.ts:91-94`).
- Reads: `getAppointments`, `getAppointmentById`, `getHealthRecords`, `getHealthRecordById`, `getMedicines`, `getMedicineById`, `getDoctors`, `getDoctorById`, `getSpecializations`, `getMyDoctorProfile`, `getPharmacies`, `getPharmacyById`, `getMyPharmacyProfile`, `getMe` and `refreshAccessToken` change nothing. They are modelled as functions of the collections, without methods.
- Text.ParseInt: reads unsigned numbers only; a sign gives NaN here where `parseInt` would read it, because every slot the booking screen converts is unsigned.
- Wiring: the Express app, CORS, the server start, the database connection and the seed script are not modelled.

## Findings

| source | as written | input that shows it | evidently intended | confidence | as-written member | corrected member |
|---|---|---|---|---|---|---|
| jevencare-backend/src/controllers/authController.ts:40-69 | the user is created (lines 40-47) before the pharmacy profile; `address \|\| ""` at line 66 then fails the profile's `required` address, so the handler answers 500 and leaves a pharmacy user with no profile | phone "9876543210", name "Apollo", role "pharmacy", no address | every patient, doctor and pharmacy user has its profile; a refused registration writes nothing | not executed | AuthController.PharmacyWithoutAddressOrphansUser | AuthController.RegisterKeepsProfilesComplete |
| jevencare-backend/src/controllers/healthRecordController.ts:190 | the doctor test compares `record.doctorId?.toString()` with the caller's id, but `doctorId` is populated (line 177), so the string is the document's text and no doctor ever passes | a record whose `doctorId` names a stored doctor user, read by that doctor | the doctor the record names may read it, as line 189 does for the patient with `._id` | not executed | HealthRecordController.GetRecordAsWritten | HealthRecordController.GetRecordAccess |
