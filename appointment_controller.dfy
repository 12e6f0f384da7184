/** The appointment handlers: booking, the role-scoped listing, reading one
    appointment, and the three in-place updates (status, cancellation,
    prescription). Each handler that writes is a method on the store whose
    postcondition ties its reply and the new collection to a decision
    function; the lemmas below are about those functions. */
module AppointmentController {
  import opened Common
  import opened Text
  import opened Query
  import opened Users
  import opened Doctors
  import opened Appointments
  import opened Tokens
  import opened Store

  // ---------------------------------------------------------------- booking

  /** The body of `POST /api/appointments`; `None` is an absent or falsy field. */
  datatype BookRequest = BookRequest(
    doctorId: Option<Id>,
    dateTime: Option<int>,
    kind: Option<string>,
    symptoms: Option<string>)

  predicate FieldsPresent(req: BookRequest) {
    req.doctorId.Some? && req.dateTime.Some? && Truthy(req.kind) && Truthy(req.symptoms)
  }

  function DoctorOf(userId: Id): Doctor -> bool {
    (d: Doctor) => d.userId == userId
  }

  function BlocksSlot(doctorId: Id, dateTime: int): Appointment -> bool {
    (a: Appointment) => Blocks(a, doctorId, dateTime)
  }

  /** `bookAppointment`: the failure, or the appointment it inserts. */
  function BookDecision(doctors: map<Id, Doctor>, appointments: map<Id, Appointment>,
                        patientId: Id, req: BookRequest, now: int): Reply<Appointment>
  {
    if !FieldsPresent(req) then Fail(BadRequest)
    else
      var doctor := FindOne(doctors, DoctorOf(req.doctorId.value));
      if doctor.None? then Fail(NotFound)
      else if req.dateTime.value < now then Fail(BadRequest)
      else if FindOne(appointments, BlocksSlot(req.doctorId.value, req.dateTime.value)).Some? then Fail(BadRequest)
      else
        var kind := ParseKind(req.kind.value);
        if kind.None? then Fail(ServerError)
        else Ok(Appointment(patientId, req.doctorId.value, req.dateTime.value, Scheduled, kind.value,
                            req.symptoms.value, EmptyPrescription, doctor.value.val.consultationFee,
                            PaymentCompleted, None))
  }

  /** Missing fields are reported before anything is looked up. */
  lemma BookChecksFieldsFirst(doctors: map<Id, Doctor>, appointments: map<Id, Appointment>,
                              patientId: Id, req: BookRequest, now: int)
    requires !FieldsPresent(req)
    ensures BookDecision(doctors, appointments, patientId, req, now) == Fail(BadRequest)
  {
  }

  /** With the fields present, an unknown doctor is 404 whatever the time. */
  lemma BookUnknownDoctor(doctors: map<Id, Doctor>, appointments: map<Id, Appointment>,
                          patientId: Id, req: BookRequest, now: int)
    requires FieldsPresent(req)
    requires forall k :: k in doctors ==> doctors[k].userId != req.doctorId.value
    ensures BookDecision(doctors, appointments, patientId, req, now) == Fail(NotFound)
  {
  }

  /** The doctor lookup finds a profile exactly when one has that user id. */
  lemma DoctorFound(doctors: map<Id, Doctor>, userId: Id)
    ensures FindOne(doctors, DoctorOf(userId)).Some? <==> exists k :: k in doctors && doctors[k].userId == userId
  {
    var p := DoctorOf(userId);
    if FindOne(doctors, p).None? {
      forall k | k in doctors ensures doctors[k].userId != userId {
        assert !p(doctors[k]);
      }
    }
  }

  /** The conflict lookup finds nothing exactly when no appointment blocks the slot. */
  lemma SlotFree(appointments: map<Id, Appointment>, doctorId: Id, dateTime: int)
    ensures FindOne(appointments, BlocksSlot(doctorId, dateTime)).None? <==>
      forall k :: k in appointments ==> !Blocks(appointments[k], doctorId, dateTime)
  {
    var q := BlocksSlot(doctorId, dateTime);
    if FindOne(appointments, q).Some? {
      var f := FindOne(appointments, q).value;
      assert Blocks(appointments[f.id], doctorId, dateTime);
    } else {
      forall k | k in appointments ensures !Blocks(appointments[k], doctorId, dateTime) {
        assert !q(appointments[k]);
      }
    }
  }

  /** Exactly when booking succeeds: all fields, a doctor profile, a time
      not before now, a free slot and a known consultation type. The slot
      check looks at active appointments only. */
  lemma BookSucceedsIff(doctors: map<Id, Doctor>, appointments: map<Id, Appointment>,
                        patientId: Id, req: BookRequest, now: int)
    ensures BookDecision(doctors, appointments, patientId, req, now).Ok? <==>
      FieldsPresent(req)
      && (exists k :: k in doctors && doctors[k].userId == req.doctorId.value)
      && now <= req.dateTime.value
      && (forall k :: k in appointments ==> !Blocks(appointments[k], req.doctorId.value, req.dateTime.value))
      && ParseKind(req.kind.value).Some?
  {
    if FieldsPresent(req) {
      var doctorId, dateTime := req.doctorId.value, req.dateTime.value;
      DoctorFound(doctors, doctorId);
      SlotFree(appointments, doctorId, dateTime);
      var doctor := FindOne(doctors, DoctorOf(doctorId));
      var conflict := FindOne(appointments, BlocksSlot(doctorId, dateTime));
      var decision := BookDecision(doctors, appointments, patientId, req, now);
      if doctor.None? {
        assert decision == Fail(NotFound);
      } else if dateTime < now {
        assert decision == Fail(BadRequest);
      } else if conflict.Some? {
        assert decision == Fail(BadRequest);
      } else if ParseKind(req.kind.value).None? {
        assert decision == Fail(ServerError);
      } else {
        assert decision.Ok?;
      }
    }
  }

  /** A booked appointment is scheduled, paid, owned by the caller, at the
      requested instant, and carries the fee of the doctor's profile. */
  lemma BookedAppointment(doctors: map<Id, Doctor>, appointments: map<Id, Appointment>,
                          patientId: Id, req: BookRequest, now: int)
    requires BookDecision(doctors, appointments, patientId, req, now).Ok?
    ensures var a := BookDecision(doctors, appointments, patientId, req, now).value;
      a.status == Scheduled && a.paymentStatus == PaymentCompleted && a.cancelReason.None?
      && a.patientId == patientId && a.doctorId == req.doctorId.value
      && a.dateTime == req.dateTime.value && now <= a.dateTime
      && KindName(a.kind) == req.kind.value && a.symptoms == req.symptoms.value
      && AppointmentValid(a)
      && exists k :: k in doctors && doctors[k].userId == a.doctorId
                   && a.consultationFee == doctors[k].consultationFee
  {
    var d := FindOne(doctors, DoctorOf(req.doctorId.value)).value;
    assert d.id in doctors && doctors[d.id].userId == req.doctorId.value;
  }

  /** Booking keeps the slot invariant. */
  lemma BookPreservesSlots(doctors: map<Id, Doctor>, appointments: map<Id, Appointment>,
                           patientId: Id, req: BookRequest, now: int, newId: Id)
    requires AtMostOneActivePerSlot(appointments) && newId !in appointments
    requires BookDecision(doctors, appointments, patientId, req, now).Ok?
    ensures AtMostOneActivePerSlot(appointments[newId := BookDecision(doctors, appointments, patientId, req, now).value])
  {
    BookSucceedsIff(doctors, appointments, patientId, req, now);
    var a := BookDecision(doctors, appointments, patientId, req, now).value;
    assert a.doctorId == req.doctorId.value && a.dateTime == req.dateTime.value;
    AddToFreeSlot(appointments, newId, a);
  }

  /** `bookAppointment` on the store. */
  method BookAppointment(db: Database, caller: Payload, req: BookRequest, now: int)
    returns (reply: Reply<Doc<Appointment>>)
    requires db.Valid()
    modifies db`appointments, db`nextId
    ensures db.Valid()
    ensures match BookDecision(old(db.doctors), old(db.appointments), caller.userId, req, now)
      case Fail(f) => reply == Fail(f) && db.appointments == old(db.appointments)
      case Ok(a) => reply == Ok(Doc(old(db.nextId), a)) && old(db.nextId) !in old(db.appointments)
                    && db.appointments == old(db.appointments)[old(db.nextId) := a]
    ensures AtMostOneActivePerSlot(old(db.appointments)) ==> AtMostOneActivePerSlot(db.appointments)
  {
    ghost var decision := BookDecision(db.doctors, db.appointments, caller.userId, req, now);
    if req.doctorId.None? || req.dateTime.None? || !Truthy(req.kind) || !Truthy(req.symptoms) {
      assert decision == Fail(BadRequest);
      return Fail(BadRequest);
    }
    var doctorId, dateTime := req.doctorId.value, req.dateTime.value;
    var doctor := FindOne(db.doctors, DoctorOf(doctorId));
    if doctor.None? {
      assert decision == Fail(NotFound);
      return Fail(NotFound);
    }
    if dateTime < now {
      assert decision == Fail(BadRequest);
      return Fail(BadRequest);
    }
    var existing := FindOne(db.appointments, BlocksSlot(doctorId, dateTime));
    if existing.Some? {
      assert decision == Fail(BadRequest);
      return Fail(BadRequest);
    }
    var kind := ParseKind(req.kind.value);
    if kind.None? {
      assert decision == Fail(ServerError);
      return Fail(ServerError);
    }
    var a := Appointment(caller.userId, doctorId, dateTime, Scheduled, kind.value, req.symptoms.value,
                         EmptyPrescription, doctor.value.val.consultationFee, PaymentCompleted, None);
    assert decision == Ok(a);
    ghost var before := db.appointments;
    var id := db.InsertAppointment(a);
    if AtMostOneActivePerSlot(before) {
      SlotFree(before, doctorId, dateTime);
      AddToFreeSlot(before, id, a);
    }
    return Ok(Doc(id, a));
  }

  // ---------------------------------------------------------------- listing

  /** Patients see their own appointments, doctors theirs, every other role
      all of them; a given status must match exactly. */
  function InListing(caller: Payload, status: Option<string>): Appointment -> bool {
    (a: Appointment) =>
      (caller.role == PatientRole ==> a.patientId == caller.userId)
      && (caller.role == DoctorRole ==> a.doctorId == caller.userId)
      && (Truthy(status) ==> StatusName(a.status) == status.value)
  }

  /** `sort({ dateTime: -1 })`. */
  function LaterFirst(a: Doc<Appointment>, b: Doc<Appointment>): bool {
    a.val.dateTime >= b.val.dateTime
  }

  function Selected(m: map<Id, Appointment>, caller: Payload, status: Option<string>): seq<Doc<Appointment>> {
    Filter(Docs(m), (d: Doc<Appointment>) => InListing(caller, status)(d.val))
  }

  /** `getAppointments`. */
  function ListAppointments(m: map<Id, Appointment>, caller: Payload, status: Option<string>,
                            page: nat, limit: nat): Listing<Doc<Appointment>>
    requires page >= 1 && limit >= 1
  {
    Paginate(SortBy(Selected(m, caller, status), LaterFirst), page, limit)
  }

  /** Every listed appointment is in the caller's scope, the page is ordered
      latest first, and the totals count the whole scope. */
  lemma ListingScopedAndOrdered(m: map<Id, Appointment>, caller: Payload, status: Option<string>,
                                page: nat, limit: nat)
    requires page >= 1 && limit >= 1
    ensures var l := ListAppointments(m, caller, status, page, limit);
      (forall i :: 0 <= i < |l.items| ==>
         l.items[i].id in m && l.items[i].val == m[l.items[i].id] && InListing(caller, status)(l.items[i].val))
      && (forall i, j :: 0 <= i < j < |l.items| ==> l.items[i].val.dateTime >= l.items[j].val.dateTime)
      && l.total == |Selected(m, caller, status)|
      && l.pages == PageCount(l.total, limit)
  {
    var sel := Selected(m, caller, status);
    var sorted := SortBy(sel, LaterFirst);
    SortBySorted(sel, LaterFirst);
    var l := ListAppointments(m, caller, status, page, limit);
    forall i | 0 <= i < |l.items|
      ensures l.items[i].id in m && l.items[i].val == m[l.items[i].id] && InListing(caller, status)(l.items[i].val)
    {
      var x := l.items[i];
      assert x == sorted[Skip(page, limit) + i];
      assert x in multiset(sorted);
      assert x in sel;
    }
  }

  /** A patient's listing never shows another patient's appointment. */
  lemma PatientSeesOnlyOwn(m: map<Id, Appointment>, caller: Payload, status: Option<string>,
                           page: nat, limit: nat, i: nat)
    requires page >= 1 && limit >= 1 && caller.role == PatientRole
    requires i < |ListAppointments(m, caller, status, page, limit).items|
    ensures ListAppointments(m, caller, status, page, limit).items[i].val.patientId == caller.userId
  {
    ListingScopedAndOrdered(m, caller, status, page, limit);
  }

  // ---------------------------------------------------------------- one appointment

  /** `getAppointmentById`: 404, then the owner checks for patients and
      doctors (dereferencing a populated party that no longer exists throws,
      500); other roles may read any appointment. */
  function GetAppointment(users: map<Id, User>, m: map<Id, Appointment>, id: Id, caller: Payload)
    : (r: Reply<Doc<Appointment>>)
    ensures r.Ok? ==> id in m && r.value == Doc(id, m[id])
  {
    if id !in m then Fail(NotFound)
    else
      var a := m[id];
      if caller.role == PatientRole && a.patientId !in users then Fail(ServerError)
      else if caller.role == PatientRole && a.patientId != caller.userId then Fail(Forbidden)
      else if caller.role == DoctorRole && a.doctorId !in users then Fail(ServerError)
      else if caller.role == DoctorRole && a.doctorId != caller.userId then Fail(Forbidden)
      else Ok(Doc(id, a))
  }

  /** With both parties on file, reading succeeds exactly for the owning
      patient, the owning doctor, and every pharmacy or admin caller. */
  lemma GetAppointmentAccess(users: map<Id, User>, m: map<Id, Appointment>, id: Id, caller: Payload)
    requires id in m && m[id].patientId in users && m[id].doctorId in users
    ensures GetAppointment(users, m, id, caller).Ok? <==>
      (caller.role == PatientRole ==> m[id].patientId == caller.userId)
      && (caller.role == DoctorRole ==> m[id].doctorId == caller.userId)
    ensures GetAppointment(users, m, id, caller).Fail? ==> GetAppointment(users, m, id, caller).failure == Forbidden
  {
  }

  // ---------------------------------------------------------------- status

  /** `updateAppointmentStatus`: the status is checked against the enum
      before the lookup; only the appointment's doctor may set it, to any
      value, with no check of the current one. */
  function StatusDecision(m: map<Id, Appointment>, id: Id, status: Option<string>, callerId: Id): Reply<Appointment> {
    if status.None? || ParseStatus(status.value).None? then Fail(BadRequest)
    else if id !in m then Fail(NotFound)
    else if m[id].doctorId != callerId then Fail(Forbidden)
    else Ok(m[id].(status := ParseStatus(status.value).value))
  }

  /** Any status can be set from any status; nothing but the status changes. */
  lemma StatusNoTransitionCheck(m: map<Id, Appointment>, id: Id, s: Status, callerId: Id)
    requires id in m && m[id].doctorId == callerId
    ensures StatusDecision(m, id, Some(StatusName(s)), callerId) == Ok(m[id].(status := s))
  {
    match s
    case Scheduled =>
    case Completed =>
    case Cancelled =>
    case Ongoing =>
  }

  lemma StatusRejectsUnknown(m: map<Id, Appointment>, id: Id, status: string, callerId: Id)
    requires ParseStatus(status).None?
    ensures StatusDecision(m, id, Some(status), callerId) == Fail(BadRequest)
  {
  }

  /** The slot invariant is not preserved by a bare status update: un-cancelling
      an appointment whose slot was rebooked yields two active bookings. */
  lemma StatusUpdateCanDoubleBook()
    ensures var a := Appointment(1, 2, 1000, Cancelled, Video, "fever", EmptyPrescription, 300.0, PaymentCompleted, Some("Cancelled by user"));
      var b := a.(patientId := 3, status := Scheduled, cancelReason := None);
      var m := map[10 := a, 11 := b];
      AtMostOneActivePerSlot(m)
      && StatusDecision(m, 10, Some("scheduled"), 2).Ok?
      && !AtMostOneActivePerSlot(m[10 := StatusDecision(m, 10, Some("scheduled"), 2).value])
  {
    var a := Appointment(1, 2, 1000, Cancelled, Video, "fever", EmptyPrescription, 300.0, PaymentCompleted, Some("Cancelled by user"));
    var b := a.(patientId := 3, status := Scheduled, cancelReason := None);
    var m := map[10 := a, 11 := b];
    var m2 := m[10 := StatusDecision(m, 10, Some("scheduled"), 2).value];
    assert Active(m2[10]) && Active(m2[11]);
  }

  method UpdateAppointmentStatus(db: Database, id: Id, status: Option<string>, caller: Payload)
    returns (reply: Reply<Doc<Appointment>>)
    requires db.Valid()
    modifies db`appointments
    ensures db.Valid()
    ensures match StatusDecision(old(db.appointments), id, status, caller.userId)
      case Fail(f) => reply == Fail(f) && db.appointments == old(db.appointments)
      case Ok(a) => reply == Ok(Doc(id, a)) && db.appointments == old(db.appointments)[id := a]
  {
    if status.None? || ParseStatus(status.value).None? {
      return Fail(BadRequest);
    }
    if id !in db.appointments {
      return Fail(NotFound);
    }
    var appointment := db.appointments[id];
    if appointment.doctorId != caller.userId {
      return Fail(Forbidden);
    }
    appointment := appointment.(status := ParseStatus(status.value).value);
    db.appointments := db.appointments[id := appointment];
    return Ok(Doc(id, appointment));
  }

  // ---------------------------------------------------------------- cancel

  const DefaultCancelReason := "Cancelled by user"

  /** `cancelAppointment`: the owning patient (as a patient) or the owning
      doctor (as a doctor) may cancel anything not completed. */
  function CancelDecision(m: map<Id, Appointment>, id: Id, cancelReason: Option<string>, caller: Payload)
    : Reply<Appointment>
  {
    if id !in m then Fail(NotFound)
    else
      var a := m[id];
      var isPatient := caller.role == PatientRole && a.patientId == caller.userId;
      var isDoctor := caller.role == DoctorRole && a.doctorId == caller.userId;
      if !isPatient && !isDoctor then Fail(Forbidden)
      else if a.status == Completed then Fail(BadRequest)
      else Ok(a.(status := Cancelled,
                 cancelReason := Some(if Truthy(cancelReason) then cancelReason.value else DefaultCancelReason)))
  }

  /** Cancellation succeeds exactly for an owning party on an appointment
      that is not completed, and then changes only the status and reason. */
  lemma CancelSucceedsIff(m: map<Id, Appointment>, id: Id, cancelReason: Option<string>, caller: Payload)
    ensures CancelDecision(m, id, cancelReason, caller).Ok? <==>
      id in m && m[id].status != Completed
      && ((caller.role == PatientRole && m[id].patientId == caller.userId)
          || (caller.role == DoctorRole && m[id].doctorId == caller.userId))
    ensures CancelDecision(m, id, cancelReason, caller).Ok? ==>
      var a := CancelDecision(m, id, cancelReason, caller).value;
      a.status == Cancelled && a.cancelReason.Some? && a.cancelReason.value != ""
      && a == m[id].(status := a.status, cancelReason := a.cancelReason)
  {
  }

  /** An already cancelled appointment can be cancelled again. */
  lemma CancelAgain(m: map<Id, Appointment>, id: Id, caller: Payload)
    requires id in m && m[id].status == Cancelled
    requires caller.role == PatientRole && m[id].patientId == caller.userId
    ensures CancelDecision(m, id, None, caller).Ok?
  {
  }

  /** Cancelling frees a slot, so the invariant is kept. */
  lemma CancelPreservesSlots(m: map<Id, Appointment>, id: Id, cancelReason: Option<string>, caller: Payload)
    requires AtMostOneActivePerSlot(m)
    requires CancelDecision(m, id, cancelReason, caller).Ok?
    ensures AtMostOneActivePerSlot(m[id := CancelDecision(m, id, cancelReason, caller).value])
  {
    var m2 := m[id := CancelDecision(m, id, cancelReason, caller).value];
    forall i, j | i in m2 && j in m2 && i != j && Active(m2[i]) && Active(m2[j])
      ensures m2[i].doctorId != m2[j].doctorId || m2[i].dateTime != m2[j].dateTime
    {
      assert i != id && j != id;
    }
  }

  method CancelAppointment(db: Database, id: Id, cancelReason: Option<string>, caller: Payload)
    returns (reply: Reply<Doc<Appointment>>)
    requires db.Valid()
    modifies db`appointments
    ensures db.Valid()
    ensures match CancelDecision(old(db.appointments), id, cancelReason, caller)
      case Fail(f) => reply == Fail(f) && db.appointments == old(db.appointments)
      case Ok(a) => reply == Ok(Doc(id, a)) && db.appointments == old(db.appointments)[id := a]
    ensures AtMostOneActivePerSlot(old(db.appointments)) ==> AtMostOneActivePerSlot(db.appointments)
  {
    if id !in db.appointments {
      return Fail(NotFound);
    }
    var appointment := db.appointments[id];
    var isPatient := caller.role == PatientRole && appointment.patientId == caller.userId;
    var isDoctor := caller.role == DoctorRole && appointment.doctorId == caller.userId;
    if !isPatient && !isDoctor {
      return Fail(Forbidden);
    }
    if appointment.status == Completed {
      return Fail(BadRequest);
    }
    appointment := appointment.(status := Cancelled);
    appointment := appointment.(cancelReason := Some(if Truthy(cancelReason) then cancelReason.value else DefaultCancelReason));
    if AtMostOneActivePerSlot(db.appointments) {
      CancelPreservesSlots(db.appointments, id, cancelReason, caller);
    }
    db.appointments := db.appointments[id := appointment];
    return Ok(Doc(id, appointment));
  }

  // ---------------------------------------------------------------- prescription

  /** The body of `PUT /:id/prescription`; `None` is an absent or falsy field. */
  datatype PrescriptionRequest = PrescriptionRequest(
    medicines: Option<seq<PrescribedMedicine>>,
    labTests: Option<seq<string>>,
    notes: Option<string>)

  function PrescriptionOf(req: PrescriptionRequest): (p: Prescription)
    ensures p.medicines == (if req.medicines.Some? then req.medicines.value else [])
    ensures p.labTests == (if req.labTests.Some? then req.labTests.value else [])
    ensures p.notes == Some(if Truthy(req.notes) then req.notes.value else "")
  {
    Prescription(req.medicines.GetOr([]), req.labTests.GetOr([]),
                 Some(if Truthy(req.notes) then req.notes.value else ""))
  }

  /** `addPrescription`: only the appointment's doctor; the prescription is
      replaced as a whole, and an ongoing consultation becomes completed. A
      medicine entry without name, dosage or duration fails the save. */
  function PrescriptionDecision(m: map<Id, Appointment>, id: Id, req: PrescriptionRequest, callerId: Id)
    : Reply<Appointment>
  {
    if id !in m then Fail(NotFound)
    else if m[id].doctorId != callerId then Fail(Forbidden)
    else
      var a := m[id].(prescription := PrescriptionOf(req),
                      status := if m[id].status == Ongoing then Completed else m[id].status);
      if !PrescriptionValid(a.prescription) then Fail(ServerError) else Ok(a)
  }

  /** Only `ongoing` changes status, and only to `completed`; whether the
      appointment is active is never changed. */
  lemma PrescriptionStatus(m: map<Id, Appointment>, id: Id, req: PrescriptionRequest, callerId: Id)
    requires PrescriptionDecision(m, id, req, callerId).Ok?
    ensures var a := PrescriptionDecision(m, id, req, callerId).value;
      (m[id].status == Ongoing ==> a.status == Completed)
      && (m[id].status != Ongoing ==> a.status == m[id].status)
      && Active(a) == Active(m[id])
      && a == m[id].(status := a.status, prescription := PrescriptionOf(req))
  {
  }

  lemma PrescriptionPreservesSlots(m: map<Id, Appointment>, id: Id, req: PrescriptionRequest, callerId: Id)
    requires AtMostOneActivePerSlot(m)
    requires PrescriptionDecision(m, id, req, callerId).Ok?
    ensures AtMostOneActivePerSlot(m[id := PrescriptionDecision(m, id, req, callerId).value])
  {
    PrescriptionStatus(m, id, req, callerId);
    var m2 := m[id := PrescriptionDecision(m, id, req, callerId).value];
    forall i, j | i in m2 && j in m2 && i != j && Active(m2[i]) && Active(m2[j])
      ensures m2[i].doctorId != m2[j].doctorId || m2[i].dateTime != m2[j].dateTime
    {
      assert Active(m[i]) && Active(m[j]);
      assert m2[i].doctorId == m[i].doctorId && m2[i].dateTime == m[i].dateTime;
      assert m2[j].doctorId == m[j].doctorId && m2[j].dateTime == m[j].dateTime;
    }
  }

  method AddPrescription(db: Database, id: Id, req: PrescriptionRequest, caller: Payload)
    returns (reply: Reply<Doc<Appointment>>)
    requires db.Valid()
    modifies db`appointments
    ensures db.Valid()
    ensures match PrescriptionDecision(old(db.appointments), id, req, caller.userId)
      case Fail(f) => reply == Fail(f) && db.appointments == old(db.appointments)
      case Ok(a) => reply == Ok(Doc(id, a)) && db.appointments == old(db.appointments)[id := a]
    ensures AtMostOneActivePerSlot(old(db.appointments)) ==> AtMostOneActivePerSlot(db.appointments)
  {
    if id !in db.appointments {
      return Fail(NotFound);
    }
    var appointment := db.appointments[id];
    if appointment.doctorId != caller.userId {
      return Fail(Forbidden);
    }
    appointment := appointment.(prescription := PrescriptionOf(req));
    if appointment.status == Ongoing {
      appointment := appointment.(status := Completed);
    }
    if !PrescriptionValid(appointment.prescription) {
      return Fail(ServerError);
    }
    if AtMostOneActivePerSlot(db.appointments) {
      PrescriptionPreservesSlots(db.appointments, id, req, caller.userId);
    }
    db.appointments := db.appointments[id := appointment];
    return Ok(Doc(id, appointment));
  }
}
