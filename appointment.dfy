/** The `Appointment` document: a consultation booked by a patient with a
    doctor (both user ids), its lifecycle status and its prescription. */
module Appointments {
  import opened Common
  import opened Text

  datatype Status = Scheduled | Completed | Cancelled | Ongoing

  function StatusName(s: Status): string {
    match s
    case Scheduled => "scheduled"
    case Completed => "completed"
    case Cancelled => "cancelled"
    case Ongoing => "ongoing"
  }

  /** The status `enum`: exactly the four names. */
  function ParseStatus(s: string): (r: Option<Status>)
    ensures r.Some? ==> StatusName(r.value) == s
    ensures r.None? ==> forall st :: StatusName(st) != s
  {
    if s == "scheduled" then Some(Scheduled)
    else if s == "completed" then Some(Completed)
    else if s == "cancelled" then Some(Cancelled)
    else if s == "ongoing" then Some(Ongoing)
    else None
  }

  /** The consultation `type`. */
  datatype Kind = Video | Chat

  function KindName(k: Kind): string {
    match k
    case Video => "video"
    case Chat => "chat"
  }

  function ParseKind(s: string): (r: Option<Kind>)
    ensures r.Some? ==> KindName(r.value) == s
    ensures r.None? ==> forall k :: KindName(k) != s
  {
    if s == "video" then Some(Video) else if s == "chat" then Some(Chat) else None
  }

  datatype PaymentStatus = PaymentPending | PaymentCompleted | Refunded

  function PaymentName(p: PaymentStatus): string {
    match p
    case PaymentPending => "pending"
    case PaymentCompleted => "completed"
    case Refunded => "refunded"
  }

  datatype PrescribedMedicine = PrescribedMedicine(
    medicineId: Option<string>,
    name: string,
    dosage: string,
    duration: string,
    instructions: Option<string>)

  /** The nested `prescription` object. Mongoose materialises its arrays as
      empty on every new appointment, so it is never absent; `notes` is. */
  datatype Prescription = Prescription(
    medicines: seq<PrescribedMedicine>,
    labTests: seq<string>,
    notes: Option<string>)

  const EmptyPrescription := Prescription([], [], None)

  datatype Appointment = Appointment(
    patientId: Id,
    doctorId: Id,
    dateTime: int,
    status: Status,
    kind: Kind,
    symptoms: string,
    prescription: Prescription,
    consultationFee: real,
    paymentStatus: PaymentStatus,
    cancelReason: Option<string>)

  /** Each prescribed medicine needs a name, a dosage and a duration. */
  predicate MedicineEntryValid(m: PrescribedMedicine) {
    m.name != "" && m.dosage != "" && m.duration != ""
  }

  predicate PrescriptionValid(p: Prescription) {
    forall i :: 0 <= i < |p.medicines| ==> MedicineEntryValid(p.medicines[i])
  }

  /** The schema's `required` validators on a stored appointment. */
  predicate AppointmentValid(a: Appointment) {
    a.symptoms != "" && PrescriptionValid(a.prescription)
  }

  /** Occupies its doctor's time slot: anything but cancelled. */
  predicate Active(a: Appointment) {
    a.status != Cancelled
  }

  /** The booking invariant: no two active appointments share a doctor and an instant. */
  predicate AtMostOneActivePerSlot(m: map<Id, Appointment>) {
    forall i, j :: i in m && j in m && i != j && Active(m[i]) && Active(m[j]) ==>
      m[i].doctorId != m[j].doctorId || m[i].dateTime != m[j].dateTime
  }

  /** The appointment belongs to this doctor at this instant and is active. */
  predicate Blocks(a: Appointment, doctorId: Id, dateTime: int) {
    a.doctorId == doctorId && a.dateTime == dateTime && Active(a)
  }

  /** Adding an appointment whose slot no stored appointment blocks keeps the booking invariant. */
  lemma AddToFreeSlot(m: map<Id, Appointment>, id: Id, a: Appointment)
    requires AtMostOneActivePerSlot(m) && id !in m
    requires forall k :: k in m ==> !Blocks(m[k], a.doctorId, a.dateTime)
    ensures AtMostOneActivePerSlot(m[id := a])
  {
    var n := m[id := a];
    forall i, j | i in n && j in n && i != j && Active(n[i]) && Active(n[j])
      ensures n[i].doctorId != n[j].doctorId || n[i].dateTime != n[j].dateTime
    {
      if i == id {
        assert !Blocks(m[j], a.doctorId, a.dateTime);
      } else if j == id {
        assert !Blocks(m[i], a.doctorId, a.dateTime);
      }
    }
  }
}
