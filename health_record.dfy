/** The `HealthRecord` document: a patient's record, optionally linked to a
    doctor, an appointment and an uploaded file. */
module HealthRecords {
  import opened Common

  datatype RecordType = PrescriptionRecord | LabReport | VisitSummary | Scan | OtherRecord

  function TypeName(t: RecordType): string {
    match t
    case PrescriptionRecord => "prescription"
    case LabReport => "lab_report"
    case VisitSummary => "visit_summary"
    case Scan => "scan"
    case OtherRecord => "other"
  }

  /** The type `enum`: exactly the five names. */
  function ParseType(s: string): (r: Option<RecordType>)
    ensures r.Some? ==> TypeName(r.value) == s
    ensures r.None? ==> forall t :: TypeName(t) != s
  {
    if s == "prescription" then Some(PrescriptionRecord)
    else if s == "lab_report" then Some(LabReport)
    else if s == "visit_summary" then Some(VisitSummary)
    else if s == "scan" then Some(Scan)
    else if s == "other" then Some(OtherRecord)
    else None
  }

  datatype HealthRecord = HealthRecord(
    patientId: Id,
    doctorId: Option<Id>,
    appointmentId: Option<Id>,
    kind: RecordType,
    title: string,
    description: string,
    fileUrl: Option<string>,
    fileType: Option<string>,
    fileSize: Option<int>,
    date: int)

  /** `required` on title and description. */
  predicate RecordValid(r: HealthRecord) {
    r.title != "" && r.description != ""
  }
}
