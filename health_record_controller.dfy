/** The health record handlers: upload (validation and assembly of the
    record; the file itself is stored by the file host, which is outside the
    model), the role-scoped listing, reading one record, and deletion by the
    owning patient together with the file-host id of the attached file. */
module HealthRecordController {
  import opened Common
  import opened Text
  import opened Query
  import opened Users
  import opened HealthRecords
  import opened Tokens
  import opened Store

  // ---------------------------------------------------------------- upload

  /** The form fields of `POST /api/records`; `None` is an absent or falsy field,
      and ids and the date arrive already parsed. */
  datatype UploadRequest = UploadRequest(
    kind: Option<string>,
    title: Option<string>,
    description: Option<string>,
    doctorId: Option<Id>,
    appointmentId: Option<Id>,
    date: Option<int>)

  /** What an uploaded file contributes: the URL the file host answered with,
      and the file's own mimetype and size. */
  datatype StoredFile = StoredFile(secureUrl: string, mimetype: string, size: int)

  predicate UploadFieldsPresent(req: UploadRequest) {
    Truthy(req.kind) && Truthy(req.title) && Truthy(req.description)
  }

  /** `fileUrl`, `fileType` and `fileSize` are set only from an uploaded file,
      and each only when its value is truthy. */
  function FileUrlOf(file: Option<StoredFile>): Option<string> {
    if file.Some? && file.value.secureUrl != "" then Some(file.value.secureUrl) else None
  }

  function FileTypeOf(file: Option<StoredFile>): Option<string> {
    if file.Some? && file.value.mimetype != "" then Some(file.value.mimetype) else None
  }

  function FileSizeOf(file: Option<StoredFile>): Option<int> {
    if file.Some? && file.value.size != 0 then Some(file.value.size) else None
  }

  /** `uploadHealthRecord`: 400 without type, title or description; a type
      outside the enum fails the schema on `create` (500); otherwise the
      record to insert. */
  function UploadDecision(patientId: Id, req: UploadRequest, file: Option<StoredFile>, now: int): Reply<HealthRecord> {
    if !UploadFieldsPresent(req) then Fail(BadRequest)
    else
      var kind := ParseType(req.kind.value);
      if kind.None? then Fail(ServerError)
      else Ok(HealthRecord(patientId, req.doctorId, req.appointmentId, kind.value, req.title.value,
                           req.description.value, FileUrlOf(file), FileTypeOf(file), FileSizeOf(file),
                           req.date.GetOr(now)))
  }

  /** Upload succeeds exactly when the three fields are present and the type is one of the five. */
  lemma UploadSucceedsIff(patientId: Id, req: UploadRequest, file: Option<StoredFile>, now: int)
    ensures UploadDecision(patientId, req, file, now).Ok? <==>
      UploadFieldsPresent(req) && exists t :: TypeName(t) == req.kind.value
    ensures UploadDecision(patientId, req, file, now).Fail? ==>
      UploadDecision(patientId, req, file, now).failure == (if UploadFieldsPresent(req) then ServerError else BadRequest)
  {
    if UploadFieldsPresent(req) && ParseType(req.kind.value).Some? {
      assert TypeName(ParseType(req.kind.value).value) == req.kind.value;
    }
  }

  /** The record belongs to the caller, has the requested type, title and
      description, is dated at the given date or else now, links a doctor or
      appointment only when given, and has file fields only from a file. */
  lemma UploadedRecord(patientId: Id, req: UploadRequest, file: Option<StoredFile>, now: int)
    requires UploadDecision(patientId, req, file, now).Ok?
    ensures var r := UploadDecision(patientId, req, file, now).value;
      r.patientId == patientId && TypeName(r.kind) == req.kind.value
      && r.title == req.title.value && r.description == req.description.value
      && r.date == (if req.date.Some? then req.date.value else now)
      && r.doctorId == req.doctorId && r.appointmentId == req.appointmentId
      && (r.fileUrl.Some? <==> file.Some? && file.value.secureUrl != "")
      && (r.fileUrl.Some? ==> r.fileUrl.value == file.value.secureUrl)
      && (r.fileType.Some? <==> file.Some? && file.value.mimetype != "")
      && (r.fileType.Some? ==> r.fileType.value == file.value.mimetype)
      && (r.fileSize.Some? <==> file.Some? && file.value.size != 0)
      && (r.fileSize.Some? ==> r.fileSize.value == file.value.size)
      && (file.None? ==> r.fileUrl.None? && r.fileType.None? && r.fileSize.None?)
      && RecordValid(r)
  {
  }

  /** `uploadHealthRecord` on the store: the record data is assembled field by
      field, then inserted under a new id. */
  method UploadHealthRecord(db: Database, caller: Payload, req: UploadRequest, file: Option<StoredFile>, now: int)
    returns (reply: Reply<Doc<HealthRecord>>)
    requires db.Valid()
    modifies db`records, db`nextId
    ensures db.Valid()
    ensures match UploadDecision(caller.userId, req, file, now)
      case Fail(f) => reply == Fail(f) && db.records == old(db.records)
      case Ok(r) => reply == Ok(Doc(old(db.nextId), r)) && old(db.nextId) !in old(db.records)
                    && db.records == old(db.records)[old(db.nextId) := r]
  {
    ghost var decision := UploadDecision(caller.userId, req, file, now);
    if !Truthy(req.kind) || !Truthy(req.title) || !Truthy(req.description) {
      return Fail(BadRequest);
    }
    var fileUrl: Option<string> := None;
    var fileType: Option<string> := None;
    var fileSize: Option<int> := None;
    if file.Some? {
      fileUrl, fileType, fileSize := Some(file.value.secureUrl), Some(file.value.mimetype), Some(file.value.size);
    }
    var kind := ParseType(req.kind.value);
    if kind.None? {
      return Fail(ServerError);
    }
    var date := if req.date.Some? then req.date.value else now;
    var record := HealthRecord(caller.userId, None, None, kind.value, req.title.value, req.description.value,
                               None, None, None, date);
    if req.doctorId.Some? {
      record := record.(doctorId := req.doctorId);
    }
    if req.appointmentId.Some? {
      record := record.(appointmentId := req.appointmentId);
    }
    if fileUrl.Some? && fileUrl.value != "" {
      record := record.(fileUrl := fileUrl);
    }
    if fileType.Some? && fileType.value != "" {
      record := record.(fileType := fileType);
    }
    if fileSize.Some? && fileSize.value != 0 {
      record := record.(fileSize := fileSize);
    }
    assert decision == Ok(record);
    var id := db.InsertRecord(record);
    return Ok(Doc(id, record));
  }

  // ---------------------------------------------------------------- listing

  /** Patients list their own records, doctors the records naming them; a
      given type must match exactly. */
  function InScope(caller: Payload, kind: Option<string>): HealthRecord -> bool {
    (r: HealthRecord) =>
      (caller.role == PatientRole ==> r.patientId == caller.userId)
      && (caller.role == DoctorRole ==> r.doctorId == Some(caller.userId))
      && (Truthy(kind) ==> TypeName(r.kind) == kind.value)
  }

  /** `sort({ date: -1 })`. */
  function NewerFirst(a: Doc<HealthRecord>, b: Doc<HealthRecord>): bool {
    a.val.date >= b.val.date
  }

  function SelectedRecords(m: map<Id, HealthRecord>, caller: Payload, kind: Option<string>): seq<Doc<HealthRecord>> {
    Filter(Docs(m), (d: Doc<HealthRecord>) => InScope(caller, kind)(d.val))
  }

  /** `getHealthRecords`: every role but patient and doctor is refused. */
  function ListRecords(m: map<Id, HealthRecord>, caller: Payload, kind: Option<string>,
                       page: nat, limit: nat): Reply<Listing<Doc<HealthRecord>>>
    requires page >= 1 && limit >= 1
  {
    if caller.role != PatientRole && caller.role != DoctorRole then Fail(Forbidden)
    else Ok(Paginate(SortBy(SelectedRecords(m, caller, kind), NewerFirst), page, limit))
  }

  /** `getHealthRecords` for a patient or doctor: a page of the caller's own
      records, newest first, counted over the whole scope. */
  lemma RecordPageScopedAndOrdered(m: map<Id, HealthRecord>, caller: Payload, kind: Option<string>,
                                   page: nat, limit: nat)
    requires page >= 1 && limit >= 1
    ensures var l := Paginate(SortBy(SelectedRecords(m, caller, kind), NewerFirst), page, limit);
      (forall i :: 0 <= i < |l.items| ==>
         l.items[i].id in m && l.items[i].val == m[l.items[i].id] && InScope(caller, kind)(l.items[i].val))
      && (forall i, j :: 0 <= i < j < |l.items| ==> l.items[i].val.date >= l.items[j].val.date)
      && l.total == |SelectedRecords(m, caller, kind)|
      && l.pages == PageCount(l.total, limit)
  {
    var sel := SelectedRecords(m, caller, kind);
    var sorted := SortBy(sel, NewerFirst);
    SortBySorted(sel, NewerFirst);
    var l := Paginate(sorted, page, limit);
    forall i | 0 <= i < |l.items|
      ensures l.items[i].id in m && l.items[i].val == m[l.items[i].id] && InScope(caller, kind)(l.items[i].val)
    {
      var x := l.items[i];
      assert x == sorted[Skip(page, limit) + i];
      assert x in multiset(sorted);
      assert x in sel;
    }
  }

  /** Pharmacies and admins get 403; patients and doctors get the page above. */
  lemma ListRecordsAccess(m: map<Id, HealthRecord>, caller: Payload, kind: Option<string>,
                          page: nat, limit: nat)
    requires page >= 1 && limit >= 1
    ensures ListRecords(m, caller, kind, page, limit).Fail? <==> caller.role != PatientRole && caller.role != DoctorRole
    ensures ListRecords(m, caller, kind, page, limit).Fail? ==> ListRecords(m, caller, kind, page, limit).failure == Forbidden
    ensures ListRecords(m, caller, kind, page, limit).Ok? ==>
      ListRecords(m, caller, kind, page, limit).value == Paginate(SortBy(SelectedRecords(m, caller, kind), NewerFirst), page, limit)
  {
  }

  /** Every record in the caller's scope is counted in the total, on some page. */
  lemma ListRecordsComplete(m: map<Id, HealthRecord>, caller: Payload, kind: Option<string>, k: Id)
    requires k in m && InScope(caller, kind)(m[k])
    ensures Doc(k, m[k]) in SortBy(SelectedRecords(m, caller, kind), NewerFirst)
  {
    DocsComplete(m);
    var sel := SelectedRecords(m, caller, kind);
    assert Doc(k, m[k]) in sel;
    assert Doc(k, m[k]) in multiset(SortBy(sel, NewerFirst));
  }

  // ---------------------------------------------------------------- one record

  /** `getHealthRecordById`: 404; a patient caller dereferences the populated
      patient (500 when that user is gone); only the owning patient or the
      doctor the record names may read it. */
  function GetRecord(users: map<Id, User>, m: map<Id, HealthRecord>, id: Id, caller: Payload)
    : (r: Reply<Doc<HealthRecord>>)
    ensures r.Ok? ==> id in m && r.value == Doc(id, m[id])
  {
    if id !in m then Fail(NotFound)
    else
      var rec := m[id];
      if caller.role == PatientRole && rec.patientId !in users then Fail(ServerError)
      else
        var isPatient := caller.role == PatientRole && rec.patientId == caller.userId;
        var isDoctor := caller.role == DoctorRole && rec.doctorId == Some(caller.userId) && caller.userId in users;
        if !isPatient && !isDoctor then Fail(Forbidden)
        else Ok(Doc(id, rec))
  }

  /** With the patient on file, reading succeeds exactly for the owning
      patient and for the named doctor; everyone else gets 403. */
  lemma GetRecordAccess(users: map<Id, User>, m: map<Id, HealthRecord>, id: Id, caller: Payload)
    requires id in m && m[id].patientId in users
    ensures GetRecord(users, m, id, caller).Ok? <==>
      (caller.role == PatientRole && m[id].patientId == caller.userId)
      || (caller.role == DoctorRole && m[id].doctorId == Some(caller.userId) && caller.userId in users)
    ensures GetRecord(users, m, id, caller).Fail? ==> GetRecord(users, m, id, caller).failure == Forbidden
  {
  }

  /** A pharmacy or admin caller can never read a record. */
  lemma OtherRolesCannotRead(users: map<Id, User>, m: map<Id, HealthRecord>, id: Id, caller: Payload)
    requires caller.role == PharmacyRole || caller.role == AdminRole
    ensures GetRecord(users, m, id, caller) == Fail(if id in m then Forbidden else NotFound)
  {
  }

  /** `getHealthRecordById` as written: the doctor test takes the string form
      of the populated doctor document, which is the document's text and
      never an id, so no doctor passes it; the patient test reads `_id` and
      works. */
  function GetRecordAsWritten(users: map<Id, User>, m: map<Id, HealthRecord>, id: Id, caller: Payload)
    : (r: Reply<Doc<HealthRecord>>)
    ensures r.Ok? <==> id in m && caller.role == PatientRole && m[id].patientId == caller.userId && caller.userId in users
    ensures r.Ok? ==> r.value == Doc(id, m[id])
  {
    if id !in m then Fail(NotFound)
    else
      var rec := m[id];
      if caller.role == PatientRole && rec.patientId !in users then Fail(ServerError)
      else if caller.role == PatientRole && rec.patientId == caller.userId then Ok(Doc(id, rec))
      else Fail(Forbidden)
  }

  /** As written, a doctor never reads a record by id, not even one that
      names them; the corrected read differs from it exactly there. */
  lemma AsWrittenRefusesNamedDoctor(users: map<Id, User>, m: map<Id, HealthRecord>, id: Id, caller: Payload)
    ensures caller.role == DoctorRole ==> GetRecordAsWritten(users, m, id, caller).Fail?
    ensures GetRecordAsWritten(users, m, id, caller) != GetRecord(users, m, id, caller) <==>
      id in m && caller.role == DoctorRole && m[id].doctorId == Some(caller.userId) && caller.userId in users
  {
  }

  // ---------------------------------------------------------------- deletion

  /** The folder the file host keeps health record files in. */
  const RecordFolder := "jevencare/health-records/"

  /** `fileUrl.split('/').pop().split('.')[0]`: the last path segment up to its first dot. */
  function PublicId(url: string): (r: string)
    ensures '/' !in r && '.' !in r
  {
    Split(LastPiece(url, '/'), '.')[0]
  }

  /** A URL ending in `/name.ext`, where the name has no dot, has the name as its public id. */
  lemma PublicIdOf(dir: string, name: string, ext: string)
    requires '/' !in name && '.' !in name && '/' !in ext
    ensures PublicId(dir + "/" + name + "." + ext) == name
  {
    var file := name + "." + ext;
    assert dir + "/" + name + "." + ext == dir + ['/'] + file;
    assert '/' !in file;
    SplitLast(dir, file, '/');
    assert file == name + ['.'] + ext;
    SplitAfterPrefix(name, ext, '.');
  }

  /** Only the text before the first dot is kept: "my.report.pdf" names "my". */
  lemma PublicIdStopsAtFirstDot()
    ensures PublicId("records/my.report.pdf") == "my"
  {
    assert "records/my.report.pdf" == "records" + "/" + "my" + "." + "report.pdf";
    PublicIdOf("records", "my", "report.pdf");
  }

  /** A URL that ends in a slash has an empty public id. */
  lemma PublicIdAfterTrailingSlash(dir: string)
    ensures PublicId(dir + "/") == ""
  {
    assert dir + "/" == dir + ['/'] + "";
    SplitLast(dir, "", '/');
  }

  datatype Deletion = Deletion(reply: Reply<Ack>, records: map<Id, HealthRecord>, destroyed: Option<string>)

  /** `deleteHealthRecord`: 404, 403 unless the caller is the record's patient;
      the file is destroyed only when the record has a URL with a non-empty
      public id; then the record is removed. */
  function DeleteDecision(m: map<Id, HealthRecord>, id: Id, callerId: Id): Deletion {
    if id !in m then Deletion(Fail(NotFound), m, None)
    else if m[id].patientId != callerId then Deletion(Fail(Forbidden), m, None)
    else
      var url := m[id].fileUrl;
      var destroyed := if Truthy(url) && PublicId(url.value) != "" then Some(RecordFolder + PublicId(url.value)) else None;
      Deletion(Ok(Ack), m - {id}, destroyed)
  }

  /** Deletion succeeds exactly for the owning patient, removes exactly that
      record, and otherwise changes nothing. */
  lemma DeleteSucceedsIff(m: map<Id, HealthRecord>, id: Id, callerId: Id)
    ensures var d := DeleteDecision(m, id, callerId);
      (d.reply.Ok? <==> id in m && m[id].patientId == callerId)
      && (d.reply.Fail? ==> d.records == m && d.destroyed.None?
                            && d.reply.failure == (if id in m then Forbidden else NotFound))
      && (d.reply.Ok? ==> d.records.Keys == m.Keys - {id}
                          && forall k :: k in d.records ==> d.records[k] == m[k])
  {
  }

  /** A file is destroyed exactly when the deleted record has a URL whose
      public id is non-empty, and it is the file of that id in the records folder. */
  lemma DeleteDestroysFile(m: map<Id, HealthRecord>, id: Id, callerId: Id)
    ensures var d := DeleteDecision(m, id, callerId);
      (d.destroyed.Some? <==> d.reply.Ok? && Truthy(m[id].fileUrl) && PublicId(m[id].fileUrl.value) != "")
      && (d.destroyed.Some? ==> d.destroyed.value == RecordFolder + PublicId(m[id].fileUrl.value))
  {
  }

  /** `deleteHealthRecord` on the store; `destroyed` is the file-host id it asks to destroy. */
  method DeleteHealthRecord(db: Database, caller: Payload, id: Id)
    returns (reply: Reply<Ack>, destroyed: Option<string>)
    requires db.Valid()
    modifies db`records
    ensures db.Valid()
    ensures var d := DeleteDecision(old(db.records), id, caller.userId);
      reply == d.reply && destroyed == d.destroyed && db.records == d.records
  {
    if id !in db.records {
      return Fail(NotFound), None;
    }
    var record := db.records[id];
    if record.patientId != caller.userId {
      return Fail(Forbidden), None;
    }
    destroyed := None;
    if record.fileUrl.Some? && record.fileUrl.value != "" {
      var publicId := PublicId(record.fileUrl.value);
      if publicId != "" {
        destroyed := Some(RecordFolder + publicId);
      }
    }
    db.records := db.records - {id};
    reply := Ok(Ack);
  }

  // ---------------------------------------------------------------- across handlers

  /** A record a patient uploaded can be read back and deleted by that patient. */
  lemma UploadThenReadAndDelete(users: map<Id, User>, m: map<Id, HealthRecord>, caller: Payload,
                                req: UploadRequest, file: Option<StoredFile>, now: int, newId: Id)
    requires caller.role == PatientRole && caller.userId in users
    requires UploadDecision(caller.userId, req, file, now).Ok?
    ensures var m' := m[newId := UploadDecision(caller.userId, req, file, now).value];
      GetRecord(users, m', newId, caller) == Ok(Doc(newId, m'[newId]))
      && DeleteDecision(m', newId, caller.userId).reply == Ok(Ack)
      && DeleteDecision(m', newId, caller.userId).records == m - {newId}
  {
    var r := UploadDecision(caller.userId, req, file, now).value;
    var m' := m[newId := r];
    assert m' - {newId} == m - {newId};
  }
}
