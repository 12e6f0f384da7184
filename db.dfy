/** The document store the handlers share: one map per collection, keyed by
    document id, and the id allocator that stands in for ObjectId creation. */
module Store {
  import opened Common
  import opened Users
  import opened Profiles
  import opened Doctors
  import opened Medicines
  import opened Appointments
  import opened HealthRecords

  class Database {
    var users: map<Id, User>
    var patients: map<Id, Patient>
    var doctors: map<Id, Doctor>
    var pharmacies: map<Id, Pharmacy>
    var medicines: map<Id, Medicine>
    var appointments: map<Id, Appointment>
    var records: map<Id, HealthRecord>
    /** Ids are allocated in increasing order, so ascending id is insertion order. */
    var nextId: Id

    /** Every stored id was allocated before `nextId`. */
    ghost predicate Valid()
      reads this
    {
      (forall k :: k in users ==> k < nextId)
      && (forall k :: k in patients ==> k < nextId)
      && (forall k :: k in doctors ==> k < nextId)
      && (forall k :: k in pharmacies ==> k < nextId)
      && (forall k :: k in medicines ==> k < nextId)
      && (forall k :: k in appointments ==> k < nextId)
      && (forall k :: k in records ==> k < nextId)
    }

    constructor ()
      ensures Valid()
      ensures users == map[] && patients == map[] && doctors == map[] && pharmacies == map[]
      ensures medicines == map[] && appointments == map[] && records == map[]
    {
      users, patients, doctors, pharmacies := map[], map[], map[], map[];
      medicines, appointments, records := map[], map[], map[];
      nextId := 0;
    }

    /** A new document id, used by no collection yet. */
    method NewId() returns (id: Id)
      requires Valid()
      modifies this`nextId
      ensures Valid()
      ensures id == old(nextId) && nextId == id + 1
      ensures id !in users && id !in patients && id !in doctors && id !in pharmacies
      ensures id !in medicines && id !in appointments && id !in records
    {
      id := nextId;
      nextId := nextId + 1;
    }

    /** `create` on the users collection: the document under a new id. */
    method InsertUser(doc: User) returns (id: Id)
      requires Valid()
      modifies this`users, this`nextId
      ensures Valid()
      ensures id == old(nextId) && nextId == id + 1 && id !in old(users)
      ensures users == old(users)[id := doc]
    {
      id := NewId();
      users := users[id := doc];
    }

    /** `create` on the patients collection: the document under a new id. */
    method InsertPatient(doc: Patient) returns (id: Id)
      requires Valid()
      modifies this`patients, this`nextId
      ensures Valid()
      ensures id == old(nextId) && nextId == id + 1 && id !in old(patients)
      ensures patients == old(patients)[id := doc]
    {
      id := NewId();
      patients := patients[id := doc];
    }

    /** `create` on the doctors collection: the document under a new id. */
    method InsertDoctor(doc: Doctor) returns (id: Id)
      requires Valid()
      modifies this`doctors, this`nextId
      ensures Valid()
      ensures id == old(nextId) && nextId == id + 1 && id !in old(doctors)
      ensures doctors == old(doctors)[id := doc]
    {
      id := NewId();
      doctors := doctors[id := doc];
    }

    /** `create` on the pharmacies collection: the document under a new id. */
    method InsertPharmacy(doc: Pharmacy) returns (id: Id)
      requires Valid()
      modifies this`pharmacies, this`nextId
      ensures Valid()
      ensures id == old(nextId) && nextId == id + 1 && id !in old(pharmacies)
      ensures pharmacies == old(pharmacies)[id := doc]
    {
      id := NewId();
      pharmacies := pharmacies[id := doc];
    }

    /** `create` on the medicines collection: the document under a new id. */
    method InsertMedicine(doc: Medicine) returns (id: Id)
      requires Valid()
      modifies this`medicines, this`nextId
      ensures Valid()
      ensures id == old(nextId) && nextId == id + 1 && id !in old(medicines)
      ensures medicines == old(medicines)[id := doc]
    {
      id := NewId();
      medicines := medicines[id := doc];
    }

    /** `create` on the appointments collection: the document under a new id. */
    method InsertAppointment(doc: Appointment) returns (id: Id)
      requires Valid()
      modifies this`appointments, this`nextId
      ensures Valid()
      ensures id == old(nextId) && nextId == id + 1 && id !in old(appointments)
      ensures appointments == old(appointments)[id := doc]
    {
      id := NewId();
      appointments := appointments[id := doc];
    }

    /** `create` on the records collection: the document under a new id. */
    method InsertRecord(doc: HealthRecord) returns (id: Id)
      requires Valid()
      modifies this`records, this`nextId
      ensures Valid()
      ensures id == old(nextId) && nextId == id + 1 && id !in old(records)
      ensures records == old(records)[id := doc]
    {
      id := NewId();
      records := records[id := doc];
    }

    /** A `save` or `findByIdAndUpdate` on the users collection: the document
        under an existing id is replaced. */
    method ReplaceUser(id: Id, doc: User)
      requires Valid() && id in users
      modifies this`users
      ensures Valid() && users == old(users)[id := doc]
    {
      users := users[id := doc];
    }

    /** A `save` on the doctors collection: the document under an existing id is replaced. */
    method ReplaceDoctor(id: Id, doc: Doctor)
      requires Valid() && id in doctors
      modifies this`doctors
      ensures Valid() && doctors == old(doctors)[id := doc]
    {
      doctors := doctors[id := doc];
    }

    /** A `save` on the pharmacies collection: the document under an existing id is replaced. */
    method ReplacePharmacy(id: Id, doc: Pharmacy)
      requires Valid() && id in pharmacies
      modifies this`pharmacies
      ensures Valid() && pharmacies == old(pharmacies)[id := doc]
    {
      pharmacies := pharmacies[id := doc];
    }

    /** A `findByIdAndUpdate` on the medicines collection: the document under
        an existing id is replaced. */
    method ReplaceMedicine(id: Id, doc: Medicine)
      requires Valid() && id in medicines
      modifies this`medicines
      ensures Valid() && medicines == old(medicines)[id := doc]
    {
      medicines := medicines[id := doc];
    }
  }
}
