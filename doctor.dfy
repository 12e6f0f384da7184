/** The `Doctor` profile: one per doctor user, with the schema's numeric
    bounds and defaults. */
module Doctors {
  import opened Common

  /** One entry of `availableSlots` (a free-form array in the schema; the
      client writes this shape). */
  datatype Slot = Slot(day: string, startTime: string, endTime: string)

  datatype Doctor = Doctor(
    userId: Id,
    specialization: string,
    experience: int,
    qualifications: seq<string>,
    languages: seq<string>,
    consultationFee: real,
    availableSlots: seq<Slot>,
    isAvailable: bool,
    rating: real,
    totalRatings: int)

  /** The validators: specialization required, experience and fee at least
      0, rating within [0, 5]. */
  predicate DoctorValid(d: Doctor) {
    d.specialization != "" && d.experience >= 0 && d.consultationFee >= 0.0
    && 0.0 <= d.rating <= 5.0
  }

  /** The profile registration creates for a new doctor user. */
  function NewDoctor(userId: Id): (d: Doctor)
    ensures DoctorValid(d) && d.userId == userId
    ensures d.specialization == "General Physician" && d.experience == 0
    ensures d.consultationFee == 300.0 && d.languages == ["English", "Hindi"]
    ensures d.qualifications == [] && d.availableSlots == []
    ensures d.isAvailable && d.rating == 0.0 && d.totalRatings == 0
  {
    Doctor(userId, "General Physician", 0, [], ["English", "Hindi"], 300.0, [], true, 0.0, 0)
  }
}
