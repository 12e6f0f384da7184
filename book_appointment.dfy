/** The booking screen of the frontend: the fixed list of half-hour slots,
    the conversion of a "hh:mm AM" slot into a time on the chosen day, and the
    checks made before the booking request is sent. Instants are
    milliseconds on one clock; a date's start is given as a parameter. */
module BookAppointment {
  import opened Common
  import opened Text
  import opened Appointments
  import AppointmentController
  import Doctors

  /** The slots the screen offers, in its order. */
  const TimeSlots: seq<string> := [
    "09:00 AM", "09:30 AM", "10:00 AM", "10:30 AM", "11:00 AM", "11:30 AM",
    "02:00 PM", "02:30 PM", "03:00 PM", "03:30 PM", "04:00 PM", "04:30 PM"
  ]

  /** A time of day on a 24-hour clock. */
  datatype Clock = Clock(hour: nat, minute: nat)

  function MinuteOfDay(c: Clock): nat {
    c.hour * 60 + c.minute
  }

  /** The 12-hour rule: PM adds twelve except at 12, and 12 AM is hour 0. */
  function Hour24(hour: nat, period: Option<string>): nat {
    if period == Some("PM") && hour != 12 then hour + 12
    else if period == Some("AM") && hour == 12 then 0
    else hour
  }

  /** `const [time, period] = slot.split(" ")`, `const [hours, minutes] =
      time.split(":")`, `parseInt` of both; None where `setHours` would get
      NaN and leave an invalid date. */
  function SlotClock(slot: string): Option<Clock> {
    var parts := Split(slot, ' ');
    var period := if |parts| >= 2 then Some(parts[1]) else None;
    var hm := Split(parts[0], ':');
    var hours := ParseInt(hm[0]);
    var minutes := if |hm| >= 2 then ParseInt(hm[1]) else None;
    if hours.None? || minutes.None? then None
    else Some(Clock(Hour24(hours.value, period), minutes.value))
  }

  /** `setHours(hour, minutes, 0, 0)` on the chosen date. */
  function Instant(dayStart: int, c: Clock): int {
    dayStart + c.hour * 3600000 + c.minute * 60000
  }

  // ---------------------------------------------------------------- the 12-hour rule

  /** On a 12-hour clock reading the rule is "hour mod 12, plus 12 after noon". */
  lemma Hour24IsModular(hour: nat, period: string)
    requires 1 <= hour <= 12 && period in {"AM", "PM"}
    ensures Hour24(hour, Some(period)) == hour % 12 + (if period == "PM" then 12 else 0)
    ensures Hour24(hour, Some(period)) < 24
  {
  }

  /** Distinct 12-hour readings give distinct hours. */
  lemma Hour24Injective(h1: nat, p1: string, h2: nat, p2: string)
    requires 1 <= h1 <= 12 && p1 in {"AM", "PM"} && 1 <= h2 <= 12 && p2 in {"AM", "PM"}
    requires Hour24(h1, Some(p1)) == Hour24(h2, Some(p2))
    ensures h1 == h2 && p1 == p2
  {
    Hour24IsModular(h1, p1);
    Hour24IsModular(h2, p2);
  }

  // ---------------------------------------------------------------- parsing a slot

  function TwoDigits(n: nat): (r: string)
    requires n < 100
    ensures |r| == 2 && AllDigits(r)
  {
    [DigitChar(n / 10), DigitChar(n % 10)]
  }

  /** The text of the slot `hh:mm period`. */
  function SlotText(hour: nat, minute: nat, period: string): string
    requires hour < 100 && minute < 100
  {
    TwoDigits(hour) + ":" + TwoDigits(minute) + " " + period
  }

  lemma {:induction false} AllLeadingDigits(d: string)
    requires AllDigits(d)
    ensures LeadingDigits(d) == d
    decreases |d|
  {
    if d != [] {
      AllLeadingDigits(d[1..]);
    }
  }

  lemma ParseTwoDigits(n: nat)
    requires n < 100
    ensures ParseInt(TwoDigits(n)) == Some(n)
  {
    var d := TwoDigits(n);
    assert !IsWhitespace(d[0]);
    assert TrimStart(d) == d;
    AllLeadingDigits(d);
    var hi, lo := DigitChar(n / 10), DigitChar(n % 10);
    assert d[..1] == [hi] && [hi][..0] == [];
    assert hi as int - '0' as int == n / 10 && lo as int - '0' as int == n % 10;
    assert DigitsValue([hi]) == n / 10;
    assert DigitsValue(d) == DigitsValue([hi]) * 10 + n % 10;
  }

  /** `split` at the only separator. */
  lemma SplitAtOnly(a: string, b: string, sep: char)
    requires sep !in a && sep !in b
    ensures Split(a + [sep] + b, sep) == [a, b]
  {
    SplitAfterPrefix(a, b, sep);
    SplitOfSeparatorFree(b, sep);
  }

  /** A well-formed slot reads as its hour on the 24-hour clock and its minute. */
  lemma SlotTextClock(hour: nat, minute: nat, period: string)
    requires hour < 100 && minute < 100 && ' ' !in period
    ensures SlotClock(SlotText(hour, minute, period)) == Some(Clock(Hour24(hour, Some(period)), minute))
  {
    var hh, mm := TwoDigits(hour), TwoDigits(minute);
    var time := hh + [':'] + mm;
    assert SlotText(hour, minute, period) == time + [' '] + period;
    assert ' ' !in time by {
      assert forall i :: 0 <= i < |time| ==> time[i] != ' ';
    }
    SplitAtOnly(time, period, ' ');
    assert ':' !in hh && ':' !in mm;
    SplitAtOnly(hh, mm, ':');
    ParseTwoDigits(hour);
    ParseTwoDigits(minute);
  }

  // ---------------------------------------------------------------- the fixed slots

  /** The clock reading each offered slot is written as. */
  const SlotReadings: seq<(nat, nat, string)> := [
    (9, 0, "AM"), (9, 30, "AM"), (10, 0, "AM"), (10, 30, "AM"), (11, 0, "AM"), (11, 30, "AM"),
    (2, 0, "PM"), (2, 30, "PM"), (3, 0, "PM"), (3, 30, "PM"), (4, 0, "PM"), (4, 30, "PM")
  ]

  lemma SlotsMorning()
    ensures forall i :: 0 <= i < 6 ==> TimeSlots[i] == SlotText(SlotReadings[i].0, SlotReadings[i].1, SlotReadings[i].2)
  {
    assert DigitChar(0) == '0' && DigitChar(1) == '1' && DigitChar(3) == '3' && DigitChar(9) == '9';
  }

  lemma SlotsAfternoon()
    ensures forall i :: 6 <= i < 12 ==> TimeSlots[i] == SlotText(SlotReadings[i].0, SlotReadings[i].1, SlotReadings[i].2)
  {
    assert DigitChar(0) == '0' && DigitChar(2) == '2' && DigitChar(3) == '3' && DigitChar(4) == '4';
  }

  /** The reading of slot i on the 24-hour clock. */
  function SlotClockOf(i: nat): Clock
    requires i < 12
  {
    Clock(Hour24(SlotReadings[i].0, Some(SlotReadings[i].2)), SlotReadings[i].1)
  }

  /** Every offered slot converts to its reading on the 24-hour clock. */
  lemma TimeSlotsConvert()
    ensures |TimeSlots| == 12
    ensures forall i :: 0 <= i < 12 ==> SlotClock(TimeSlots[i]) == Some(SlotClockOf(i))
  {
    SlotsMorning();
    SlotsAfternoon();
    forall i | 0 <= i < 12
      ensures SlotClock(TimeSlots[i]) == Some(SlotClockOf(i))
    {
      SlotTextClock(SlotReadings[i].0, SlotReadings[i].1, SlotReadings[i].2);
    }
  }

  /** The minute of the day of each offered slot. */
  const SlotMinutes: seq<nat> := [540, 570, 600, 630, 660, 690, 840, 870, 900, 930, 960, 990]

  lemma SlotMinutesOf(i: nat)
    requires i < 12
    ensures MinuteOfDay(SlotClockOf(i)) == SlotMinutes[i]
  {
  }

  /** The offered slots lie between 09:00 and 16:30, and later slots in the
      list are later in the day, so no two coincide. */
  lemma TimeSlotsOrdered()
    ensures forall i :: 0 <= i < 12 ==> 9 * 60 <= MinuteOfDay(SlotClockOf(i)) <= 16 * 60 + 30
    ensures forall i, j :: 0 <= i < j < 12 ==> MinuteOfDay(SlotClockOf(i)) < MinuteOfDay(SlotClockOf(j))
  {
    forall i | 0 <= i < 12
      ensures MinuteOfDay(SlotClockOf(i)) == SlotMinutes[i]
    {
      SlotMinutesOf(i);
    }
  }

  // ---------------------------------------------------------------- booking

  /** The loaded profile's `userId`: populated with its document, only its
      id, or null once the user document is gone (population yields null for
      a dangling reference). */
  datatype UserRef = Populated(id: Id) | Unpopulated(id: Id) | NullUser

  /** `doctor.userId?._id || doctor.userId`: the id the screen sends, which
      is null for a null user. */
  function DoctorUserId(u: UserRef): (r: Option<Id>)
    ensures r.None? <==> u.NullUser?
    ensures !u.NullUser? ==> r == Some(u.id)
  {
    match u
    case Populated(id) => Some(id)
    case Unpopulated(id) => Some(id)
    case NullUser => None
  }

  /** What pressing "Book" does: an alert and nothing sent, the request,
      or an exception (an invalid date reaches `toISOString`, or the doctor
      has not loaded) with nothing sent. */
  datatype Press = Alert(message: string) | Send(request: AppointmentController.BookRequest) | Throws

  /** `handleBookAppointment`, from the two field checks to the request it
      sends. */
  function PressBook(slot: string, symptoms: string, dayStart: int, now: int, kind: Kind,
                     doctor: Option<UserRef>): Press
  {
    if slot == "" then Alert("Please select a time slot")
    else if Trim(symptoms) == "" then Alert("Please describe your symptoms")
    else
      var clock := SlotClock(slot);
      if clock.Some? && Instant(dayStart, clock.value) < now then Alert("Cannot book appointment in the past")
      else if clock.None? || doctor.None? then Throws
      else Send(AppointmentController.BookRequest(DoctorUserId(doctor.value), Some(Instant(dayStart, clock.value)),
                                                  Some(KindName(kind)), Some(Trim(symptoms))))
  }

  /** No request leaves without a slot, or with blank symptoms. */
  lemma ChecksBeforeSending(slot: string, symptoms: string, dayStart: int, now: int, kind: Kind, doctor: Option<UserRef>)
    ensures slot == "" ==> PressBook(slot, symptoms, dayStart, now, kind, doctor) == Alert("Please select a time slot")
    ensures slot != "" && Trim(symptoms) == "" ==> PressBook(slot, symptoms, dayStart, now, kind, doctor) == Alert("Please describe your symptoms")
    ensures PressBook(slot, symptoms, dayStart, now, kind, doctor).Send? ==> slot != "" && Trim(symptoms) != ""
  {
  }

  /** A request that is sent carries the slot's time on the chosen day, not
      before now, the trimmed symptoms, and the doctor's user id, which is
      missing exactly when the profile's user is null. */
  lemma SentRequest(slot: string, symptoms: string, dayStart: int, now: int, kind: Kind, doctor: Option<UserRef>)
    requires PressBook(slot, symptoms, dayStart, now, kind, doctor).Send?
    ensures var r := PressBook(slot, symptoms, dayStart, now, kind, doctor).request;
      SlotClock(slot).Some? && doctor.Some?
      && r.dateTime == Some(Instant(dayStart, SlotClock(slot).value)) && now <= r.dateTime.value
      && r.symptoms == Some(Trim(symptoms))
      && (r.doctorId.None? <==> doctor.value.NullUser?)
      && (!doctor.value.NullUser? ==> r.doctorId == Some(doctor.value.id))
      && r.kind == Some(KindName(kind))
  {
  }

  /** An offered slot never throws: with the doctor loaded, the press either
      alerts that the time is past or sends the request. */
  lemma OfferedSlotSends(i: nat, symptoms: string, dayStart: int, now: int, kind: Kind, doctor: UserRef)
    requires i < 12 && Trim(symptoms) != ""
    ensures var p := PressBook(TimeSlots[i], symptoms, dayStart, now, kind, Some(doctor));
      if Instant(dayStart, SlotClockOf(i)) < now then p == Alert("Cannot book appointment in the past")
      else p.Send? && p.request.dateTime == Some(Instant(dayStart, SlotClockOf(i)))
  {
    TimeSlotsConvert();
    SlotsNonEmpty();
    PressWithClock(TimeSlots[i], symptoms, dayStart, now, kind, doctor, SlotClockOf(i));
  }

  lemma SlotsNonEmpty()
    ensures forall i :: 0 <= i < |TimeSlots| ==> TimeSlots[i] != ""
  {
    forall i | 0 <= i < |TimeSlots| ensures TimeSlots[i] != "" {
      assert |TimeSlots[i]| == 8;
    }
  }

  /** Past the two field checks, a slot that reads as clock `c` alerts when
      that time is past and otherwise sends it. */
  lemma PressWithClock(slot: string, symptoms: string, dayStart: int, now: int, kind: Kind, doctor: UserRef, c: Clock)
    requires slot != "" && Trim(symptoms) != "" && SlotClock(slot) == Some(c)
    ensures var p := PressBook(slot, symptoms, dayStart, now, kind, Some(doctor));
      if Instant(dayStart, c) < now then p == Alert("Cannot book appointment in the past")
      else p.Send? && p.request.dateTime == Some(Instant(dayStart, c))
  {
  }

  /** What the screen sends passes the server's field check exactly when the
      profile's user is not null, passes its past check at the same clock
      reading, and names a consultation type the server knows. */
  lemma SentPassesServerChecks(slot: string, symptoms: string, dayStart: int, now: int, kind: Kind, doctor: Option<UserRef>)
    requires PressBook(slot, symptoms, dayStart, now, kind, doctor).Send?
    ensures var r := PressBook(slot, symptoms, dayStart, now, kind, doctor).request;
      (AppointmentController.FieldsPresent(r) <==> !doctor.value.NullUser?)
      && !(r.dateTime.value < now) && ParseKind(r.kind.value) == Some(kind)
  {
    var r := PressBook(slot, symptoms, dayStart, now, kind, doctor).request;
    assert KindName(kind) != "";
    assert ParseKind(KindName(kind)) == Some(kind) by {
      match kind
      case Video =>
      case Chat =>
    }
  }

  /** A profile whose user is null still gets a request sent, with
      `doctorId: null`, and the server refuses it as a bad request whatever
      its collections hold. */
  lemma NullUserRefused(slot: string, symptoms: string, dayStart: int, now: int, kind: Kind,
                        doctors: map<Id, Doctors.Doctor>, appointments: map<Id, Appointment>, patientId: Id, serverNow: int)
    requires slot != "" && Trim(symptoms) != "" && SlotClock(slot).Some?
    requires !(Instant(dayStart, SlotClock(slot).value) < now)
    ensures var p := PressBook(slot, symptoms, dayStart, now, kind, Some(NullUser));
      p.Send? && p.request.doctorId.None?
      && AppointmentController.BookDecision(doctors, appointments, patientId, p.request, serverNow) == Fail(BadRequest)
  {
  }
}
