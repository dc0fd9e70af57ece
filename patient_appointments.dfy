/**
 * The patient side of booking (src/Controller/PatientAppointmentController.php):
 * the next occurrence of a weekly slot, booking a slot, cancelling an
 * appointment, and the list of slots a patient is shown.
 */
module PatientAppointments {
  import opened Wrappers
  import opened Clock
  import opened Entities

  /** The day names the availability form offers, in ISO order (Monday is day 1). */
  const IsoDays: seq<string> := ["Monday", "Tuesday", "Wednesday", "Thursday", "Friday", "Saturday", "Sunday"]

  /**
   * The weekday number of a slot's day name; a missing or unknown name
   * counts as Monday.
   */
  function IsoDayNumber(day: Option<string>): (n: Weekday)
    ensures day.Some? && day.value in IsoDays ==> IsoDays[n - 1] == day.value
    ensures day.None? || day.value !in IsoDays ==> n == 1
  {
    match day
    case None => 1
    case Some(name) =>
      if name == "Monday" then 1
      else if name == "Tuesday" then 2
      else if name == "Wednesday" then 3
      else if name == "Thursday" then 4
      else if name == "Friday" then 5
      else if name == "Saturday" then 6
      else if name == "Sunday" then 7
      else 1
  }

  /** The number of days from weekday `current` forward to weekday `target`. */
  function DaysToAdd(target: Weekday, current: Weekday): (n: int)
    ensures 0 <= n <= 6
    ensures (current - 1 + n) % 7 == target - 1
  {
    if target >= current then target - current else 7 - (current - target)
  }

  /** Moving `n` days forward moves the weekday `n` places around the week. */
  lemma WeekdayAfter(day: int, n: int)
    ensures IsoWeekday(day + n) - 1 == (IsoWeekday(day) - 1 + n) % 7
  {
    var q := (day + 3) / 7;
    assert day + 3 == 7 * q + (IsoWeekday(day) - 1);
    assert day + n + 3 == 7 * q + (IsoWeekday(day) - 1 + n);
  }

  /** A week later is the same weekday at the same time of day. */
  lemma WeekLater(t: int)
    ensures DayOf(t + SecondsPerWeek) == DayOf(t) + 7
    ensures TimeOf(t + SecondsPerWeek) == TimeOf(t)
    ensures IsoWeekday(DayOf(t) + 7) == IsoWeekday(DayOf(t))
  {
    AtDayAndTime(t);
    assert t + SecondsPerWeek == At(DayOf(t) + 7, TimeOf(t));
  }

  /**
   * `getNextRecurringDate`: the first instant strictly after `now` that falls
   * on the slot's weekday at the slot's start hour and minute (seconds 0).
   * Being at most a week after `now`, with occurrences a week apart, it is
   * the next one.
   */
  function NextRecurringDate(day: Option<string>, slotStart: TimeOfDay, now: int): (r: int)
    ensures now < r <= now + SecondsPerWeek
    ensures IsoWeekday(DayOf(r)) == IsoDayNumber(day)
    ensures TimeOf(r) == HourMinute(slotStart)
  {
    var today := DayOf(now);
    var daysToAdd := DaysToAdd(IsoDayNumber(day), IsoWeekday(today));
    WeekdayAfter(today, daysToAdd);
    var next := At(today + daysToAdd, HourMinute(slotStart));
    AtDayAndTime(now);
    if next <= now && daysToAdd == 0 then
      WeekLater(next);
      next + SecondsPerWeek
    else
      next
  }

  /** The start and end of an appointment. */
  datatype Window = Window(start: int, end: int)

  /**
   * The window a booking of `slot` gets.  A dated slot gives its date at its
   * start and end times.  A slot without a date gives its next weekly
   * occurrence and a fixed length of one hour, whatever its end time says.
   */
  function BookingWindow(slot: Availability, now: int): (w: Window)
    reads slot
    ensures slot.date.Some? ==> DayOf(w.start) == slot.date.value && TimeOf(w.start) == slot.startTime
    ensures slot.date.Some? ==> DayOf(w.end) == slot.date.value && TimeOf(w.end) == slot.endTime
    ensures slot.date.None? ==> w.end == w.start + SecondsPerHour
    ensures slot.date.None? ==> now < w.start <= now + SecondsPerWeek
    ensures slot.date.None? ==> IsoWeekday(DayOf(w.start)) == IsoDayNumber(slot.dayOfWeek)
    ensures slot.date.None? ==> TimeOf(w.start) == HourMinute(slot.startTime)
  {
    match slot.date
    case Some(d) => Window(At(d, slot.startTime), At(d, slot.endTime))
    case None =>
      var start := NextRecurringDate(slot.dayOfWeek, slot.startTime, now);
      Window(start, start + SecondsPerHour)
  }

  datatype BookingError = InvalidSlot | SlotTaken | PastSlot

  /**
   * Why a booking is refused, checked in the source's order: the doctor and
   * slot must exist and belong together, the slot must be available, and the
   * appointment must start after `now`.
   */
  function BookingRefusal(doctor: Doctor?, slot: Availability?, now: int): (e: Option<BookingError>)
    reads slot
    ensures e == Some(InvalidSlot) <==> doctor == null || slot == null || slot.doctor != doctor
    ensures e == Some(SlotTaken) <==> doctor != null && slot != null && slot.doctor == doctor && !slot.isAvailable
    ensures e == Some(PastSlot) <==>
      doctor != null && slot != null && slot.doctor == doctor && slot.isAvailable && BookingWindow(slot, now).start <= now
    ensures e == None <==>
      doctor != null && slot != null && slot.doctor == doctor && slot.isAvailable && BookingWindow(slot, now).start > now
  {
    if doctor == null || slot == null || slot.doctor != doctor then Some(InvalidSlot)
    else if !slot.isAvailable then Some(SlotTaken)
    else if BookingWindow(slot, now).start <= now then Some(PastSlot)
    else None
  }

  /** A slot without a date always books in the future, so it is never refused as past. */
  lemma UndatedSlotNeverPast(doctor: Doctor?, slot: Availability, now: int)
    requires slot.date.None?
    ensures BookingRefusal(doctor, slot, now) != Some(PastSlot)
  {
  }

  datatype BookingOutcome =
    | Booked(appointment: Appointment)
    | Refused(error: BookingError)
      /** The user has no patient profile: the flush violates the NOT NULL patient column and is rolled back. */
    | Fault

  /**
   * `bookAppointment`.  A refused booking changes nothing, and neither does a
   * booking by a user without a patient profile.  A successful one adds
   * exactly one Pending appointment for this patient and doctor over the
   * slot's window, with an `APT_` reference, and marks the slot taken.
   */
  method BookAppointment(db: Clinic, patient: Patient?, doctor: Doctor?, slot: Availability?, now: int, token: string)
    returns (outcome: BookingOutcome)
    modifies db`appointments, ({slot} - {null})`isAvailable
    ensures old(BookingRefusal(doctor, slot, now)).Some? ==>
      && outcome == Refused(old(BookingRefusal(doctor, slot, now)).value)
      && db.appointments == old(db.appointments)
      && (slot != null ==> slot.isAvailable == old(slot.isAvailable))
    ensures old(BookingRefusal(doctor, slot, now)).None? && patient == null ==>
      && outcome == Fault
      && db.appointments == old(db.appointments)
      && slot != null && slot.isAvailable == old(slot.isAvailable)
    ensures old(BookingRefusal(doctor, slot, now)).None? && patient != null ==>
      && outcome.Booked?
      && fresh(outcome.appointment)
      && db.appointments == old(db.appointments) + [outcome.appointment]
      && outcome.appointment.patient == patient
      && outcome.appointment.doctor == doctor
      && outcome.appointment.status == Pending
      && outcome.appointment.startDateTime == Some(old(BookingWindow(slot, now)).start)
      && outcome.appointment.endDateTime == Some(old(BookingWindow(slot, now)).end)
      && outcome.appointment.reference == Some(ReferenceFrom(token))
      && outcome.appointment.prescription == null
      && slot != null && !slot.isAvailable
  {
    if doctor == null || slot == null || slot.doctor != doctor {
      return Refused(InvalidSlot);
    }
    if !slot.isAvailable {
      return Refused(SlotTaken);
    }
    var appointment := new Appointment();
    appointment.SetPatient(patient);
    appointment.SetDoctor(doctor);
    var window := BookingWindow(slot, now);
    if window.start <= now {
      return Refused(PastSlot);
    }
    if patient == null {
      return Fault;
    }
    appointment.SetStartDateTime(window.start);
    appointment.SetEndDateTime(window.end);
    appointment.SetStatus(Pending);
    appointment.SetReference(ReferenceFrom(token));
    slot.SetIsAvailable(false);
    db.appointments := db.appointments + [appointment];
    outcome := Booked(appointment);
  }

  /** The lookup criteria of cancellation: same doctor, same date, same start time. */
  predicate MatchesStart(s: Availability, doctor: Doctor?, start: int)
    reads s
  {
    s.doctor == doctor && s.date == Some(DayOf(start)) && s.startTime == TimeOf(start)
  }

  /**
   * `findOneBy(doctor, date, startTime)`: the first slot matching an
   * appointment's doctor and start, or null.  A slot without a date never
   * matches.
   */
  function MatchingSlot(slots: seq<Availability>, doctor: Doctor?, start: int): (r: Availability?)
    reads slots
    ensures r != null ==> r in slots && MatchesStart(r, doctor, start)
    ensures r == null ==> forall s :: s in slots ==> !MatchesStart(s, doctor, start)
  {
    if slots == [] then null
    else if MatchesStart(slots[0], doctor, start) then slots[0]
    else MatchingSlot(slots[1..], doctor, start)
  }

  /**
   * `cancelAppointment` (patient side) as written.  Anyone but the owning
   * patient is refused.  For the owner, the slot lookup passes the start
   * time as an `H:i:s` string for the `startTime` field, which is mapped as
   * a time; binding the criterion fails on the string, and the exception
   * ends the request before the slot, the status or the flush are reached.
   * Either way nothing changes; `fault` tells the two apart.
   */
  method CancelAppointmentAsWritten(db: Clinic, appointment: Appointment, currentPatient: Patient?) returns (fault: bool)
    ensures fault <==> appointment.patient == currentPatient
  {
    fault := appointment.patient == currentPatient;
  }

  /**
   * `cancelAppointment` (patient side) with the slot lookup corrected to
   * pass the start time as a time value.  Anyone but the owning patient is
   * refused and nothing changes.  The owner's appointment becomes Cancelled
   * whatever its status, and the slot found by doctor, date and start time,
   * if any, is made available again; every other slot is left alone.
   */
  method CancelAppointment(db: Clinic, appointment: Appointment, currentPatient: Patient?) returns (ok: bool)
    requires appointment.startDateTime.Some?
    modifies appointment`status, (set s | s in db.availabilities)`isAvailable
    ensures ok <==> old(appointment.patient) == currentPatient
    ensures !ok ==> appointment.status == old(appointment.status)
    ensures !ok ==> forall s :: s in db.availabilities ==> s.isAvailable == old(s.isAvailable)
    ensures ok ==> appointment.status == Cancelled
    ensures ok ==>
      var m := old(MatchingSlot(db.availabilities, appointment.doctor, appointment.startDateTime.value));
      && (m != null ==> m.isAvailable)
      && forall s :: s in db.availabilities && s != m ==> s.isAvailable == old(s.isAvailable)
  {
    if appointment.patient != currentPatient {
      return false;
    }
    var start := appointment.startDateTime.value;
    var slot := MatchingSlot(db.availabilities, appointment.doctor, start);
    if slot != null {
      slot.SetIsAvailable(true);
    }
    appointment.SetStatus(Cancelled);
    ok := true;
  }

  /**
   * Cancellation as evidently intended: the corrected lookup, except that
   * cancelling an appointment that is already Cancelled leaves every slot
   * alone, so a slot that a later booking holds is not reopened.
   */
  method CancelAppointmentOnce(db: Clinic, appointment: Appointment, currentPatient: Patient?) returns (ok: bool)
    requires appointment.startDateTime.Some?
    modifies appointment`status, (set s | s in db.availabilities)`isAvailable
    ensures ok <==> old(appointment.patient) == currentPatient
    ensures !ok ==> appointment.status == old(appointment.status)
    ensures !ok || old(appointment.status) == Cancelled ==>
      forall s :: s in db.availabilities ==> s.isAvailable == old(s.isAvailable)
    ensures ok ==> appointment.status == Cancelled
    ensures ok && old(appointment.status) != Cancelled ==>
      var m := old(MatchingSlot(db.availabilities, appointment.doctor, appointment.startDateTime.value));
      && (m != null ==> m.isAvailable)
      && forall s :: s in db.availabilities && s != m ==> s.isAvailable == old(s.isAvailable)
  {
    if appointment.patient != currentPatient {
      return false;
    }
    if appointment.status != Cancelled {
      var start := appointment.startDateTime.value;
      var slot := MatchingSlot(db.availabilities, appointment.doctor, start);
      if slot != null {
        slot.SetIsAvailable(true);
      }
    }
    appointment.SetStatus(Cancelled);
    ok := true;
  }

  /** `findBy(doctor, isAvailable: true)`: the doctor's available slots, in store order. */
  function AvailableSlotsOf(slots: seq<Availability>, doctor: Doctor): (r: seq<Availability>)
    reads slots
    ensures forall s :: s in r ==> s in slots && s.doctor == doctor && s.isAvailable
    ensures forall s :: s in slots && s.doctor == doctor && s.isAvailable ==> s in r
  {
    if slots == [] then []
    else if slots[0].doctor == doctor && slots[0].isAvailable then [slots[0]] + AvailableSlotsOf(slots[1..], doctor)
    else AvailableSlotsOf(slots[1..], doctor)
  }

  /** A slot is shown when it has no date, or its date and start time lie after `now`. */
  predicate IsFuture(s: Availability, now: int)
    reads s
  {
    s.date.None? || At(s.date.value, s.startTime) > now
  }

  /** The slots of `slots` that are shown, in order. */
  function FutureSlots(slots: seq<Availability>, now: int): (r: seq<Availability>)
    reads slots
    ensures forall s :: s in r ==> s in slots && IsFuture(s, now)
    ensures forall s :: s in slots && IsFuture(s, now) ==> s in r
    ensures |r| <= |slots|
  {
    if slots == [] then []
    else if IsFuture(slots[0], now) then [slots[0]] + FutureSlots(slots[1..], now)
    else FutureSlots(slots[1..], now)
  }

  /** Filtering distributes over concatenation, so the shown slots keep their order. */
  lemma {:induction false} FutureSlotsAppend(a: seq<Availability>, b: seq<Availability>, now: int)
    ensures FutureSlots(a + b, now) == FutureSlots(a, now) + FutureSlots(b, now)
  {
    if a == [] {
      assert a + b == b;
    } else {
      assert (a + b)[0] == a[0];
      assert (a + b)[1..] == a[1..] + b;
      FutureSlotsAppend(a[1..], b, now);
    }
  }

  /** One more slot of a list keeps the shown slots so far and adds itself if it is shown. */
  lemma FutureSlotsStep(slots: seq<Availability>, i: int, now: int)
    requires 0 <= i < |slots|
    ensures FutureSlots(slots[..i + 1], now) ==
      FutureSlots(slots[..i], now) + if IsFuture(slots[i], now) then [slots[i]] else []
  {
    assert slots[..i + 1] == slots[..i] + [slots[i]];
    FutureSlotsAppend(slots[..i], [slots[i]], now);
    assert FutureSlots([slots[i]], now) == if IsFuture(slots[i], now) then [slots[i]] else [];
  }

  /**
   * `viewDoctorAvailability`: not found without a doctor, otherwise the
   * doctor's available slots that are still to come.
   */
  method ViewDoctorAvailability(db: Clinic, doctor: Doctor?, now: int) returns (r: Option<seq<Availability>>)
    ensures doctor == null ==> r == None
    ensures doctor != null ==> r == Some(FutureSlots(AvailableSlotsOf(db.availabilities, doctor), now))
  {
    if doctor == null {
      return None;
    }
    var candidates := AvailableSlotsOf(db.availabilities, doctor);
    var future: seq<Availability> := [];
    var i := 0;
    while i < |candidates|
      invariant 0 <= i <= |candidates|
      invariant future == FutureSlots(candidates[..i], now)
    {
      var s := candidates[i];
      FutureSlotsStep(candidates, i, now);
      if s.date.Some? {
        if At(s.date.value, s.startTime) > now {
          future := future + [s];
        }
      } else {
        future := future + [s];
      }
      i := i + 1;
    }
    assert candidates[..i] == candidates;
    r := Some(future);
  }

  /** Every slot the patient is shown can be booked at that moment. */
  lemma ShownSlotsAreBookable(slots: seq<Availability>, doctor: Doctor, now: int, s: Availability)
    requires s in FutureSlots(AvailableSlotsOf(slots, doctor), now)
    ensures BookingRefusal(doctor, s, now) == None
  {
  }

  /**
   * The common start of the two re-cancellation scenarios below, on a store
   * whose only slot is an available dated slot still to come: patient A
   * books it and cancels (with either cancellation, which agree on a Pending
   * appointment), then patient B books the freed slot.
   */
  method BookCancelRebook(db: Clinic, doctor: Doctor, slot: Availability, patientA: Patient, patientB: Patient,
                          now: int, once: bool)
    returns (a: Appointment, b: Appointment)
    requires db.availabilities == [slot] && slot.doctor == doctor && slot.isAvailable
    requires slot.date.Some? && At(slot.date.value, slot.startTime) > now
    modifies db`appointments, slot`isAvailable
    ensures fresh(a) && fresh(b) && a != b
    ensures a.patient == patientA && a.doctor == doctor && a.status == Cancelled
    ensures a.startDateTime == Some(At(slot.date.value, slot.startTime))
    ensures b.status == Pending && b.doctor == doctor
    ensures b.startDateTime == Some(BookingWindow(slot, now).start) && b.endDateTime == Some(BookingWindow(slot, now).end)
    ensures !slot.isAvailable
  {
    var first := BookAppointment(db, patientA, doctor, slot, now, "a");
    a := first.appointment;
    assert MatchesStart(slot, doctor, a.startDateTime.value);
    var ok;
    if once {
      ok := CancelAppointmentOnce(db, a, patientA);
    } else {
      ok := CancelAppointment(db, a, patientA);
    }
    var second := BookAppointment(db, patientB, doctor, slot, now, "b");
    b := second.appointment;
  }

  /**
   * Cancellation with the corrected lookup but no status check reopens a
   * slot that a later booking holds:
   * patient A books a dated slot and cancels, patient B books the freed slot,
   * A cancels the already cancelled appointment again, and patient C can then
   * book the same slot.  B's and C's appointments are both Pending over the
   * same window with the same doctor.
   */
  method RecancelDoubleBooks() returns (b: Appointment, c: Appointment)
    ensures b != c
    ensures b.status == Pending && c.status == Pending
    ensures b.doctor == c.doctor && b.startDateTime == c.startDateTime && b.endDateTime == c.endDateTime
  {
    var db := new Clinic();
    var doctor := new Doctor();
    var slot := new Availability(doctor, None, 9 * SecondsPerHour, 10 * SecondsPerHour, Some(1), false, true);
    db.availabilities := [slot];
    var patientA := new Patient();
    var patientB := new Patient();
    var patientC := new Patient();
    var a;
    a, b := BookCancelRebook(db, doctor, slot, patientA, patientB, 0, false);
    assert MatchesStart(slot, doctor, a.startDateTime.value);
    assert MatchingSlot(db.availabilities, a.doctor, a.startDateTime.value) == slot;
    var ok := CancelAppointment(db, a, patientA);
    var third := BookAppointment(db, patientC, doctor, slot, 0, "c");
    c := third.appointment;
  }

  /**
   * With the corrected cancellation the same steps leave the slot held by B,
   * so C's booking is refused.
   */
  method RecancelOnceKeepsSlotHeld() returns (b: Appointment, refusal: BookingOutcome)
    ensures b.status == Pending
    ensures refusal == Refused(SlotTaken)
  {
    var db := new Clinic();
    var doctor := new Doctor();
    var slot := new Availability(doctor, None, 9 * SecondsPerHour, 10 * SecondsPerHour, Some(1), false, true);
    db.availabilities := [slot];
    var patientA := new Patient();
    var patientB := new Patient();
    var patientC := new Patient();
    var a;
    a, b := BookCancelRebook(db, doctor, slot, patientA, patientB, 0, true);
    assert a.status == Cancelled;
    var ok := CancelAppointmentOnce(db, a, patientA);
    refusal := BookAppointment(db, patientC, doctor, slot, 0, "c");
  }
}
