/**
 * The administrator's appointment screens
 * (src/Controller/SimpleAdminAppointmentController.php): choosing the
 * listing query, editing status and time, the unconditional status
 * overrides and deletion.
 */
module AdminAppointments {
  import opened Wrappers
  import opened Clock
  import opened Entities
  import Collections
  import Text

  /** The query parameters of the listing page. */
  datatype ListingParams = ListingParams(
    status: Option<string>, doctor: Option<string>, patient: Option<string>,
    date: Option<string>, search: Option<string>)

  /** The repository query the listing runs. */
  datatype ListingQuery =
    | Search(term: string)
    | Filter(status: Option<string>, doctor: Option<string>, patient: Option<string>, date: Option<string>)

  /** `index`: a truthy search term is used on its own; otherwise the four filters are. */
  function ListingQueryOf(p: ListingParams): (q: ListingQuery)
    ensures q.Search? <==> Text.Truthy(p.search)
    ensures q.Search? ==> q.term == p.search.value
    ensures q.Filter? ==> q == Filter(p.status, p.doctor, p.patient, p.date)
  {
    if Text.Truthy(p.search) then Search(p.search.value)
    else Filter(p.status, p.doctor, p.patient, p.date)
  }

  /** Once a search term is given, the filters make no difference to the query. */
  lemma SearchIgnoresFilters(p: ListingParams, p': ListingParams)
    requires p.search == p'.search && Text.Truthy(p.search)
    ensures ListingQueryOf(p) == ListingQueryOf(p')
  {
  }

  const MinutesPerDay := 1440

  /**
   * The new start and end of a reschedule to the `minute`-th minute since
   * the epoch.  `createFromFormat('Y-m-d H:i')` parses hour and minute, so
   * the seconds it is not given are zero, not taken from the clock: the
   * start is that minute's date at its hour and minute with second 0, and
   * the end is half an hour later.
   */
  function Rescheduled(minute: int): (w: (int, int))
    ensures DayOf(w.0) == minute / MinutesPerDay
    ensures TimeOf(w.0) == (minute % MinutesPerDay) * SecondsPerMinute
    ensures w.0 % SecondsPerMinute == 0
    ensures w.1 - w.0 == 30 * SecondsPerMinute
  {
    var start := minute * SecondsPerMinute;
    var q, r := minute / MinutesPerDay, minute % MinutesPerDay;
    assert minute == q * MinutesPerDay + r;
    assert start == q * SecondsPerDay + r * SecondsPerMinute;
    (start, start + 30 * SecondsPerMinute)
  }

  /**
   * Rescheduling to the date and `H:i` of a slot that starts on a whole
   * minute puts the appointment exactly at the slot's start, so the
   * appointment and the slot line up again.
   */
  lemma RescheduledOntoSlotStart(day: int, time: TimeOfDay)
    requires time % SecondsPerMinute == 0
    ensures Rescheduled(day * MinutesPerDay + time / SecondsPerMinute).0 == At(day, time)
  {
    var minute := day * MinutesPerDay + time / SecondsPerMinute;
    assert minute * SecondsPerMinute == day * SecondsPerDay + time;
  }

  /**
   * A posted edit: the status, date and time parameters, and the minute
   * since the epoch that the date and time parse to as `Y-m-d H:i`, if they
   * parse.
   */
  datatype EditRequest =
    | Show
    | Post(status: Option<string>, date: Option<string>, time: Option<string>, parsed: Option<int>)

  /** A post whose date and time are both given and parse. */
  predicate Reschedules(r: EditRequest)
  {
    r.Post? && Text.Truthy(r.date) && Text.Truthy(r.time) && r.parsed.Some?
  }

  /**
   * `edit`: a truthy posted status replaces the status, unvalidated; a
   * truthy date and time that parse move the appointment to that minute, at
   * second 0, for half an hour.  Anything not posted, or not truthy, is left as it was.
   */
  method Edit(appointment: Appointment, request: EditRequest)
    modifies appointment`status, appointment`startDateTime, appointment`endDateTime
    ensures request.Post? && Text.Truthy(request.status) ==> appointment.status == request.status.value
    ensures !(request.Post? && Text.Truthy(request.status)) ==> appointment.status == old(appointment.status)
    ensures Reschedules(request) ==>
      && appointment.startDateTime == Some(Rescheduled(request.parsed.value).0)
      && appointment.endDateTime == Some(Rescheduled(request.parsed.value).1)
    ensures !Reschedules(request) ==>
      appointment.startDateTime == old(appointment.startDateTime) && appointment.endDateTime == old(appointment.endDateTime)
  {
    if request.Show? {
      return;
    }
    if Text.Truthy(request.status) {
      appointment.SetStatus(request.status.value);
    }
    if Text.Truthy(request.date) && Text.Truthy(request.time) {
      if request.parsed.Some? {
        var window := Rescheduled(request.parsed.value);
        appointment.SetStartDateTime(window.0);
        appointment.SetEndDateTime(window.1);
      }
    }
  }

  /** `confirm`: Confirmed from any status, Cancelled and Completed included. */
  method Confirm(appointment: Appointment)
    modifies appointment`status
    ensures appointment.status == Confirmed
  {
    appointment.SetStatus(Confirmed);
  }

  /** `cancel`: Cancelled from any status. */
  method Cancel(appointment: Appointment)
    modifies appointment`status
    ensures appointment.status == Cancelled
  {
    appointment.SetStatus(Cancelled);
  }

  /** `complete`: Completed from any status. */
  method Complete(appointment: Appointment)
    modifies appointment`status
    ensures appointment.status == Completed
  {
    appointment.SetStatus(Completed);
  }

  /**
   * `delete`: with a valid CSRF token the appointment leaves the store and
   * every other appointment stays; the removal cascades to the appointment's
   * prescription (`cascade: ['remove']` on `Appointment::$prescription`),
   * which leaves the store too.  Without a valid token nothing changes.
   */
  method Delete(db: Clinic, appointment: Appointment, csrfValid: bool)
    modifies db`appointments, db`prescriptions
    ensures !csrfValid ==> db.appointments == old(db.appointments) && db.prescriptions == old(db.prescriptions)
    ensures csrfValid ==> appointment !in db.appointments
    ensures csrfValid ==> multiset(db.appointments) == multiset(old(db.appointments))[appointment := 0]
    ensures csrfValid && appointment.prescription != null ==>
      && appointment.prescription !in db.prescriptions
      && multiset(db.prescriptions) == multiset(old(db.prescriptions))[appointment.prescription := 0]
    ensures appointment.prescription == null ==> db.prescriptions == old(db.prescriptions)
  {
    if csrfValid {
      db.appointments := Collections.Without(db.appointments, appointment);
      var prescription := appointment.prescription;
      if prescription != null {
        db.prescriptions := Collections.Without<Prescription>(db.prescriptions, prescription);
      }
    }
  }
}
