/**
 * The doctor side (src/Controller/DoctorDashboardController.php): the
 * calendar events drawn from a doctor's slots, adding, copying, editing and
 * deleting slots, and confirming or cancelling appointments.
 */
module DoctorDashboard {
  import opened Wrappers
  import opened Clock
  import opened Entities
  import Collections
  import PatientAppointments

  /** The calendar's day names by number: Sunday is 0, Saturday 6. */
  const CalendarDays: seq<string> := ["Sunday", "Monday", "Tuesday", "Wednesday", "Thursday", "Friday", "Saturday"]

  /** The calendar's number for a day name; missing and unknown names have none. */
  function CalendarDayNumber(day: Option<string>): (n: Option<int>)
    ensures n.Some? <==> day.Some? && day.value in CalendarDays
    ensures n.Some? ==> 0 <= n.value < 7 && CalendarDays[n.value] == day.value
  {
    match day
    case None => None
    case Some(name) =>
      if name == "Monday" then Some(1)
      else if name == "Tuesday" then Some(2)
      else if name == "Wednesday" then Some(3)
      else if name == "Thursday" then Some(4)
      else if name == "Friday" then Some(5)
      else if name == "Saturday" then Some(6)
      else if name == "Sunday" then Some(0)
      else None
  }

  /**
   * The calendar and the booking code number the same days differently, but
   * consistently: the calendar's number is the ISO number modulo 7.
   */
  lemma CalendarDayIsIsoModSeven(day: Option<string>)
    requires day.Some? && day.value in CalendarDays
    ensures CalendarDayNumber(day) == Some(PatientAppointments.IsoDayNumber(day) % 7)
  {
  }

  /** An event's title, CSS class and `extendedProps.type`. */
  datatype Style = Style(title: string, className: string, kind: string)

  const AvailableStyle := Style("Available", "availability-slot", "available")
  const BlockedStyle := Style("Blocked", "blocked-slot", "blocked")

  /**
   * A calendar event.  A weekly event repeats on one day of the week between
   * two times of day; a dated event runs from one instant to another.  The
   * slot stands for the event's `id`.
   */
  datatype Event =
    | Weekly(slot: Availability, style: Style, daysOfWeek: seq<int>, startTime: TimeOfDay, endTime: TimeOfDay)
    | Dated(slot: Availability, style: Style, start: int, end: int)

  /**
   * The event for one slot, if it gets one: a recurring slot with a known day
   * name repeats weekly on that day; a non-recurring slot with a date is shown
   * on that date; every other slot is skipped.  An available slot is styled
   * Available, any other Blocked.
   */
  function EventOf(s: Availability): (r: Option<Event>)
    reads s
    ensures r.Some? <==> (s.recurring && s.dayOfWeek.Some? && s.dayOfWeek.value in CalendarDays) || (!s.recurring && s.date.Some?)
    ensures r.Some? ==> r.value.slot == s && r.value.style == (if s.isAvailable then AvailableStyle else BlockedStyle)
    ensures r.Some? && s.recurring ==>
      && r.value.Weekly?
      && r.value.daysOfWeek == [CalendarDayNumber(s.dayOfWeek).value]
      && r.value.startTime == s.startTime && r.value.endTime == s.endTime
    ensures r.Some? && !s.recurring ==>
      && r.value.Dated?
      && DayOf(r.value.start) == s.date.value && TimeOf(r.value.start) == s.startTime
      && DayOf(r.value.end) == s.date.value && TimeOf(r.value.end) == s.endTime
  {
    var style := if s.isAvailable then AvailableStyle else BlockedStyle;
    if s.recurring then
      match CalendarDayNumber(s.dayOfWeek)
      case Some(n) => Some(Weekly(s, style, [n], s.startTime, s.endTime))
      case None => None
    else
      match s.date
      case Some(d) => Some(Dated(s, style, At(d, s.startTime), At(d, s.endTime)))
      case None => None
  }

  /** The events of a list of slots, in the slots' order. */
  function EventsOf(slots: seq<Availability>): (r: seq<Event>)
    reads slots
    ensures |r| <= |slots|
    ensures forall e :: e in r ==> e.slot in slots && EventOf(e.slot) == Some(e)
  {
    if slots == [] then []
    else
      var rest := EventsOf(slots[1..]);
      match EventOf(slots[0])
      case Some(e) => [e] + rest
      case None => rest
  }

  /** Events are drawn slot by slot, so a list of slots in two parts gives its events in two parts. */
  lemma {:induction false} EventsOfAppend(a: seq<Availability>, b: seq<Availability>)
    ensures EventsOf(a + b) == EventsOf(a) + EventsOf(b)
  {
    if a == [] {
      assert a + b == b;
    } else {
      assert (a + b)[0] == a[0];
      assert (a + b)[1..] == a[1..] + b;
      EventsOfAppend(a[1..], b);
    }
  }

  /** One more slot keeps the events so far and adds its own, if it gets one. */
  lemma EventsOfStep(slots: seq<Availability>, i: int)
    requires 0 <= i < |slots|
    ensures EventsOf(slots[..i + 1]) ==
      EventsOf(slots[..i]) + if EventOf(slots[i]).Some? then [EventOf(slots[i]).value] else []
  {
    assert slots[..i + 1] == slots[..i] + [slots[i]];
    EventsOfAppend(slots[..i], [slots[i]]);
    assert EventsOf([slots[i]]) == if EventOf(slots[i]).Some? then [EventOf(slots[i]).value] else [];
  }

  /** Every slot that gets an event has it among the events, whatever the other slots are. */
  lemma {:induction false} EventsOfShowsEverySlot(slots: seq<Availability>, s: Availability)
    requires s in slots && EventOf(s).Some?
    ensures EventOf(s).value in EventsOf(slots)
  {
    if slots[0] != s {
      EventsOfShowsEverySlot(slots[1..], s);
    }
  }

  /** `findBy(['doctor' => $doctor])`: the doctor's slots, in store order. */
  function SlotsOf(slots: seq<Availability>, doctor: Doctor?): (r: seq<Availability>)
    reads slots
    ensures forall s :: s in r ==> s in slots && s.doctor == doctor
    ensures forall s :: s in slots && s.doctor == doctor ==> s in r
  {
    if slots == [] then []
    else if slots[0].doctor == doctor then [slots[0]] + SlotsOf(slots[1..], doctor)
    else SlotsOf(slots[1..], doctor)
  }

  /** `availability`: the events of the current doctor's slots. */
  method CalendarEvents(db: Clinic, doctor: Doctor?) returns (events: seq<Event>)
    ensures events == EventsOf(SlotsOf(db.availabilities, doctor))
  {
    var slots := SlotsOf(db.availabilities, doctor);
    events := [];
    var i := 0;
    while i < |slots|
      invariant 0 <= i <= |slots|
      invariant events == EventsOf(slots[..i])
    {
      var s := slots[i];
      EventsOfStep(slots, i);
      var style := if s.isAvailable then AvailableStyle else BlockedStyle;
      if s.recurring {
        var n := CalendarDayNumber(s.dayOfWeek);
        if n.Some? {
          assert EventOf(s) == Some(Weekly(s, style, [n.value], s.startTime, s.endTime));
          events := events + [Weekly(s, style, [n.value], s.startTime, s.endTime)];
        }
      } else if s.date.Some? {
        var d := s.date.value;
        assert EventOf(s) == Some(Dated(s, style, At(d, s.startTime), At(d, s.endTime)));
        events := events + [Dated(s, style, At(d, s.startTime), At(d, s.endTime))];
      }
      i := i + 1;
    }
    assert slots[..i] == slots;
  }

  /**
   * `quickAddAvailability`: one new available, non-recurring slot of the
   * current doctor on the start's date, from the start's to the end's time
   * of day.
   */
  method QuickAddAvailability(db: Clinic, doctor: Doctor?, start: int, end: int) returns (slot: Availability)
    modifies db`availabilities
    ensures fresh(slot)
    ensures db.availabilities == old(db.availabilities) + [slot]
    ensures slot.doctor == doctor && slot.isAvailable && !slot.recurring && slot.dayOfWeek == None
    ensures slot.date == Some(DayOf(start))
    ensures slot.startTime == TimeOf(start) && slot.endTime == TimeOf(end)
  {
    slot := new Availability(doctor, None, TimeOf(start), TimeOf(end), Some(DayOf(start)), false, true);
    db.availabilities := db.availabilities + [slot];
  }

  /** The six fields of the availability form, or no valid submission. */
  datatype AvailabilityForm =
    | NotSubmitted
    | Invalid
    | Valid(dayOfWeek: Option<string>, startTime: TimeOfDay, endTime: TimeOfDay,
            date: Option<int>, recurring: bool, isAvailable: bool)

  /** `newAvailability`: a valid form adds one slot with its fields, owned by the current doctor. */
  method NewAvailability(db: Clinic, doctor: Doctor?, form: AvailabilityForm) returns (slot: Option<Availability>)
    modifies db`availabilities
    ensures !form.Valid? ==> slot == None && db.availabilities == old(db.availabilities)
    ensures form.Valid? ==> slot.Some? && fresh(slot.value) && db.availabilities == old(db.availabilities) + [slot.value]
    ensures form.Valid? ==>
      var s := slot.value;
      && s.doctor == doctor && s.dayOfWeek == form.dayOfWeek && s.startTime == form.startTime
      && s.endTime == form.endTime && s.date == form.date
      && s.recurring == form.recurring && s.isAvailable == form.isAvailable
  {
    if !form.Valid? {
      return None;
    }
    var s := new Availability(doctor, form.dayOfWeek, form.startTime, form.endTime, form.date, form.recurring, form.isAvailable);
    db.availabilities := db.availabilities + [s];
    slot := Some(s);
  }

  datatype EditOutcome = AccessDenied | Updated | FormShown

  /**
   * `editAvailability`: another doctor's slot is refused; the owner's slot
   * takes a valid form's six fields and keeps its doctor; anything else shows
   * the form again and saves nothing.
   */
  method EditAvailability(slot: Availability, doctor: Doctor?, form: AvailabilityForm) returns (r: EditOutcome)
    modifies slot`dayOfWeek, slot`startTime, slot`endTime, slot`date, slot`recurring, slot`isAvailable
    ensures slot.doctor != doctor ==> r == AccessDenied
    ensures slot.doctor == doctor && form.Valid? ==> r == Updated
    ensures slot.doctor == doctor && !form.Valid? ==> r == FormShown
    ensures r != Updated ==> unchanged(slot)
    ensures r == Updated ==>
      && slot.dayOfWeek == form.dayOfWeek && slot.startTime == form.startTime && slot.endTime == form.endTime
      && slot.date == form.date && slot.recurring == form.recurring && slot.isAvailable == form.isAvailable
  {
    if slot.doctor != doctor {
      return AccessDenied;
    }
    if !form.Valid? {
      return FormShown;
    }
    slot.SetFields(form.dayOfWeek, form.startTime, form.endTime, form.date, form.recurring, form.isAvailable);
    r := Updated;
  }

  /**
   * `deleteAvailability`: another doctor's slot is refused and the store is
   * unchanged; the owner's slot leaves the store and every other slot stays.
   */
  method DeleteAvailability(db: Clinic, slot: Availability, doctor: Doctor?) returns (ok: bool)
    modifies db`availabilities
    ensures ok <==> slot.doctor == doctor
    ensures !ok ==> db.availabilities == old(db.availabilities)
    ensures ok ==> slot !in db.availabilities
    ensures ok ==> multiset(db.availabilities) == multiset(old(db.availabilities))[slot := 0]
  {
    if slot.doctor != doctor {
      return false;
    }
    db.availabilities := Collections.Without(db.availabilities, slot);
    ok := true;
  }

  /**
   * `confirmAppointment`: only the owning doctor confirms, and only a Pending
   * appointment; otherwise nothing changes.
   */
  method ConfirmAppointment(appointment: Appointment, doctor: Doctor?) returns (ok: bool)
    modifies appointment`status
    ensures ok <==> doctor != null && old(appointment.doctor) == doctor && old(appointment.status) == Pending
    ensures ok ==> appointment.status == Confirmed
    ensures !ok ==> appointment.status == old(appointment.status)
  {
    if doctor == null || appointment.doctor != doctor || appointment.status != Pending {
      return false;
    }
    appointment.SetStatus(Confirmed);
    ok := true;
  }

  /**
   * `cancelAppointment` (doctor side): the owning doctor cancels from any
   * status.  Only the status can change, so no slot is made available again.
   */
  method CancelAppointment(appointment: Appointment, doctor: Doctor?) returns (ok: bool)
    modifies appointment`status
    ensures ok <==> doctor != null && old(appointment.doctor) == doctor
    ensures ok ==> appointment.status == Cancelled
    ensures !ok ==> appointment.status == old(appointment.status)
  {
    if doctor == null || appointment.doctor != doctor {
      return false;
    }
    appointment.SetStatus(Cancelled);
    ok := true;
  }

  /** `findBy(['doctor' => $doctor, 'recurring' => true])`, in store order. */
  function RecurringSlotsOf(slots: seq<Availability>, doctor: Doctor?): (r: seq<Availability>)
    reads slots
    ensures forall s :: s in r ==> s in slots && s.doctor == doctor && s.recurring
    ensures forall s :: s in slots && s.doctor == doctor && s.recurring ==> s in r
  {
    if slots == [] then []
    else if slots[0].doctor == doctor && slots[0].recurring then [slots[0]] + RecurringSlotsOf(slots[1..], doctor)
    else RecurringSlotsOf(slots[1..], doctor)
  }

  /** `c` is a copy of `o` made non-recurring and dated `day`. */
  predicate IsDatedCopy(c: Availability, o: Availability, day: int)
    reads c, o
  {
    && c.doctor == o.doctor && c.dayOfWeek == o.dayOfWeek
    && c.startTime == o.startTime && c.endTime == o.endTime
    && c.isAvailable == o.isAvailable
    && !c.recurring && c.date == Some(day)
  }

  /**
   * `copyWeekAvailability`: one new slot per recurring slot of the doctor, in
   * order, each a non-recurring copy dated a week from now.  The originals
   * keep their values, since only the store is modified.
   */
  method CopyWeekAvailability(db: Clinic, doctor: Doctor?, now: int) returns (copies: seq<Availability>)
    modifies db`availabilities
    ensures db.availabilities == old(db.availabilities) + copies
    ensures |copies| == |old(RecurringSlotsOf(db.availabilities, doctor))|
    ensures forall i :: 0 <= i < |copies| ==>
      fresh(copies[i]) && IsDatedCopy(copies[i], old(RecurringSlotsOf(db.availabilities, doctor))[i], DayOf(now + SecondsPerWeek))
  {
    var originals := RecurringSlotsOf(db.availabilities, doctor);
    var day := DayOf(now + SecondsPerWeek);
    copies := [];
    var i := 0;
    while i < |originals|
      invariant 0 <= i <= |originals|
      invariant |copies| == i
      invariant db.availabilities == old(db.availabilities) + copies
      invariant forall j :: 0 <= j < i ==> fresh(copies[j]) && IsDatedCopy(copies[j], originals[j], day)
      invariant forall s :: s in originals ==> !fresh(s)
    {
      var c := originals[i].Clone();
      label Cloned:
      c.SetRecurring(false);
      c.SetDate(day);
      forall j | 0 <= j < i
        ensures IsDatedCopy(copies[j], originals[j], day)
      {
        assert originals[j] in originals;
        assert old@Cloned(IsDatedCopy(copies[j], originals[j], day));
        assert copies[j] != c && originals[j] != c;
      }
      assert originals[i] in originals && IsDatedCopy(c, originals[i], day);
      db.availabilities := db.availabilities + [c];
      copies := copies + [c];
      i := i + 1;
    }
  }
}
