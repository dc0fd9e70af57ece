/**
 * The clinic's entities (the PHP classes under src/Entity) as classes whose
 * methods update in place, plus `Clinic`, the rows the entity manager has
 * flushed.  Nullable columns and relations are `Option` values and nullable
 * references; database identifiers are not modelled, object identity stands
 * for them.
 */
module Entities {
  import opened Wrappers
  import opened Clock
  import opened Collections
  import Roles
  import Text

  // The status strings the code writes.
  const Pending := "Pending"
  const Confirmed := "Confirmed"
  const Cancelled := "Cancelled"
  const Completed := "Completed"

  const ReferencePrefix := "APT_"

  /** `uniqid('APT_')`: the prefix followed by the generated token. */
  function ReferenceFrom(token: string): (r: string)
    ensures Text.StartsWith(r, ReferencePrefix)
    ensures |r| == |ReferencePrefix| + |token|
  {
    ReferencePrefix + token
  }

  /** src/Entity/Appointment.php */
  class Appointment {
    var startDateTime: Option<int>
    var endDateTime: Option<int>
    var status: string
    var reference: Option<string>
    var doctor: Doctor?
    var patient: Patient?
    var prescription: Prescription?

    /** A new appointment is Pending and has nothing else set. */
    constructor ()
      ensures status == Pending
      ensures startDateTime == None && endDateTime == None && reference == None
      ensures doctor == null && patient == null && prescription == null
    {
      status := Pending;
      startDateTime, endDateTime, reference := None, None, None;
      doctor, patient, prescription := null, null, null;
    }

    method SetStartDateTime(t: int)
      modifies this`startDateTime
      ensures startDateTime == Some(t)
    {
      startDateTime := Some(t);
    }

    method SetEndDateTime(t: int)
      modifies this`endDateTime
      ensures endDateTime == Some(t)
    {
      endDateTime := Some(t);
    }

    method SetStatus(s: string)
      modifies this`status
      ensures status == s
    {
      status := s;
    }

    method SetReference(r: string)
      modifies this`reference
      ensures reference == Some(r)
    {
      reference := Some(r);
    }

    method SetDoctor(d: Doctor?)
      modifies this`doctor
      ensures doctor == d
    {
      doctor := d;
    }

    method SetPatient(p: Patient?)
      modifies this`patient
      ensures patient == p
    {
      patient := p;
    }

    /** Confirmed, whatever the status was. */
    method Confirm()
      modifies this`status
      ensures status == Confirmed
    {
      status := Confirmed;
    }

    /** Cancelled, whatever the status was. */
    method Cancel()
      modifies this`status
      ensures status == Cancelled
    {
      status := Cancelled;
    }

    /** Pending again, with a fresh `APT_` reference built from `token`. */
    method Create(token: string)
      modifies this`status, this`reference
      ensures status == Pending
      ensures reference == Some(ReferenceFrom(token))
    {
      status := Pending;
      reference := Some(ReferenceFrom(token));
    }

    /** Links both sides of the one-to-one relation. */
    method SetPrescription(p: Prescription)
      modifies this`prescription, p`appointment
      ensures prescription == p && p.appointment == this
    {
      if p.appointment != this {
        p.SetAppointment(this);
      }
      prescription := p;
    }

    /**
     * `getStartDateTime() > $now`.  PHP orders null below every date, so an
     * appointment without a start never starts after anything.
     */
    predicate StartsAfter(now: int)
      reads this
    {
      startDateTime.Some? && startDateTime.value > now
    }

    /** `getEndDateTime() > $now`, with the same treatment of null. */
    predicate EndsAfter(now: int)
      reads this
    {
      endDateTime.Some? && endDateTime.value > now
    }
  }

  /** src/Entity/Prescription.php (accessors only). */
  class Prescription {
    var fileUrl: Option<string>
    var notes: Option<string>
    var uploadedAt: Option<int>
    var appointment: Appointment?
    var doctor: Doctor?

    constructor ()
      ensures fileUrl == None && notes == None && uploadedAt == None
      ensures appointment == null && doctor == null
    {
      fileUrl, notes, uploadedAt := None, None, None;
      appointment, doctor := null, null;
    }

    method SetAppointment(a: Appointment)
      modifies this`appointment
      ensures appointment == a
    {
      appointment := a;
    }

    method SetDoctor(d: Doctor?)
      modifies this`doctor
      ensures doctor == d
    {
      doctor := d;
    }

    method SetUploadedAt(t: int)
      modifies this`uploadedAt
      ensures uploadedAt == Some(t)
    {
      uploadedAt := Some(t);
    }

    method SetFileUrl(url: string)
      modifies this`fileUrl
      ensures fileUrl == Some(url)
    {
      fileUrl := Some(url);
    }

    method SetNotes(n: Option<string>)
      modifies this`notes
      ensures notes == n
    {
      notes := n;
    }
  }

  /**
   * An availability slot.  Its fields are those the controllers and
   * src/Form/AvailabilityType.php use: a day name for weekly slots, start and
   * end times of day, an optional calendar date, the recurring flag and the
   * available flag.
   */
  class Availability {
    var doctor: Doctor?
    var dayOfWeek: Option<string>
    var startTime: TimeOfDay
    var endTime: TimeOfDay
    var date: Option<int>
    var recurring: bool
    var isAvailable: bool

    constructor (doctor: Doctor?, dayOfWeek: Option<string>, startTime: TimeOfDay, endTime: TimeOfDay,
                 date: Option<int>, recurring: bool, isAvailable: bool)
      ensures this.doctor == doctor && this.dayOfWeek == dayOfWeek
      ensures this.startTime == startTime && this.endTime == endTime
      ensures this.date == date && this.recurring == recurring && this.isAvailable == isAvailable
    {
      this.doctor, this.dayOfWeek := doctor, dayOfWeek;
      this.startTime, this.endTime := startTime, endTime;
      this.date, this.recurring, this.isAvailable := date, recurring, isAvailable;
    }

    method SetIsAvailable(b: bool)
      modifies this`isAvailable
      ensures isAvailable == b
    {
      isAvailable := b;
    }

    method SetRecurring(b: bool)
      modifies this`recurring
      ensures recurring == b
    {
      recurring := b;
    }

    method SetDate(day: int)
      modifies this`date
      ensures date == Some(day)
    {
      date := Some(day);
    }

    /** The six fields the availability form binds. */
    method SetFields(dayOfWeek: Option<string>, startTime: TimeOfDay, endTime: TimeOfDay,
                     date: Option<int>, recurring: bool, isAvailable: bool)
      modifies this`dayOfWeek, this`startTime, this`endTime, this`date, this`recurring, this`isAvailable
      ensures this.dayOfWeek == dayOfWeek && this.startTime == startTime && this.endTime == endTime
      ensures this.date == date && this.recurring == recurring && this.isAvailable == isAvailable
    {
      this.dayOfWeek, this.startTime, this.endTime := dayOfWeek, startTime, endTime;
      this.date, this.recurring, this.isAvailable := date, recurring, isAvailable;
    }

    /** PHP's `clone`: a new slot with the same field values. */
    method Clone() returns (c: Availability)
      ensures fresh(c)
      ensures c.doctor == doctor && c.dayOfWeek == dayOfWeek
      ensures c.startTime == startTime && c.endTime == endTime
      ensures c.date == date && c.recurring == recurring && c.isAvailable == isAvailable
    {
      c := new Availability(doctor, dayOfWeek, startTime, endTime, date, recurring, isAvailable);
    }
  }

  /**
   * src/Entity/Doctor.php.  That file ships with a placeholder comment where
   * its accessors belong; the plain setters below are the ones its callers use.
   */
  class Doctor {
    var client: User?
    var specialty: Option<string>
    var phone: Option<string>
    var bio: Option<string>
    var rating: Option<real>
    var availabilities: seq<Availability>
    var prescriptions: seq<Prescription>
    var appointments: seq<Appointment>

    /** A new doctor has no availabilities, prescriptions or appointments. */
    constructor ()
      ensures availabilities == [] && prescriptions == [] && appointments == []
      ensures client == null && specialty == None && phone == None && bio == None && rating == None
    {
      availabilities, prescriptions, appointments := [], [], [];
      client := null;
      specialty, phone, bio, rating := None, None, None, None;
    }

    method SetClient(u: User?)
      modifies this`client
      ensures client == u
    {
      client := u;
    }

    method SetPhone(p: string)
      modifies this`phone
      ensures phone == Some(p)
    {
      phone := Some(p);
    }

    method SetSpecialty(s: Option<string>)
      modifies this`specialty
      ensures specialty == s
    {
      specialty := s;
    }

    method SetBio(b: string)
      modifies this`bio
      ensures bio == Some(b)
    {
      bio := Some(b);
    }

    method SetRating(r: real)
      modifies this`rating
      ensures rating == Some(r)
    {
      rating := Some(r);
    }

    /**
     * Adds `a` once: an appointment already in the collection changes
     * nothing; a new one is appended and pointed at this doctor.
     */
    method AddAppointment(a: Appointment)
      modifies this`appointments, a`doctor
      ensures old(a in appointments) ==> appointments == old(appointments) && a.doctor == old(a.doctor)
      ensures old(a !in appointments) ==> appointments == old(appointments) + [a] && a.doctor == this
      ensures a in appointments
      ensures old(NoDuplicates(appointments)) ==> NoDuplicates(appointments)
    {
      if a !in appointments {
        AppendFresh(appointments, a);
        appointments := appointments + [a];
        a.SetDoctor(this);
      }
    }

    /**
     * Removes `a` if present, and clears its doctor only when that is still
     * this doctor.
     */
    method RemoveAppointment(a: Appointment)
      modifies this`appointments, a`doctor
      ensures appointments == RemoveFirst(old(appointments), a)
      ensures a.doctor == if old(a in appointments) && old(a.doctor) == this then null else old(a.doctor)
    {
      var present := a in appointments;
      appointments := RemoveFirst(appointments, a);
      if present && a.doctor == this {
        a.SetDoctor(null);
      }
    }
  }

  /** The appointments among `s` that start after `now`, in order. */
  function StartingAfter(s: seq<Appointment>, now: int): (r: seq<Appointment>)
    reads s
    ensures forall a :: a in r ==> a in s && a.StartsAfter(now)
    ensures forall a :: a in s && a.StartsAfter(now) ==> a in r
  {
    if s == [] then []
    else if s[0].StartsAfter(now) then [s[0]] + StartingAfter(s[1..], now)
    else StartingAfter(s[1..], now)
  }

  /** The appointments among `s` that start at or before `now` (or have no start), in order. */
  function StartingBy(s: seq<Appointment>, now: int): (r: seq<Appointment>)
    reads s
    ensures forall a :: a in r ==> a in s && !a.StartsAfter(now)
    ensures forall a :: a in s && !a.StartsAfter(now) ==> a in r
  {
    if s == [] then []
    else if !s[0].StartsAfter(now) then [s[0]] + StartingBy(s[1..], now)
    else StartingBy(s[1..], now)
  }

  /**
   * Upcoming and past split the appointments: every occurrence lands in
   * exactly one of the two.
   */
  lemma {:induction false} UpcomingPastPartition(s: seq<Appointment>, now: int)
    ensures multiset(StartingAfter(s, now)) + multiset(StartingBy(s, now)) == multiset(s)
    ensures |StartingAfter(s, now)| + |StartingBy(s, now)| == |s|
  {
    if s != [] {
      UpcomingPastPartition(s[1..], now);
      assert s == [s[0]] + s[1..];
    }
  }

  /** src/Entity/Patient.php */
  class Patient {
    var phone: Option<string>
    var address: Option<string>
    var client: User?
    var appointments: seq<Appointment>

    constructor ()
      ensures appointments == [] && client == null && phone == None && address == None
    {
      appointments := [];
      client := null;
      phone, address := None, None;
    }

    method SetPhone(p: string)
      modifies this`phone
      ensures phone == Some(p)
    {
      phone := Some(p);
    }

    method SetAddress(a: string)
      modifies this`address
      ensures address == Some(a)
    {
      address := Some(a);
    }

    /** `setClient(User $client)`: the parameter is not nullable. */
    method SetClient(u: User)
      modifies this`client
      ensures client == u
    {
      client := u;
    }

    /**
     * Adds `a` once: an appointment already in the collection changes
     * nothing; a new one is appended and pointed at this patient.
     */
    method AddAppointment(a: Appointment)
      modifies this`appointments, a`patient
      ensures old(a in appointments) ==> appointments == old(appointments) && a.patient == old(a.patient)
      ensures old(a !in appointments) ==> appointments == old(appointments) + [a] && a.patient == this
      ensures a in appointments
      ensures old(NoDuplicates(appointments)) ==> NoDuplicates(appointments)
    {
      if a !in appointments {
        AppendFresh(appointments, a);
        appointments := appointments + [a];
        a.SetPatient(this);
      }
    }

    /**
     * Removes `a` if present, and clears its patient only when that is still
     * this patient.
     */
    method RemoveAppointment(a: Appointment)
      modifies this`appointments, a`patient
      ensures appointments == RemoveFirst(old(appointments), a)
      ensures a.patient == if old(a in appointments) && old(a.patient) == this then null else old(a.patient)
    {
      var present := a in appointments;
      appointments := RemoveFirst(appointments, a);
      if present && a.patient == this {
        a.SetPatient(null);
      }
    }

    /** "first last" from the client account, or "Unknown Patient" without one. */
    function FullName(): (r: string)
      reads this, client
      ensures client == null ==> r == "Unknown Patient"
      ensures client != null ==> r == client.firstName.GetOr("") + " " + client.lastName.GetOr("")
      ensures client != null ==> Text.IsTrimOf(client.FullName(), r)
    {
      if client != null then client.firstName.GetOr("") + " " + client.lastName.GetOr("")
      else "Unknown Patient"
    }

    /** The client account's email, null without one. */
    function Email(): (r: Option<string>)
      reads this, client
      ensures client == null ==> r == None
      ensures client != null ==> r == client.email
    {
      if client != null then client.email else None
    }

    /** `getUpcomingAppointments()`: the appointments that start after `now`. */
    function UpcomingAppointments(now: int): (r: seq<Appointment>)
      reads this, appointments
      ensures forall a :: a in r ==> a in appointments && a.StartsAfter(now)
      ensures forall a :: a in appointments && a.StartsAfter(now) ==> a in r
    {
      StartingAfter(appointments, now)
    }

    /**
     * `getPastAppointments()`: the other appointments, so that upcoming and
     * past together hold every appointment exactly as often as the patient does.
     */
    function PastAppointments(now: int): (r: seq<Appointment>)
      reads this, appointments
      ensures forall a :: a in r ==> a in appointments && !a.StartsAfter(now)
      ensures forall a :: a in appointments && !a.StartsAfter(now) ==> a in r
      ensures multiset(UpcomingAppointments(now)) + multiset(r) == multiset(appointments)
    {
      UpcomingPastPartition(appointments, now);
      StartingBy(appointments, now)
    }

    /** Some appointment starts after `now`. */
    predicate HasUpcomingAppointments(now: int)
      reads this, appointments
      ensures HasUpcomingAppointments(now) <==> exists a :: a in appointments && a.StartsAfter(now)
    {
      var upcoming := UpcomingAppointments(now);
      assert upcoming != [] ==> upcoming[0] in upcoming;
      upcoming != []
    }
  }

  /**
   * A patient with an account shows the account's full name as soon as both
   * names are set and neither starts or ends blank: `trim` then has nothing
   * to strip.
   */
  lemma PatientNameIsUserName(p: Patient)
    requires p.client != null && p.client.firstName.Some? && p.client.lastName.Some?
    requires p.client.firstName.value != [] && p.client.lastName.value != []
    requires !Text.IsTrimmable(p.client.firstName.value[0])
    requires !Text.IsTrimmable(p.client.lastName.value[|p.client.lastName.value| - 1])
    ensures p.FullName() == p.client.FullName()
  {
    var joined := p.client.firstName.value + " " + p.client.lastName.value;
    assert joined[0] == p.client.firstName.value[0];
    assert joined[|joined| - 1] == p.client.lastName.value[|p.client.lastName.value| - 1];
    Text.TrimOfTrimmed(joined);
  }

  /** The Admin profile entity; only its back-reference to the user is modelled. */
  class Admin {
    var user: User?

    constructor ()
      ensures user == null
    {
      user := null;
    }

    method SetUser(u: User?)
      modifies this`user
      ensures user == u
    {
      user := u;
    }
  }

  /** src/Entity/Report.php, with the `client` back-reference that `User.reports` is mapped by. */
  class Report {
    var admin: Admin?
    var client: User?

    constructor ()
      ensures admin == null && client == null
    {
      admin, client := null, null;
    }

    method SetClient(u: User?)
      modifies this`client
      ensures client == u
    {
      client := u;
    }
  }

  /** src/Entity/User.php */
  class User {
    var email: Option<string>
    var roles: seq<string>
    var password: Option<string>
    var firstName: Option<string>
    var lastName: Option<string>
    var doctor: Doctor?
    var patient: Patient?
    var admin: Admin?
    var reports: seq<Report>

    constructor ()
      ensures roles == [] && reports == []
      ensures email == None && password == None && firstName == None && lastName == None
      ensures doctor == null && patient == null && admin == null
    {
      roles, reports := [], [];
      email, password, firstName, lastName := None, None, None, None;
      doctor, patient, admin := null, null, null;
    }

    method SetEmail(e: string)
      modifies this`email
      ensures email == Some(e)
    {
      email := Some(e);
    }

    method SetFirstName(n: string)
      modifies this`firstName
      ensures firstName == Some(n)
    {
      firstName := Some(n);
    }

    method SetLastName(n: string)
      modifies this`lastName
      ensures lastName == Some(n)
    {
      lastName := Some(n);
    }

    method SetPassword(p: string)
      modifies this`password
      ensures password == Some(p)
    {
      password := Some(p);
    }

    method SetRoles(rs: seq<string>)
      modifies this`roles
      ensures roles == rs
    {
      roles := rs;
    }

    /** `getRoles()`: ROLE_USER is always there, every stored role is, and nothing twice. */
    function GetRoles(): (r: seq<string>)
      reads this
      ensures Roles.RoleUser in r
      ensures forall x :: x in r <==> x in roles || x == Roles.RoleUser
      ensures NoDuplicates(r)
    {
      Roles.EffectiveRoles(roles)
    }

    /** `getMainRole()`: the first stored role other than ROLE_USER, or null. */
    function MainRole(): (r: Option<string>)
      reads this
      ensures r == Roles.FirstOther(roles, Roles.RoleUser)
      ensures r.Some? ==> r.value in roles && r.value != Roles.RoleUser
    {
      Roles.MainRoleIsFirstStored(roles);
      Roles.MainRole(roles)
    }

    /** `setMainRole`: the stored roles become exactly the normalised role. */
    method SetMainRole(role: string)
      modifies this`roles
      ensures roles == [Roles.NormalizeRole(role)]
      ensures MainRole() == if roles[0] == Roles.RoleUser then None else Some(roles[0])
    {
      roles := [Roles.NormalizeRole(role)];
    }

    /** `hasRole`: membership in `getRoles()`, so ROLE_USER always holds. */
    predicate HasRole(role: string)
      reads this
      ensures HasRole(role) <==> role in roles || role == Roles.RoleUser
    {
      role in GetRoles()
    }

    /** `getFullName()`: first and last name joined by a space, then trimmed. */
    function FullName(): (r: string)
      reads this
      ensures Text.IsTrimOf(r, firstName.GetOr("") + " " + lastName.GetOr(""))
    {
      Text.Trim(firstName.GetOr("") + " " + lastName.GetOr(""))
    }

    /**
     * `setDoctor`: the new doctor, if any, points back here; clearing the
     * doctor clears the old doctor's client.
     */
    method SetDoctor(d: Doctor?)
      modifies this`doctor, ({d, doctor} - {null})`client
      ensures doctor == d
      ensures d != null ==> d.client == this
      ensures d == null && old(doctor) != null ==> old(doctor).client == null
      ensures d != null && old(doctor) != null && old(doctor) != d ==> old(doctor).client == old(doctor.client)
    {
      if d == null && doctor != null {
        doctor.SetClient(null);
      }
      if d != null && d.client != this {
        d.SetClient(this);
      }
      doctor := d;
    }

    /**
     * `setPatient`: the new patient, if any, points back here.  Clearing a
     * patient that is set calls `Patient::setClient(null)`, which the
     * non-nullable parameter rejects, so that call is excluded.
     */
    method SetPatient(p: Patient?)
      requires p != null || patient == null
      modifies this`patient, ({p} - {null})`client
      ensures patient == p
      ensures p != null ==> p.client == this
    {
      if p != null && p.client != this {
        p.SetClient(this);
      }
      patient := p;
    }

    /**
     * `setAdmin`: the new admin profile, if any, points back here; clearing it
     * clears the old profile's user.
     */
    method SetAdmin(a: Admin?)
      modifies this`admin, ({a, admin} - {null})`user
      ensures admin == a
      ensures a != null ==> a.user == this
      ensures a == null && old(admin) != null ==> old(admin).user == null
      ensures a != null && old(admin) != null && old(admin) != a ==> old(admin).user == old(admin.user)
    {
      if a == null && admin != null {
        admin.SetUser(null);
      }
      if a != null && a.user != this {
        a.SetUser(this);
      }
      admin := a;
    }

    /** Adds `r` once and points it at this user. */
    method AddReport(r: Report)
      modifies this`reports, r`client
      ensures old(r in reports) ==> reports == old(reports) && r.client == old(r.client)
      ensures old(r !in reports) ==> reports == old(reports) + [r] && r.client == this
      ensures old(NoDuplicates(reports)) ==> NoDuplicates(reports)
    {
      if r !in reports {
        AppendFresh(reports, r);
        reports := reports + [r];
        r.SetClient(this);
      }
    }

    /** Removes `r` if present, clearing its client only when that is still this user. */
    method RemoveReport(r: Report)
      modifies this`reports, r`client
      ensures reports == RemoveFirst(old(reports), r)
      ensures r.client == if old(r in reports) && old(r.client) == this then null else old(r.client)
    {
      var present := r in reports;
      reports := RemoveFirst(reports, r);
      if present && r.client == this {
        r.SetClient(null);
      }
    }

    /**
     * `addReport` as written: Report declares no `setClient`, so adding a
     * report that is not yet in the collection appends it and then fails
     * with an undefined-method error.
     */
    method AddReportAsWritten(r: Report) returns (fault: bool)
      modifies this`reports
      ensures fault <==> old(r !in reports)
      ensures fault ==> reports == old(reports) + [r]
      ensures !fault ==> reports == old(reports)
    {
      if r !in reports {
        reports := reports + [r];
        return true;
      }
      fault := false;
    }

    /**
     * `removeReport` as written: Report declares no `getClient`, so removing
     * a report that is in the collection removes it and then fails.
     */
    method RemoveReportAsWritten(r: Report) returns (fault: bool)
      modifies this`reports
      ensures fault <==> old(r in reports)
      ensures reports == RemoveFirst(old(reports), r)
    {
      fault := r in reports;
      reports := RemoveFirst(reports, r);
    }

    /** `getProfile()`: the doctor, else the patient, else the admin profile. */
    function Profile(): (r: object?)
      reads this
      ensures doctor != null ==> r == doctor
      ensures doctor == null && patient != null ==> r == patient
      ensures doctor == null && patient == null ==> r == admin
    {
      if doctor != null then doctor as object?
      else if patient != null then patient as object?
      else admin as object?
    }

    /** `getProfileType()`, with the same priority as `getProfile()`. */
    function ProfileType(): (r: Option<string>)
      reads this
      ensures r == Some("doctor") <==> doctor != null
      ensures r == Some("patient") <==> doctor == null && patient != null
      ensures r == Some("admin") <==> doctor == null && patient == null && admin != null
      ensures r == Some("doctor") ==> Profile() == doctor
      ensures r == Some("patient") ==> Profile() == patient
      ensures r == Some("admin") ==> Profile() == admin
      ensures r == None <==> Profile() == null
    {
      if doctor != null then Some("doctor")
      else if patient != null then Some("patient")
      else if admin != null then Some("admin")
      else None
    }

    /** `hasCompleteProfile()`: some profile is set. */
    predicate HasCompleteProfile()
      reads this
      ensures HasCompleteProfile() <==> ProfileType().Some?
      ensures HasCompleteProfile() <==> doctor != null || patient != null || admin != null
    {
      Profile() != null
    }

    /**
     * `isActivated()`: some role is stored.  The ROLE_USER that `getRoles()`
     * adds does not count: a user with no stored role still has it.
     */
    predicate IsActivated()
      reads this
      ensures !IsActivated() ==> GetRoles() == [Roles.RoleUser]
      ensures IsActivated() <==> MainRole().Some? || Roles.RoleUser in roles
    {
      |roles| > 0
    }
  }

  /**
   * The rows the entity manager has flushed, one sequence per entity type.
   * Persisting a new entity appends it.
   */
  class Clinic {
    var appointments: seq<Appointment>
    var availabilities: seq<Availability>
    var prescriptions: seq<Prescription>
    var users: seq<User>
    var doctors: seq<Doctor>
    var patients: seq<Patient>

    constructor ()
      ensures appointments == [] && availabilities == [] && prescriptions == []
      ensures users == [] && doctors == [] && patients == []
    {
      appointments, availabilities, prescriptions := [], [], [];
      users, doctors, patients := [], [], [];
    }
  }
}
