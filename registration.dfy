/**
 * Signing up (src/Controller/RegistrationController.php): the stored role
 * comes from the form's role field, and the role decides whether a doctor or
 * a patient profile is created beside the user.
 */
module Registration {
  import opened Wrappers
  import opened Entities
  import Roles

  const RoleDoctor := "ROLE_DOCTOR"
  const RolePatient := "ROLE_PATIENT"

  /**
   * A registration form: not submitted, submitted but invalid, or valid with
   * its values.  The password arrives already hashed, since hashing is not
   * part of this model.
   */
  datatype RegistrationForm =
    | NotSubmitted
    | Invalid
    | Valid(email: string, firstName: string, lastName: string, role: Roles.RoleField,
            phone: string, address: Option<string>, specialty: Option<string>, bio: Option<string>,
            passwordHash: string)

  datatype RegistrationOutcome =
    | FormShown
      /** `Patient::setAddress(null)` rejects a missing address; nothing is persisted. */
    | Fault
    | Registered(user: User)

  /** The case that ends in `Fault`: a patient without an address. */
  predicate PatientWithoutAddress(form: RegistrationForm)
  {
    form.Valid? && Roles.ExtractRole(form.role) == RolePatient && form.address.None?
  }

  /** `u` carries the form's account fields and exactly the role `role`, and no profile yet. */
  predicate UserFrom(u: User, form: RegistrationForm, role: string)
    requires form.Valid?
    reads u
  {
    && u.roles == [role]
    && u.email == Some(form.email) && u.firstName == Some(form.firstName) && u.lastName == Some(form.lastName)
    && u.password == Some(form.passwordHash)
    && u.doctor == null && u.patient == null && u.admin == null
  }

  /** `d` is a new doctor profile of `u` built from the form: empty bio by default, rating 0. */
  predicate DoctorFrom(d: Doctor, u: User, form: RegistrationForm)
    requires form.Valid?
    reads d
  {
    && d.client == u
    && d.phone == Some(form.phone) && d.specialty == form.specialty
    && d.bio == Some(form.bio.GetOr("")) && d.rating == Some(0.0)
    && d.appointments == [] && d.availabilities == [] && d.prescriptions == []
  }

  /** `p` is a new patient profile of `u` with the form's phone and address. */
  predicate PatientFrom(p: Patient, u: User, form: RegistrationForm)
    requires form.Valid?
    reads p
  {
    && p.client == u
    && p.phone == Some(form.phone) && p.address == form.address
    && p.appointments == []
  }

  /**
   * `register`.  Only a valid form persists anything.  The user's stored
   * roles become exactly the extracted role.  ROLE_DOCTOR adds one doctor
   * profile pointing at the user; ROLE_PATIENT adds one patient profile
   * pointing at the user; any other role adds no profile.  The user's own
   * profile fields are left unset.
   */
  method Register(db: Clinic, form: RegistrationForm) returns (outcome: RegistrationOutcome)
    modifies db`users, db`doctors, db`patients
    ensures !form.Valid? ==> outcome == FormShown
    ensures PatientWithoutAddress(form) ==> outcome == Fault
    ensures !outcome.Registered? ==>
      db.users == old(db.users) && db.doctors == old(db.doctors) && db.patients == old(db.patients)
    ensures outcome.Registered? <==> form.Valid? && !PatientWithoutAddress(form)
    ensures outcome.Registered? ==>
      && fresh(outcome.user)
      && db.users == old(db.users) + [outcome.user]
      && UserFrom(outcome.user, form, Roles.ExtractRole(form.role))
    ensures outcome.Registered? && Roles.ExtractRole(form.role) == RoleDoctor ==>
      exists d :: db.doctors == old(db.doctors) + [d] && fresh(d) && DoctorFrom(d, outcome.user, form)
    ensures outcome.Registered? && Roles.ExtractRole(form.role) != RoleDoctor ==> db.doctors == old(db.doctors)
    ensures outcome.Registered? && Roles.ExtractRole(form.role) == RolePatient ==>
      exists p :: db.patients == old(db.patients) + [p] && fresh(p) && PatientFrom(p, outcome.user, form)
    ensures outcome.Registered? && Roles.ExtractRole(form.role) != RolePatient ==> db.patients == old(db.patients)
  {
    if !form.Valid? {
      return FormShown;
    }
    var role := Roles.ExtractRole(form.role);
    var user := NewUser(form, role);
    if role == RoleDoctor {
      var doctor := NewDoctor(user, form);
      db.doctors := db.doctors + [doctor];
    }
    if role == RolePatient {
      if form.address.None? {
        return Fault;
      }
      var patient := NewPatient(user, form);
      db.patients := db.patients + [patient];
    }
    db.users := db.users + [user];
    outcome := Registered(user);
  }

  /** The user the form binds, with the extracted role and the hashed password. */
  method NewUser(form: RegistrationForm, role: string) returns (user: User)
    requires form.Valid?
    ensures fresh(user) && UserFrom(user, form, role)
  {
    user := new User();
    user.SetEmail(form.email);
    user.SetFirstName(form.firstName);
    user.SetLastName(form.lastName);
    user.SetRoles([role]);
    user.SetPassword(form.passwordHash);
  }

  /** The doctor profile `register` builds for ROLE_DOCTOR. */
  method NewDoctor(user: User, form: RegistrationForm) returns (doctor: Doctor)
    requires form.Valid?
    ensures fresh(doctor) && DoctorFrom(doctor, user, form)
  {
    doctor := new Doctor();
    doctor.SetClient(user);
    doctor.SetPhone(form.phone);
    doctor.SetSpecialty(form.specialty);
    doctor.SetBio(form.bio.GetOr(""));
    doctor.SetRating(0.0);
  }

  /** The patient profile; the caller has ruled out a missing address. */
  method NewPatient(user: User, form: RegistrationForm) returns (patient: Patient)
    requires form.Valid? && form.address.Some?
    ensures fresh(patient) && PatientFrom(patient, user, form)
  {
    patient := new Patient();
    patient.SetClient(user);
    patient.SetPhone(form.phone);
    patient.SetAddress(form.address.value);
  }

  /**
   * A user built by registration is activated, holds the chosen role, and
   * has it as main role unless the role is ROLE_USER.
   */
  lemma RegisteredUserHoldsRole(u: User, form: RegistrationForm, role: string)
    requires form.Valid? && UserFrom(u, form, role)
    ensures u.IsActivated() && u.HasRole(role)
    ensures u.MainRole() == if role == Roles.RoleUser then None else Some(role)
  {
    Roles.MainRoleIsFirstStored(u.roles);
  }
}
