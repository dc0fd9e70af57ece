/**
 * Uploading a prescription for an appointment
 * (src/Controller/PrescriptionController.php): the guards in their order,
 * the stored file name, and building and persisting the prescription.
 */
module Prescriptions {
  import opened Wrappers
  import opened Entities

  /** Why an upload is refused before the form is looked at. */
  datatype Refusal =
    | NotFound
      /** A call on a null doctor: the appointment has none, or the user is not a doctor. */
    | Fault
    | AccessDenied
    | AlreadyHasPrescription
    | NotEnded

  /**
   * The guards of `upload`, in order: the appointment exists, its doctor is
   * the current doctor, it has no prescription yet, and it has ended by
   * `now`.  The first that fails decides.
   */
  function RefusalOf(appointment: Appointment?, doctor: Doctor?, now: int): (r: Option<Refusal>)
    reads appointment
    ensures r == Some(NotFound) <==> appointment == null
    ensures r == Some(Fault) <==> appointment != null && (appointment.doctor == null || doctor == null)
    ensures r == Some(AccessDenied) ==> appointment != null && appointment.doctor != doctor
    ensures r == Some(AlreadyHasPrescription) ==> appointment != null && appointment.doctor == doctor && appointment.prescription != null
    ensures r == Some(NotEnded) ==> appointment != null && appointment.doctor == doctor && appointment.prescription == null
    ensures r == None <==>
      && appointment != null && doctor != null && appointment.doctor == doctor
      && appointment.prescription == null && !appointment.EndsAfter(now)
  {
    if appointment == null then Some(NotFound)
    else if appointment.doctor == null || doctor == null then Some(Fault)
    else if appointment.doctor != doctor then Some(AccessDenied)
    else if appointment.prescription != null then Some(AlreadyHasPrescription)
    else if appointment.EndsAfter(now) then Some(NotEnded)
    else None
  }

  /** An appointment that has a prescription is never given a second one. */
  lemma AtMostOnePrescription(appointment: Appointment, doctor: Doctor?, now: int)
    requires appointment.prescription != null
    ensures RefusalOf(appointment, doctor, now).Some?
  {
  }

  /** The upload window opens when the appointment ends and stays open. */
  lemma UploadWindowStaysOpen(appointment: Appointment, doctor: Doctor?, now: int, later: int)
    requires now <= later
    requires RefusalOf(appointment, doctor, now) == None
    ensures RefusalOf(appointment, doctor, later) == None
  {
  }

  /** An uploaded file: its slugged original name and its guessed extension. */
  datatype UploadedFile = UploadedFile(slug: string, extension: string)

  /** The stored name: slug, a dash, the unique id, a dot and the extension. */
  function StoredName(file: UploadedFile, uniq: string): (name: string)
    ensures |name| == |file.slug| + 1 + |uniq| + 1 + |file.extension|
    ensures name[..|file.slug|] == file.slug && name[|file.slug|] == '-'
    ensures name[|file.slug| + 1..|file.slug| + 1 + |uniq|] == uniq
    ensures name[|name| - |file.extension| - 1] == '.' && name[|name| - |file.extension|..] == file.extension
  {
    file.slug + "-" + uniq + "." + file.extension
  }

  /**
   * Unique ids of one length (`uniqid` gives 13 characters) give one file
   * distinct stored names, so two uploads never overwrite each other.
   */
  lemma StoredNamesDiffer(file: UploadedFile, u1: string, u2: string)
    requires |u1| == |u2| && u1 != u2
    ensures StoredName(file, u1) != StoredName(file, u2)
  {
    var n := |file.slug| + 1;
    assert StoredName(file, u1)[n..n + |u1|] == u1;
    assert StoredName(file, u2)[n..n + |u2|] == u2;
  }

  /** What the form submission comes to once the guards have passed. */
  datatype Submission =
      /** The prescription is persisted with this file URL. */
    | Persist(fileUrl: Option<string>)
      /** Moving the file failed; the error is reported and nothing is persisted. */
    | MoveFailed
      /** An uncaught error ends the request; nothing is persisted. */
    | Crash

  /**
   * The submission as written: after a successful move the code calls
   * `setFileName`, which `Prescription` does not declare.  That raises an
   * `Error`, which the `catch (\Exception)` does not catch.
   */
  function SubmitAsWritten(file: Option<UploadedFile>, uniq: string, moveOk: bool): (r: Submission)
    ensures r.Persist? ==> r.fileUrl == None
    ensures file.Some? && moveOk ==> r == Crash
  {
    match file
    case None => Persist(None)
    case Some(f) => if moveOk then Crash else MoveFailed
  }

  /** As written, no upload ever stores a file: every persisted prescription lacks one. */
  lemma AsWrittenNeverStoresFile(file: UploadedFile, uniq: string)
    ensures SubmitAsWritten(Some(file), uniq, true) != Submit(Some(file), uniq, true)
    ensures forall moveOk :: SubmitAsWritten(Some(file), uniq, moveOk) != Persist(Some(StoredName(file, uniq)))
  {
  }

  /** The submission as intended: the moved file's stored name becomes the file URL. */
  function Submit(file: Option<UploadedFile>, uniq: string, moveOk: bool): (r: Submission)
    ensures r != Crash
    ensures r == MoveFailed <==> file.Some? && !moveOk
    ensures file.Some? && moveOk ==> r == Persist(Some(StoredName(file.value, uniq)))
    ensures file.None? ==> r == Persist(None)
  {
    match file
    case None => Persist(None)
    case Some(f) => if moveOk then Persist(Some(StoredName(f, uniq))) else MoveFailed
  }

  /** The prescription form: the notes and the file, once submitted and valid. */
  datatype PrescriptionForm = NotSubmitted | Invalid | Submitted(notes: Option<string>, file: Option<UploadedFile>)

  datatype UploadOutcome =
    | Refused(reason: Refusal)
    | FormShown
    | UploadFailed
    | Uploaded(prescription: Prescription)

  /**
   * `upload`, with the intended file name call.  A refusal, an unsubmitted or
   * invalid form, and a failed move persist nothing.  Otherwise one new
   * prescription of this appointment and doctor, uploaded `now`, with the
   * form's notes and the stored file name, joins the store, and the
   * appointment refers to it from then on.
   */
  method Upload(db: Clinic, appointment: Appointment?, doctor: Doctor?, now: int,
                form: PrescriptionForm, uniq: string, moveOk: bool)
    returns (outcome: UploadOutcome)
    modifies db`prescriptions, ({appointment} - {null})`prescription
    ensures old(RefusalOf(appointment, doctor, now)).Some? ==>
      outcome == Refused(old(RefusalOf(appointment, doctor, now)).value)
    ensures !outcome.Uploaded? ==> db.prescriptions == old(db.prescriptions)
    ensures !outcome.Uploaded? && appointment != null ==> appointment.prescription == old(appointment.prescription)
    ensures old(RefusalOf(appointment, doctor, now)).None? && !form.Submitted? ==> outcome == FormShown
    ensures old(RefusalOf(appointment, doctor, now)).None? && form.Submitted? ==>
      (outcome == UploadFailed <==> Submit(form.file, uniq, moveOk) == MoveFailed)
    ensures outcome.Uploaded? <==>
      old(RefusalOf(appointment, doctor, now)).None? && form.Submitted? && Submit(form.file, uniq, moveOk) != MoveFailed
    ensures outcome.Uploaded? ==>
      var p := outcome.prescription;
      && fresh(p)
      && db.prescriptions == old(db.prescriptions) + [p]
      && p.appointment == appointment && p.doctor == doctor && p.uploadedAt == Some(now)
      && p.notes == form.notes
      && Persist(p.fileUrl) == Submit(form.file, uniq, moveOk)
      && appointment != null && appointment.prescription == p
  {
    if appointment == null {
      return Refused(NotFound);
    }
    if appointment.doctor == null || doctor == null {
      return Refused(Fault);
    }
    if appointment.doctor != doctor {
      return Refused(AccessDenied);
    }
    if appointment.prescription != null {
      return Refused(AlreadyHasPrescription);
    }
    if appointment.EndsAfter(now) {
      return Refused(NotEnded);
    }
    var p := new Prescription();
    p.SetAppointment(appointment);
    p.SetDoctor(doctor);
    p.SetUploadedAt(now);
    if !form.Submitted? {
      return FormShown;
    }
    p.SetNotes(form.notes);
    if form.file.Some? {
      if !moveOk {
        return UploadFailed;
      }
      p.SetFileUrl(StoredName(form.file.value, uniq));
    }
    db.prescriptions := db.prescriptions + [p];
    appointment.SetPrescription(p);
    outcome := Uploaded(p);
  }
}
