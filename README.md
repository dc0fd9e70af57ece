# Clinic appointments: a verified model

This Dafny project models the appointment and availability lifecycle of a
Symfony clinic application. It also models the small amount of real logic in
the clinic's entities. Patients book and cancel slots that doctors publish.
Doctors confirm and cancel appointments and manage their slots. Administrators
override statuses, reschedule and delete. Doctors upload a prescription once
an appointment has ended. Registration creates a doctor or patient profile
according to the chosen role.

How the model is laid out:

- **Entities (`entities.dfy`).** Each entity is a class whose methods update
  fields in place. Every method's `modifies` clause names exactly the fields
  it may change.
- **The store.** `Entities.Clinic` stands for what the entity manager has
  flushed. It holds one sequence per entity type. Persisting appends and
  removing deletes.
- **Database ids.** Object identity stands for them.
- **Controllers.** Each controller is one module of methods. Everything the
  framework supplies arrives as a parameter:
  - the resolved entities, as nullable references;
  - the current doctor or patient;
  - the clock `now`;
  - the CSRF verdict;
  - `uniqid` tokens;
  - the slugged file name;
  - whether a file move succeeded.
- **Time (`clock.dfy`).** Time is whole seconds since the Unix epoch. A
  calendar date is a day number and a time of day is a second of that day.
  So the `Y-m-d` and `H:i:s` strings the source builds and parses become
  integers.
- **PHP semantics kept where the code depends on them:**
  - null orders below every date;
  - the truthiness of request parameters;
  - `trim` with its default character list;
  - ASCII-only `strtoupper`;
  - `array_unique` keeps first occurrences;
  - `removeElement` removes the first occurrence;
  - `createFromFormat('Y-m-d H:i')` parses hour and minute only and sets the seconds to zero.

Modules: `Wrappers`, `Collections`, `Clock`, `Text`, `Roles`, `Entities`,
`PatientAppointments`, `DoctorDashboard`, `AdminAppointments`,
`Prescriptions`, `Registration`.

## Model

| member | source | states |
|---|---|---|
| Entities.Appointment.constructor | src/Entity/Appointment.php:23 | A new appointment is Pending, with no times, reference, doctor, patient or prescription. |
| Entities.Appointment.SetStartDateTime | src/Entity/Appointment.php:49-54 | Sets the start and nothing else (the frame is that one field). |
| Entities.Appointment.SetEndDateTime | src/Entity/Appointment.php:61-66 | Sets the end and nothing else. |
| Entities.Appointment.SetStatus | src/Entity/Appointment.php:73-78 | Sets the status to any string, unvalidated, and nothing else. |
| Entities.Appointment.SetReference | src/Entity/Appointment.php:85-90 | Sets the reference and nothing else. |
| Entities.Appointment.SetDoctor | src/Entity/Appointment.php:97-102 | Sets the doctor (null allowed) and nothing else. |
| Entities.Appointment.SetPatient | src/Entity/Appointment.php:109-114 | Sets the patient (null allowed) and nothing else. |
| Entities.Appointment.Confirm | src/Entity/Appointment.php:117-120 | The status becomes Confirmed whatever it was. |
| Entities.Appointment.Cancel | src/Entity/Appointment.php:122-125 | The status becomes Cancelled whatever it was. |
| Entities.Appointment.Create | src/Entity/Appointment.php:127-131 | The status becomes Pending and the reference is `APT_` followed by the unique token. |
| Entities.ReferenceFrom | src/Entity/Appointment.php:130 | A reference always begins with `APT_` and is the token's length plus four. |
| Entities.Appointment.SetPrescription | src/Entity/Appointment.php:138-148 | Afterwards the appointment's prescription is `p` and `p`'s appointment is this appointment. |
| Entities.Prescription.SetAppointment | src/Entity/Prescription.php:80-85 | The appointment becomes the given one; no other field changes. |
| Entities.Prescription.SetDoctor | src/Entity/Prescription.php:92-97 | The doctor becomes the given one, possibly null; no other field changes. |
| Entities.Prescription.SetUploadedAt | src/Entity/Prescription.php:68-73 | The upload instant becomes the given one; no other field changes. |
| Entities.Prescription.SetFileUrl | src/Entity/Prescription.php:44-49 | The file URL becomes the given string; no other field changes. |
| Entities.Prescription.SetNotes | src/Entity/Prescription.php:56-61 | The notes become the given value, possibly null; no other field changes. |
| Entities.Availability.SetIsAvailable | src/Controller/DoctorDashboardController.php:151 | The available flag becomes the given value; no other field changes. |
| Entities.Availability.SetRecurring | src/Controller/DoctorDashboardController.php:152 | The recurring flag becomes the given value; no other field changes. |
| Entities.Availability.SetDate | src/Controller/DoctorDashboardController.php:153 | The date becomes the given day; no other field changes. |
| Entities.Availability.SetFields | src/Form/AvailabilityType.php:18-36 | Binding the form sets exactly its six fields (day name, start and end times, date, recurring and available flags) to the submitted values; the doctor is untouched. |
| Entities.Availability.Clone | src/Controller/DoctorDashboardController.php:283 | `clone` gives a fresh slot with every field equal to the original's, and the original is left unchanged. |
| Entities.Doctor.SetClient | src/Controller/RegistrationController.php:35 | The doctor's user becomes the given one; no other field changes. |
| Entities.Doctor.SetPhone | src/Controller/RegistrationController.php:36 | The phone becomes the given string; no other field changes. |
| Entities.Doctor.SetSpecialty | src/Controller/RegistrationController.php:37 | The specialty becomes the posted value, possibly null; no other field changes. |
| Entities.Doctor.SetBio | src/Controller/RegistrationController.php:38 | The bio becomes the given string; no other field changes. |
| Entities.Doctor.SetRating | src/Controller/RegistrationController.php:39 | The rating becomes the given number; no other field changes. |
| Entities.Patient.SetPhone | src/Entity/Patient.php:50-55 | The phone becomes the given string; no other field changes. |
| Entities.Patient.SetAddress | src/Entity/Patient.php:62-67 | The address becomes the given string; no other field changes. |
| Entities.Patient.SetClient | src/Entity/Patient.php:74-79 | The patient's user becomes the given one, which cannot be null; no other field changes. |
| Entities.Admin.SetUser | src/Entity/User.php:279-291 | The admin's user becomes the given one, possibly null, as `setAdmin` calls it; no other field changes. |
| Entities.User.SetEmail | src/Entity/User.php:100-104 | The email becomes the given string; no other field changes. |
| Entities.User.SetRoles | src/Entity/User.php:123-127 | The stored roles become exactly the given list; no other field changes. |
| Entities.User.SetPassword | src/Entity/User.php:167-171 | The password hash becomes the given string; no other field changes. |
| Entities.User.SetFirstName | src/Entity/User.php:184-188 | The first name becomes the given string; no other field changes. |
| Entities.User.SetLastName | src/Entity/User.php:195-199 | The last name becomes the given string; no other field changes. |
| Entities.Doctor.constructor | src/Entity/Doctor.php:53-58 | A new doctor has empty availabilities, prescriptions and appointments. |
| Entities.Doctor.AddAppointment | src/Entity/Doctor.php:70-78 | An appointment already present changes nothing. A new one is appended once and its doctor becomes this doctor. Absence of duplicates is preserved. |
| Entities.Doctor.RemoveAppointment | src/Entity/Doctor.php:80-90 | The collection loses the first occurrence, and is unchanged when the appointment is absent. The appointment's doctor is nulled only if it was present and pointed here. |
| Entities.Patient.AddAppointment | src/Entity/Patient.php:89-97 | Idempotent on the collection. A new appointment is appended and points back at this patient. Absence of duplicates is preserved. |
| Entities.Patient.RemoveAppointment | src/Entity/Patient.php:99-109 | An absent appointment changes nothing. A present one is removed and its patient nulled only if it was this patient. |
| Entities.StartingAfter | src/Entity/Patient.php:122-128 | The upcoming appointments are exactly those of the collection that start after `now`. |
| Entities.StartingBy | src/Entity/Patient.php:130-136 | The past appointments are exactly those whose start is not after `now`; a null start counts as past. |
| Entities.UpcomingPastPartition | src/Entity/Patient.php:122-136 | Upcoming and past together are the whole collection as a multiset, so they are disjoint and cover it. |
| Entities.Patient.HasUpcomingAppointments | src/Entity/Patient.php:138-141 | Holds iff some appointment starts after `now`. |
| Entities.Patient.Email | src/Entity/Patient.php:117-120 | The client's email, or null when there is no client. |
| Entities.Patient.FullName | src/Entity/Patient.php:112-115 | "Unknown Patient" without a client. With one, the client's first and last names joined by a space, which `trim` turns into the client's own full name. |
| Entities.PatientNameIsUserName | src/Entity/Patient.php:112-115 | When both names are set and neither has a blank outer end, the patient's name and the account's full name are the same string. |
| Entities.Patient.UpcomingAppointments | src/Entity/Patient.php:122-128 | Exactly the patient's appointments that start after `now`, stated both ways. |
| Entities.Patient.PastAppointments | src/Entity/Patient.php:130-136 | Exactly the other appointments. Together with the upcoming ones they hold each appointment as often as the patient does. |
| Entities.User.GetRoles | src/Entity/User.php:114-121 | Contains ROLE_USER and every stored role, nothing else, and no duplicates. |
| Roles.EffectiveRoles | src/Entity/User.php:116-120 | Appending ROLE_USER and keeping first occurrences yields ROLE_USER, every stored role, nothing else, and no duplicates. |
| Roles.Unique | src/Entity/User.php:120 | `array_unique`: the same elements, no duplicates, no longer than the input. |
| Roles.UniqueKeepsFirstOrder | src/Entity/User.php:120 | The values of `array_unique`'s result come in the order of their first occurrence in the input. |
| Entities.User.MainRole | src/Entity/User.php:132-137 | The first stored role other than ROLE_USER, or null if there is none. |
| Roles.MainRoleIsFirstStored | src/Entity/User.php:132-137 | Searching the effective roles finds the same role as searching the stored roles; it is null iff every stored role is ROLE_USER. |
| Roles.FirstOtherUnique | src/Entity/User.php:120 | Removing duplicates does not change the first element other than a given one. |
| Roles.FirstOtherAppend | src/Entity/User.php:118 | Appending ROLE_USER does not change the first role other than ROLE_USER. |
| Roles.NormalizeRole | src/Entity/User.php:144-149 | The result is upper-case and begins with `ROLE_`. An upper-cased role that already has the prefix is kept as is; any other gets `ROLE_` in front of its upper case. |
| Roles.NormalizeRoleIdempotent | src/Entity/User.php:144-149 | Normalising a normalised role changes nothing. |
| Entities.User.SetMainRole | src/Entity/User.php:142-152 | The stored roles become exactly the normalised role, which is then the main role unless it is ROLE_USER. |
| Entities.User.HasRole | src/Entity/User.php:157-160 | Holds iff the role is stored or is ROLE_USER, so ROLE_USER always holds. |
| Text.Trim | src/Entity/User.php:203 | The result is the input with a blank prefix and a blank suffix cut off, and has no blank end itself (`IsTrimOf`). It is empty iff the input is all blanks. |
| Text.TrimUnique | src/Entity/User.php:203 | At most one string is a trim of a given input, so `IsTrimOf` fixes `trim`'s result. |
| Text.TrimOfTrimmed | src/Entity/User.php:203 | Trimming a trimmed string changes nothing. |
| Text.Upper | src/Entity/User.php:144 | `strtoupper` keeps the length and upper-cases each ASCII letter. |
| Text.UpperIdempotent | src/Entity/User.php:144 | Upper-casing twice is upper-casing once. |
| Entities.User.SetDoctor | src/Entity/User.php:237-251 | The user's doctor becomes `d`. A non-null `d` points back at the user. Clearing clears the old doctor's client, and a replaced doctor keeps its client. |
| Entities.User.SetPatient | src/Entity/User.php:258-272 | The user's patient becomes `p` and a non-null `p` points back at the user. |
| Entities.User.SetAdmin | src/Entity/User.php:279-293 | The same as SetDoctor, for the admin profile's user. |
| Entities.User.AddReport | src/Entity/User.php:303-310 | Idempotent on the collection. A new report is appended once and its client becomes this user (corrected, see Findings). |
| Entities.User.RemoveReport | src/Entity/User.php:312-321 | The first occurrence is removed. The report's client is cleared only if the report was present and pointed here (corrected, see Findings). |
| Entities.User.AddReportAsWritten | src/Entity/User.php:303-310 | As written, adding a report not yet present appends it and then fails. |
| Entities.User.RemoveReportAsWritten | src/Entity/User.php:312-321 | As written, removing a present report removes it and then fails. |
| Entities.User.FullName | src/Entity/User.php:201-204 | The first and last name joined by a space, with the blank ends cut off (`IsTrimOf`). |
| Entities.User.Profile | src/Entity/User.php:330-333 | The doctor profile if set, else the patient profile, else the admin profile or null. |
| Entities.User.ProfileType | src/Entity/User.php:330-344 | Priority doctor > patient > admin, agreeing with `getProfile`; null iff there is no profile. |
| Entities.User.HasCompleteProfile | src/Entity/User.php:349-352 | Holds iff some profile type exists, that is iff a doctor, patient or admin profile is set. |
| Entities.User.IsActivated | src/Entity/User.php:357-360 | Holds iff a main role exists or ROLE_USER is stored. Otherwise `getRoles` is just `[ROLE_USER]`, so the implied role does not count. |
| PatientAppointments.IsoDayNumber | src/Controller/PatientAppointmentController.php:198-203 | Monday..Sunday map to 1..7 (the name at that position); a missing or unknown name maps to 1. |
| PatientAppointments.DaysToAdd | src/Controller/PatientAppointmentController.php:207 | The result is in 0..6 and moves the current weekday onto the target weekday. |
| PatientAppointments.WeekdayAfter | src/Controller/PatientAppointmentController.php:205-209 | Moving `n` days forward advances the ISO weekday by `n` modulo 7. |
| PatientAppointments.WeekLater | src/Controller/PatientAppointmentController.php:216-217 | Seven days later is the same weekday and time of day. |
| PatientAppointments.NextRecurringDate | src/Controller/PatientAppointmentController.php:195-221 | The result is strictly after `now` and at most a week later. It falls on the slot's weekday at the slot's hour and minute with seconds 0, so it is the next occurrence. |
| PatientAppointments.BookingWindow | src/Controller/PatientAppointmentController.php:136-143 | A dated slot gives its date at its start and end times. An undated slot gives its next occurrence and one hour, ignoring its end time. |
| PatientAppointments.BookingRefusal | src/Controller/PatientAppointmentController.php:122-148 | InvalidSlot iff the doctor or slot is missing or the slot is another doctor's. SlotTaken iff the slot is the doctor's but unavailable. PastSlot iff it is the doctor's and available but its window starts at or before `now`. No refusal iff none of these holds. |
| PatientAppointments.UndatedSlotNeverPast | src/Controller/PatientAppointmentController.php:139-148 | An undated slot is never refused as past. |
| PatientAppointments.BookAppointment | src/Controller/PatientAppointmentController.php:113-166 | A refusal changes nothing, and so does a user without a patient profile. A success appends exactly one new Pending appointment with this patient, doctor, window and an `APT_` reference, and marks the slot taken. |
| PatientAppointments.MatchingSlot | src/Controller/PatientAppointmentController.php:179-183 | The result is a slot with the appointment's doctor, date and start time, or null when no slot matches. |
| PatientAppointments.CancelAppointmentAsWritten | src/Controller/PatientAppointmentController.php:168-193 | As written: nothing ever changes. The owner's request ends in a fault at the slot lookup, which binds a string to the time-typed `startTime`; anyone else is refused. |
| PatientAppointments.CancelAppointment | src/Controller/PatientAppointmentController.php:168-193 | With the slot lookup corrected to pass a time value: succeeds iff the current patient owns the appointment; a refusal changes nothing. On success the status becomes Cancelled from any status, the matching slot (if any) becomes available, and every other slot is left alone. |
| PatientAppointments.CancelAppointmentOnce | src/Controller/PatientAppointmentController.php:168-193 | Corrected cancellation: the corrected lookup, and re-cancelling a Cancelled appointment leaves every slot alone. |
| PatientAppointments.RecancelDoubleBooks | src/Controller/PatientAppointmentController.php:179-189 | With the corrected lookup but no status check, a book, cancel, book, re-cancel, book sequence leaves two Pending appointments with the same doctor and window. |
| PatientAppointments.RecancelOnceKeepsSlotHeld | src/Controller/PatientAppointmentController.php:179-189 | With corrected cancellation, the same sequence's third booking is refused as SlotTaken. |
| PatientAppointments.AvailableSlotsOf | src/Controller/PatientAppointmentController.php:78-81 | Exactly the doctor's slots whose available flag is set. |
| PatientAppointments.FutureSlots | src/Controller/PatientAppointmentController.php:84-105 | Exactly the slots that are undated, or whose date and start lie after `now`. |
| PatientAppointments.FutureSlotsAppend | src/Controller/PatientAppointmentController.php:84-105 | The filter distributes over concatenation, so order is kept. |
| PatientAppointments.ViewDoctorAvailability | src/Controller/PatientAppointmentController.php:66-105 | Not found without a doctor. Otherwise the loop yields exactly the future filter of the doctor's available slots. |
| PatientAppointments.ShownSlotsAreBookable | src/Controller/PatientAppointmentController.php:84-105 | Every slot the view lists passes every booking guard at the same instant. |
| DoctorDashboard.CalendarDayNumber | src/Controller/DoctorDashboardController.php:76-91 | Sunday is 0 and Monday..Saturday are 1..6 (the name at that position); missing and unknown names have no number. |
| DoctorDashboard.CalendarDayIsIsoModSeven | src/Controller/DoctorDashboardController.php:76-84 | The calendar's number for a known day is the booking code's ISO number modulo 7. |
| DoctorDashboard.EventOf | src/Controller/DoctorDashboardController.php:87-117 | There is an event iff the slot is recurring with a known day name, or non-recurring with a date. A weekly event has `daysOfWeek [n]` and the slot's times. A dated event spans the date at the start and end times. The style is Available/availability-slot/available iff the slot is available, else Blocked/blocked-slot/blocked. |
| DoctorDashboard.EventsOf | src/Controller/DoctorDashboardController.php:86-118 | There are no more events than slots, and each event is its own slot's event. |
| DoctorDashboard.EventsOfAppend | src/Controller/DoctorDashboardController.php:86-118 | Events of concatenated slots are the concatenated events, so order is kept. |
| DoctorDashboard.EventsOfShowsEverySlot | src/Controller/DoctorDashboardController.php:86-118 | Every slot that has an event appears in the list. |
| DoctorDashboard.SlotsOf | src/Controller/DoctorDashboardController.php:73 | Exactly the slots of the given doctor. |
| DoctorDashboard.CalendarEvents | src/Controller/DoctorDashboardController.php:70-123 | The loop yields exactly the events of the current doctor's slots. |
| DoctorDashboard.QuickAddAvailability | src/Controller/DoctorDashboardController.php:125-167 | Appends one new slot of the current doctor: available, non-recurring, dated on the start's date, from the start's to the end's time of day. |
| DoctorDashboard.NewAvailability | src/Controller/DoctorDashboardController.php:169-188 | Only a valid form appends a slot, with the form's fields and the current doctor. |
| DoctorDashboard.EditAvailability | src/Controller/DoctorDashboardController.php:190-211 | Another doctor's slot is denied and unchanged. The owner's slot takes a valid form's fields; otherwise it is unchanged. |
| DoctorDashboard.DeleteAvailability | src/Controller/DoctorDashboardController.php:213-224 | Another doctor's slot is denied and the store is unchanged. Otherwise exactly that slot leaves the store. |
| DoctorDashboard.ConfirmAppointment | src/Controller/DoctorDashboardController.php:240-253 | Succeeds iff a doctor is present, owns the appointment, and the status is exactly Pending. Then it is Confirmed; otherwise the status is unchanged. |
| DoctorDashboard.CancelAppointment | src/Controller/DoctorDashboardController.php:255-268 | Succeeds iff a doctor is present and owns the appointment. The status becomes Cancelled from any status, and only the status may change. |
| DoctorDashboard.RecurringSlotsOf | src/Controller/DoctorDashboardController.php:276-279 | Exactly the doctor's recurring slots. |
| DoctorDashboard.CopyWeekAvailability | src/Controller/DoctorDashboardController.php:270-292 | Appends one new slot per recurring slot of the doctor, in order. Each is a non-recurring copy dated a week from now; the originals are not modified. |
| AdminAppointments.ListingQueryOf | src/Controller/SimpleAdminAppointmentController.php:26-37 | A truthy search term selects the search query, with that term; otherwise the four filters are used. |
| AdminAppointments.SearchIgnoresFilters | src/Controller/SimpleAdminAppointmentController.php:33-37 | With a search term the filters make no difference. |
| AdminAppointments.Rescheduled | src/Controller/SimpleAdminAppointmentController.php:75-78 | The start is the chosen minute's date, at its hour and minute, at second 0. The end is 30 minutes after the start. |
| AdminAppointments.RescheduledOntoSlotStart | src/Controller/SimpleAdminAppointmentController.php:75-78 | Rescheduling to the date and `H:i` of a start that falls on a whole minute lands exactly on that start. |
| AdminAppointments.Edit | src/Controller/SimpleAdminAppointmentController.php:59-91 | A truthy posted status overwrites the status. A truthy date and time that parse move the start to that minute at second 0 and the end to half an hour later. Anything else is left unchanged. |
| AdminAppointments.Confirm | src/Controller/SimpleAdminAppointmentController.php:93-104 | The status becomes Confirmed from any status. |
| AdminAppointments.Cancel | src/Controller/SimpleAdminAppointmentController.php:106-117 | The status becomes Cancelled from any status. |
| AdminAppointments.Complete | src/Controller/SimpleAdminAppointmentController.php:119-130 | The status becomes Completed from any status. |
| AdminAppointments.Delete | src/Controller/SimpleAdminAppointmentController.php:132-146 | With a valid CSRF token, exactly that appointment leaves the store. The removal cascades to the appointment's prescription (src/Entity/Appointment.php:36), which leaves the store too. Without a valid token nothing changes. |
| Prescriptions.RefusalOf | src/Controller/PrescriptionController.php:36-59 | The guards apply in order: not found, a null doctor, another doctor, an existing prescription, not yet ended. Nothing is refused iff the appointment exists, is the current doctor's, has no prescription and has ended. |
| Prescriptions.AtMostOnePrescription | src/Controller/PrescriptionController.php:49-52 | An appointment that has a prescription is always refused. |
| Prescriptions.UploadWindowStaysOpen | src/Controller/PrescriptionController.php:54-59 | Once an upload is allowed, it stays allowed later. |
| Prescriptions.StoredName | src/Controller/PrescriptionController.php:75-77 | The name is the slug, `-`, the unique id, `.`, and the extension, each at its position. |
| Prescriptions.StoredNamesDiffer | src/Controller/PrescriptionController.php:77 | Distinct unique ids of one length give distinct stored names. |
| Prescriptions.SubmitAsWritten | src/Controller/PrescriptionController.php:74-94 | As written, a moved file ends in an uncaught error, and nothing persisted ever has a file URL. |
| Prescriptions.AsWrittenNeverStoresFile | src/Controller/PrescriptionController.php:81-90 | As written, the outcome differs from the intended one for every moved file. |
| Prescriptions.Submit | src/Controller/PrescriptionController.php:74-94 | Never an error. The move fails iff there is a file that cannot be moved. A moved file's stored name becomes the file URL, and no file persists with no URL. |
| Prescriptions.Upload | src/Controller/PrescriptionController.php:29-104 | A refusal, an unsubmitted form and a failed move persist nothing. The upload succeeds iff none of these happens. Then exactly one new prescription is persisted, for this appointment and doctor, uploaded at `now`, with the form's notes and the stored name; the appointment then refers to it. |
| Roles.ExtractRole | src/Controller/RegistrationController.php:27-28 | A scalar role is taken as is; a list gives its first element, or ROLE_USER when it is empty. |
| Registration.Register | src/Controller/RegistrationController.php:19-61 | Only a valid form persists anything. The user's roles become exactly the extracted role. ROLE_DOCTOR adds one doctor profile pointing at the user, with bio defaulting to '' and rating 0. ROLE_PATIENT adds one patient profile with phone and address. Any other role adds none. |
| Registration.RegisteredUserHoldsRole | src/Controller/RegistrationController.php:30 | A registered user is activated and holds its role, which is its main role unless it is ROLE_USER. |

## Left out

- `src/Entity/Availability.php` is not part of this model. The slot's fields come from how the controllers and the availability form use it.
- `src/Entity/Doctor.php` has a placeholder comment where its accessors belong. The model assumes plain getters and setters for id, client, phone, specialty, bio and rating. In particular `setClient` does not call back into the user.
- Repository queries are modelled by their filters only. Their `ORDER BY` clauses (slots by date and start time, appointments by start) are not modelled: results keep store order. The search and filter queries of the admin listing are not defined in the repository shown, so only the choice between them is modelled.
- Database constraints at flush time are not modelled, except the NOT NULL patient of a booking. Examples left out: a prescription without a file URL, and a quick-added slot without a doctor.
- RecancelDoubleBooks: exhibits the double booking over the cancellation with the slot lookup corrected. As written, the first cancellation already ends in a fault (`CancelAppointmentAsWritten`), so the double booking needs that lookup fixed first.
- `PatientAppointments.CancelAppointment`, `PatientAppointments.CancelAppointmentOnce`: require the appointment to have a start, which the NOT NULL start column guarantees for every stored appointment.
- `Entities.User.SetPatient`: clearing a set patient calls `Patient::setClient(null)`, whose parameter is not nullable, so that call is excluded by a precondition rather than modelled as an error.
- Time zones, daylight saving and the server's time-zone conversion in quick-add are left out. All instants are in one zone.
- The source reads the clock several times in one request; the model uses one instant `now` for all of them.
- The `DATE` column of `uploadedAt` keeps only the day; the model stores the instant.
- `uniqid`, the slugger, the file's extension guess and the file move are parameters. Password hashing is also a parameter, arriving as a ready hash.
- Form handling and validation are reduced to a submitted-and-valid value or its absence. Binding an invalid submission to an entity in memory is not modelled, because nothing is flushed then.
- Rendering, redirects, flash messages, JSON responses, sessions and security attributes are left out.
- The doctor dashboard statistics and the plain listing pages are left out: `dashboard`, `appointments`, the prescription index and view, and `show`.
- Concurrent requests are left out (the double-booking race); operations run one at a time.
- The doctor's rating is a `real` stored as given; floating-point arithmetic plays no part.
- After an upload, the model sets the appointment's inverse prescription link. Doctrine establishes that link when the appointment is next loaded. Modelling it this way is what makes a second upload for the same appointment refused.

## Findings

| source | as written | input that shows it | evidently intended | confidence | as-written member | corrected member |
|---|---|---|---|---|---|---|
| src/Controller/PrescriptionController.php:86 | After moving the file, calls `setFileName`, which `Prescription` does not declare (only `setFileUrl`, src/Entity/Prescription.php:44). The resulting `Error` is not caught by `catch (\Exception)`, so nothing is persisted. | Any valid upload with a file whose move succeeds. | Set the file URL to the stored name and persist the prescription. | not executed | Prescriptions.SubmitAsWritten | Prescriptions.Submit |
| src/Entity/User.php:303-321 | `addReport` and `removeReport` call `setClient`/`getClient` on `Report`, which has no `client` property (src/Entity/Report.php:23-25 declares only `admin`), although `User.reports` is mapped by `client`. | `addReport` with a report not yet in the collection; `removeReport` with one that is. | Report carries a `client` back-reference that these methods keep in sync. | not executed | Entities.User.AddReportAsWritten | Entities.User.AddReport |
| src/Controller/PatientAppointmentController.php:182 | The slot lookup passes the start time as an `H:i:s` string for `startTime`, a field holding a time (quick-add stores a `DateTime` in it, src/Controller/DoctorDashboardController.php:141-149, and both controllers call `getStartTime()->format`). Doctrine converts a criterion by the field's time type, which accepts only a date-time object, so the lookup throws. The slot, the status and the flush are never reached. | The owning patient cancels any appointment. | Pass the start as a time value, so the slot is found and reopened and the appointment is Cancelled. | not executed | PatientAppointments.CancelAppointmentAsWritten | PatientAppointments.CancelAppointment |
| src/Controller/PatientAppointmentController.php:179-189 | With the lookup at line 182 corrected, cancelling reopens the matching slot whatever the appointment's status. So re-cancelling an appointment that is already Cancelled reopens a slot that a later booking holds. | Patient A books a dated slot and cancels. Patient B books it. A cancels again. Patient C can now book it: two Pending appointments for one slot. | Cancelling an already Cancelled appointment does not restore a slot. | not executed | PatientAppointments.RecancelDoubleBooks | PatientAppointments.CancelAppointmentOnce |
