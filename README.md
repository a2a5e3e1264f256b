# MediClinic core in Dafny

A model of the logic at the heart of MediClinic, a desktop clinic manager
(JavaFX screens over Hibernate) with two Python helper scripts for the camera
preview.  The model covers:

- **Appointments**: the `RendezVous` entity, its duration and overlap test;
  the conflict query of `RendezVousDAO`; and `RendezVousService`.  The service
  has the four-state status machine (PLANIFIE, CONFIRME, TERMINE, ANNULE),
  date validation with a 15-minute minimum, booking with collision
  prevention, status changes and closing an appointment with its
  consultation, the search for the next free slot (30-minute steps, 8h–18h,
  weekdays, at most 96 tries) and the waiting room.
- **Codecs**: the `KEY:value` text of an appointment's QR code and its parser
  (`QRCodeService`), and CSV field escaping and the export rows
  (`CsvService`).
- **Invoicing**:
  - `Facture` and `LigneFacture` keep the invoice total equal to the sum of
    its line amounts.
  - `FacturationService` checks the lines before it creates an invoice, and
    an invoice can be marked as paid only once.
  - The invoice screen of `BillingController` has its statistics (an average
    rounded half up), its filters and search, and the date range of its
    reports.
- **Access**: the role tables of `PermissionChecker` and the session slot of
  `UserSession`.
- **Derived queries**: reminder eligibility and the reminder loop
  (`AppointmentReminderService`), the home-screen figures
  (`DashboardService`), patient creation and deletion with the contact and
  format checks (`PatientService`), the signature files (`SignatureService`),
  the patient list's pagination and search (`PatientController`) and the
  property lookup with environment override (`ConfigurationManager`).
- **Camera scripts**: the libcamera preview's frame monitor and two-phase
  stop, and the GStreamer preview loop with its failure limit.

Conventions of the model:

- Money (`BigDecimal`, two decimals) is an integer number of cents.
- A `LocalDateTime` is an integer number of seconds since 1970-01-01T00:00.
- A `LocalDate` is a day number.
- A field the entity allows to be null is an `Option`.
- The Java exceptions a service throws are the `Exception` values of `Common`.
- The Hibernate tables are sequences or maps of rows.
- The clock (`now`, `today`), the logged-in user, the environment, the
  resource files and everything the scripts learn from the operating system
  (process state, file times, exit codes, signals) are parameters.

Each file is one module and follows one source file:

- `rendezvous.dfy`, `rendezvous_dao.dfy`, `rendezvous_service.dfy`
- `qrcode.dfy`, `csv.dfy`
- `invoice.dfy`, `facturation.dfy`, `billing.dfy`
- `permissions.dfy`, `user_session.dfy`
- `reminder.dfy`, `dashboard.dfy`
- `patient_service.dfy` (with `regex.dfy` for the pattern matcher its
  validators need), `signature.dfy`
- `pagination.dfy`, `configuration.dfy`
- `libcamera_preview.dfy`, `gstreamer_preview.dfy`

Three further modules are shared: `entities.dfy` (the entities as values),
`time.dfy` (the `java.time` arithmetic) and `common.dfy` (options, exceptions,
strings, integer text, sorting).

## Model

| member | source | states |
|---|---|---|
| RendezVousModel.Empty | src/main/java/com/mediclinic/model/RendezVous.java:36-38 | A new appointment has every field null except its status, which is PLANIFIE |
| RendezVousModel.Create | src/main/java/com/mediclinic/model/RendezVous.java:56-63 | The five-argument constructor keeps the given patient, doctor, bounds and reason, has no id and status PLANIFIE |
| RendezVousModel.Duree | src/main/java/com/mediclinic/model/RendezVous.java:137-142 | The duration added to the start gives the end when both bounds are set; it is zero when either is missing |
| RendezVousModel.IsOverlap | src/main/java/com/mediclinic/model/RendezVous.java:148-160 | The test throws a NullPointerException exactly when a doctor is missing, or when the doctors are the same and a bound of either appointment is missing |
| RendezVousModel.DifferentDoctorsNeverOverlap | src/main/java/com/mediclinic/model/RendezVous.java:148-152 | Appointments of two different doctors never overlap, in either order of the call, whether or not their bounds are set |
| RendezVousModel.OverlapCases | src/main/java/com/mediclinic/model/RendezVous.java:154-159 | For one doctor, identical bounds, a start strictly inside the other interval, or an end strictly inside it are each reported as an overlap |
| RendezVousModel.BackToBackNoOverlap | src/main/java/com/mediclinic/model/RendezVous.java:148-160 | One appointment ending exactly when the next starts is not an overlap, in either order |
| RendezVousModel.OverlapIsIntersection | src/main/java/com/mediclinic/model/RendezVous.java:148-160 | Every reported overlap is between two appointments of the same doctor with all bounds set, and for proper intervals they genuinely intersect |
| RendezVousModel.OverlapNotSymmetric | src/main/java/com/mediclinic/model/RendezVous.java:154-159 | The test is not symmetric: an appointment strictly containing another is not reported as overlapping it, while the reverse call is |
| RendezVousDao.IntersectsSymmetric | src/main/java/com/mediclinic/dao/RendezVousDAO.java:50-53 | The collision rule `start < otherEnd && end > otherStart` is symmetric |
| RendezVousDao.CountConflicting | src/main/java/com/mediclinic/dao/RendezVousDAO.java:44-62 | The conflict count never exceeds the number of stored appointments |
| RendezVousDao.CountZeroIff | src/main/java/com/mediclinic/dao/RendezVousDAO.java:44-62 | The count is zero exactly when no stored appointment of the doctor, other than the excluded id (-1 on creation), intersects the new interval |
| RendezVousDao.EditedRowExcluded | src/main/java/com/mediclinic/dao/RendezVousDAO.java:51-59 | The appointment being edited is never counted as conflicting with itself |
| RendezVousDao.CreationExcludesNothing | src/main/java/com/mediclinic/dao/RendezVousDAO.java:51-59 | On creation (null id) a stored appointment with a generated id conflicts exactly when it belongs to the doctor and its interval intersects the new one |
| RendezVousDao.TouchingNeverConflicts | src/main/java/com/mediclinic/dao/RendezVousDAO.java:52-53 | An appointment ending exactly at the new start, or starting exactly at the new end, is not a conflict |
| RendezVousDao.ConflictSymmetric | src/main/java/com/mediclinic/dao/RendezVousDAO.java:50-53 | For two stored appointments of the doctor, each conflicts with the other's interval exactly when the other conflicts with its own |
| RendezVousDao.FindByMedecinAndDateRange | src/main/java/com/mediclinic/dao/RendezVousDAO.java:21-31 | The result holds exactly the doctor's appointments starting within [debut, fin], both bounds included, each as often as stored, in ascending start order |
| RendezVousDao.CountByMedecin | src/main/java/com/mediclinic/dao/RendezVousDAO.java:93-102 | The count is at most the number of rows and is zero exactly when no row belongs to the doctor |
| RendezVousServiceModel.NullTransitionsInvalid | src/main/java/com/mediclinic/service/RendezVousService.java:527-529 | A transition from or to a null status is never valid |
| RendezVousServiceModel.SameStatusValid | src/main/java/com/mediclinic/service/RendezVousService.java:531-534 | Keeping the same status is always a valid transition, even from a final status |
| RendezVousServiceModel.StatusChanges | src/main/java/com/mediclinic/service/RendezVousService.java:536-553 | A real change is valid exactly for PLANIFIE to CONFIRME or ANNULE and CONFIRME to TERMINE or ANNULE; TERMINE and ANNULE allow no change |
| RendezVousServiceModel.ChangesMoveForward | src/main/java/com/mediclinic/service/RendezVousService.java:515-554 | A chain of valid real changes has at most three statuses and moves one stage forward per step, so no status is ever left and re-entered |
| RendezVousServiceModel.ValidateAppointmentDates | src/main/java/com/mediclinic/service/RendezVousService.java:146-183 | The dates pass exactly when both bounds are set, the duration is at least 15 minutes, and a new (id-less) appointment does not start in the past; every rejection is an IllegalArgumentException |
| RendezVousServiceModel.ValidDatesArePositive | src/main/java/com/mediclinic/service/RendezVousService.java:154-165 | Dates that pass have the end strictly after the start |
| RendezVousServiceModel.FindIndex | src/main/java/com/mediclinic/dao/AbstractDAO.java:50-63 | `findById`: the index found holds the id, and nothing is found exactly when no row holds it |
| RendezVousServiceModel.TableReplace | src/main/java/com/mediclinic/service/RendezVousService.java:365-366 | Saving an edited appointment under its own id keeps the ids distinct and below the next generated id |
| RendezVousServiceModel.TableAppend | src/main/java/com/mediclinic/service/RendezVousService.java:138-140 | Saving a new appointment under the next generated id keeps the ids distinct and below the new next id |
| RendezVousServiceModel.CheckPlanifier | src/main/java/com/mediclinic/service/RendezVousService.java:58-136 | Each outcome in both directions: a SecurityException exactly without a session or for a secretary with no associated doctor or booking for another doctor; otherwise an IllegalArgumentException exactly when the dates are invalid or the patient or the doctor is missing or not found; otherwise an IllegalStateException exactly when a conflicting appointment exists; and the booking passes exactly when none of these holds |
| RendezVousServiceModel.CanModifyMeans | src/main/java/com/mediclinic/service/RendezVousService.java:372-412 | For a non-admin, modification is allowed exactly when the appointment exists and belongs to the user's associated doctor |
| RendezVousServiceModel.DoctorMayBookButNotCreate | src/main/java/com/mediclinic/service/RendezVousService.java:69-75 | A doctor passes every check of `planifierRendezVous` with a valid, conflict-free booking although `canCreateAppointment` says doctors cannot create appointments |
| RendezVousServiceModel.WaitingRoom | src/main/java/com/mediclinic/service/RendezVousService.java:21-28 | The waiting list holds exactly the PLANIFIE or CONFIRME appointments starting after ten minutes ago, each as often as stored, in ascending start order |
| RendezVousServiceModel.StartsAscending | src/main/java/com/mediclinic/service/RendezVousService.java:26 | A list sorted by the start key of waiting appointments has ascending start times |
| RendezVousServiceModel.RendezVousService.constructor | src/main/java/com/mediclinic/service/RendezVousService.java:41-46 | The service starts with no appointments and no consultations over the given patients, doctors and patients with a medical record |
| RendezVousServiceModel.RendezVousService.PlanifierRendezVous | src/main/java/com/mediclinic/service/RendezVousService.java:58-141 | Fails exactly as `CheckPlanifier` says and then changes nothing; on success the saved appointment has the stored patient and doctor, the given dates and reason, PLANIFIE by default, an id, and replaces the row with its id or is appended |
| RendezVousServiceModel.RendezVousService.UpdateStatus | src/main/java/com/mediclinic/service/RendezVousService.java:311-367 | No session is a SecurityException; a null id or status, or an unknown appointment, an IllegalArgumentException; a doctor's change to another doctor's appointment a SecurityException; an invalid transition an IllegalStateException; it succeeds exactly for an existing appointment the user may change with a valid transition, and then only that row's status changes |
| RendezVousServiceModel.ConsultationFailure | src/main/java/com/mediclinic/service/ConsultationService.java:29-66 | The consultation is saved exactly when the appointment is TERMINE, has an id, its patient is set, has an id, is stored and has a medical record, and no consultation exists for the appointment yet; with the patient on record, an appointment without an id or with a consultation already is the save's RuntimeException; a status other than TERMINE is an IllegalStateException |
| RendezVousServiceModel.RendezVousService.CreateConsultationFromRendezVous | src/main/java/com/mediclinic/service/ConsultationService.java:29-67 | One consultation is recorded for the appointment exactly when `ConsultationFailure` finds nothing wrong; otherwise its exception is thrown and nothing is recorded |
| RendezVousServiceModel.RendezVousService.TerminerRendezVous | src/main/java/com/mediclinic/service/RendezVousService.java:189-235 | As written: without a signed-in user it throws SecurityException, without an existing appointment IllegalArgumentException, for another doctor's appointment SecurityException, and for a status that may not become TERMINE (TERMINE itself may) IllegalStateException, and then nothing changes. Otherwise the row is saved as TERMINE and the consultation step runs: when that throws, the row stays TERMINE, nothing is recorded and the exception reaches the caller; otherwise one consultation is recorded. One consultation per finished appointment is kept |
| RendezVousServiceModel.RendezVousService.TerminerRendezVousOnce | src/main/java/com/mediclinic/service/RendezVousService.java:189-235 | Corrected: the same exceptions, with any status but CONFIRME rejected by an IllegalStateException before anything is saved, so the consultation save never meets an existing consultation (no RuntimeException) and every finished appointment keeps at most one consultation |
| RendezVousServiceModel.RendezVousService.FindNextAvailableSlot | src/main/java/com/mediclinic/service/RendezVousService.java:435-485 | No doctor or no preferred start gives null. A slot found is the time of one of the 96 turns that is tested and free while every time tested before it conflicts; null means every time tested in the 96 turns conflicts |
| RendezVousServiceModel.Step | src/main/java/com/mediclinic/service/RendezVousService.java:447-466 | Every turn moves the search strictly later |
| RendezVousServiceModel.Candidate | src/main/java/com/mediclinic/service/RendezVousService.java:444-466 | The time a turn starts from is never before the preferred start |
| RendezVousServiceModel.FirstFreeSound | src/main/java/com/mediclinic/service/RendezVousService.java:446-481 | The slot found lies after the preferred start, between 8:00 and 18:00 on a weekday, and has no conflict |
| RendezVousServiceModel.FirstFreeUnique | src/main/java/com/mediclinic/service/RendezVousService.java:446-481 | At most one turn is the first free one, so the slot returned is determined by the appointments |
| RendezVousServiceModel.AllConflictStep | src/main/java/com/mediclinic/service/RendezVousService.java:446-482 | Every tested time conflicting up to a turn, and the next turn's time conflicting or untested, extends to the next turn |
| RendezVousServiceModel.EarlyStartSkipsTheDay | src/main/java/com/mediclinic/service/RendezVousService.java:449-455 | A search from 07:00 tests nothing that day, moves to 08:00 of the next day and looks first at 08:30 there, so 08:00 is never tested after a move |
| RendezVousServiceModel.NotYetConsulted | src/main/java/com/mediclinic/service/RendezVousService.java:225-234 | While each recorded consultation belongs to a finished appointment and none is recorded twice, an unfinished appointment has no consultation |
| RendezVousServiceModel.FinishingKeepsConsultedOnce | src/main/java/com/mediclinic/service/RendezVousService.java:225-234 | Saving an appointment as TERMINE keeps every consultation on a finished appointment, and recording its consultation when it had none keeps one consultation per finished appointment |
| RendezVousServiceModel.FinishingTwiceFailsLate | src/main/java/com/mediclinic/service/RendezVousService.java:215-234 | As written, an appointment already TERMINE with its consultation passes the status check and is re-saved unchanged, and then the consultation step throws, with the save's RuntimeException when its patient is on record; the corrected guard rejects it |
| RendezVousServiceModel.TerminateGuards | src/main/java/com/mediclinic/service/RendezVousService.java:531-546 | The transition check lets TERMINE become TERMINE; the corrected guard accepts exactly the statuses that may become TERMINE other than TERMINE itself |
| QRCode.BuildQRData | src/main/java/com/mediclinic/service/QRCodeService.java:85-126 | The text is the header and the nine or ten `KEY:value` lines in order, each followed by a newline |
| QRCode.QrLinesShape | src/main/java/com/mediclinic/service/QRCodeService.java:88-123 | Line by line: the header, then ID, PATIENT, PATIENT_ID, MEDECIN with its `Dr. ` prefix, MEDECIN_ID, DATE, DATE_FIN and STATUS, and a tenth MOTIF line exactly when the reason is set and not empty |
| QRCode.PayloadStartsWithHeader | src/main/java/com/mediclinic/service/QRCodeService.java:88-131 | Every built payload starts with `MEDICLINIC_RDV`, so it passes the parser's guard |
| QRCode.GenerateQRData | src/main/java/com/mediclinic/service/QRCodeService.java:27-66 | A null appointment or one without id is an IllegalArgumentException; one missing its patient, doctor, dates or status fails with a NullPointerException; otherwise the encoded text is the built payload |
| QRCode.KeyOf | src/main/java/com/mediclinic/service/QRCodeService.java:147-176 | The `switch` label found names the key exactly, and no key is found exactly when no label matches |
| QRCode.KeyNamePlain | src/main/java/com/mediclinic/service/QRCodeService.java:143-147 | A key name has no colon and no surrounding blanks, so it reads back as itself |
| QRCode.ParseLinesStops | src/main/java/com/mediclinic/service/QRCodeService.java:141-179 | Once a line throws, the later lines change nothing: the parse fails with the first exception |
| QRCode.ParseQRCode | src/main/java/com/mediclinic/service/QRCodeService.java:128-182 | A null text or one without the header is an IllegalArgumentException; otherwise the result is the lines, split as `String.split` does, applied in order to empty data |
| QRCode.IgnoredLines | src/main/java/com/mediclinic/service/QRCodeService.java:142-177 | A line without a colon, or whose trimmed key is no label of the `switch`, leaves the data as it was |
| QRCode.SplitAtFirstColon | src/main/java/com/mediclinic/service/QRCodeService.java:143-145 | A `KEY:value` line with a trimmed value sets exactly that key's field to that value, whatever colons the value holds |
| QRCode.LinePlain | src/main/java/com/mediclinic/service/QRCodeService.java:89-123 | A line built from a value without newlines has no newline and is not empty |
| QRCode.RoundTrip | src/main/java/com/mediclinic/service/QRCodeService.java:85-182 | Parsing the built payload recovers the appointment, patient and doctor ids, the names (the doctor's with `Dr. `), both dates, the status and the reason when one was written, provided the ids fit a Java `long` and the texts have no newline or surrounding blanks |
| QRCode.StatusNamePlain | src/main/java/com/mediclinic/service/QRCodeService.java:119 | A status name has no newline and no surrounding blanks |
| QRCode.ParsePayloadLines | src/main/java/com/mediclinic/service/QRCodeService.java:141-179 | Applying the built lines themselves to empty data gives the recovered appointment data |
| QRCode.PayloadLinesKeyed | src/main/java/com/mediclinic/service/QRCodeService.java:89-123 | After the header, each built line is its key's name, a colon and its value |
| QRCode.PayloadValuePlain | src/main/java/com/mediclinic/service/QRCodeService.java:89-123 | Under the round-trip conditions every written value is plain |
| QRCode.PayloadLineNoBreak | src/main/java/com/mediclinic/service/QRCodeService.java:88-123 | Under the round-trip conditions no built line holds a newline, so splitting at newlines gives the lines back |
| QRCode.FillPayload | src/main/java/com/mediclinic/service/QRCodeService.java:147-176 | Setting the keys in payload order from their texts, with ids that parse as `long`, gives exactly those nine fields |
| QRCode.ParseKeyedLines | src/main/java/com/mediclinic/service/QRCodeService.java:141-179 | Parsing lines that are each a key, a colon and a trimmed value is setting those keys in order |
| QRCode.ParseLinesSkipsHeader | src/main/java/com/mediclinic/service/QRCodeService.java:141-142 | The header line has no colon and is skipped |
| QRCode.NullPatientIdDoesNotParse | src/main/java/com/mediclinic/service/QRCodeService.java:96-157 | A patient without id is written as `PATIENT_ID:null`, which the parser rejects with a NumberFormatException |
| Csv.UndoubleDoubled | src/main/java/com/mediclinic/service/CsvService.java:320 | Doubling every quote is undone by reading each pair of quotes as one |
| Csv.EscapeInvertible | src/main/java/com/mediclinic/service/CsvService.java:309-325 | Escaping a value is invertible: stripping the surrounding quotes of a quoted field and undoubling gives the value back |
| Csv.ReadEscapedField | src/main/java/com/mediclinic/service/CsvService.java:309-325 | Reading one escaped field, up to the next comma, gives the value back, and an empty field for null |
| Csv.ReadRowOfRow | src/main/java/com/mediclinic/service/CsvService.java:309-325 | A row joined with commas from escaped values splits back into exactly those values, null ones as empty fields, whatever commas, quotes or line breaks they hold |
| Csv.ExportPatients | src/main/java/com/mediclinic/service/CsvService.java:19-53 | The header, then one row per patient in order: id, last and first name, formatted birth date, phone, e-mail and address, empty when null |
| Csv.ExportDoctors | src/main/java/com/mediclinic/service/CsvService.java:55-84 | The header, then one row per doctor in order: id, names, speciality name, e-mail and phone, empty when null |
| Csv.ExportAppointments | src/main/java/com/mediclinic/service/CsvService.java:86-140 | The header, then one row per appointment in order: id, formatted bounds, patient and doctor names, reason, status name and duration in minutes, zero without both bounds |
| Csv.ExportConsultations | src/main/java/com/mediclinic/service/CsvService.java:254-307 | The header, then one row per consultation in order, the patient and doctor names being `N/A` without an appointment or without its patient or doctor |
| Csv.ExportInvoices | src/main/java/com/mediclinic/service/CsvService.java:142-174 | The header, then one row per invoice in order: id, formatted date, patient name, total as `String.valueOf` writes it (`null` when unset) and payment type |
| Csv.PatientValues | src/main/java/com/mediclinic/service/CsvService.java:30-48 | A patient row has one cell per header column |
| Csv.AppointmentValues | src/main/java/com/mediclinic/service/CsvService.java:104-135 | An appointment row has one cell per header column |
| Csv.ConsultationValues | src/main/java/com/mediclinic/service/CsvService.java:283-302 | A consultation row has one cell per header column |
| Csv.InvoiceValues | src/main/java/com/mediclinic/service/CsvService.java:151-169 | An invoice row has one cell per header column |
| CsvDetailed.InvoiceRows | src/main/java/com/mediclinic/service/CsvService.java:183-249 | An invoice without lines has one row with empty description and zeros; otherwise one row per line |
| CsvDetailed.LineRowsAt | src/main/java/com/mediclinic/service/CsvService.java:188-224 | Row j of an invoice is the row of its line j, with the invoice's id, date, patient and total repeated |
| CsvDetailed.DetailedFile | src/main/java/com/mediclinic/service/CsvService.java:179-181 | The detailed file starts with its header |
| CsvDetailed.PricesSetUpToAll | src/main/java/com/mediclinic/service/CsvService.java:188-191 | The loop's record of invoices whose lines all have a unit price means exactly that every line of each of those invoices has one |
| CsvDetailed.LineAmountAsWritten | src/main/java/com/mediclinic/service/CsvService.java:189-191 | As written, the line amount throws a NullPointerException exactly when the unit price is null, and otherwise is price times quantity |
| CsvDetailed.InvoiceRowsAsWritten | src/main/java/com/mediclinic/service/CsvService.java:184-224 | As written, an invoice's rows are complete exactly when every line has a unit price, and they are then the rows of the corrected export; otherwise they are the rows of the lines before the first unpriced one |
| CsvDetailed.FirstUnpriced | src/main/java/com/mediclinic/service/CsvService.java:188-191 | The index found is that of the first line without a unit price: every line before it has one, and it is the line count exactly when all have one |
| CsvDetailed.FirstUnpricedInvoice | src/main/java/com/mediclinic/service/CsvService.java:183-191 | The index found is that of the first invoice with an unpriced line: every invoice before it is fully priced, and it is the invoice count exactly when all are |
| CsvDetailed.WrittenBeforeThrow | src/main/java/com/mediclinic/service/CsvService.java:177-224 | The file left by a throwing export starts with the header |
| CsvDetailed.MontantText | src/main/java/com/mediclinic/model/LigneFacture.java:105-117 | The amount text is the price times the quantity at two decimals, or `0` without a price |
| CsvDetailed.LineRowsAsWritten | src/main/java/com/mediclinic/service/CsvService.java:188-223 | As written, the inner loop prints the rows of the lines before the first one without a unit price, and finishes exactly when every line has one |
| CsvDetailed.LineRowsSnoc | src/main/java/com/mediclinic/service/CsvService.java:188-223 | Printing line j's row after the rows of the lines before it gives the rows of the first j + 1 lines |
| CsvDetailed.ThrownAt | src/main/java/com/mediclinic/service/CsvService.java:183-224 | When invoice i is the first with an unpriced line, the header, the earlier invoices' rows and its rows up to that line are the file the throwing export leaves |
| CsvDetailed.LineRowAsWritten | src/main/java/com/mediclinic/service/CsvService.java:189-223 | As written, one line's row is printed exactly when it has a unit price |
| CsvDetailed.ExportDetailedAsWritten | src/main/java/com/mediclinic/service/CsvService.java:176-252 | As written, the export always prints the header first and completes exactly when every line of every invoice has a unit price; otherwise it throws a NullPointerException and the file holds the header, the rows of the invoices before the failing one and that invoice's rows before its first unpriced line |
| CsvDetailed.NullPriceThrows | src/main/java/com/mediclinic/service/CsvService.java:189-191 | One line without a unit price anywhere in the list makes the export throw |
| CsvDetailed.NullPriceExample | src/main/java/com/mediclinic/service/CsvService.java:189-191 | An invoice with a single line without a unit price is such an input |
| CsvDetailed.ExportInvoicesDetailed | src/main/java/com/mediclinic/service/CsvService.java:176-252 | The export on the invoice objects, as written: complete when every line has a price, otherwise a NullPointerException with the file written up to the first unpriced line |
| CsvDetailed.InvoiceRowsNullSafe | src/main/java/com/mediclinic/service/CsvService.java:183-249 | Corrected: an invoice's rows take each line amount as `getMontantLigne` does, printed `0` without a price |
| CsvDetailed.ExportDetailedNullSafe | src/main/java/com/mediclinic/service/CsvService.java:176-252 | Corrected: the export always completes, with the header and every invoice's rows in order |
| CsvDetailed.ExportInvoicesDetailedNullSafe | src/main/java/com/mediclinic/service/CsvService.java:176-252 | The corrected export on the invoice objects |
| CsvDetailed.DataOfAllEach | src/main/java/com/mediclinic/service/CsvService.java:183 | The values read for invoice i come from invoice i |
| Invoice.TotalOfAppend | src/main/java/com/mediclinic/model/Facture.java:154-159 | Appending a line to the reduction adds exactly its amount to the total |
| Invoice.TotalOfConcat | src/main/java/com/mediclinic/model/Facture.java:154-159 | The total of two lists of lines joined is the sum of their totals |
| Invoice.TotalOfNonNegative | src/main/java/com/mediclinic/model/Facture.java:154-159 | Lines with no negative price or quantity have a total that is not negative |
| Invoice.LigneFacture.Default | src/main/java/com/mediclinic/model/LigneFacture.java:39-42 | A default line has quantity 1, unit price zero, no amount computed yet and no invoice |
| Invoice.LigneFacture.constructor | src/main/java/com/mediclinic/model/LigneFacture.java:44-50 | The four-argument constructor keeps its arguments and computes the amount: price times quantity, zero without a price |
| Invoice.LigneFacture.SetFacture | src/main/java/com/mediclinic/model/LigneFacture.java:66-68 | Only the back reference to the invoice changes |
| Invoice.LigneFacture.SetPrixUnitaire | src/main/java/com/mediclinic/model/LigneFacture.java:82-85 | The price is replaced and the cached amount recomputed from the new price and the kept quantity |
| Invoice.LigneFacture.SetQuantite | src/main/java/com/mediclinic/model/LigneFacture.java:91-94 | The quantity is replaced and the cached amount recomputed from the kept price and the new quantity |
| Invoice.LigneFacture.SetMontantLigne | src/main/java/com/mediclinic/model/LigneFacture.java:96-98 | Only the cached amount changes, to whatever is given |
| Invoice.LigneFacture.CalculerMontant | src/main/java/com/mediclinic/model/LigneFacture.java:105-111 | The cached amount becomes price times quantity, or zero when the price is null, and nothing else changes |
| Invoice.LigneFacture.GetMontantLigne | src/main/java/com/mediclinic/model/LigneFacture.java:113-117 | The amount returned is always freshly computed from price and quantity, whatever was cached, and is cached again |
| Invoice.RemoveAbsent | src/main/java/com/mediclinic/model/Facture.java:146-147 | Removing a line the invoice does not hold leaves the list as it was |
| Invoice.RemoveFirstAt | src/main/java/com/mediclinic/model/Facture.java:146-147 | `List.remove` drops exactly the first occurrence of the line and keeps the rest in order |
| Invoice.TotalOfRemoveAt | src/main/java/com/mediclinic/model/Facture.java:154-159 | Dropping one line subtracts exactly its amount from the total |
| Invoice.AppendTotal | src/main/java/com/mediclinic/model/Facture.java:140-159 | After `addLigne` the recomputed total grows by exactly the new line's amount |
| Invoice.RemoveFirstTotal | src/main/java/com/mediclinic/model/Facture.java:146-159 | After `removeLigne` of a held line the recomputed total falls by exactly that line's amount |
| Invoice.RemoveAtTotal | src/main/java/com/mediclinic/model/Facture.java:146-159 | Removing the line at any position lowers the total by that line's amount |
| Invoice.Facture.constructor | src/main/java/com/mediclinic/model/Facture.java:58-63 | A new invoice is dated today, unpaid, with total zero, no lines, no patient and no payment type |
| Invoice.Facture.ForAppointment | src/main/java/com/mediclinic/model/Facture.java:65-72 | The same, for the given patient and appointment |
| Invoice.Facture.CalculerMontantTotal | src/main/java/com/mediclinic/model/Facture.java:154-159 | The total becomes the sum of the lines' amounts, and each line's cached amount is refreshed |
| Invoice.Facture.AddLigne | src/main/java/com/mediclinic/model/Facture.java:140-144 | The line is appended, points back to the invoice, and the total is the sum over the new list |
| Invoice.Facture.RemoveLigne | src/main/java/com/mediclinic/model/Facture.java:146-150 | The first occurrence of the line is removed (nothing when absent), its back reference is cleared, and the total is the sum over the remaining lines |
| Facturation.FirstRejectionAccepted | src/main/java/com/mediclinic/service/FacturationService.java:42-50 | The amount checks pass exactly when every line has no negative price and no negative quantity, and a failure is one of those two reasons |
| Facturation.NullPriceAccepted | src/main/java/com/mediclinic/service/FacturationService.java:44 | A line without a unit price passes the checks whenever its quantity is not negative |
| Facturation.CheckLines | src/main/java/com/mediclinic/service/FacturationService.java:42-50 | The validation loop stops at the first line with a negative price, checked before its quantity, and reports that reason |
| Facturation.Assemble | src/main/java/com/mediclinic/service/FacturationService.java:58-69 | The new invoice is for the patient, dated today, unpaid, holds exactly the given lines in order, each pointing back to it, with the sum of their amounts as total; no price or quantity changes |
| Facturation.FacturationService.constructor | src/main/java/com/mediclinic/service/FacturationService.java:20-25 | The service starts with no invoices over the given patients |
| Facturation.FacturationService.CreerFacture | src/main/java/com/mediclinic/service/FacturationService.java:35-74 | It is rejected exactly when the checks fail, in order: no lines, a negative price or quantity, an unknown patient; a rejection changes nothing. Otherwise the invoice is assembled from the lines; when the database accepts it, a copy is stored under a new id and holds it, while the invoice returned is the assembled one, without an id; when the database refuses it, the save's RuntimeException reaches the caller and nothing is stored, though the lines already point to the unsaved invoice |
| Facturation.FacturationService.Enregistrer | src/main/java/com/mediclinic/service/FacturationService.java:58-73 | The invoice is assembled in every case; when the database accepts it, saving stores under the next id a new copy that carries that id, and nothing else; when it refuses it, nothing is stored; the assembled invoice keeps no id |
| Facturation.FacturationService.Validate | src/main/java/com/mediclinic/service/FacturationService.java:37-56 | The validation steps give exactly the first failing reason of `CreationCheck`, in the source's order |
| Facturation.Merge | src/main/java/com/mediclinic/dao/AbstractDAO.java:27-32 | `merge` of a new invoice gives a new object with the generated id and every other field of the argument, and leaves the argument as it was |
| Facturation.FacturationService.MarquerCommePayee | src/main/java/com/mediclinic/service/FacturationService.java:79-95 | An unknown invoice is an IllegalArgumentException, an already paid one an IllegalStateException, and then nothing changes; otherwise only that invoice becomes paid with the given payment type |
| Permissions.AllowedPages | src/main/java/com/mediclinic/util/PermissionChecker.java:67-83 | Every role sees the dashboard, patients and agenda pages; only the administrator sees the users and doctors pages |
| Permissions.LowerOfUpper | src/main/java/com/mediclinic/util/PermissionChecker.java:20 | Lower-casing an upper-cased page name gives the lower-cased name |
| Permissions.LowerOfLower | src/main/java/com/mediclinic/util/PermissionChecker.java:20 | Lower-casing is idempotent |
| Permissions.PageCaseInsensitive | src/main/java/com/mediclinic/util/PermissionChecker.java:14-21 | Access to a page does not depend on the case the page name is written in |
| Permissions.NullDenied | src/main/java/com/mediclinic/util/PermissionChecker.java:15-17 | A null role or a null page is always denied |
| Permissions.AdminSeesAll | src/main/java/com/mediclinic/util/PermissionChecker.java:14-83 | Any page some role may open, the administrator may open too, and the users and doctors pages are the administrator's alone |
| Permissions.RoleListed | src/main/java/com/mediclinic/util/PermissionChecker.java:35-39 | The loop over the required roles finds the user's role exactly when it is listed |
| Permissions.RequireRole | src/main/java/com/mediclinic/util/PermissionChecker.java:27-43 | It returns exactly when a user is logged in with one of the listed roles, and otherwise throws IllegalStateException |
| Permissions.HasAnyRole | src/main/java/com/mediclinic/util/PermissionChecker.java:48-62 | True exactly when a user is logged in with one of the listed roles |
| Permissions.RequireRoleIffHasAnyRole | src/main/java/com/mediclinic/util/PermissionChecker.java:27-62 | `requireRole` passes exactly when `hasAnyRole` is true for the same roles |
| Permissions.HasAnyRoleAgrees | src/main/java/com/mediclinic/util/PermissionChecker.java:48-62 | The checker's `hasAnyRole` agrees with the session's own `hasAnyRole` |
| Permissions.ActionsByRole | src/main/java/com/mediclinic/util/PermissionChecker.java:88-114 | Without a session nothing is allowed; the administrator may do everything, and only the administrator may do anything but read, view, create or edit |
| Permissions.DoctorAndSecretary | src/main/java/com/mediclinic/util/PermissionChecker.java:101-111 | A doctor may do exactly the read and view actions on any resource; a secretary may only create, edit or read patients, appointments and invoices |
| Session.HasAnyRoleIffSome | src/main/java/com/mediclinic/util/UserSession.java:50-61 | A user has any of the roles exactly when it has one of them, in the sense of `hasRole` |
| Session.UserSession.constructor | src/main/java/com/mediclinic/util/UserSession.java:8 | There is no session at start |
| Session.UserSession.SetInstance | src/main/java/com/mediclinic/util/UserSession.java:15-20 | A null user is an IllegalArgumentException and keeps the session; otherwise the user's session replaces it and the user is authenticated |
| Session.UserSession.GetInstance | src/main/java/com/mediclinic/util/UserSession.java:22-27 | Without a session it throws IllegalStateException; otherwise it returns the logged-in user |
| Session.UserSession.GetMedecinId | src/main/java/com/mediclinic/util/UserSession.java:66-74 | Null exactly when nobody is logged in or the user has no associated doctor; otherwise that doctor's id |
| Session.UserSession.Clean | src/main/java/com/mediclinic/util/UserSession.java:83-85 | After `clean` nobody is authenticated or logged in |
| Reminder.ShouldSendReminder | src/main/java/com/mediclinic/service/AppointmentReminderService.java:95-133 | A reminder is due exactly for an appointment with a start, PLANIFIE or CONFIRME, whose patient has a non-blank e-mail, starting between now and the window end, both included |
| Reminder.CheckAndSendReminders | src/main/java/com/mediclinic/service/AppointmentReminderService.java:60-93 | Exactly the due appointments are reminded, in their order, and the count sent is their number, at most the number of appointments |
| Reminder.RemindedUntilStart | src/main/java/com/mediclinic/service/AppointmentReminderService.java:67-130 | An appointment due for a reminder at one check stays due at every later check up to its start |
| Reminder.NeverReminded | src/main/java/com/mediclinic/service/AppointmentReminderService.java:100-109 | An appointment without a start, or cancelled or finished, is never reminded |
| Dashboard.AppointmentsForDateRange | src/main/java/com/mediclinic/service/DashboardService.java:140-150 | Exactly the appointments starting within [start, end], both bounds included, are kept, and no more than were given |
| Dashboard.MonthlyRevenue | src/main/java/com/mediclinic/service/DashboardService.java:155-167 | The revenue fails with a NullPointerException exactly when a paid invoice dated within the month has a null total; otherwise it is the sum of the totals of the paid invoices dated within the month |
| Dashboard.UncountedAddNothing | src/main/java/com/mediclinic/service/DashboardService.java:158-164 | An unpaid invoice, or one dated outside the month, does not change the revenue |
| Dashboard.Distinct | src/main/java/com/mediclinic/service/DashboardService.java:99-102 | `distinct()` keeps each value once, every value present, and no more values than given |
| Dashboard.UniquePatients | src/main/java/com/mediclinic/service/DashboardService.java:99-102 | The number of distinct patients of the day is at most the number of appointments and at least one when there are any |
| Dashboard.GetDashboardStats | src/main/java/com/mediclinic/service/DashboardService.java:30-135 | No session, or a doctor without a doctor profile, is an IllegalStateException; the administrator sees patient, doctor and unpaid counts, today's appointments and the paid revenue of the month, and fails exactly when the revenue does; a doctor sees only the day's own appointments and distinct patients, at most that many; a secretary sees today's appointments and unpaid invoices |
| Regex.MatchLength | src/main/java/com/mediclinic/service/PatientService.java:27-32 | A string the anchored pattern matches is no shorter than the sum of the minimum repeats and, when every item is bounded, no longer than the sum of the maximums |
| Regex.MatchChars | src/main/java/com/mediclinic/service/PatientService.java:27-32 | Every character of a matched string belongs to one of the pattern's classes |
| Regex.MatchEnd | src/main/java/com/mediclinic/service/PatientService.java:27-32 | When the last item must occur, a matched string is not empty and ends with a character of its class |
| Regex.MatchCons | src/main/java/com/mediclinic/service/PatientService.java:27-32 | A piece of allowed length made of the first item's characters, followed by a match of the rest, matches the whole pattern |
| Patients.EmailClasses | src/main/java/com/mediclinic/service/PatientService.java:27-29 | No class of the e-mail pattern admits a blank character, and none after the local part admits `@` |
| Patients.EmailShape | src/main/java/com/mediclinic/service/PatientService.java:27-29 | A valid e-mail has at least six characters, ends with a letter, holds exactly one `@` and it is not first, and has no blank character |
| Patients.PhoneClasses | src/main/java/com/mediclinic/service/PatientService.java:30-32 | A character the phone pattern admits is a digit, `+`, a bracket, `-`, `.` or a blank |
| Patients.PhoneShape | src/main/java/com/mediclinic/service/PatientService.java:30-32 | A valid phone number has 3 to 24 characters, ends with a digit and uses only the phone characters |
| Patients.FormatsImplyContact | src/main/java/com/mediclinic/service/PatientService.java:42-89 | An e-mail and a phone number that pass the format checks also pass the presence check, which therefore never rejects on its own a patient the format checks accept |
| Patients.EmailOf | src/main/java/com/mediclinic/service/PatientService.java:27-29 | Any non-empty local part, `@`, non-empty domain, `.` and an ending of at least two letters is a valid e-mail |
| Patients.EmailCounterExamples | src/main/java/com/mediclinic/service/PatientService.java:27-29 | A text without `@`, or shorter than six characters, is not a valid e-mail |
| Patients.CreationCheckPassed | src/main/java/com/mediclinic/service/PatientService.java:40-64 | A patient that passes the checks has an e-mail and phone in the right formats, an e-mail no stored patient uses, and no birth date after today |
| Patients.PatientService.constructor | src/main/java/com/mediclinic/service/PatientService.java:20-24 | The service starts with no patients and no medical records |
| Patients.PatientService.CreatePatient | src/main/java/com/mediclinic/service/PatientService.java:40-80 | A refusal happens exactly when a check fails, for the first failing reason in the source's order, and changes nothing; otherwise the patient row is stored under a fresh id. When the database accepts the medical record, a fresh record points to that patient, the stored row refers to it, and the caller gets back its own object, without the id; when it does not, no record is stored and the call throws |
| Patients.PatientService.Save | src/main/java/com/mediclinic/service/PatientService.java:66-79 | The patient row is stored under the next id and, when accepted, a new record under the next record id that the row then refers to; the object returned is the argument |
| Patients.PatientService.GetDossier | src/main/java/com/mediclinic/service/PatientService.java:140-143 | A missing or unknown patient has no record; a record found is the one the stored patient refers to |
| Patients.PatientService.DeletePatient | src/main/java/com/mediclinic/service/PatientService.java:109-123 | An unknown patient is an IllegalArgumentException, one with appointments an IllegalStateException, and one still referred to by an invoice the RuntimeException of the refused delete (the invoice's `patient_id` cannot become dangling), and then nothing changes; it succeeds exactly otherwise, and then exactly that patient is removed, with its medical record |
| Patients.PatientService.GetDossierMatchesRecords | src/main/java/com/mediclinic/service/PatientService.java:140-143 | The record reached through a stored patient is exactly the record whose patient is that patient |
| Signatures.IntCast | src/main/java/com/mediclinic/service/SignatureService.java:303-304 | Java's `(int)` cast of a `double` truncates toward zero |
| Signatures.ValidateSignatureBounds | src/main/java/com/mediclinic/service/SignatureService.java:297-326 | A signature is valid exactly when it is present with a reported width in [50, 2001) and height in [20, 1001), because the cast truncates |
| Signatures.ValidNotEmpty | src/main/java/com/mediclinic/service/SignatureService.java:297-356 | A null signature is empty and invalid, and a valid signature is never empty |
| Signatures.SignatureFileName | src/main/java/com/mediclinic/service/SignatureService.java:333-336 | The file name is `medecin_`, the id as `String` concatenation writes it, and `.png` |
| Signatures.FileNamesDistinct | src/main/java/com/mediclinic/service/SignatureService.java:333-336 | Two doctors never share a signature file |
| Signatures.SignatureFilePath | src/main/java/com/mediclinic/service/SignatureService.java:220-222 | The path is the working directory, `signatures` and the file name |
| Signatures.SignatureService.constructor | src/main/java/com/mediclinic/service/SignatureService.java:44-47 | The signatures directory starts empty |
| Signatures.SignatureService.SaveSignature | src/main/java/com/mediclinic/service/SignatureService.java:76-131 | It succeeds exactly with an id, an image and a working writer, and then the doctor's file holds that image and loads back as it; otherwise nothing changes |
| Signatures.SignatureService.LoadSignature | src/main/java/com/mediclinic/service/SignatureService.java:138-172 | An image is returned exactly when the id is set, the doctor's file exists and the reader succeeds, and it is the stored image |
| Signatures.SignatureService.DeleteSignature | src/main/java/com/mediclinic/service/SignatureService.java:255-290 | A null id fails; a missing file counts as success; otherwise the result is whether the deletion worked, and the file is gone exactly then; after success the doctor has no signature |
| Signatures.OtherDoctorsUntouched | src/main/java/com/mediclinic/service/SignatureService.java:333-336 | Saving or deleting one doctor's signature leaves every other doctor's file as it was |
| Pagination.TotalPages | src/main/java/com/mediclinic/controller/PatientController.java:281 | The page count is the fewest pages of twenty that hold every patient; it is zero exactly for an empty list |
| Pagination.ClampPage | src/main/java/com/mediclinic/controller/PatientController.java:284-289 | The page is at least 1 and at most the page count; a page already in range is kept, one past the end becomes the last page |
| Pagination.PageItems | src/main/java/com/mediclinic/controller/PatientController.java:292-301 | A page holds at most twenty rows, exactly the patients from position `(page-1)*20` on, in order, and nothing when it starts past the end |
| Pagination.PageOf | src/main/java/com/mediclinic/controller/PatientController.java:279-302 | Every patient lies on exactly one page, `i/20 + 1`, which exists, and appears there at position `i mod 20` |
| Pagination.DisplayedPages | src/main/java/com/mediclinic/controller/PatientController.java:304-310 | The page label shows the page count, or 1 when the list is empty |
| Pagination.SearchHit | src/main/java/com/mediclinic/controller/PatientController.java:439-448 | The only failure the search test can raise is a null-pointer error |
| Pagination.SearchHitMeaning | src/main/java/com/mediclinic/controller/PatientController.java:439-448 | A patient matches exactly when the name or the e-mail contains the text ignoring case, or the telephone contains it; the test throws exactly when the name does not match and either the e-mail is null or it does not match and the telephone is null |
| Pagination.PatientController.constructor | src/main/java/com/mediclinic/controller/PatientController.java:262-277 | After loading, the whole list is shown from page 1 and the table, label and buttons agree with it |
| Pagination.PatientController.UpdateTableWithPagination | src/main/java/com/mediclinic/controller/PatientController.java:279-302 | The current page is pulled into range and the table shows that page's rows |
| Pagination.PatientController.UpdatePagination | src/main/java/com/mediclinic/controller/PatientController.java:304-326 | The label shows the displayed page count; First and Previous are disabled exactly on page 1 or below, Next and Last exactly on the last displayed page or beyond |
| Pagination.PatientController.HandleFirstPage | src/main/java/com/mediclinic/controller/PatientController.java:377-381 | Goes to page 1, keeps the lists and leaves the screen consistent |
| Pagination.PatientController.HandlePrevPage | src/main/java/com/mediclinic/controller/PatientController.java:384-390 | Goes back one page unless already on page 1, keeps the lists and leaves the screen consistent |
| Pagination.PatientController.HandleNextPage | src/main/java/com/mediclinic/controller/PatientController.java:393-402 | Goes forward one page unless already on the last, keeps the lists and leaves the screen consistent |
| Pagination.PatientController.HandleLastPage | src/main/java/com/mediclinic/controller/PatientController.java:405-412 | Goes to the last page, page 1 for an empty list, keeps the lists and leaves the screen consistent |
| Pagination.PatientController.FilterPatients | src/main/java/com/mediclinic/controller/PatientController.java:432-458 | A null or empty text shows every patient; otherwise the list becomes the matching patients; either way the page goes back to 1; the call throws exactly when some patient's test throws, and then nothing on screen changes |
| Pagination.SearchAll | src/main/java/com/mediclinic/controller/PatientController.java:437-451 | The search loop throws exactly when some patient's test throws, and otherwise keeps exactly the matching patients in order |
| Pagination.DisabledIffStuck | src/main/java/com/mediclinic/controller/PatientController.java:318-402 | A button is disabled exactly when pressing it would not change the page |
| Pagination.SearchResultSound | src/main/java/com/mediclinic/controller/PatientController.java:437-451 | Every search result is a patient of the list that matches, every matching patient is a result, and the result is no longer than the list |
| Billing.PaidCount | src/main/java/com/mediclinic/controller/BillingController.java:322-334 | The paid count is at most the number of invoices considered |
| Billing.UnpaidCount | src/main/java/com/mediclinic/controller/BillingController.java:322-334 | Paid and unpaid counts add up to the number of invoices |
| Billing.RevenueNonNegative | src/main/java/com/mediclinic/controller/BillingController.java:321-334 | With non-negative totals the revenue of the paid invoices is non-negative, and zero when none is paid |
| Billing.RoundHalfUp | src/main/java/com/mediclinic/controller/BillingController.java:340-346 | `BigDecimal.divide(.., 2, HALF_UP)` in cents: the quotient is the nearest one, a tie goes away from zero, and it has the sign of the dividend |
| Billing.UpdateStatistics | src/main/java/com/mediclinic/controller/BillingController.java:317-352 | The statistics are the paid and unpaid counts, which add up to the number of invoices, the revenue of the paid ones and their average rounded half up, zero when none is paid |
| Billing.ShownByStatus | src/main/java/com/mediclinic/controller/BillingController.java:266-280 | The "Payée" filter keeps exactly the paid invoices, "En attente" exactly the unpaid, and every other choice, null included, keeps all |
| Billing.ShownByDate | src/main/java/com/mediclinic/controller/BillingController.java:281-302 | Given both dates, an undated invoice is kept and a dated one exactly when its date lies in the range |
| Billing.FilterInvoices | src/main/java/com/mediclinic/controller/BillingController.java:261-315 | The filtered list holds exactly the invoices that pass the status and date tests, and no more than there were |
| Billing.SearchInvoices | src/main/java/com/mediclinic/controller/BillingController.java:913-934 | A null or blank text shows the whole list; otherwise exactly the invoices whose patient's name contains the text ignoring case |
| Billing.FoundAmong | src/main/java/com/mediclinic/controller/BillingController.java:918-930 | The search keeps exactly the invoices whose patient matches |
| Billing.SearchIgnoresCase | src/main/java/com/mediclinic/controller/BillingController.java:922-928 | Upper-casing the search text does not change which invoices are found |
| Billing.BillingController.constructor | src/main/java/com/mediclinic/controller/BillingController.java:245-259 | After loading, the list and the table hold every invoice |
| Billing.BillingController.HandleFilter | src/main/java/com/mediclinic/controller/BillingController.java:261-315 | The list and the table become the filtered invoices |
| Billing.BillingController.HandleSearch | src/main/java/com/mediclinic/controller/BillingController.java:913-934 | The table shows the search result over the current list; a blank text shows the whole list |
| Billing.DatedWithin | src/main/java/com/mediclinic/controller/BillingController.java:994-1005 | The report keeps exactly the dated invoices whose date lies in the range |
| Billing.ReportInvoices | src/main/java/com/mediclinic/controller/BillingController.java:976-1005 | The report and the export refuse exactly a missing date or a start after the end, and otherwise select the invoices dated within the range |
| Billing.ReportWithinScreen | src/main/java/com/mediclinic/controller/BillingController.java:994-1005 | Every invoice in the report also passes the screen's date filter, but an undated invoice passes the screen's filter and is left out of the report |
| Time.Hour | src/main/java/com/mediclinic/service/RendezVousService.java:450 | The hour of a date-time lies between 0 and 23 |
| Time.DayOfWeekOfDate | src/main/java/com/mediclinic/service/RendezVousService.java:458 | The day of the week is numbered from 1 (Monday) to 7 |
| Time.DayOfWeek | src/main/java/com/mediclinic/service/RendezVousService.java:458 | The day of the week of a date-time is numbered from 1 to 7 |
| Time.AtTimeFields | src/main/java/com/mediclinic/service/RendezVousService.java:453-464 | A date at a given valid time falls on that date, at that hour and on that day of the week |
| Time.DayBounds | src/main/java/com/mediclinic/service/DashboardService.java:58-59 | Every instant lies between the start and the end of its own day |
| Time.ToMinutes | src/main/java/com/mediclinic/service/CsvService.java:98 | Whole minutes of a duration, truncated toward zero for either sign |
| Entities.NomComplet | src/main/java/com/mediclinic/model/Patient.java:138-140 | The full name is the first name, a space, then the last name, with the length of the three together |
| Configuration.EnvKey | src/main/java/com/mediclinic/util/ConfigurationManager.java:56 | The environment key has the property key's length, with every `.` turned into `_` and every letter upper-cased |
| Configuration.EnvKeyShape | src/main/java/com/mediclinic/util/ConfigurationManager.java:56 | An environment key holds no dot and no lower-case letter, and keeps every other character where it was |
| Configuration.EnvKeyCollides | src/main/java/com/mediclinic/util/ConfigurationManager.java:56-57 | Two property keys read the same environment variable exactly when they have the same length and agree character by character up to case and dot versus underscore |
| Configuration.Lookup | src/main/java/com/mediclinic/util/ConfigurationManager.java:63 | A lookup finds a value exactly for a key present in the properties, and then the stored value |
| Configuration.LoadFile | src/main/java/com/mediclinic/util/ConfigurationManager.java:34-47 | A missing resource changes nothing; a loaded one adds its keys, its values replacing earlier ones and every other value kept |
| Configuration.LocalOverridesDefaults | src/main/java/com/mediclinic/util/ConfigurationManager.java:28-53 | After loading, a key of `application-local.properties` has its local value, another key of `application.properties` its default value, and any other key its earlier value |
| Configuration.ConfigurationManager.constructor | src/main/java/com/mediclinic/util/ConfigurationManager.java:12-15 | A new manager holds exactly the defaults file overridden by the local file |
| Configuration.ConfigurationManager.LoadProperties | src/main/java/com/mediclinic/util/ConfigurationManager.java:28-53 | The properties become the earlier ones overridden by the defaults file and then by the local file |
| Configuration.ConfigurationManager.Reload | src/main/java/com/mediclinic/util/ConfigurationManager.java:119-122 | After a reload the properties are those of a fresh manager: the earlier ones are forgotten |
| Configuration.ConfigurationManager.GetProperty | src/main/java/com/mediclinic/util/ConfigurationManager.java:55-64 | A non-empty environment value wins; otherwise the property's value, or null when there is none |
| Configuration.ConfigurationManager.GetPropertyOr | src/main/java/com/mediclinic/util/ConfigurationManager.java:66-69 | The default is returned exactly when the lookup finds nothing; otherwise the value found |
| Configuration.ConfigurationManager.GetIntProperty | src/main/java/com/mediclinic/util/ConfigurationManager.java:71-81 | A value that parses as a 32-bit decimal integer is that integer; a missing or unparsable value gives the default |
| Configuration.ConfigurationManager.GetBooleanProperty | src/main/java/com/mediclinic/util/ConfigurationManager.java:83-89 | A missing value gives the default; a present one is true exactly when it is "true" in any case |
| Configuration.ConfigurationManager.SmtpDefaults | src/main/java/com/mediclinic/util/ConfigurationManager.java:99-117 | With no mail setting anywhere, the host and trusted host are `smtp.gmail.com`, the port 587, and authentication and STARTTLS are on |
| Configuration.ConfigurationManager.SmtpPortRoundTrip | src/main/java/com/mediclinic/util/ConfigurationManager.java:71-105 | A port written in decimal within `int` range is read back as that number |
| Libcamera.StopAsWritten | scripts/libcamera_preview.py:132-207 | `stop` as written: no child means only the file cleanup; a live child is sent SIGTERM, then SIGKILL if it does not exit, then the file is removed, unless its group is already gone, when `stop` returns before the cleanup; a child already waited for gets `kill -9` on its stale pid; the process handle is kept |
| Libcamera.StopTwiceKillsStalePid | scripts/libcamera_preview.py:248-310 | A second `stop` after a first that signalled the group runs `kill -9` on the stale pid |
| Libcamera.Stop | scripts/libcamera_preview.py:132-207 | The corrected `stop` does what the script's does and then forgets the child |
| Libcamera.StopIdempotent | scripts/libcamera_preview.py:132-207 | A second corrected `stop` only removes the file, if it is still there, and signals nothing |
| Libcamera.StopOrder | scripts/libcamera_preview.py:138-207 | SIGKILL comes only second, right after a SIGTERM to the same group that did not end it; the file removal comes last; with no child only the file is removed |
| Libcamera.StopSignals | scripts/libcamera_preview.py:132-207 | After stopping, every signal the script has sent went to its own child's process group |
| Libcamera.Tick | scripts/libcamera_preview.py:100-124 | One poll adds at most one frame, keeps the no-change counter within 100 and keeps every line already printed |
| Libcamera.TickCases | scripts/libcamera_preview.py:102-121 | A missing file changes nothing; a new modification time counts a frame, resets the counter and reports the frame at multiples of 20; an unchanged one warns and resets after more than 100 polls, and otherwise counts up |
| Libcamera.TickReports | scripts/libcamera_preview.py:112-114 | A frame report is printed for the new count and only at a multiple of 20 |
| Libcamera.TicksInvariant | scripts/libcamera_preview.py:96-130 | Over any run of polls the frame count never falls, the counter stays within 100, earlier lines stay, and every report is a multiple of 20 within the frames counted |
| Libcamera.FramesAreChanges | scripts/libcamera_preview.py:105-110 | The frame count grows by exactly the number of polls that saw a new modification time |
| Libcamera.LibcameraPreview.constructor | scripts/libcamera_preview.py:21-28 | A new preview is not running, has no child, no frames, a zero modification time and no shutdown request |
| Libcamera.LibcameraPreview.StopPreview | scripts/libcamera_preview.py:132-207 | Stopping sets the stop flags, performs the corrected stop's actions and leaves the frame state alone |
| Libcamera.LibcameraPreview.Start | scripts/libcamera_preview.py:30-94 | Starting succeeds exactly when the pipeline launches and the file is there after the warm-up; a failure after launch prints the error and stops the child, a launch failure prints the error and only cleans up |
| Libcamera.LibcameraPreview.MonitorFrames | scripts/libcamera_preview.py:96-130 | The loop follows the polls until a stop request, an exception, when it prints the error, or a signal; it ends with the stop line and the frame count, or on a signal with the interrupt line after a stop (the corrected stop) |
| Libcamera.LibcameraPreview.OnSignal | scripts/libcamera_preview.py:248-260 | A signal stops the preview (with the corrected stop) and prints `PREVIEW_INTERRUPTED` |
| Libcamera.RunPreview | scripts/libcamera_preview.py:263-310 | The exit status is 0 exactly when the preview started; in every case the child is gone at the end, every signal went to the script's own child (with the corrected stop), and a failure to start ends with its error line |
| Gstreamer.CaptureFrame | scripts/gstreamer_preview.py:14-43 | A capture succeeds exactly when the command exits with status 0; only a launch failure prints an error |
| Gstreamer.TurnsInvariant | scripts/gstreamer_preview.py:60-96 | While the loop runs, it has met no interrupt, the frame count is the number of successes and the error count stays below five and counts the failures since the last success |
| Gstreamer.FiveFailuresStop | scripts/gstreamer_preview.py:75-95 | `j` failures in a row leave the loop stopped or with at least `j` errors, so five stop it |
| Gstreamer.StoppedStays | scripts/gstreamer_preview.py:60-96 | Once the loop has broken out, later attempts change nothing |
| Gstreamer.TurnOutput | scripts/gstreamer_preview.py:64-96 | One turn keeps the lines printed before it, never lowers the frame count, and reports a frame only for the count it reached at a multiple of ten; a successful capture counts one more frame and, when that count is a multiple of ten, prints exactly its FRAME line, while any other attempt counts no frame |
| Gstreamer.TurnsOutput | scripts/gstreamer_preview.py:58-96 | The output starts with `PREVIEW_STARTING` and reports frames only at multiples of ten, never beyond the frames counted |
| Gstreamer.TurnsReportEveryTenth | scripts/gstreamer_preview.py:64-74 | Conversely, every multiple of ten up to the frames counted has its FRAME line in the output: the status is printed every ten frames |
| Gstreamer.PreviewLoop | scripts/gstreamer_preview.py:58-99 | The preview loop's frames, stop flag and output are those of the turn-by-turn definition, followed by the stop line and the total once it breaks out |
| Gstreamer.BreakTurn | scripts/gstreamer_preview.py:60-96 | A stopped loop broke out at one turn, on an interrupt or at exactly five errors in a row, and has not changed since |
| Common.ParseIntegerOfIntToString | src/main/java/com/mediclinic/util/ConfigurationManager.java:75 | `Integer.parseInt` reads back any integer within the bounds from its decimal text |
| Common.JavaSplitJoinLines | src/main/java/com/mediclinic/service/QRCodeService.java:139 | `String.split` on the separator gives back lines joined by it, when no line contains it and the last is not empty |
| Common.BlankIffAllTrimmable | src/main/java/com/mediclinic/controller/BillingController.java:915 | `trim().isEmpty()` holds exactly for a string made only of characters `trim` removes |
| Common.SortedFilter | src/main/java/com/mediclinic/dao/RendezVousDAO.java:25 | A filtered query keeps exactly the rows that pass, each as often as stored, in ascending order of the key |

## Left out

- JavaFX screens, dialogs, table cells and label texts: only the state `PatientController` and `BillingController` keep (list, page, table, buttons, statistics) is modelled.
- `Medecin.id` is a plain integer: a doctor whose `Long` id is null, for which `getId().equals` throws a NullPointerException in `isOverlap` and the booking checks, is not represented.
- Hibernate sessions and transactions, and every DAO except the `RendezVousDAO` queries: stores are sequences or maps of rows, and a row is found by its id.
- Callees whose code is not shown (`getAllFactures`, `findAllForCurrentUser`, `getTodayAppointments`, `getWeeklyAppointments`, `findByIdWithAllDetails`, the `MedecinService` pass-throughs): their results are parameters of the members that call them.
- `ConsultationService` apart from `createConsultationFromRendezVous`: `updateConsultationNotes`, `getConsultationsByDossier` and `findById` only load and save rows, and consultations are modelled as the appointment ids they belong to.
- Which patients have a medical record is a parameter of the appointment service; the patient service's own record table is separate.
- Patients.PatientService.DeletePatient: which patients an invoice refers to is the parameter `invoiced`; the invoice table itself is not read.
- Patients.PatientService.CreatePatient: whether the database accepts the new medical record, whose patient reference is the argument without an id, is the parameter `recordSaved`; Hibernate's handling of that reference is not modelled.
- Patients.PatientService.CreatePatient: the returned patient's link to its new record object, which has no id either, is not represented.
- Facturation.FacturationService.CreerFacture: whether the database accepts the invoice and its lines (a line without a description breaks a NOT NULL column, for instance) is the parameter `accepted`; which rows the database refuses is not modelled.
- Facturation.FacturationService.MarquerCommePayee: the save that follows the update is taken to succeed; a refused save, which would leave the stored row unpaid, is not modelled.
- Facturation.Merge: the stored copy shares the invoice's line objects; the copies `merge` makes of the lines are not represented.
- `PdfService`, `EmailService`, QR image rendering and the signature image encoding: foreign libraries. Whether the image writer, the reader and a file deletion succeed are flags of the signature model.
- `getSignatureStats` and `loadSignatureAsBufferedImage`: image and file-system statistics with no logic beyond the calls.
- `AppointmentReminderService` scheduler and threads: one hourly check is modelled, and sending a reminder is recording the appointment.
- The synchronized, lazily created singletons (`ConfigurationManager.getInstance`, `UserSession`'s static field): one object stands for the slot, with no concurrency.
- The `IOException` path of `loadProperties`: a resource that is present is always read completely.
- `System.getenv` and the class-path resources: the environment is a map and each resource file an optional map.
- `String.toUpperCase`/`toLowerCase` and `trim` are modelled on ASCII letters and on the characters up to U+0020; other case mappings and Unicode digits are not represented.
- `DateTimeFormatter`: the date and time texts in the QR code and the CSV files are the parameters `fmt`, `fmtDate` and `fmtDateTime`.
- Dashboard: the first and last day of the current month are parameters, as is today's date.
- Dashboard: patients are counted as distinct by value, not by Hibernate identity.
- Permissions: the action and resource strings are never null.
- RendezVousService `updateRendezVous`: deprecated, and it only saves the entity it is given.
- Patient creation with a patient that already has an id (an update through `save`) is not distinguished from a new one.
- The detailed CSV export reads the invoice and line objects into values (`CsvDetailed.DataOfAll`) before writing; nothing is written back to them, so a change made while the file is written is not represented.
- The camera scripts' processes, signals, sleeps and files are abstract. The child is `NoChild`, `Live` or `Gone`; what `getpgid`, `killpg` and `wait` answer is a parameter, and a reused pid is not represented.
- `capture_single_frame`, the `--capture-only` mode and the usage checks of the scripts: one-shot calls of an external tool with no state.
- A `KeyboardInterrupt` that arrives inside `monitor_frames` is not modelled separately from a signal; the script's signal handler pre-empts it.
- `scripts/capture_photo_libcamera.py`, `PhotoService`, `DefaultAvatarGenerator`, `UserService` and `AuthService` (BCrypt): external tools and foreign hashes.
- Entities.NomComplet: the last name's upper-casing is not stated in the contract; names are compared as the strings the function builds.

## Findings

| source | as written | input that shows it | evidently intended | confidence | as-written member | corrected member |
|---|---|---|---|---|---|---|
| src/main/java/com/mediclinic/service/RendezVousService.java:189-235 | `terminerRendezVous` lets through any appointment for which `isValidStatusTransition(status, TERMINE)` holds. That test is true when the status does not change, so an appointment already TERMINE is saved as TERMINE again, and then `createConsultationFromRendezVous` fails late, with the RuntimeException of the unique `rendez_vous_id` column when the patient is on record, instead of the IllegalStateException of the guard | an appointment with status TERMINE and its consultation, closed a second time by its doctor | only a CONFIRME appointment can be closed, as the status machine says, and any other status is rejected with an IllegalStateException before anything is saved | not executed | RendezVousServiceModel.RendezVousService.TerminerRendezVous, RendezVousServiceModel.FinishingTwiceFailsLate | RendezVousServiceModel.RendezVousService.TerminerRendezVousOnce, RendezVousServiceModel.TerminateGuards |
| src/main/java/com/mediclinic/service/CsvService.java:176-252 | `exportInvoicesDetailed` multiplies `getPrixUnitaire()` by the quantity without a null check. `creerFacture` accepts a line whose unit price is null | an invoice with one line whose unit price is null | the line is written with `null` as its unit price and `0` as its amount, the value `getMontantLigne` gives, and the export goes on | not executed | CsvDetailed.ExportDetailedAsWritten, CsvDetailed.NullPriceThrows, CsvDetailed.NullPriceExample | CsvDetailed.ExportDetailedNullSafe |
| scripts/libcamera_preview.py:248-310 | `stop` does not forget the child. On SIGTERM during the monitor loop, the handler calls `stop` and `sys.exit` raises `SystemExit`. The `finally` clause of `main` then calls `stop` again: `getpgid` of the pid that was already waited for fails, and the fallback runs `kill -9` and `pkill -9 -P` on that stale pid | SIGTERM while the preview runs, with a pipeline that ends on SIGTERM | stopping twice is harmless: the second `stop` only removes the file if it is still there | not executed | Libcamera.StopAsWritten, Libcamera.StopTwiceKillsStalePid | Libcamera.Stop, Libcamera.StopIdempotent |

Further observations, proved but not counted as defects:

- A doctor can book through `planifierRendezVous` although `canCreateAppointment` refuses doctors (`RendezVousServiceModel.DoctorMayBookButNotCreate`).
- The financial report and export leave out undated invoices, while the screen's date filter keeps them (`Billing.ReportWithinScreen`).
- The QR text of an appointment whose patient has no id does not parse back (`QRCode.NullPatientIdDoesNotParse`).
- After the slot search moves to 08:00 of a later day, the next time it tests is 08:30, so 08:00 is never offered, and a preferred start before 07:30 skips its own day (`RendezVousServiceModel.EarlyStartSkipsTheDay`).
