/** `RendezVousService`: the status machine, date validation, booking with
    collision prevention, status updates, permission queries, the next free
    slot search and the waiting room. The appointment table is a sequence of
    rows; the logged-in user (`UserSession`) and the clock are parameters. */
module RendezVousServiceModel {
  import opened Common
  import opened Time
  import opened Entities
  import opened RendezVousModel
  import opened RendezVousDao

  /** `MIN_APPOINTMENT_DURATION`: 15 minutes. */
  const MIN_APPOINTMENT_DURATION: int := 15 * SECONDS_PER_MINUTE

  // ---------------------------------------------------------------------------
  // Status machine

  /** `isValidStatusTransition(current, next)`. */
  predicate IsValidStatusTransition(current: Option<Status>, next: Option<Status>) {
    if current.None? || next.None? then false
    else if current.value == next.value then true
    else match current.value
      case PLANIFIE => next.value == CONFIRME || next.value == ANNULE
      case CONFIRME => next.value == TERMINE || next.value == ANNULE
      case TERMINE => false
      case ANNULE => false
  }

  lemma NullTransitionsInvalid(s: Option<Status>)
    ensures !IsValidStatusTransition(None, s) && !IsValidStatusTransition(s, None)
  {
  }

  lemma SameStatusValid(s: Status)
    ensures IsValidStatusTransition(Some(s), Some(s))
  {
  }

  /** The status changes allowed, in full: PLANIFIE to CONFIRME or ANNULE,
      CONFIRME to TERMINE or ANNULE, nothing out of TERMINE or ANNULE. */
  lemma StatusChanges(a: Status, b: Status)
    requires a != b
    ensures IsValidStatusTransition(Some(a), Some(b)) <==>
      (a == PLANIFIE && (b == CONFIRME || b == ANNULE)) ||
      (a == CONFIRME && (b == TERMINE || b == ANNULE))
    ensures a == TERMINE || a == ANNULE ==> !IsValidStatusTransition(Some(a), Some(b))
  {
  }

  /** How far along its life an appointment is. */
  function Stage(s: Status): nat {
    match s
    case PLANIFIE => 0
    case CONFIRME => 1
    case TERMINE => 2
    case ANNULE => 2
  }

  /** Every real change moves strictly forward, so no appointment ever
      returns to an earlier status and a chain of changes has at most two
      steps. */
  lemma {:induction false} ChangesMoveForward(path: seq<Status>)
    requires forall i :: 0 <= i < |path| - 1 ==>
      path[i] != path[i + 1] && IsValidStatusTransition(Some(path[i]), Some(path[i + 1]))
    ensures |path| <= 3
    ensures |path| > 0 ==> Stage(path[|path| - 1]) >= Stage(path[0]) + |path| - 1
  {
    if |path| > 1 {
      ChangesMoveForward(path[1..]);
      assert Stage(path[1]) > Stage(path[0]);
    }
  }

  // ---------------------------------------------------------------------------
  // Date validation

  /** `validateAppointmentDates(rdv)` at time `now`: None when it returns,
      the exception otherwise. */
  function ValidateAppointmentDates(r: RendezVous, now: int): (e: Option<Exception>)
    ensures e.Some? ==> e.value == IllegalArgument
    ensures e.None? <==>
      && r.start.Some? && r.end.Some?
      && r.end.value - r.start.value >= MIN_APPOINTMENT_DURATION
      && (r.id.None? ==> r.start.value >= now)
  {
    if r.start.None? || r.end.None? then Some(IllegalArgument)
    else if r.end.value <= r.start.value then Some(IllegalArgument)
    else if Duree(r) < MIN_APPOINTMENT_DURATION then Some(IllegalArgument)
    else if r.id.None? && r.start.value < now then Some(IllegalArgument)
    else None
  }

  /** The end-after-start check is implied by the minimum duration. */
  lemma ValidDatesArePositive(r: RendezVous, now: int)
    requires ValidateAppointmentDates(r, now).None?
    ensures r.start.value < r.end.value
  {
  }

  // ---------------------------------------------------------------------------
  // The table

  /** The NOT NULL columns of `rendez_vous` are set on every stored row. */
  predicate Stored(r: RendezVous) {
    r.id.Some? && r.patient.Some? && r.medecin.Some? && r.start.Some? && r.end.Some? && r.status.Some?
  }

  /** `rdvDAO.findById(id)`: the position of the row with this id. */
  function FindIndex(rows: seq<RendezVous>, id: int): (k: Option<nat>)
    ensures k.Some? ==> k.value < |rows| && rows[k.value].id == Some(id)
    ensures k.None? <==> forall i :: 0 <= i < |rows| ==> rows[i].id != Some(id)
  {
    if rows == [] then None
    else if rows[0].id == Some(id) then Some(0)
    else
      var k := FindIndex(rows[1..], id);
      if k.None? then None else Some(k.value + 1)
  }

  predicate DistinctIds(rows: seq<RendezVous>) {
    forall i, j :: 0 <= i < j < |rows| ==> rows[i].id != rows[j].id
  }

  /** The rows of the table: every NOT NULL column set, ids distinct and
      below the next identity value. */
  predicate Table(rows: seq<RendezVous>, nextId: int) {
    && nextId >= 1
    && (forall i :: 0 <= i < |rows| ==> Stored(rows[i]) && 1 <= rows[i].id.value < nextId)
    && DistinctIds(rows)
  }

  /** Updating a stored row in place keeps the table well formed. */
  lemma {:induction false} TableReplace(rows: seq<RendezVous>, nextId: int, k: nat, r: RendezVous)
    requires Table(rows, nextId) && k < |rows| && Stored(r) && r.id == rows[k].id
    ensures Table(rows[k := r], nextId)
  {
    var rows' := rows[k := r];
    forall i, j | 0 <= i < j < |rows'| ensures rows'[i].id != rows'[j].id {
      assert rows'[i].id == rows[i].id && rows'[j].id == rows[j].id;
    }
  }

  /** Inserting a row with the next identity value keeps the table well
      formed, with the counter one further. */
  lemma {:induction false} TableAppend(rows: seq<RendezVous>, nextId: int, r: RendezVous)
    requires Table(rows, nextId) && Stored(r) && r.id == Some(nextId)
    ensures Table(rows + [r], nextId + 1)
  {
    var rows' := rows + [r];
    forall i, j | 0 <= i < j < |rows'| ensures rows'[i].id != rows'[j].id {
      if j < |rows| {
        assert rows'[i] == rows[i] && rows'[j] == rows[j];
      } else {
        assert rows'[i] == rows[i];
      }
    }
  }

  /** A doctor may only act on the appointments of the doctor linked to the
      account; other roles are not restricted by this check. */
  predicate DoctorOwns(user: User, r: RendezVous)
    requires r.medecin.Some?
  {
    user.role == MEDECIN ==> user.medecin.Some? && user.medecin.value.id == r.medecin.value.id
  }

  // ---------------------------------------------------------------------------
  // Booking

  /** A secretary booking without an associated doctor, or for a doctor
      other than the associated one. */
  predicate SecretaryMismatch(user: User, rdv: RendezVous) {
    user.role == SEC &&
    (user.medecin.None? || rdv.medecin.None? || rdv.medecin.value.id != user.medecin.value.id)
  }

  /** The appointment's patient and doctor are set and found in their
      tables (a patient without an id finds nothing). */
  predicate PartiesKnown(rdv: RendezVous, patients: map<int, Patient>, medecins: map<int, Medecin>) {
    && rdv.patient.Some? && rdv.patient.value.id.Some? && rdv.patient.value.id.value in patients
    && rdv.medecin.Some? && rdv.medecin.value.id in medecins
  }

  /** The checks `planifierRendezVous` makes before it saves, in its order:
      None when all pass, otherwise the exception thrown by the first that
      fails. (The role check at the top admits every role.) */
  function CheckPlanifier(session: Option<User>, rdv: RendezVous, now: int, rows: seq<RendezVous>,
                          patients: map<int, Patient>, medecins: map<int, Medecin>)
    : (e: Option<Exception>)
    ensures e == Some(Security) <==> session.None? || SecretaryMismatch(session.value, rdv)
    ensures e == Some(IllegalArgument) <==>
      && session.Some? && !SecretaryMismatch(session.value, rdv)
      && (ValidateAppointmentDates(rdv, now).Some? || !PartiesKnown(rdv, patients, medecins))
    ensures e == Some(IllegalState) <==>
      && session.Some? && !SecretaryMismatch(session.value, rdv)
      && ValidateAppointmentDates(rdv, now).None? && PartiesKnown(rdv, patients, medecins)
      && CountConflicting(rows, rdv.medecin.value.id, rdv.start.value, rdv.end.value, rdv.id) > 0
    ensures e.None? <==>
      && session.Some? && !SecretaryMismatch(session.value, rdv)
      && ValidateAppointmentDates(rdv, now).None? && PartiesKnown(rdv, patients, medecins)
      && CountConflicting(rows, rdv.medecin.value.id, rdv.start.value, rdv.end.value, rdv.id) == 0
  {
    if session.None? then Some(Security)
    else
      var user := session.value;
      if user.role == SEC && (user.medecin.None? || rdv.medecin.None? ||
                              rdv.medecin.value.id != user.medecin.value.id) then Some(Security)
      else if ValidateAppointmentDates(rdv, now).Some? then ValidateAppointmentDates(rdv, now)
      else if rdv.patient.None? || rdv.medecin.None? then Some(IllegalArgument)
      else if rdv.patient.value.id.None? || rdv.patient.value.id.value !in patients
              || rdv.medecin.value.id !in medecins then Some(IllegalArgument)
      else if CountConflicting(rows, rdv.medecin.value.id, rdv.start.value, rdv.end.value, rdv.id) > 0
      then Some(IllegalState)
      else None
  }

  /** `canCreateAppointment`: only secretaries and administrators. */
  predicate CanCreateAppointment(session: Option<User>) {
    session.Some? && (session.value.role == SEC || session.value.role == ADMIN)
  }

  /** `canModifyAppointment(rdvId)`. */
  predicate CanModifyAppointment(session: Option<User>, rows: seq<RendezVous>, rdvId: int)
    requires forall i :: 0 <= i < |rows| ==> Stored(rows[i])
  {
    if session.None? then false
    else
      var user := session.value;
      if user.role == ADMIN then true
      else
        var k := FindIndex(rows, rdvId);
        if k.None? then false
        else
          assert Stored(rows[k.value]);
          user.medecin.Some? && user.medecin.value.id == rows[k.value].medecin.value.id
  }

  /** Who may modify: an administrator always; a doctor or a secretary
      exactly the stored appointments of the doctor linked to the account. */
  lemma CanModifyMeans(session: Option<User>, rows: seq<RendezVous>, rdvId: int)
    requires forall i :: 0 <= i < |rows| ==> Stored(rows[i])
    requires DistinctIds(rows)
    requires session.Some? && session.value.role != ADMIN
    ensures CanModifyAppointment(session, rows, rdvId) <==>
      exists i :: 0 <= i < |rows| && rows[i].id == Some(rdvId) &&
        session.value.medecin.Some? && rows[i].medecin.value.id == session.value.medecin.value.id
  {
    var k := FindIndex(rows, rdvId);
    if k.Some? {
      assert rows[k.value].id == Some(rdvId);
    }
  }

  /** A doctor passes the booking's role checks although
      `canCreateAppointment` denies them the action. */
  lemma DoctorMayBookButNotCreate(rdv: RendezVous, now: int, rows: seq<RendezVous>,
                                  patients: map<int, Patient>, medecins: map<int, Medecin>)
    requires ValidateAppointmentDates(rdv, now).None?
    requires rdv.patient.Some? && rdv.patient.value.id.Some? && rdv.patient.value.id.value in patients
    requires rdv.medecin.Some? && rdv.medecin.value.id in medecins
    requires CountConflicting(rows, rdv.medecin.value.id, rdv.start.value, rdv.end.value, rdv.id) == 0
    ensures var s := Some(User(MEDECIN, None));
            CheckPlanifier(s, rdv, now, rows, patients, medecins).None? && !CanCreateAppointment(s)
  {
  }

  // ---------------------------------------------------------------------------
  // Waiting room

  predicate Waiting(r: RendezVous, now: int) {
    (r.status == Some(PLANIFIE) || r.status == Some(CONFIRME))
    && r.start.Some? && r.start.value > now - 10 * SECONDS_PER_MINUTE
  }

  /** `getWaitingRoomReservations()` at time `now`: the planned or confirmed
      appointments starting after now minus 10 minutes, earliest first. */
  function WaitingRoom(rows: seq<RendezVous>, now: int): (r: seq<RendezVous>)
    ensures forall i :: 0 <= i < |r| ==> r[i] in rows && Waiting(r[i], now)
    ensures forall i :: 0 <= i < |rows| && Waiting(rows[i], now) ==> rows[i] in r
    ensures multiset(r) == multiset(Filter(rows, (x: RendezVous) => Waiting(x, now)))
    ensures forall i, j :: 0 <= i < j < |r| ==> r[i].start.value <= r[j].start.value
  {
    var r := SortedFilter(rows, (x: RendezVous) => Waiting(x, now), StartKey);
    StartsAscending(r, now);
    r
  }

  /** Sorted by `StartKey`, waiting appointments are sorted by start. */
  lemma StartsAscending(r: seq<RendezVous>, now: int)
    requires SortedBy(r, StartKey) && forall i :: 0 <= i < |r| ==> Waiting(r[i], now)
    ensures forall i, j :: 0 <= i < j < |r| ==> r[i].start.Some? && r[j].start.Some? && r[i].start.value <= r[j].start.value
  {
    forall i, j | 0 <= i < j < |r| ensures r[i].start.Some? && r[j].start.Some? && r[i].start.value <= r[j].start.value {
      assert Waiting(r[i], now) && Waiting(r[j], now);
      assert StartKey(r[i]) <= StartKey(r[j]);
    }
  }

  // ---------------------------------------------------------------------------
  // The consultation step

  /** The appointment's patient is set, has an id, is stored and has a
      medical record. */
  predicate PatientOnRecord(rdv: RendezVous, patients: map<int, Patient>, dossiers: set<int>) {
    rdv.patient.Some? && rdv.patient.value.id.Some?
    && rdv.patient.value.id.value in patients && rdv.patient.value.id.value in dossiers
  }

  /** `createConsultationFromRendezVous(rdv)`: None when the consultation is
      saved, otherwise the exception of the first check that fails. The
      appointment must be TERMINE and its patient on record; the
      consultation's `rendez_vous_id` column is NOT NULL and unique, so the
      save throws for an appointment without an id or with a consultation
      already. */
  function ConsultationFailure(rdv: RendezVous, patients: map<int, Patient>, dossiers: set<int>,
                               consultations: seq<int>): (e: Option<Exception>)
    ensures e.None? <==>
      rdv.status == Some(TERMINE) && PatientOnRecord(rdv, patients, dossiers)
      && rdv.id.Some? && rdv.id.value !in consultations
    ensures e == Some(Runtime) <==>
      rdv.status == Some(TERMINE) && PatientOnRecord(rdv, patients, dossiers)
      && (rdv.id.None? || rdv.id.value in consultations)
    ensures rdv.status != Some(TERMINE) ==> e == Some(IllegalState)
  {
    if rdv.status != Some(TERMINE) then Some(IllegalState)
    else if rdv.patient.None? || rdv.patient.value.id.None? then Some(IllegalArgument)
    else if rdv.patient.value.id.value !in patients then Some(IllegalArgument)
    else if rdv.patient.value.id.value !in dossiers then Some(IllegalState)
    else if rdv.id.None? || rdv.id.value in consultations then Some(Runtime)
    else None
  }

  /** The checks `terminerRendezVous` makes before it saves: signed in, the
      appointment exists, a doctor owns it, and its status may become
      TERMINE — by the transition table as written, or by `CanTerminate`
      when `corrected`. */
  predicate TerminerAdmits(session: Option<User>, rows: seq<RendezVous>, rdvId: Option<int>, corrected: bool)
    requires forall i :: 0 <= i < |rows| ==> Stored(rows[i])
  {
    && session.Some? && rdvId.Some? && FindIndex(rows, rdvId.value).Some?
    && var r := rows[FindIndex(rows, rdvId.value).value];
       assert Stored(r);
       && DoctorOwns(session.value, r)
       && if corrected then CanTerminate(r.status) else IsValidStatusTransition(r.status, Some(TERMINE))
  }

  // ---------------------------------------------------------------------------
  // The next free slot

  /** Turns of the slot search: 48 hours of half-hour steps. */
  const SLOT_SEARCH_TURNS: nat := 96

  /** A candidate inside opening hours: 08:00 to 18:00, Monday to Friday. */
  predicate InOpeningHours(t: int) {
    8 <= Hour(t) < 18 && DayOfWeek(t) != 6 && DayOfWeek(t) != 7
  }

  /** One turn of the search from `t`: 30 minutes later, moved to 08:00 of
      the next day when that is before 08:00 or from 18:00 on, or to 08:00
      of the Monday when it falls on a weekend. */
  function Step(t: int): (u: int)
    ensures u > t
  {
    var c := t + 30 * SECONDS_PER_MINUTE;
    if Hour(c) < 8 || Hour(c) >= 18 then AtTime(Day(c) + 1, 8, 0)
    else if DayOfWeek(c) == 6 || DayOfWeek(c) == 7 then
      AtTime(Day(c) + (if DayOfWeek(c) == 6 then 2 else 1), 8, 0)
    else c
  }

  /** The search's `checkTime` at the start of turn `i`. */
  function Candidate(start: int, i: nat): (t: int)
    ensures t >= start
  {
    if i == 0 then start else Step(Candidate(start, i - 1))
  }

  /** The time turn `i` looks at; it is tested only when it lies in
      opening hours, and otherwise the turn only moves on. */
  function Probe(start: int, i: nat): int {
    Candidate(start, i) + 30 * SECONDS_PER_MINUTE
  }

  predicate Tested(start: int, i: nat) {
    InOpeningHours(Probe(start, i))
  }

  /** `countConflictingAppointments(medecin, t, t + duration, null) == 0`. */
  predicate SlotFree(rows: seq<RendezVous>, doctor: int, t: int, duration: int) {
    CountConflicting(rows, doctor, t, t + duration * SECONDS_PER_MINUTE, None) == 0
  }

  /** Every time tested in the first `n` turns conflicts. */
  predicate AllConflictBefore(rows: seq<RendezVous>, doctor: int, start: int, duration: int, n: nat) {
    forall j :: 0 <= j < n && Tested(start, j) ==> !SlotFree(rows, doctor, Probe(start, j), duration)
  }

  lemma AllConflictStep(rows: seq<RendezVous>, doctor: int, start: int, duration: int, n: nat)
    requires AllConflictBefore(rows, doctor, start, duration, n)
    requires Tested(start, n) ==> !SlotFree(rows, doctor, Probe(start, n), duration)
    ensures AllConflictBefore(rows, doctor, start, duration, n + 1)
  {
  }

  /** Turn `i` tests a free slot and every earlier tested one conflicts. */
  predicate FirstFreeAt(rows: seq<RendezVous>, doctor: int, start: int, duration: int, i: nat) {
    && Tested(start, i) && SlotFree(rows, doctor, Probe(start, i), duration)
    && AllConflictBefore(rows, doctor, start, duration, i)
  }

  /** The slot found lies after the start, in opening hours, and is free. */
  lemma FirstFreeSound(rows: seq<RendezVous>, doctor: int, start: int, duration: int, i: nat)
    requires FirstFreeAt(rows, doctor, start, duration, i)
    ensures Probe(start, i) > start
    ensures 8 <= Hour(Probe(start, i)) < 18 && DayOfWeek(Probe(start, i)) <= 5
    ensures SlotFree(rows, doctor, Probe(start, i), duration)
  {
  }

  /** At most one turn is the first free one. */
  lemma FirstFreeUnique(rows: seq<RendezVous>, doctor: int, start: int, duration: int, i: nat, j: nat)
    requires FirstFreeAt(rows, doctor, start, duration, i) && FirstFreeAt(rows, doctor, start, duration, j)
    ensures i == j
  {
    assert Tested(start, i) && Tested(start, j);
  }

  /** The half-hour grid restarts at 08:00 after a move, and that 08:00 is
      never tested: a search started at 07:00 moves to 08:00 of the next
      day without looking at this day, and looks first at 08:30 there. */
  lemma EarlyStartSkipsTheDay(d: int)
    ensures !Tested(AtTime(d, 7, 0), 0)
    ensures Candidate(AtTime(d, 7, 0), 1) == AtTime(d + 1, 8, 0)
    ensures Probe(AtTime(d, 7, 0), 1) == AtTime(d + 1, 8, 30)
  {
    AtTimeFields(d, 7, 30);
    assert Probe(AtTime(d, 7, 0), 0) == AtTime(d, 7, 30);
  }

  // ---------------------------------------------------------------------------
  // The stateful service

  class RendezVousService {
    /** The `rendez_vous` table. */
    var rows: seq<RendezVous>
    /** The `patient` and `medecin` tables, by id. */
    var patients: map<int, Patient>
    var medecins: map<int, Medecin>
    /** The patients that have a medical record (`dossier_medical.patient_id`). */
    var dossiers: set<int>
    /** The `consultation.rendez_vous_id` column, in creation order. */
    var consultations: seq<int>
    /** The next identity value of `rendez_vous.id`. */
    var nextId: int

    ghost predicate Valid()
      reads this
    {
      && Table(rows, nextId)
      && (forall k :: k in medecins ==> medecins[k].id == k)
    }

    constructor (patients: map<int, Patient>, medecins: map<int, Medecin>, dossiers: set<int>)
      requires forall k :: k in medecins ==> medecins[k].id == k
      ensures Valid()
      ensures this.rows == [] && this.consultations == []
      ensures this.patients == patients && this.medecins == medecins && this.dossiers == dossiers
    {
      this.rows := [];
      this.patients := patients;
      this.medecins := medecins;
      this.dossiers := dossiers;
      this.consultations := [];
      this.nextId := 1;
    }

    /** `planifierRendezVous(rdv)`: on success the appointment, linked to the
        stored patient and doctor and PLANIFIE when it had no status, is
        saved (replacing the row with its id, or as a new row); on any
        rejection nothing changes. */
    method PlanifierRendezVous(session: Option<User>, rdv: RendezVous, now: int)
      returns (res: Result<RendezVous>)
      requires Valid()
      modifies this
      ensures Valid()
      ensures patients == old(patients) && medecins == old(medecins) && consultations == old(consultations)
      ensures var e := CheckPlanifier(session, rdv, now, old(rows), patients, medecins);
              (e.Some? <==> res.Fail?) && (e.Some? ==> res.exc == e.value)
      ensures res.Fail? ==> rows == old(rows) && nextId == old(nextId)
      ensures res.Ok? ==>
        && res.value.patient == Some(patients[rdv.patient.value.id.value])
        && res.value.medecin == Some(medecins[rdv.medecin.value.id])
        && res.value.start == rdv.start && res.value.end == rdv.end && res.value.motif == rdv.motif
        && res.value.status == (if rdv.status.None? then Some(PLANIFIE) else rdv.status)
        && res.value.id.Some?
        && (if rdv.id.Some? && FindIndex(old(rows), rdv.id.value).Some?
            then res.value.id == rdv.id
                 && rows == old(rows)[FindIndex(old(rows), rdv.id.value).value := res.value]
            else rows == old(rows) + [res.value])
    {
      var e := CheckPlanifier(session, rdv, now, rows, patients, medecins);
      if e.Some? {
        return Fail(e.value);
      }
      var saved := rdv.(patient := Some(patients[rdv.patient.value.id.value]),
                        medecin := Some(medecins[rdv.medecin.value.id]));
      if saved.status.None? {
        saved := saved.(status := Some(PLANIFIE));
      }
      var k := if rdv.id.Some? then FindIndex(rows, rdv.id.value) else None;
      if k.Some? {
        TableReplace(rows, nextId, k.value, saved);
        rows := rows[k.value := saved];
      } else {
        saved := saved.(id := Some(nextId));
        TableAppend(rows, nextId, saved);
        rows := rows + [saved];
        nextId := nextId + 1;
      }
      return Ok(saved);
    }

    /** `updateStatus(rdvId, newStatus)`: the stored status becomes
        `newStatus` exactly when the caller may act on the appointment and
        the transition is valid; otherwise it throws and nothing changes. */
    method UpdateStatus(session: Option<User>, rdvId: Option<int>, newStatus: Option<Status>)
      returns (res: Result<RendezVous>)
      requires Valid()
      modifies this
      ensures Valid()
      ensures patients == old(patients) && medecins == old(medecins)
      ensures consultations == old(consultations) && nextId == old(nextId)
      ensures session.None? ==> res == Fail(Security)
      ensures session.Some? && (rdvId.None? || newStatus.None?) ==> res == Fail(IllegalArgument)
      ensures session.Some? && rdvId.Some? && newStatus.Some?
              && FindIndex(old(rows), rdvId.value).None?
              ==> res == Fail(IllegalArgument)
      ensures session.Some? && rdvId.Some? && newStatus.Some?
              && FindIndex(old(rows), rdvId.value).Some?
              && !DoctorOwns(session.value, old(rows)[FindIndex(old(rows), rdvId.value).value])
              ==> res == Fail(Security)
      ensures res.Fail? ==> rows == old(rows)
      ensures res.Ok? <==>
        && session.Some? && rdvId.Some? && newStatus.Some?
        && FindIndex(old(rows), rdvId.value).Some?
        && DoctorOwns(session.value, old(rows)[FindIndex(old(rows), rdvId.value).value])
        && IsValidStatusTransition(old(rows)[FindIndex(old(rows), rdvId.value).value].status, newStatus)
      ensures session.Some? && rdvId.Some? && newStatus.Some?
              && FindIndex(old(rows), rdvId.value).Some?
              && DoctorOwns(session.value, old(rows)[FindIndex(old(rows), rdvId.value).value])
              && !IsValidStatusTransition(old(rows)[FindIndex(old(rows), rdvId.value).value].status, newStatus)
              ==> res == Fail(IllegalState)
      ensures res.Ok? ==>
        var k := FindIndex(old(rows), rdvId.value).value;
        res.value == old(rows)[k].(status := newStatus) && rows == old(rows)[k := res.value]
    {
      if session.None? {
        return Fail(Security);
      }
      if rdvId.None? || newStatus.None? {
        return Fail(IllegalArgument);
      }
      var k := FindIndex(rows, rdvId.value);
      if k.None? {
        return Fail(IllegalArgument);
      }
      var rdv := rows[k.value];
      if !DoctorOwns(session.value, rdv) {
        return Fail(Security);
      }
      if !IsValidStatusTransition(rdv.status, newStatus) {
        return Fail(IllegalState);
      }
      rdv := rdv.(status := newStatus);
      TableReplace(rows, nextId, k.value, rdv);
      rows := rows[k.value := rdv];
      return Ok(rdv);
    }

    /** `createConsultationFromRendezVous(rdv)`: the consultation is saved
        exactly when `ConsultationFailure` finds nothing wrong; otherwise
        the call throws and nothing is saved. */
    method CreateConsultationFromRendezVous(rdv: RendezVous) returns (res: Outcome)
      modifies this`consultations
      ensures var e := ConsultationFailure(rdv, patients, dossiers, old(consultations));
              if e.Some? then res == Thrown(e.value) && consultations == old(consultations)
              else res == Done && consultations == old(consultations) + [rdv.id.value]
    {
      var e := ConsultationFailure(rdv, patients, dossiers, consultations);
      if e.Some? {
        return Thrown(e.value);
      }
      consultations := consultations + [rdv.id.value];
      return Done;
    }

    /** Every consultation belongs to a finished appointment, and no
        appointment has two. */
    ghost predicate ConsultationsOnce()
      reads this
    {
      ConsultedOnce(rows, consultations)
    }

    /** `terminerRendezVous(rdvId)` as written: when its checks pass (and the
        status check admits TERMINE itself) the row is saved as TERMINE and
        then the consultation is created; when that step throws, the row
        stays TERMINE and the exception reaches the caller. */
    method TerminerRendezVous(session: Option<User>, rdvId: Option<int>) returns (res: Outcome)
      requires Valid()
      modifies this
      ensures Valid()
      ensures patients == old(patients) && medecins == old(medecins)
      ensures dossiers == old(dossiers) && nextId == old(nextId)
      ensures session.None? ==> res == Thrown(Security)
      ensures session.Some? && (rdvId.None? || FindIndex(old(rows), rdvId.value).None?) ==>
        res == Thrown(IllegalArgument)
      ensures session.Some? && rdvId.Some? && FindIndex(old(rows), rdvId.value).Some?
              && !DoctorOwns(session.value, old(rows)[FindIndex(old(rows), rdvId.value).value])
              ==> res == Thrown(Security)
      ensures session.Some? && rdvId.Some? && FindIndex(old(rows), rdvId.value).Some?
              && DoctorOwns(session.value, old(rows)[FindIndex(old(rows), rdvId.value).value])
              && !IsValidStatusTransition(old(rows)[FindIndex(old(rows), rdvId.value).value].status, Some(TERMINE))
              ==> res == Thrown(IllegalState)
      ensures !TerminerAdmits(session, old(rows), rdvId, false) ==>
        res.Thrown? && rows == old(rows) && consultations == old(consultations)
      ensures TerminerAdmits(session, old(rows), rdvId, false) ==>
        var k := FindIndex(old(rows), rdvId.value).value;
        var finished := old(rows)[k].(status := Some(TERMINE));
        var e := ConsultationFailure(finished, patients, dossiers, old(consultations));
        && rows == old(rows)[k := finished]
        && (if e.Some? then res == Thrown(e.value) && consultations == old(consultations)
            else res == Done && consultations == old(consultations) + [rdvId.value])
      ensures old(ConsultationsOnce()) ==> ConsultationsOnce()
    {
      if session.None? {
        return Thrown(Security);
      }
      var k := if rdvId.Some? then FindIndex(rows, rdvId.value) else None;
      if k.None? {
        return Thrown(IllegalArgument);
      }
      var rdv := rows[k.value];
      if !DoctorOwns(session.value, rdv) {
        return Thrown(Security);
      }
      if !IsValidStatusTransition(rdv.status, Some(TERMINE)) {
        return Thrown(IllegalState);
      }
      rdv := rdv.(status := Some(TERMINE));
      TableReplace(rows, nextId, k.value, rdv);
      ghost var once := ConsultedOnce(rows, consultations);
      if once {
        FinishingKeepsConsultedOnce(rows, consultations, k.value);
      }
      rows := rows[k.value := rdv];
      // The row reloaded by `findById` is the one just saved.
      res := CreateConsultationFromRendezVous(rdv);
    }

    /** `terminerRendezVous` with the guard the user interface and the
        documented status machine intend: only a CONFIRME appointment can be
        finished, so the consultation table's unique column is never hit and
        each appointment gets at most one consultation. */
    method TerminerRendezVousOnce(session: Option<User>, rdvId: Option<int>) returns (res: Outcome)
      requires Valid() && ConsultationsOnce()
      modifies this
      ensures Valid() && ConsultationsOnce()
      ensures patients == old(patients) && medecins == old(medecins)
      ensures dossiers == old(dossiers) && nextId == old(nextId)
      ensures session.None? ==> res == Thrown(Security)
      ensures session.Some? && (rdvId.None? || FindIndex(old(rows), rdvId.value).None?) ==>
        res == Thrown(IllegalArgument)
      ensures session.Some? && rdvId.Some? && FindIndex(old(rows), rdvId.value).Some?
              && !DoctorOwns(session.value, old(rows)[FindIndex(old(rows), rdvId.value).value])
              ==> res == Thrown(Security)
      ensures session.Some? && rdvId.Some? && FindIndex(old(rows), rdvId.value).Some?
              && DoctorOwns(session.value, old(rows)[FindIndex(old(rows), rdvId.value).value])
              && !CanTerminate(old(rows)[FindIndex(old(rows), rdvId.value).value].status)
              ==> res == Thrown(IllegalState)
      ensures !TerminerAdmits(session, old(rows), rdvId, true) ==>
        res.Thrown? && rows == old(rows) && consultations == old(consultations)
      ensures TerminerAdmits(session, old(rows), rdvId, true) ==>
        var k := FindIndex(old(rows), rdvId.value).value;
        var finished := old(rows)[k].(status := Some(TERMINE));
        var e := ConsultationFailure(finished, patients, dossiers, old(consultations));
        && rows == old(rows)[k := finished]
        && (if e.Some? then res == Thrown(e.value) && consultations == old(consultations)
            else res == Done && consultations == old(consultations) + [rdvId.value])
      ensures res != Thrown(Runtime)
    {
      if session.None? {
        return Thrown(Security);
      }
      var k := if rdvId.Some? then FindIndex(rows, rdvId.value) else None;
      if k.None? {
        return Thrown(IllegalArgument);
      }
      var rdv := rows[k.value];
      if !DoctorOwns(session.value, rdv) {
        return Thrown(Security);
      }
      if !CanTerminate(rdv.status) {
        return Thrown(IllegalState);
      }
      NotYetConsulted(rows, consultations, k.value);
      FinishingKeepsConsultedOnce(rows, consultations, k.value);
      rdv := rdv.(status := Some(TERMINE));
      TableReplace(rows, nextId, k.value, rdv);
      rows := rows[k.value := rdv];
      res := CreateConsultationFromRendezVous(rdv);
    }

    /** `findNextAvailableSlot(medecin, preferredStart, duration)`: the first
        time tested in the 96 turns that has no conflict for the doctor, or
        None when every tested time conflicts. A turn whose time falls
        outside opening hours moves to 08:00 of a later day without testing
        anything, so 08:00 itself is not tested and a start before 07:30
        skips its own day (`EarlyStartSkipsTheDay`). */
    method FindNextAvailableSlot(medecin: Option<Medecin>, preferredStart: Option<int>, duration: int)
      returns (slot: Option<int>)
      ensures medecin.None? || preferredStart.None? ==> slot.None?
      ensures slot.Some? ==>
        && medecin.Some? && preferredStart.Some?
        && exists i :: 0 <= i < SLOT_SEARCH_TURNS && slot.value == Probe(preferredStart.value, i)
                       && FirstFreeAt(rows, medecin.value.id, preferredStart.value, duration, i)
      ensures slot.None? && medecin.Some? && preferredStart.Some? ==>
        AllConflictBefore(rows, medecin.value.id, preferredStart.value, duration, SLOT_SEARCH_TURNS)
    {
      if medecin.None? || preferredStart.None? {
        return None;
      }
      ghost var start := preferredStart.value;
      ghost var doctor := medecin.value.id;
      var checkTime := preferredStart.value;
      for i := 0 to SLOT_SEARCH_TURNS
        invariant checkTime == Candidate(start, i)
        invariant AllConflictBefore(rows, doctor, start, duration, i)
      {
        checkTime := checkTime + 30 * SECONDS_PER_MINUTE;
        assert checkTime == Probe(start, i);
        var hour := Hour(checkTime);
        if hour < 8 || hour >= 18 {
          checkTime := AtTime(Day(checkTime) + 1, 8, 0);
          assert checkTime == Step(Candidate(start, i));
          AllConflictStep(rows, doctor, start, duration, i);
          continue;
        }
        var dayOfWeek := DayOfWeek(checkTime);
        if dayOfWeek == 6 || dayOfWeek == 7 {
          checkTime := AtTime(Day(checkTime) + (if dayOfWeek == 6 then 2 else 1), 8, 0);
          assert checkTime == Step(Candidate(start, i));
          AllConflictStep(rows, doctor, start, duration, i);
          continue;
        }
        assert Tested(start, i) && checkTime == Step(Candidate(start, i));
        var checkEnd := checkTime + duration * SECONDS_PER_MINUTE;
        var conflictCount := CountConflicting(rows, medecin.value.id, checkTime, checkEnd, None);
        if conflictCount == 0 {
          assert FirstFreeAt(rows, doctor, start, duration, i);
          return Some(checkTime);
        }
        AllConflictStep(rows, doctor, start, duration, i);
      }
      return None;
    }
  }

  /** Every consultation id names a finished appointment, and no id is
      listed twice. */
  predicate ConsultedOnce(rows: seq<RendezVous>, consultations: seq<int>) {
    && (forall i, j :: 0 <= i < j < |consultations| ==> consultations[i] != consultations[j])
    && (forall i :: 0 <= i < |consultations| ==> Finished(rows, consultations[i]))
  }

  /** Some appointment with this id is finished. */
  predicate Finished(rows: seq<RendezVous>, id: int) {
    exists k :: 0 <= k < |rows| && rows[k].id == Some(id) && rows[k].status == Some(TERMINE)
  }

  /** An appointment that is not finished has no consultation yet. */
  lemma NotYetConsulted(rows: seq<RendezVous>, consultations: seq<int>, k: nat)
    requires DistinctIds(rows) && ConsultedOnce(rows, consultations)
    requires k < |rows| && rows[k].id.Some? && rows[k].status != Some(TERMINE)
    ensures rows[k].id.value !in consultations
  {
    forall i | 0 <= i < |consultations| ensures consultations[i] != rows[k].id.value {
      assert Finished(rows, consultations[i]);
      var j :| 0 <= j < |rows| && rows[j].id == Some(consultations[i]) && rows[j].status == Some(TERMINE);
      assert rows[j].status != rows[k].status;
      assert rows[j].id != rows[k].id;
    }
  }

  /** Saving an appointment as TERMINE keeps every consultation on a
      finished appointment, and recording its consultation when it had none
      keeps one consultation per finished appointment. */
  lemma FinishingKeepsConsultedOnce(rows: seq<RendezVous>, consultations: seq<int>, k: nat)
    requires ConsultedOnce(rows, consultations)
    requires k < |rows| && rows[k].id.Some?
    ensures ConsultedOnce(rows[k := rows[k].(status := Some(TERMINE))], consultations)
    ensures rows[k].id.value !in consultations ==>
      ConsultedOnce(rows[k := rows[k].(status := Some(TERMINE))], consultations + [rows[k].id.value])
  {
    var rows' := rows[k := rows[k].(status := Some(TERMINE))];
    forall i | 0 <= i < |consultations|
      ensures Finished(rows', consultations[i])
    {
      assert Finished(rows, consultations[i]);
      var j :| 0 <= j < |rows| && rows[j].id == Some(consultations[i]) && rows[j].status == Some(TERMINE);
      assert rows'[j].id == rows[j].id && rows'[j].status == Some(TERMINE);
    }
    if rows[k].id.value !in consultations {
      var cs := consultations + [rows[k].id.value];
      forall i, j | 0 <= i < j < |cs|
        ensures cs[i] != cs[j]
      {
        assert cs[i] == consultations[i] && cs[i] in consultations;
        if j < |consultations| {
          assert cs[j] == consultations[j];
        }
      }
      forall i | 0 <= i < |cs|
        ensures Finished(rows', cs[i])
      {
        if i == |consultations| {
          assert rows'[k].id == Some(cs[i]) && rows'[k].status == Some(TERMINE);
        } else {
          assert cs[i] == consultations[i];
        }
      }
    }
  }

  /** As written, finishing an appointment that already has its
      consultation passes the status check and saves the row unchanged, and
      then the consultation step throws: with its patient on record, the
      consultation table refuses a second row for the appointment and the
      persistence layer's RuntimeException reaches the caller. The
      corrected guard rejects it before anything is saved. */
  lemma FinishingTwiceFailsLate(rows: seq<RendezVous>, patients: map<int, Patient>, dossiers: set<int>,
                                consultations: seq<int>, k: nat)
    requires k < |rows| && rows[k].id.Some? && rows[k].status == Some(TERMINE)
    requires rows[k].id.value in consultations
    ensures IsValidStatusTransition(rows[k].status, Some(TERMINE)) && !CanTerminate(rows[k].status)
    ensures rows[k := rows[k].(status := Some(TERMINE))] == rows
    ensures ConsultationFailure(rows[k], patients, dossiers, consultations).Some?
    ensures PatientOnRecord(rows[k], patients, dossiers) ==>
      ConsultationFailure(rows[k], patients, dossiers, consultations) == Some(Runtime)
  {
  }

  /** The corrected guard of `terminerRendezVous`. */
  predicate CanTerminate(s: Option<Status>) {
    s == Some(CONFIRME)
  }

  /** The documented guard, as written, lets an already finished appointment
      through; the corrected one does not, and it accepts exactly the real
      changes to TERMINE. */
  lemma TerminateGuards()
    ensures IsValidStatusTransition(Some(TERMINE), Some(TERMINE))
    ensures !CanTerminate(Some(TERMINE))
    ensures forall s :: CanTerminate(s) <==> IsValidStatusTransition(s, Some(TERMINE)) && s != Some(TERMINE)
  {
  }
}
