/** `PatientService`: the contact and format checks on a new patient, its
    creation together with its medical record, and the guarded deletion.
    The patient and medical-record tables are maps from id to row; the
    current date is a parameter. */
module Patients {
  import opened Common
  import opened Entities
  import opened Regex

  /** `^[A-Za-z0-9+_.-]+@[A-Za-z0-9.-]+\.[A-Za-z]{2,}$`, from its domain on. */
  const EMAIL_DOMAIN: Pattern :=
    Then(Item(EmailDomain, 1, None), Then(Item(Exactly('.'), 1, Some(1)), Then(Item(Letter, 2, None), End)))

  /** The whole e-mail pattern: a local part and `@` before the domain. */
  const EMAIL_PATTERN: Pattern :=
    Then(Item(EmailLocal, 1, None), Then(Item(Exactly('@'), 1, Some(1)), EMAIL_DOMAIN))

  /** `^[+]?[(]?[0-9]{1,4}[)]?[-\s.]?[(]?[0-9]{1,4}[)]?[-\s.]?[0-9]{1,9}$`. */
  const PHONE_PATTERN: Pattern :=
    Then(Item(Exactly('+'), 0, Some(1)), Then(Item(Exactly('('), 0, Some(1)), Then(Item(Digit, 1, Some(4)),
    Then(Item(Exactly(')'), 0, Some(1)), Then(Item(Separator, 0, Some(1)), Then(Item(Exactly('('), 0, Some(1)),
    Then(Item(Digit, 1, Some(4)), Then(Item(Exactly(')'), 0, Some(1)), Then(Item(Separator, 0, Some(1)),
    Then(Item(Digit, 1, Some(9)), End))))))))))

  /** `isValidEmail`: false for null. */
  predicate IsValidEmail(email: Option<string>) {
    email.Some? && Matches(EMAIL_PATTERN, email.value)
  }

  /** `isValidPhone`: false for null. */
  predicate IsValidPhone(phone: Option<string>) {
    phone.Some? && Matches(PHONE_PATTERN, phone.value)
  }

  /** `validateContactInfo`: both an e-mail and a telephone, neither blank. */
  predicate ValidateContactInfo(p: Patient) {
    p.email.Some? && !IsBlank(p.email.value) && p.telephone.Some? && !IsBlank(p.telephone.value)
  }

  /** No class of the e-mail pattern admits a blank; none after the local
      part admits `@`. */
  lemma EmailClasses(c: char)
    ensures InSome(EMAIL_PATTERN, c) ==> !IsTrimmable(c)
    ensures InSome(EMAIL_DOMAIN, c) ==> c != '@'
  {
    var d := EMAIL_DOMAIN;
    assert InSome(d.rest.rest, c) <==> IsAsciiLetter(c);
    assert InSome(d.rest, c) <==> c == '.' || IsAsciiLetter(c);
    assert InSome(d, c) <==> InClass(EmailDomain, c) || c == '.' || IsAsciiLetter(c);
    assert InSome(EMAIL_PATTERN.rest, c) <==> c == '@' || InSome(d, c);
  }

  /** A valid e-mail address has exactly one `@`, not first, and ends with a
      letter; it is at least six characters long and holds no blank. */
  lemma EmailShape(s: string)
    requires IsValidEmail(Some(s))
    ensures |s| >= 6 && IsAsciiLetter(s[|s| - 1])
    ensures exists a :: 0 < a < |s| && s[a] == '@' && forall i :: 0 <= i < |s| && s[i] == '@' ==> i == a
    ensures forall i :: 0 <= i < |s| ==> !IsTrimmable(s[i])
  {
    MatchChars(EMAIL_PATTERN, s);
    MatchEnd(EMAIL_PATTERN, s);
    MatchLength(EMAIL_PATTERN, s);
    var local := EMAIL_PATTERN.item;
    var at := EMAIL_PATTERN.rest;
    var k :| 0 <= k <= |s| && Fits(local, k) && AllIn(s[..k], local.cls) && Matches(at, s[k..]);
    var rest := s[k..];
    var k2 :| 0 <= k2 <= |rest| && Fits(at.item, k2) && AllIn(rest[..k2], at.item.cls) && Matches(EMAIL_DOMAIN, rest[k2..]);
    assert k2 == 1 && rest[..1][0] == rest[0] == s[k];
    MatchChars(EMAIL_DOMAIN, rest[1..]);
    forall i | 0 <= i < |s| && i != k ensures s[i] != '@' {
      if i < k {
        assert s[..k][i] == s[i];
      } else {
        assert rest[1..][i - k - 1] == s[i];
        EmailClasses(s[i]);
      }
    }
    forall i | 0 <= i < |s| ensures !IsTrimmable(s[i]) {
      EmailClasses(s[i]);
    }
  }

  /** A character a telephone number may hold. */
  predicate PhoneChar(c: char) {
    IsDigit(c) || c == '+' || c == '(' || c == ')' || c == '-' || c == '.' || IsSpace(c)
  }

  /** Every class of `p` admits only telephone characters. */
  predicate PhoneClassesOnly(p: Pattern) {
    match p
    case End => true
    case Then(it, rest) =>
      (it.cls == Digit || it.cls == Separator || it.cls == Exactly('+') || it.cls == Exactly('(') || it.cls == Exactly(')'))
      && PhoneClassesOnly(rest)
  }

  /** A character some class of such a pattern admits is a telephone character. */
  lemma {:induction false} PhoneClasses(p: Pattern, c: char)
    requires PhoneClassesOnly(p) && InSome(p, c)
    ensures PhoneChar(c)
  {
    if !InClass(p.item.cls, c) {
      PhoneClasses(p.rest, c);
    }
  }

  /** A valid telephone number has between 3 and 24 characters, each a
      digit, `+`, a parenthesis or a separator, and ends with a digit. */
  lemma PhoneShape(s: string)
    requires IsValidPhone(Some(s))
    ensures 3 <= |s| <= 24 && IsDigit(s[|s| - 1])
    ensures forall i :: 0 <= i < |s| ==> PhoneChar(s[i])
  {
    MatchChars(PHONE_PATTERN, s);
    MatchEnd(PHONE_PATTERN, s);
    MatchLength(PHONE_PATTERN, s);
    assert PhoneClassesOnly(PHONE_PATTERN);
    forall i | 0 <= i < |s| ensures PhoneChar(s[i]) {
      PhoneClasses(PHONE_PATTERN, s[i]);
    }
  }

  /** The format checks subsume the presence checks: an e-mail and a
      telephone in the right formats are never blank. */
  lemma FormatsImplyContact(p: Patient)
    requires IsValidEmail(p.email) && IsValidPhone(p.telephone)
    ensures ValidateContactInfo(p)
  {
    EmailShape(p.email.value);
    BlankIffAllTrimmable(p.email.value);
    PhoneShape(p.telephone.value);
    BlankIffAllTrimmable(p.telephone.value);
  }

  /** Conversely, a non-empty local part of allowed characters, `@`, a
      non-empty domain of allowed characters, `.` and an ending of at least
      two letters always make a valid address. */
  lemma EmailOf(local: string, domain: string, ending: string)
    requires |local| >= 1 && AllIn(local, EmailLocal)
    requires |domain| >= 1 && AllIn(domain, EmailDomain)
    requires |ending| >= 2 && AllIn(ending, Letter)
    ensures IsValidEmail(Some(local + ("@" + (domain + ("." + ending)))))
  {
    var top := Then(Item(Letter, 2, None), End);
    var dot := Then(Item(Exactly('.'), 1, Some(1)), top);
    var at := Then(Item(Exactly('@'), 1, Some(1)), EMAIL_DOMAIN);
    assert EMAIL_DOMAIN == Then(Item(EmailDomain, 1, None), dot);
    assert EMAIL_PATTERN == Then(Item(EmailLocal, 1, None), at);
    assert AllIn("@", Exactly('@')) && AllIn(".", Exactly('.'));
    assert ending + [] == ending;
    MatchCons(top.item, End, ending, []);
    MatchCons(dot.item, top, ".", ending);
    MatchCons(EMAIL_DOMAIN.item, dot, domain, "." + ending);
    MatchCons(at.item, EMAIL_DOMAIN, "@", domain + ("." + ending));
    MatchCons(EMAIL_PATTERN.item, at, local, "@" + (domain + ("." + ending)));
  }

  /** An address without `@` is not valid, and neither is one too short
      to hold a local part, a domain and a two-letter ending. */
  lemma EmailCounterExamples(s: string)
    ensures '@' !in s ==> !IsValidEmail(Some(s))
    ensures |s| < 6 ==> !IsValidEmail(Some(s))
  {
    if IsValidEmail(Some(s)) {
      EmailShape(s);
    }
  }

  /** Why `createPatient` throws `IllegalArgumentException`, in the order of
      its checks. */
  datatype PatientRejection = InvalidContact | InvalidEmail | InvalidPhone | FutureBirthDate | EmailTaken

  /** What `createPatient` does: returns the patient, throws
      `IllegalArgumentException` for a failed check, or throws the
      `RuntimeException` of a medical-record save that failed after the
      patient was saved. */
  datatype PatientCreation = Saved(patient: Patient) | Refused(reason: PatientRejection) | RecordFailed

  /** `findByEmail(email) != null` on the stored rows. */
  predicate EmailUsed(patients: map<int, Patient>, email: Option<string>) {
    exists k :: k in patients && patients[k].email == email
  }

  /** The checks of `createPatient` on `today`, in their order. */
  function CreationCheck(patients: map<int, Patient>, p: Patient, today: int): Option<PatientRejection> {
    if !ValidateContactInfo(p) then Some(InvalidContact)
    else if !IsValidEmail(p.email) then Some(InvalidEmail)
    else if !IsValidPhone(p.telephone) then Some(InvalidPhone)
    else if p.dateNaissance.Some? && p.dateNaissance.value > today then Some(FutureBirthDate)
    else if EmailUsed(patients, p.email) then Some(EmailTaken)
    else None
  }

  /** A patient that passes the checks has an e-mail in the right format
      that no stored patient uses and no birth date after `today`. */
  lemma CreationCheckPassed(patients: map<int, Patient>, p: Patient, today: int)
    requires CreationCheck(patients, p, today).None?
    ensures IsValidEmail(p.email) && IsValidPhone(p.telephone)
    ensures forall k :: k in patients ==> patients[k].email != p.email
    ensures p.dateNaissance.None? || p.dateNaissance.value <= today
  {
  }

  /** `findByPatient(patient)` is not empty: some stored appointment is the
      patient's. */
  predicate HasAppointments(appointments: seq<RendezVous>, patientId: int) {
    exists i :: 0 <= i < |appointments| && appointments[i].patient.Some? && appointments[i].patient.value.id == Some(patientId)
  }

  class PatientService {
    /** The patient rows, by id. */
    var patients: map<int, Patient>
    /** The medical-record rows: each record's id and its patient's id. */
    var dossiers: map<int, int>
    var nextPatientId: int
    var nextDossierId: int

    ghost predicate Valid()
      reads this
    {
      && nextPatientId >= 1 && nextDossierId >= 1
      && (forall k :: k in patients ==> 1 <= k < nextPatientId)
      && (forall k :: k in dossiers ==> 1 <= k < nextDossierId)
      && (forall k :: k in patients && patients[k].dossier.Some? ==>
            patients[k].dossier.value in dossiers && dossiers[patients[k].dossier.value] == k)
      && (forall d :: d in dossiers ==> dossiers[d] in patients && patients[dossiers[d]].dossier == Some(d))
    }

    constructor ()
      ensures Valid() && patients == map[] && dossiers == map[]
    {
      patients := map[];
      dossiers := map[];
      nextPatientId := 1;
      nextDossierId := 1;
    }

    /** `createPatient`: on any failed check nothing is saved. Otherwise the
        patient row is saved under a new id and then its medical record;
        the object returned is the argument itself, which `save` leaves
        without the id the stored copy has. `recordSaved` is whether the
        database accepts the record, whose patient reference is that object
        without an id. */
    method CreatePatient(p: Patient, today: int, recordSaved: bool) returns (r: PatientCreation)
      requires Valid()
      modifies this
      ensures Valid()
      ensures r.Refused? <==> old(CreationCheck(patients, p, today)).Some?
      ensures r.Refused? ==> Some(r.reason) == old(CreationCheck(patients, p, today))
      ensures r.Refused? ==>
        && patients == old(patients) && dossiers == old(dossiers)
        && nextPatientId == old(nextPatientId) && nextDossierId == old(nextDossierId)
      ensures !r.Refused? ==>
        && old(nextPatientId) !in old(patients) && old(nextDossierId) !in old(dossiers)
        && (recordSaved <==> r.Saved?) && (r.Saved? ==> r.patient == p)
        && patients == old(patients)[old(nextPatientId) :=
             p.(id := Some(old(nextPatientId)), dossier := if recordSaved then Some(old(nextDossierId)) else None)]
        && dossiers == (if recordSaved then old(dossiers)[old(nextDossierId) := old(nextPatientId)] else old(dossiers))
    {
      ghost var check := CreationCheck(patients, p, today);
      if !ValidateContactInfo(p) {
        return Refused(InvalidContact);
      }
      if !IsValidEmail(p.email) {
        return Refused(InvalidEmail);
      }
      if !IsValidPhone(p.telephone) {
        return Refused(InvalidPhone);
      }
      if p.dateNaissance.Some? && p.dateNaissance.value > today {
        return Refused(FutureBirthDate);
      }
      if EmailUsed(patients, p.email) {
        return Refused(EmailTaken);
      }
      assert check.None?;
      r := Save(p, recordSaved);
    }

    /** The saving half of `createPatient`: the patient row under the next
        id, then, when the database accepts it, its medical record under
        the next record id, which the stored patient then refers to. */
    method Save(p: Patient, recordSaved: bool) returns (r: PatientCreation)
      requires Valid()
      modifies this
      ensures Valid()
      ensures old(nextPatientId) !in old(patients) && old(nextDossierId) !in old(dossiers)
      ensures r == (if recordSaved then Saved(p) else RecordFailed)
      ensures patients == old(patients)[old(nextPatientId) :=
        p.(id := Some(old(nextPatientId)), dossier := if recordSaved then Some(old(nextDossierId)) else None)]
      ensures dossiers == (if recordSaved then old(dossiers)[old(nextDossierId) := old(nextPatientId)] else old(dossiers))
      ensures nextPatientId == old(nextPatientId) + 1
      ensures nextDossierId == old(nextDossierId) + (if recordSaved then 1 else 0)
      ensures recordSaved ==> GetDossier(Some(old(nextPatientId))) == Some(old(nextDossierId))
      ensures !recordSaved ==> GetDossier(Some(old(nextPatientId))) == None
    {
      var pid := nextPatientId;
      patients := patients[pid := p.(id := Some(pid), dossier := None)];
      nextPatientId := nextPatientId + 1;
      if !recordSaved {
        return RecordFailed;
      }
      var did := nextDossierId;
      dossiers := dossiers[did := pid];
      nextDossierId := nextDossierId + 1;
      patients := patients[pid := patients[pid].(dossier := Some(did))];
      return Saved(p);
    }

    /** `getDossier`: the medical record of a stored patient; null for an
        unknown patient or a null id. */
    function GetDossier(patientId: Option<int>): (r: Option<int>)
      reads this
      ensures patientId.None? || patientId.value !in patients ==> r.None?
      ensures r.Some? ==> patientId.Some? && patientId.value in patients && patients[patientId.value].dossier == r
    {
      if patientId.Some? && patientId.value in patients then patients[patientId.value].dossier else None
    }

    /** The record reached through a stored patient is exactly the record
        whose `patient_id` is that patient. */
    lemma GetDossierMatchesRecords(pid: int, d: int)
      requires Valid() && pid in patients
      ensures GetDossier(Some(pid)) == Some(d) <==> d in dossiers && dossiers[d] == pid
    {
    }

    /** `deletePatient`: an unknown patient (or a null id) throws
        `IllegalArgumentException`; a patient with any appointment throws
        `IllegalStateException` and stays. Otherwise the row is deleted, and
        its medical record with it (the relation cascades), unless an
        invoice still refers to the patient: the patient has no relation to
        invoices, so the delete breaks the invoices' non-null `patient_id`
        key, the database refuses it and the exception is rethrown.
        `invoiced` holds the ids of the patients some invoice refers to. */
    method DeletePatient(patientId: Option<int>, appointments: seq<RendezVous>, invoiced: set<int>)
      returns (r: Outcome)
      requires Valid()
      modifies this`patients, this`dossiers
      ensures Valid()
      ensures r == Thrown(IllegalArgument) <==> patientId.None? || patientId.value !in old(patients)
      ensures r == Thrown(IllegalState) <==>
        patientId.Some? && patientId.value in old(patients) && HasAppointments(appointments, patientId.value)
      ensures r == Thrown(Runtime) <==>
        && patientId.Some? && patientId.value in old(patients)
        && !HasAppointments(appointments, patientId.value) && patientId.value in invoiced
      ensures r.Thrown? ==> patients == old(patients) && dossiers == old(dossiers)
      ensures r == Done <==>
        && patientId.Some? && patientId.value in old(patients)
        && !HasAppointments(appointments, patientId.value) && patientId.value !in invoiced
      ensures r == Done ==>
        && patientId.value in old(patients)
        && patients == old(patients) - {patientId.value}
        && dossiers == map d | d in old(dossiers) && old(dossiers)[d] != patientId.value :: old(dossiers)[d]
    {
      if patientId.None? || patientId.value !in patients {
        return Thrown(IllegalArgument);
      }
      if HasAppointments(appointments, patientId.value) {
        return Thrown(IllegalState);
      }
      if patientId.value in invoiced {
        return Thrown(Runtime);
      }
      patients := patients - {patientId.value};
      dossiers := map d | d in dossiers && dossiers[d] != patientId.value :: dossiers[d];
      return Done;
    }
  }
}
