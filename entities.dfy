/** The persistent entities the core reads, as values. Identifiers that the
    database generates are `Option<int>` where the code handles an unsaved
    entity (`id == null`); a doctor is always a stored row. */
module Entities {
  import opened Common

  /** `RendezVousStatus`. */
  datatype Status = PLANIFIE | CONFIRME | TERMINE | ANNULE

  /** `Enum.name()`. */
  function StatusName(s: Status): string {
    match s
    case PLANIFIE => "PLANIFIE"
    case CONFIRME => "CONFIRME"
    case TERMINE => "TERMINE"
    case ANNULE => "ANNULE"
  }

  lemma StatusNameInjective(a: Status, b: Status)
    ensures StatusName(a) == StatusName(b) ==> a == b
  {
  }

  /** `Role`: administrator, doctor, secretary. */
  datatype Role = ADMIN | MEDECIN | SEC

  datatype Medecin = Medecin(
    id: int,
    nom: string,
    prenom: string,
    specialite: Option<string>,
    email: Option<string>,
    telephone: Option<string>)

  datatype Patient = Patient(
    id: Option<int>,
    nom: string,
    prenom: string,
    dateNaissance: Option<int>,
    email: Option<string>,
    telephone: Option<string>,
    adresse: Option<string>,
    dossier: Option<int>)

  /** `getNomComplet` of a patient or a doctor: first name, a space, the last
      name in capitals. */
  function NomComplet(prenom: string, nom: string): (r: string)
    ensures |r| == |prenom| + 1 + |nom|
    ensures r[..|prenom|] == prenom && r[|prenom|] == ' '
  {
    prenom + " " + ToUpper(nom)
  }

  function PatientName(p: Patient): string { NomComplet(p.prenom, p.nom) }
  function MedecinName(m: Medecin): string { NomComplet(m.prenom, m.nom) }

  /** A logged-in account: its role and, for a doctor or a secretary, the
      doctor it is linked to. */
  datatype User = User(role: Role, medecin: Option<Medecin>)

  /** A `RendezVous` row; every field the entity lets be null is optional. */
  datatype RendezVous = RendezVous(
    id: Option<int>,
    patient: Option<Patient>,
    medecin: Option<Medecin>,
    start: Option<int>,
    end: Option<int>,
    status: Option<Status>,
    motif: Option<string>)

  /** A `Consultation` row: its id, date, appointment and notes. */
  datatype Consultation = Consultation(
    id: Option<int>,
    date: Option<int>,
    rendezVous: Option<RendezVous>,
    diagnostic: Option<string>,
    observations: Option<string>)
}
