/** `FacturationService`: creating an invoice from a list of lines, after
    checking the lines and the patient, and marking an invoice as paid once.
    The patient and invoice tables of the DAOs are maps from id to row. */
module Facturation {
  import opened Common
  import opened Entities
  import opened Invoice

  /** Why `creerFacture` throws `IllegalArgumentException`; each reason has
      its own message, and they are checked in this order. */
  datatype Rejection = NoLines | NegativePrice | NegativeQuantity | UnknownPatient

  /** What `creerFacture` leaves: the saved invoice it returns, the reason
      it threw `IllegalArgumentException`, or the RuntimeException of a save
      the database refused, after the invoice (carried here, never returned
      to the caller) was assembled. */
  datatype Creation = Created(facture: Facture) | Rejected(reason: Rejection) | SaveFailed(facture: Facture)

  /** The first amount check `ls` fails, line by line, the price before the
      quantity; a null price passes. */
  function FirstRejection(ls: seq<LigneFacture>): Option<Rejection>
    reads ls
    decreases |ls|
  {
    if ls == [] then None
    else if ls[0].prixUnitaire.Some? && ls[0].prixUnitaire.value < 0 then Some(NegativePrice)
    else if ls[0].quantite < 0 then Some(NegativeQuantity)
    else FirstRejection(ls[1..])
  }

  /** A line with no negative amount. */
  predicate LineAccepted(l: LigneFacture)
    reads l
  {
    (l.prixUnitaire.None? || l.prixUnitaire.value >= 0) && l.quantite >= 0
  }

  /** The amount checks pass exactly when every line is accepted, and a
      failing check is always one of the two amount reasons. */
  lemma {:induction false} FirstRejectionAccepted(ls: seq<LigneFacture>)
    ensures FirstRejection(ls).None? <==> forall i :: 0 <= i < |ls| ==> LineAccepted(ls[i])
    ensures FirstRejection(ls) in {None, Some(NegativePrice), Some(NegativeQuantity)}
    decreases |ls|
  {
    if ls != [] {
      FirstRejectionAccepted(ls[1..]);
      assert forall i :: 1 <= i < |ls| ==> ls[i] == ls[1..][i - 1];
    }
  }

  /** A line without a unit price passes the checks whenever its quantity
      is not negative. */
  lemma NullPriceAccepted(l: LigneFacture)
    requires l.prixUnitaire.None? && l.quantite >= 0
    ensures FirstRejection([l]).None?
  {
  }

  /** The whole validation of `creerFacture`, in its order: the list, the
      amounts, then the patient (a null id finds no patient). */
  function CreationCheck(patients: map<int, Patient>, patientId: Option<int>, lignes: Option<seq<LigneFacture>>)
    : Option<Rejection>
    reads if lignes.Some? then lignes.value else []
  {
    if lignes.None? || lignes.value == [] then Some(NoLines)
    else if FirstRejection(lignes.value).Some? then FirstRejection(lignes.value)
    else if patientId.None? || patientId.value !in patients then Some(UnknownPatient)
    else None
  }

  /** The validation loop of `creerFacture` over the lines. */
  method CheckLines(ls: seq<LigneFacture>) returns (r: Option<Rejection>)
    ensures r == FirstRejection(ls)
  {
    var i := 0;
    while i < |ls|
      invariant 0 <= i <= |ls|
      invariant FirstRejection(ls) == FirstRejection(ls[i..])
    {
      assert ls[i..][1..] == ls[i + 1..];
      var l := ls[i];
      if l.prixUnitaire.Some? && l.prixUnitaire.value < 0 {
        return Some(NegativePrice);
      }
      if l.quantite < 0 {
        return Some(NegativeQuantity);
      }
      i := i + 1;
    }
    return None;
  }

  /** What steps 4 to 6 of `creerFacture` leave behind: an unpaid invoice
      for `patient`, dated `today`, with no payment type, that holds exactly
      the lines `ls` in order, each pointing back to it, and whose total is
      the sum of their amounts. */
  predicate Assembled(f: Facture, patient: Patient, ls: seq<LigneFacture>, today: int)
    reads f`patient, f`dateFacturation, f`estPayee, f`typePaiement, f`lignes, f`montantTotal
    reads ls`facture, ls`prixUnitaire, ls`quantite
  {
    && f.patient == Some(patient) && f.dateFacturation == Some(today)
    && !f.estPayee && f.typePaiement == None
    && f.lignes == ls && f.montantTotal == Some(LinesTotal(ls))
    && forall j :: 0 <= j < |ls| ==> ls[j].facture == f
  }

  /** Steps 4 to 6 of `creerFacture`: a new invoice for the patient, dated
      `today`, receives the lines one by one through `addLigne`, its total
      is then recomputed, and no price or quantity changes. */
  method Assemble(patient: Patient, ls: seq<LigneFacture>, today: int) returns (f: Facture)
    modifies ls
    ensures fresh(f) && f.id == None && Assembled(f, patient, ls, today)
    ensures forall j :: 0 <= j < |ls| ==> ls[j].Price() == old(ls[j].Price())
  {
    f := new Facture(today);
    f.patient := Some(patient);
    f.dateFacturation := Some(today);
    for i := 0 to |ls|
      invariant fresh(f) && f.patient == Some(patient) && f.dateFacturation == Some(today)
      invariant !f.estPayee && f.typePaiement == None && f.id == None
      invariant f.lignes == ls[..i]
      invariant forall l :: l in f.lignes ==> l.facture == f
      invariant forall j :: 0 <= j < |ls| ==> ls[j].Price() == old(ls[j].Price())
    {
      assert ls[..i + 1] == ls[..i] + [ls[i]];
      f.AddLigne(ls[i]);
    }
    assert ls[..|ls|] == ls;
    f.CalculerMontantTotal();
    assert forall j :: 0 <= j < |ls| ==> ls[j] in f.lignes;
  }

  /** The merged copy `save` returns: every field of `f` but the id. The
      lines are shared, not copied. */
  predicate CopyOf(stored: Facture, f: Facture)
    reads stored, f
  {
    && stored.patient == f.patient && stored.rendezVous == f.rendezVous
    && stored.dateFacturation == f.dateFacturation && stored.montantTotal == f.montantTotal
    && stored.estPayee == f.estPayee && stored.typePaiement == f.typePaiement
    && stored.lignes == f.lignes
  }

  /** `session.merge(f)` for an invoice not yet stored: a new object with
      the generated id and every other field of `f`; `f` is left as it was. */
  method Merge(f: Facture, id: int) returns (stored: Facture)
    ensures fresh(stored) && stored.id == Some(id) && CopyOf(stored, f)
  {
    stored := new Facture(0);
    stored.id := Some(id);
    stored.patient := f.patient;
    stored.rendezVous := f.rendezVous;
    stored.dateFacturation := f.dateFacturation;
    stored.montantTotal := f.montantTotal;
    stored.estPayee := f.estPayee;
    stored.typePaiement := f.typePaiement;
    stored.lignes := f.lignes;
  }

  class FacturationService {
    /** The rows `patientDAO.findById` can find. */
    var patients: map<int, Patient>
    /** The rows `factureDAO` has saved, by their generated id. */
    var factures: map<int, Facture>
    /** The id the next saved invoice receives. */
    var nextId: int

    ghost predicate Valid()
      reads this
    {
      nextId >= 1 && forall k :: k in factures ==> 1 <= k < nextId
    }

    constructor (patients: map<int, Patient>)
      ensures Valid() && this.patients == patients && factures == map[]
    {
      this.patients := patients;
      factures := map[];
      nextId := 1;
    }

    /** The row saved under `k` is a copy of `f` that holds the id `k`. */
    ghost predicate StoredCopy(f: Facture, k: int)
      reads this, f, if k in factures then {factures[k]} else {}
    {
      k in factures && factures[k] != f && factures[k].id == Some(k) && CopyOf(factures[k], f)
    }

    /** `creerFacture`: on any rejection nothing is saved and no line is
        touched; otherwise a new invoice for the patient, dated `today`,
        holds exactly the given lines in order, each pointing back to it,
        and its total is the sum of their amounts. `accepted` is whether the
        database accepts the invoice and its lines: if so it is saved under
        a new id, and if not `save` throws a RuntimeException and nothing is
        stored, though the lines keep pointing to the unsaved invoice. */
    method CreerFacture(patientId: Option<int>, lignes: Option<seq<LigneFacture>>, today: int, accepted: bool)
      returns (r: Creation)
      requires Valid()
      modifies this`factures, this`nextId, if lignes.Some? then lignes.value else []
      ensures Valid()
      ensures r.Rejected? <==> old(CreationCheck(patients, patientId, lignes)).Some?
      ensures r.Rejected? ==> Some(r.reason) == old(CreationCheck(patients, patientId, lignes))
      ensures r.Rejected? ==> factures == old(factures) && nextId == old(nextId)
      ensures r.Rejected? && lignes.Some? ==> forall i :: 0 <= i < |lignes.value| ==> unchanged(lignes.value[i])
      ensures !r.Rejected? ==>
        && (r.Created? <==> accepted)
        && lignes.Some? && patientId.Some? && patientId.value in patients
        && fresh(r.facture) && r.facture.id == None
        && Assembled(r.facture, patients[patientId.value], lignes.value, today)
        && (forall i :: 0 <= i < |lignes.value| ==> lignes.value[i].Price() == old(lignes.value[i].Price()))
      ensures r.SaveFailed? ==> factures == old(factures) && nextId == old(nextId)
      ensures r.Created? ==>
        && StoredCopy(r.facture, old(nextId)) && fresh(factures[old(nextId)])
        && factures == old(factures)[old(nextId) := factures[old(nextId)]] && nextId == old(nextId) + 1
    {
      var check := Validate(patientId, lignes);
      if check.Some? {
        return Rejected(check.value);
      }
      var f, saved := Enregistrer(patients[patientId.value], lignes.value, today, accepted);
      r := if saved then Created(f) else SaveFailed(f);
    }

    /** Steps 1 to 3 of `creerFacture`: the list, the amounts line by line,
        then the patient. */
    method Validate(patientId: Option<int>, lignes: Option<seq<LigneFacture>>) returns (r: Option<Rejection>)
      ensures r == CreationCheck(patients, patientId, lignes)
    {
      if lignes.None? || lignes.value == [] {
        return Some(NoLines);
      }
      r := CheckLines(lignes.value);
      if r.Some? {
        return r;
      }
      if patientId.None? || patientId.value !in patients {
        return Some(UnknownPatient);
      }
    }

    /** Steps 4 to 7 of `creerFacture`, once the checks have passed: the
        invoice is assembled from the lines and, when the database accepts
        it, `factureDAO.save` stores a copy of it under the next id; when it
        refuses it (a NOT NULL column left null, say), the transaction is
        rolled back and nothing is stored. The invoice returned is the
        assembled one, which keeps no id. */
    method Enregistrer(patient: Patient, ls: seq<LigneFacture>, today: int, accepted: bool)
      returns (f: Facture, saved: bool)
      requires Valid()
      modifies this`factures, this`nextId, ls
      ensures Valid()
      ensures saved == accepted
      ensures fresh(f) && f.id == None && Assembled(f, patient, ls, today)
      ensures !saved ==> factures == old(factures) && nextId == old(nextId)
      ensures saved ==> StoredCopy(f, old(nextId)) && fresh(factures[old(nextId)])
      ensures saved ==> factures == old(factures)[old(nextId) := factures[old(nextId)]] && nextId == old(nextId) + 1
      ensures forall i :: 0 <= i < |ls| ==> ls[i].Price() == old(ls[i].Price())
    {
      f := Assemble(patient, ls, today);
      if !accepted {
        return f, false;
      }
      saved := true;
      var stored := Merge(f, nextId);
      factures := factures[nextId := stored];
      nextId := nextId + 1;
    }

    /** `marquerCommePayee`: an unknown invoice (or a null id) throws
        `IllegalArgumentException`, an invoice already paid throws
        `IllegalStateException` and stays as it was; otherwise it becomes
        paid with the given payment type, and nothing else changes. */
    method MarquerCommePayee(factureId: Option<int>, typePaiement: Option<TypePaiement>) returns (r: Result<Facture>)
      modifies factures.Values
      ensures r.Fail? <==> factureId.None? || factureId.value !in factures || old(factures[factureId.value].estPayee)
      ensures r.Fail? && (factureId.None? || factureId.value !in factures) ==> r.exc == IllegalArgument
      ensures r.Fail? && factureId.Some? && factureId.value in factures ==> r.exc == IllegalState
      ensures r.Fail? ==> forall f :: f in factures.Values ==> unchanged(f)
      ensures r.Ok? ==>
        && r.value == factures[factureId.value]
        && r.value.estPayee && r.value.typePaiement == typePaiement
        && r.value.id == old(r.value.id) && r.value.lignes == old(r.value.lignes)
        && r.value.montantTotal == old(r.value.montantTotal)
        && r.value.patient == old(r.value.patient)
        && r.value.dateFacturation == old(r.value.dateFacturation)
        && (forall f :: f in factures.Values && f != r.value ==> unchanged(f))
    {
      if factureId.None? || factureId.value !in factures {
        return Fail(IllegalArgument);
      }
      var f := factures[factureId.value];
      if f.estPayee {
        return Fail(IllegalState);
      }
      f.estPayee := true;
      f.typePaiement := typePaiement;
      return Ok(f);
    }
  }
}
