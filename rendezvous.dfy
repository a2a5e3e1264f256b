/** `RendezVous`: its constructors, its duration and its own overlap test. */
module RendezVousModel {
  import opened Common
  import opened Entities

  /** `new RendezVous()`: every field null except the status, PLANIFIE. */
  function Empty(): (r: RendezVous)
    ensures r.status == Some(PLANIFIE)
    ensures r.id.None? && r.patient.None? && r.medecin.None?
    ensures r.start.None? && r.end.None? && r.motif.None?
  {
    RendezVous(None, None, None, None, None, Some(PLANIFIE), None)
  }

  /** The five-argument constructor: the given fields, no id, PLANIFIE. */
  function Create(patient: Option<Patient>, medecin: Option<Medecin>, debut: Option<int>,
                  fin: Option<int>, motif: Option<string>): (r: RendezVous)
    ensures r.status == Some(PLANIFIE) && r.id.None?
    ensures r.patient == patient && r.medecin == medecin
    ensures r.start == debut && r.end == fin && r.motif == motif
  {
    Empty().(patient := patient, medecin := medecin, start := debut, end := fin, motif := motif)
  }

  /** `getDuree`, in seconds: `Duration.ZERO` unless both bounds are set. */
  function Duree(r: RendezVous): (d: int)
    ensures r.start.Some? && r.end.Some? ==> r.start.value + d == r.end.value
    ensures r.start.None? || r.end.None? ==> d == 0
  {
    if r.start.Some? && r.end.Some? then r.end.value - r.start.value else 0
  }

  /** Both bounds of the appointment are set. */
  predicate Bounded(r: RendezVous) {
    r.start.Some? && r.end.Some?
  }

  /** `this.isOverlap(other)`: a missing doctor is a NullPointerException;
      appointments of different doctors never overlap, whatever their
      bounds; for one doctor every bound is read, so a missing one is a
      NullPointerException, and otherwise this appointment overlaps when it
      starts strictly inside the other, ends strictly inside it, or has
      exactly its bounds. */
  function IsOverlap(r: RendezVous, other: RendezVous): (res: Result<bool>)
    ensures res.Fail? ==> res.exc == NullPointer
    ensures res.Fail? <==>
      r.medecin.None? || other.medecin.None? ||
      (r.medecin.value.id == other.medecin.value.id && !(Bounded(r) && Bounded(other)))
  {
    if r.medecin.None? || other.medecin.None? then Fail(NullPointer)
    else if r.medecin.value.id != other.medecin.value.id then Ok(false)
    else if !Bounded(r) || !Bounded(other) then Fail(NullPointer)
    else
      var s1, e1, s2, e2 := r.start.value, r.end.value, other.start.value, other.end.value;
      var startsDuring := s1 < e2 && s1 > s2;
      var endsDuring := e1 > s2 && e1 < e2;
      var containsOther := s1 == s2 && e1 == e2;
      Ok(startsDuring || endsDuring || containsOther)
  }

  /** An appointment of another doctor never overlaps, in either order of
      the call, even when a bound is missing. */
  lemma DifferentDoctorsNeverOverlap(a: RendezVous, b: RendezVous)
    requires a.medecin.Some? && b.medecin.Some?
    requires a.medecin.value.id != b.medecin.value.id
    ensures IsOverlap(a, b) == Ok(false) && IsOverlap(b, a) == Ok(false)
  {
  }

  /** Same doctor: identical bounds, a start strictly inside, or an end
      strictly inside the other interval are each reported. */
  lemma OverlapCases(a: RendezVous, b: RendezVous)
    requires a.medecin.Some? && b.medecin.Some? && a.medecin.value.id == b.medecin.value.id
    requires Bounded(a) && Bounded(b)
    ensures a.start == b.start && a.end == b.end ==> IsOverlap(a, b) == Ok(true)
    ensures b.start.value < a.start.value < b.end.value ==> IsOverlap(a, b) == Ok(true)
    ensures b.start.value < a.end.value < b.end.value ==> IsOverlap(a, b) == Ok(true)
  {
  }

  /** Back-to-back appointments (one ends when the other starts) do not
      overlap, in either order of the call, when each is a proper interval. */
  lemma BackToBackNoOverlap(a: RendezVous, b: RendezVous)
    requires a.medecin.Some? && b.medecin.Some? && Bounded(a) && Bounded(b)
    requires a.start.value < a.end.value && b.start.value < b.end.value
    requires a.end.value == b.start.value
    ensures IsOverlap(a, b) == Ok(false) && IsOverlap(b, a) == Ok(false)
  {
  }

  /** Every overlap `isOverlap` reports is between two appointments of the
      same doctor with all bounds set, and between proper intervals it is a
      genuine intersection. */
  lemma OverlapIsIntersection(a: RendezVous, b: RendezVous)
    requires IsOverlap(a, b) == Ok(true)
    ensures a.medecin.Some? && b.medecin.Some? && a.medecin.value.id == b.medecin.value.id
    ensures Bounded(a) && Bounded(b)
    ensures a.start.value < a.end.value && b.start.value < b.end.value ==>
      a.start.value < b.end.value && b.start.value < a.end.value
  {
  }

  /** `isOverlap` is not symmetric: a visit that strictly contains another
      is not reported as overlapping it, although the reverse call is. */
  lemma OverlapNotSymmetric()
    ensures var m := Medecin(1, "", "", None, None, None);
            var outer := Create(None, Some(m), Some(0), Some(3600), None);
            var inner := Create(None, Some(m), Some(600), Some(1200), None);
            IsOverlap(outer, inner) == Ok(false) && IsOverlap(inner, outer) == Ok(true)
  {
  }
}
