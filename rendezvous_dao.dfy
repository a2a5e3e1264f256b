/** The appointment queries of `RendezVousDAO`, over the table as a sequence
    of rows. A row whose compared column is null fails the comparison, as in
    SQL. */
module RendezVousDao {
  import opened Common
  import opened Entities

  /** The half-open intervals [s1, e1) and [s2, e2) intersect. */
  predicate Intersects(s1: int, e1: int, s2: int, e2: int) {
    s1 < e2 && e1 > s2
  }

  lemma IntersectsSymmetric(s1: int, e1: int, s2: int, e2: int)
    ensures Intersects(s1, e1, s2, e2) <==> Intersects(s2, e2, s1, e1)
  {
  }

  /** `r.medecin = :medecin`. */
  predicate OfMedecin(r: RendezVous, medecinId: int) {
    r.medecin.Some? && r.medecin.value.id == medecinId
  }

  /** The WHERE clause of `countConflictingAppointments`, with the id to
      exclude already resolved (-1 on creation). */
  predicate Conflicts(r: RendezVous, medecinId: int, newStart: int, newEnd: int, excludedId: int) {
    && OfMedecin(r, medecinId)
    && r.id.Some? && r.id.value != excludedId
    && r.start.Some? && r.end.Some?
    && Intersects(r.start.value, r.end.value, newStart, newEnd)
  }

  /** `currentRdvId != null ? currentRdvId : -1L`. */
  function ExcludedId(currentRdvId: Option<int>): int {
    if currentRdvId.Some? then currentRdvId.value else -1
  }

  /** `countConflictingAppointments(medecin, newStart, newEnd, currentRdvId)`. */
  function CountConflicting(rows: seq<RendezVous>, medecinId: int, newStart: int, newEnd: int,
                            currentRdvId: Option<int>): (n: nat)
    ensures n <= |rows|
  {
    var x := ExcludedId(currentRdvId);
    Count(rows, (r: RendezVous) => Conflicts(r, medecinId, newStart, newEnd, x))
  }

  /** The count is zero iff no row conflicts. */
  lemma {:induction false} CountZeroIff(rows: seq<RendezVous>, medecinId: int, newStart: int, newEnd: int,
                                        currentRdvId: Option<int>)
    ensures CountConflicting(rows, medecinId, newStart, newEnd, currentRdvId) == 0
      <==> forall i :: 0 <= i < |rows| ==>
             !Conflicts(rows[i], medecinId, newStart, newEnd, ExcludedId(currentRdvId))
  {
    var x := ExcludedId(currentRdvId);
    var p := (r: RendezVous) => Conflicts(r, medecinId, newStart, newEnd, x);
    var f := Filter(rows, p);
    if |f| == 0 {
      forall i | 0 <= i < |rows| ensures !p(rows[i]) {
      }
    } else {
      assert f[0] in rows && p(f[0]);
      var i :| 0 <= i < |rows| && rows[i] == f[0];
      assert p(rows[i]);
    }
  }

  /** The row being edited is never counted against itself. */
  lemma EditedRowExcluded(r: RendezVous, medecinId: int, newStart: int, newEnd: int)
    requires r.id.Some?
    ensures !Conflicts(r, medecinId, newStart, newEnd, ExcludedId(r.id))
  {
  }

  /** On creation no stored row is excluded: with positive generated ids the
      conflict is exactly same doctor and intersecting bounds. */
  lemma CreationExcludesNothing(r: RendezVous, medecinId: int, newStart: int, newEnd: int)
    requires r.id.Some? && r.id.value >= 1
    ensures Conflicts(r, medecinId, newStart, newEnd, ExcludedId(None))
      <==> OfMedecin(r, medecinId) && r.start.Some? && r.end.Some?
           && Intersects(r.start.value, r.end.value, newStart, newEnd)
  {
  }

  /** Touching intervals never conflict: a row ending exactly when the new
      slot starts, or starting exactly when it ends. */
  lemma TouchingNeverConflicts(r: RendezVous, medecinId: int, newStart: int, newEnd: int, x: int)
    requires r.start.Some? && r.end.Some? && r.start.value <= r.end.value && newStart <= newEnd
    requires r.end.value == newStart || r.start.value == newEnd
    ensures !Conflicts(r, medecinId, newStart, newEnd, x)
  {
  }

  /** The conflict test is symmetric in the stored and the new interval. */
  lemma ConflictSymmetric(r: RendezVous, s: RendezVous, medecinId: int, x: int)
    requires r.start.Some? && r.end.Some? && s.start.Some? && s.end.Some?
    requires OfMedecin(r, medecinId) && OfMedecin(s, medecinId)
    requires r.id.Some? && r.id.value != x && s.id.Some? && s.id.value != x
    ensures Conflicts(r, medecinId, s.start.value, s.end.value, x)
      <==> Conflicts(s, medecinId, r.start.value, r.end.value, x)
  {
  }

  function StartKey(r: RendezVous): int {
    if r.start.Some? then r.start.value else 0
  }

  /** `r.medecin = :medecin AND r.dateHeureDebut BETWEEN :debut AND :fin`. */
  predicate InRange(r: RendezVous, medecinId: int, debut: int, fin: int) {
    OfMedecin(r, medecinId) && r.start.Some? && debut <= r.start.value <= fin
  }

  /** `findByMedecinAndDateRange`: the rows of the doctor starting within
      [debut, fin], both bounds included, by ascending start. */
  function FindByMedecinAndDateRange(rows: seq<RendezVous>, medecinId: int, debut: int, fin: int)
    : (r: seq<RendezVous>)
    ensures forall i :: 0 <= i < |r| ==> r[i] in rows && InRange(r[i], medecinId, debut, fin)
    ensures forall i :: 0 <= i < |rows| && InRange(rows[i], medecinId, debut, fin) ==> rows[i] in r
    ensures multiset(r) == multiset(Filter(rows, (x: RendezVous) => InRange(x, medecinId, debut, fin)))
    ensures SortedBy(r, StartKey)
  {
    SortedFilter(rows, (x: RendezVous) => InRange(x, medecinId, debut, fin), StartKey)
  }

  /** `countByMedecin`. */
  function CountByMedecin(rows: seq<RendezVous>, medecinId: int): (n: nat)
    ensures n <= |rows|
    ensures n == 0 <==> forall i :: 0 <= i < |rows| ==> !OfMedecin(rows[i], medecinId)
  {
    var f := Filter(rows, (x: RendezVous) => OfMedecin(x, medecinId));
    assert |f| > 0 ==> f[0] in rows && OfMedecin(f[0], medecinId);
    |f|
  }
}
