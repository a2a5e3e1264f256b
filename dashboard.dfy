/** `DashboardService`: the figures of the home screen, which depend on the
    role of the logged-in user.  The lists the service fetches (all
    patients, doctors and invoices, the appointments the user may see, the
    stored appointment rows, the unpaid invoices) and today's date are
    parameters. */
module Dashboard {
  import opened Common
  import opened Entities
  import opened Time
  import opened Invoice
  import RendezVousDao

  /** `getAllAppointmentsForDateRange`: the appointments with a start in
      [start, end], both bounds included, in their original order. */
  function AppointmentsForDateRange(rows: seq<RendezVous>, start: int, end: int): (r: seq<RendezVous>)
    ensures forall i :: 0 <= i < |r| ==> r[i] in rows && r[i].start.Some? && start <= r[i].start.value <= end
    ensures forall i :: 0 <= i < |rows| && rows[i].start.Some? && start <= rows[i].start.value <= end ==> rows[i] in r
    ensures |r| <= |rows|
  {
    Filter(rows, (x: RendezVous) => x.start.Some? && start <= x.start.value <= end)
  }

  /** An invoice that counts toward the revenue of [startDate, endDate]:
      paid and dated within the range. */
  predicate Counted(f: Facture, startDate: int, endDate: int)
    reads f
  {
    f.dateFacturation.Some? && startDate <= f.dateFacturation.value <= endDate && f.estPayee
  }

  /** The sum of the totals of the counted invoices, a null total taken as
      zero. */
  function PaidSum(fs: seq<Facture>, startDate: int, endDate: int): int
    reads fs
    decreases |fs|
  {
    if fs == [] then 0
    else (if Counted(fs[0], startDate, endDate) && fs[0].montantTotal.Some? then fs[0].montantTotal.value else 0)
         + PaidSum(fs[1..], startDate, endDate)
  }

  /** `calculateMonthlyRevenue`: the totals of the counted invoices added to
      zero; a counted invoice with a null total makes `add` throw. */
  function MonthlyRevenue(fs: seq<Facture>, startDate: int, endDate: int): (r: Result<int>)
    reads fs
    ensures r.Fail? <==> exists i :: 0 <= i < |fs| && Counted(fs[i], startDate, endDate) && fs[i].montantTotal.None?
    ensures r.Fail? ==> r.exc == NullPointer
    ensures r.Ok? ==> r.value == PaidSum(fs, startDate, endDate)
    decreases |fs|
  {
    if fs == [] then Ok(0)
    else
      var rest := MonthlyRevenue(fs[1..], startDate, endDate);
      assert forall i :: 1 <= i < |fs| ==> fs[i] == fs[1..][i - 1];
      if !Counted(fs[0], startDate, endDate) then rest
      else if fs[0].montantTotal.None? then Fail(NullPointer)
      else if rest.Fail? then rest
      else Ok(fs[0].montantTotal.value + rest.value)
  }

  /** Unpaid invoices, and those dated outside the range or not dated, add
      nothing to the revenue. */
  lemma {:induction false} UncountedAddNothing(fs: seq<Facture>, f: Facture, startDate: int, endDate: int)
    requires !Counted(f, startDate, endDate)
    ensures MonthlyRevenue(fs + [f], startDate, endDate) == MonthlyRevenue(fs, startDate, endDate)
    decreases |fs|
  {
    if fs == [] {
      assert [f][1..] == [];
    } else {
      assert (fs + [f])[1..] == fs[1..] + [f];
      UncountedAddNothing(fs[1..], f, startDate, endDate);
    }
  }

  /** `stream().distinct()`: the first occurrence of each value, in order. */
  function Distinct<T(==)>(s: seq<T>): (r: seq<T>)
    ensures |r| <= |s|
    ensures forall i :: 0 <= i < |r| ==> r[i] in s
    ensures forall i :: 0 <= i < |s| ==> s[i] in r
    ensures forall i, j :: 0 <= i < j < |r| ==> r[i] != r[j]
    decreases |s|
  {
    if s == [] then []
    else
      var d := Distinct(s[..|s| - 1]);
      assert forall i :: 0 <= i < |s| - 1 ==> s[i] == s[..|s| - 1][i];
      if s[|s| - 1] in d then d else d + [s[|s| - 1]]
  }

  function PatientOf(r: RendezVous): Option<Patient> { r.patient }

  /** The number of distinct patients among `appts` (a missing patient
      counts as one value). */
  function UniquePatients(appts: seq<RendezVous>): (n: nat)
    ensures n <= |appts|
    ensures |appts| > 0 ==> n >= 1
  {
    var ps := seq(|appts|, i requires 0 <= i < |appts| => PatientOf(appts[i]));
    var d := Distinct(ps);
    assert |appts| > 0 ==> ps[0] in d;
    |d|
  }

  /** `DashboardStats`; a figure the role does not see is null. */
  datatype DashboardStats = DashboardStats(
    totalPatients: Option<int>,
    todayAppointments: Option<int>,
    monthlyRevenue: Option<int>,
    activeDoctors: Option<int>,
    unpaidInvoices: Option<int>,
    patientsTodayForDoctor: Option<int>,
    medecin: Option<Medecin>)

  /** `getDashboardStats` on `today`, whose month runs from `monthStart` to
      `monthEnd`.  `visible` is what `findAll` returns to the user, `stored`
      the appointment rows the DAO queries, `invoices` all invoices and
      `unpaid` the number of unpaid ones. */
  function GetDashboardStats(session: Option<User>, today: int, monthStart: int, monthEnd: int,
                             patients: nat, doctors: nat, visible: seq<RendezVous>, stored: seq<RendezVous>,
                             invoices: seq<Facture>, unpaid: nat): (r: Result<DashboardStats>)
    reads invoices
    ensures session.None? ==> r == Fail(IllegalState)
    ensures session.Some? && session.value.role == MEDECIN && session.value.medecin.None? ==> r == Fail(IllegalState)
    ensures r.Ok? ==> session.Some? && r.value.todayAppointments.Some?
    ensures r.Ok? && session.value.role != MEDECIN ==>
      r.value.todayAppointments == Some(|AppointmentsForDateRange(visible, StartOfDay(today), EndOfDay(today))|)
    ensures r.Ok? && session.value.role == ADMIN ==>
      && r.value.totalPatients == Some(patients) && r.value.activeDoctors == Some(doctors)
      && r.value.unpaidInvoices == Some(unpaid)
      && r.value.monthlyRevenue == Some(PaidSum(invoices, monthStart, monthEnd))
      && r.value.patientsTodayForDoctor.None? && r.value.medecin.None?
    ensures session.Some? && session.value.role == ADMIN ==>
      (r.Fail? <==> MonthlyRevenue(invoices, monthStart, monthEnd).Fail?)
    ensures r.Ok? && session.value.role == MEDECIN ==>
      && r.value.medecin == session.value.medecin
      && r.value.patientsTodayForDoctor.Some? && r.value.patientsTodayForDoctor.value <= r.value.todayAppointments.value
      && r.value.totalPatients.None? && r.value.monthlyRevenue.None? && r.value.unpaidInvoices.None?
    ensures r.Ok? && session.value.role == SEC ==>
      && r.value.unpaidInvoices == Some(unpaid)
      && r.value.totalPatients.None? && r.value.monthlyRevenue.None? && r.value.medecin.None?
  {
    if session.None? then Fail(IllegalState)
    else
      var dayStart := StartOfDay(today);
      var dayEnd := EndOfDay(today);
      match session.value.role
      case ADMIN =>
        var todays := AppointmentsForDateRange(visible, dayStart, dayEnd);
        var revenue := MonthlyRevenue(invoices, monthStart, monthEnd);
        if revenue.Fail? then Fail(revenue.exc)
        else Ok(DashboardStats(Some(patients), Some(|todays|), Some(revenue.value), Some(doctors), Some(unpaid), None, None))
      case MEDECIN =>
        if session.value.medecin.None? then Fail(IllegalState)
        else
          var m := session.value.medecin.value;
          var todays := RendezVousDao.FindByMedecinAndDateRange(stored, m.id, dayStart, dayEnd);
          Ok(DashboardStats(None, Some(|todays|), None, None, None, Some(UniquePatients(todays)), Some(m)))
      case SEC =>
        var todays := AppointmentsForDateRange(visible, dayStart, dayEnd);
        Ok(DashboardStats(None, Some(|todays|), None, None, Some(unpaid), None, None))
  }
}
