/** The invoice screen of `BillingController`: the statistics, the status and
    date filter, the search by patient name and the date range of the
    financial report and the CSV export.  Amounts are in cents; dates are day
    numbers.  The invoices `getAllFactures` returns are a parameter (that
    method is not part of this model). */
module Billing {
  import opened Common
  import opened Entities
  import opened Invoice

  // ---------------------------------------------------------------------------
  // updateStatistics

  /** The paid invoices among the first `n`. */
  function PaidCount(fs: seq<Facture>, n: nat): (c: nat)
    requires n <= |fs|
    reads fs
    ensures c <= n
  {
    if n == 0 then 0 else PaidCount(fs, n - 1) + (if fs[n - 1].estPayee then 1 else 0)
  }

  /** The unpaid invoices among the first `n`. */
  function UnpaidCount(fs: seq<Facture>, n: nat): (c: nat)
    requires n <= |fs|
    reads fs
    ensures c + PaidCount(fs, n) == n
  {
    if n == 0 then 0 else UnpaidCount(fs, n - 1) + (if fs[n - 1].estPayee then 0 else 1)
  }

  /** The revenue of the first `n` invoices: the totals of the paid ones
      that have a total. */
  function Revenue(fs: seq<Facture>, n: nat): int
    requires n <= |fs|
    reads fs
  {
    if n == 0 then 0
    else Revenue(fs, n - 1) + (if fs[n - 1].estPayee && fs[n - 1].montantTotal.Some? then fs[n - 1].montantTotal.value else 0)
  }

  /** With no negative total among the invoices, the revenue is never
      negative. */
  lemma {:induction false} RevenueNonNegative(fs: seq<Facture>, n: nat)
    requires n <= |fs|
    requires forall i :: 0 <= i < n && fs[i].montantTotal.Some? ==> fs[i].montantTotal.value >= 0
    ensures Revenue(fs, n) >= 0
    ensures PaidCount(fs, n) == 0 ==> Revenue(fs, n) == 0
  {
    if n > 0 {
      RevenueNonNegative(fs, n - 1);
    }
  }

  /** `BigDecimal.divide(d, 2, HALF_UP)` on cents: the quotient rounded to the
      nearest cent, a tie rounded away from zero. */
  function RoundHalfUp(a: int, d: int): (q: int)
    requires d > 0
    ensures 2 * (if a >= q * d then a - q * d else q * d - a) <= d
    ensures 2 * (if a >= q * d then a - q * d else q * d - a) == d ==> (if a >= 0 then q * d > a else q * d < a)
    ensures (a >= 0 <==> q >= 0) || (a < 0 && q == 0)
  {
    if a >= 0 then (2 * a + d) / (2 * d) else -((2 * (-a) + d) / (2 * d))
  }

  /** The figures `updateStatistics` shows. */
  datatype Statistics = Statistics(totalRevenue: int, paidCount: nat, unpaidCount: nat, average: int)

  /** The loop of `updateStatistics`, then the average of the paid
      invoices (zero when none is paid). */
  method UpdateStatistics(allInvoices: seq<Facture>) returns (st: Statistics)
    ensures st.paidCount == PaidCount(allInvoices, |allInvoices|)
    ensures st.unpaidCount == UnpaidCount(allInvoices, |allInvoices|)
    ensures st.paidCount + st.unpaidCount == |allInvoices|
    ensures st.totalRevenue == Revenue(allInvoices, |allInvoices|)
    ensures st.average == (if st.paidCount > 0 then RoundHalfUp(st.totalRevenue, st.paidCount) else 0)
  {
    var totalRevenue := 0;
    var paidCount: nat := 0;
    var unpaidCount: nat := 0;
    for i := 0 to |allInvoices|
      invariant paidCount == PaidCount(allInvoices, i)
      invariant unpaidCount == UnpaidCount(allInvoices, i)
      invariant totalRevenue == Revenue(allInvoices, i)
    {
      var f := allInvoices[i];
      if f.estPayee {
        paidCount := paidCount + 1;
        if f.montantTotal.Some? {
          totalRevenue := totalRevenue + f.montantTotal.value;
        }
      } else {
        unpaidCount := unpaidCount + 1;
      }
    }
    var average := if paidCount > 0 then RoundHalfUp(totalRevenue, paidCount) else 0;
    return Statistics(totalRevenue, paidCount, unpaidCount, average);
  }

  // ---------------------------------------------------------------------------
  // filterInvoices

  const ALL_STATUSES: string := "Tous les statuts"
  const PAID: string := "Payée"
  const PENDING: string := "En attente"

  /** The test `filterInvoices` applies to one invoice: the selected status,
      then the start and the end date (both included, and ignored for an
      invoice without a date or when no date is picked). */
  predicate Shown(f: Facture, status: Option<string>, startDate: Option<int>, endDate: Option<int>)
    reads f
  {
    && !(status.Some? && status.value != ALL_STATUSES && status.value == PAID && !f.estPayee)
    && !(status.Some? && status.value != ALL_STATUSES && status.value == PENDING && f.estPayee)
    && !(startDate.Some? && f.dateFacturation.Some? && f.dateFacturation.value < startDate.value)
    && !(endDate.Some? && f.dateFacturation.Some? && f.dateFacturation.value > endDate.value)
  }

  /** What each status choice keeps. */
  lemma ShownByStatus(f: Facture, status: Option<string>)
    ensures Shown(f, Some(PAID), None, None) <==> f.estPayee
    ensures Shown(f, Some(PENDING), None, None) <==> !f.estPayee
    ensures Shown(f, Some(ALL_STATUSES), None, None) && Shown(f, None, None, None)
    ensures status.Some? && status.value !in {PAID, PENDING} ==> Shown(f, status, None, None)
  {
  }

  /** The dates are compared inclusively, and an undated invoice passes any
      date range. */
  lemma ShownByDate(f: Facture, status: Option<string>, startDate: int, endDate: int)
    requires Shown(f, status, None, None)
    ensures f.dateFacturation.None? ==> Shown(f, status, Some(startDate), Some(endDate))
    ensures f.dateFacturation.Some? ==>
      (Shown(f, status, Some(startDate), Some(endDate)) <==> startDate <= f.dateFacturation.value <= endDate)
  {
  }

  /** `allInvoices.stream().filter(...)`: the invoices shown, in order. */
  function FilterInvoices(fs: seq<Facture>, status: Option<string>, startDate: Option<int>, endDate: Option<int>)
    : (r: seq<Facture>)
    reads fs
    ensures |r| <= |fs|
    ensures forall i :: 0 <= i < |r| ==> r[i] in fs && Shown(r[i], status, startDate, endDate)
    ensures forall i :: 0 <= i < |fs| && Shown(fs[i], status, startDate, endDate) ==> fs[i] in r
    decreases |fs|
  {
    if fs == [] then []
    else
      var rest := FilterInvoices(fs[1..], status, startDate, endDate);
      assert forall i :: 1 <= i < |fs| ==> fs[i] == fs[1..][i - 1];
      if Shown(fs[0], status, startDate, endDate) then [fs[0]] + rest else rest
  }

  // ---------------------------------------------------------------------------
  // handleSearchInvoices

  /** An invoice a non-blank search finds: it has a patient whose full name,
      lower-cased, contains the lower-cased text. */
  predicate Found(f: Facture, text: string)
    reads f
  {
    f.patient.Some? && Contains(ToLower(PatientName(f.patient.value)), ToLower(text))
  }

  /** `handleSearchInvoices` on the current list: null or blank text shows
      the whole list; otherwise the invoices found, in order. */
  function SearchInvoices(invoiceList: seq<Facture>, searchText: Option<string>): (r: seq<Facture>)
    reads invoiceList
    ensures searchText.None? || IsBlank(searchText.value) ==> r == invoiceList
    ensures |r| <= |invoiceList|
    ensures searchText.Some? && !IsBlank(searchText.value) ==>
      && (forall i :: 0 <= i < |r| ==> r[i] in invoiceList && Found(r[i], searchText.value))
      && (forall i :: 0 <= i < |invoiceList| && Found(invoiceList[i], searchText.value) ==> invoiceList[i] in r)
  {
    if searchText.None? || IsBlank(searchText.value) then invoiceList
    else FoundAmong(invoiceList, searchText.value)
  }

  function FoundAmong(fs: seq<Facture>, text: string): (r: seq<Facture>)
    reads fs
    ensures |r| <= |fs|
    ensures forall i :: 0 <= i < |r| ==> r[i] in fs && Found(r[i], text)
    ensures forall i :: 0 <= i < |fs| && Found(fs[i], text) ==> fs[i] in r
    decreases |fs|
  {
    if fs == [] then []
    else
      var rest := FoundAmong(fs[1..], text);
      assert forall i :: 1 <= i < |fs| ==> fs[i] == fs[1..][i - 1];
      if Found(fs[0], text) then [fs[0]] + rest else rest
  }

  /** The search does not look at case. */
  lemma SearchIgnoresCase(f: Facture, text: string)
    ensures Found(f, ToUpper(text)) <==> Found(f, text)
  {
    forall i | 0 <= i < |text| ensures ToLower(ToUpper(text))[i] == ToLower(text)[i] {
      assert ToUpper(text)[i] == UpperChar(text[i]);
    }
    assert ToLower(ToUpper(text)) == ToLower(text);
  }

  class BillingController {
    /** The list the filters leave, which the search starts from. */
    var invoiceList: seq<Facture>
    /** The rows of `invoiceTable`. */
    var table: seq<Facture>

    constructor (allInvoices: seq<Facture>)
      ensures invoiceList == allInvoices && table == allInvoices
    {
      invoiceList := allInvoices;
      table := allInvoices;
    }

    /** `filterInvoices`: the list and the table become the invoices shown. */
    method HandleFilter(allInvoices: seq<Facture>, status: Option<string>, startDate: Option<int>, endDate: Option<int>)
      modifies this`invoiceList, this`table
      ensures invoiceList == FilterInvoices(allInvoices, status, startDate, endDate)
      ensures table == invoiceList
    {
      invoiceList := FilterInvoices(allInvoices, status, startDate, endDate);
      table := invoiceList;
    }

    /** `handleSearchInvoices`: only the table changes, so clearing the
        search brings back the filtered list. */
    method HandleSearch(searchText: Option<string>)
      modifies this`table
      ensures table == SearchInvoices(invoiceList, searchText)
      ensures searchText.None? || IsBlank(searchText.value) ==> table == invoiceList
    {
      table := SearchInvoices(invoiceList, searchText);
    }
  }

  // ---------------------------------------------------------------------------
  // handleGenerateReport / handleExportFinancial

  /** What the date dialog of the report and of the export gives. */
  datatype ReportSelection =
    | MissingDates              // "Veuillez selectionner les dates"
    | StartAfterEnd             // "La date de debut doit etre avant la date de fin"
    | Selected(invoices: seq<Facture>)

  /** Dated invoices whose date is in [startDate, endDate], in order. */
  function DatedWithin(fs: seq<Facture>, startDate: int, endDate: int): (r: seq<Facture>)
    reads fs
    ensures |r| <= |fs|
    ensures forall i :: 0 <= i < |r| ==>
      r[i] in fs && r[i].dateFacturation.Some? && startDate <= r[i].dateFacturation.value <= endDate
    ensures forall i :: 0 <= i < |fs| && fs[i].dateFacturation.Some? && startDate <= fs[i].dateFacturation.value <= endDate ==>
      fs[i] in r
    decreases |fs|
  {
    if fs == [] then []
    else
      var rest := DatedWithin(fs[1..], startDate, endDate);
      assert forall i :: 1 <= i < |fs| ==> fs[i] == fs[1..][i - 1];
      if fs[0].dateFacturation.Some? && startDate <= fs[0].dateFacturation.value <= endDate then [fs[0]] + rest else rest
  }

  /** The checks on the two picked dates, then the selection of invoices. */
  function ReportInvoices(allInvoices: seq<Facture>, startDate: Option<int>, endDate: Option<int>): (r: ReportSelection)
    reads allInvoices
    ensures r == MissingDates <==> startDate.None? || endDate.None?
    ensures r == StartAfterEnd <==> startDate.Some? && endDate.Some? && startDate.value > endDate.value
    ensures r.Selected? ==> r.invoices == DatedWithin(allInvoices, startDate.value, endDate.value)
  {
    if startDate.None? || endDate.None? then MissingDates
    else if startDate.value > endDate.value then StartAfterEnd
    else Selected(DatedWithin(allInvoices, startDate.value, endDate.value))
  }

  /** The report keeps fewer invoices than the screen filter on the same
      range: both keep the dated invoices in range, but only the screen
      keeps the undated ones. */
  lemma ReportWithinScreen(fs: seq<Facture>, startDate: int, endDate: int, i: nat)
    requires i < |fs|
    ensures fs[i] in DatedWithin(fs, startDate, endDate) ==> fs[i] in FilterInvoices(fs, None, Some(startDate), Some(endDate))
    ensures fs[i].dateFacturation.None? ==>
      fs[i] !in DatedWithin(fs, startDate, endDate) && fs[i] in FilterInvoices(fs, None, Some(startDate), Some(endDate))
  {
    if fs[i] in DatedWithin(fs, startDate, endDate) {
      var r := DatedWithin(fs, startDate, endDate);
      var k :| 0 <= k < |r| && r[k] == fs[i];
    }
  }
}
