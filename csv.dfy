/** `CsvService`: field escaping, a reader for the escaped rows, and the rows
    each `export*` method prints. A file is modelled as the sequence of the
    lines `println` writes; the date formatters (`dd/MM/yyyy` and
    `dd/MM/yyyy HH:mm`) are the parameters `fmtDate` and `fmtDateTime`. */
module Csv {
  import opened Common
  import opened Entities
  import opened Time
  import opened RendezVousModel
  import opened Invoice

  // ---------------------------------------------------------------------------
  // Escaping

  /** The characters that make `escapeCsv` quote a value. */
  predicate NeedsQuoting(v: string) {
    ',' in v || '"' in v || '\n' in v || '\r' in v
  }

  /** `value.replace("\"", "\"\"")`. */
  function DoubleQuotes(v: string): string {
    if v == [] then []
    else (if v[0] == '"' then "\"\"" else [v[0]]) + DoubleQuotes(v[1..])
  }

  /** `escapeCsv(value)`, null being None. */
  function EscapeCsv(value: Option<string>): string {
    if value.None? then ""
    else if NeedsQuoting(value.value) then "\"" + DoubleQuotes(value.value) + "\""
    else value.value
  }

  /** Every pair of quotes stands for one. */
  function UndoubleQuotes(s: string): string {
    if s == [] then []
    else if |s| >= 2 && s[0] == '"' && s[1] == '"' then "\"" + UndoubleQuotes(s[2..])
    else [s[0]] + UndoubleQuotes(s[1..])
  }

  /** Stripping the surrounding quotes of a quoted field and undoubling the
      quotes inside it. */
  function UnescapeCsv(field: string): string {
    if |field| >= 2 && field[0] == '"' && field[|field| - 1] == '"' then UndoubleQuotes(field[1..|field| - 1])
    else field
  }

  lemma {:induction false} UndoubleDoubled(v: string)
    ensures UndoubleQuotes(DoubleQuotes(v)) == v
  {
    if v != [] {
      var rest := DoubleQuotes(v[1..]);
      UndoubleDoubled(v[1..]);
      if v[0] == '"' {
        assert ("\"\"" + rest)[2..] == rest;
      } else {
        assert ([v[0]] + rest)[1..] == rest;
      }
      assert v == [v[0]] + v[1..];
    }
  }

  /** Escaping is undone by stripping the quotes and undoubling. */
  lemma EscapeInvertible(v: string)
    ensures UnescapeCsv(EscapeCsv(Some(v))) == v
  {
    if NeedsQuoting(v) {
      var e := EscapeCsv(Some(v));
      assert e[1..|e| - 1] == DoubleQuotes(v);
      UndoubleDoubled(v);
    }
  }

  // ---------------------------------------------------------------------------
  // Reading an escaped row back

  /** The content of a quoted field after its opening quote: two quotes
      stand for one, a single quote closes the field. Returns the content
      and the text after the closing quote. */
  function ReadQuoted(s: string): (r: (string, string))
    ensures |r.1| <= |s|
  {
    if s == [] then ([], [])
    else if s[0] == '"' then
      if |s| >= 2 && s[1] == '"' then
        var (c, rest) := ReadQuoted(s[2..]);
        ("\"" + c, rest)
      else ([], s[1..])
    else
      var (c, rest) := ReadQuoted(s[1..]);
      ([s[0]] + c, rest)
  }

  /** An unquoted field: the text up to the next comma. */
  function ReadUnquoted(s: string): (r: (string, string))
    ensures |r.1| <= |s|
    ensures r.1 == [] || r.1[0] == ','
  {
    if s == [] || s[0] == ',' then ([], s)
    else
      var (c, rest) := ReadUnquoted(s[1..]);
      ([s[0]] + c, rest)
  }

  /** One field and the text from the comma that ends it. */
  function ReadField(s: string): (r: (string, string))
    ensures |r.1| <= |s|
    ensures r.1 == [] || r.1[0] == ','
  {
    if s != [] && s[0] == '"' then
      var (c, rest) := ReadQuoted(s[1..]);
      (c, ReadUnquoted(rest).1)
    else ReadUnquoted(s)
  }

  /** The fields of a CSV row, as a reader following the quoting rule of
      `escapeCsv` splits them. */
  function ReadRow(s: string): (r: seq<string>)
    ensures |r| >= 1
    decreases |s|
  {
    var (field, rest) := ReadField(s);
    if rest == [] then [field] else [field] + ReadRow(rest[1..])
  }

  /** `String.join(",", fields)`. */
  function JoinComma(fields: seq<string>): string {
    if |fields| <= 1 then (if fields == [] then "" else fields[0])
    else fields[0] + "," + JoinComma(fields[1..])
  }

  /** An escaped field's value, null read as empty. */
  function Plain(v: Option<string>): string {
    if v.Some? then v.value else ""
  }

  /** A printed row: the escaped values joined by commas. */
  function Row(values: seq<Option<string>>): string {
    JoinComma(Escaped(values))
  }

  function Escaped(values: seq<Option<string>>): (r: seq<string>)
    ensures |r| == |values|
    ensures forall i :: 0 <= i < |values| ==> r[i] == EscapeCsv(values[i])
  {
    if values == [] then [] else [EscapeCsv(values[0])] + Escaped(values[1..])
  }

  function Plains(values: seq<Option<string>>): (r: seq<string>)
    ensures |r| == |values|
    ensures forall i :: 0 <= i < |values| ==> r[i] == Plain(values[i])
  {
    if values == [] then [] else [Plain(values[0])] + Plains(values[1..])
  }

  lemma ReadQuotedDoubled(v: string, t: string)
    requires t == [] || t[0] != '"'
    ensures ReadQuoted(DoubleQuotes(v) + ['"'] + t) == (v, t)
  {
    var closing := ['"'] + t;
    assert closing[1..] == t;
    assert ReadQuoted(closing) == ([], t);
    ReadQuotedPrefix(v, closing);
    assert DoubleQuotes(v) + ['"'] + t == DoubleQuotes(v) + closing;
    assert v + [] == v;
  }

  /** `ReadQuoted` reads a doubled value back and goes on after it. */
  lemma {:induction false} ReadQuotedPrefix(v: string, rest: string)
    ensures ReadQuoted(DoubleQuotes(v) + rest) == (v + ReadQuoted(rest).0, ReadQuoted(rest).1)
  {
    if v == [] {
      assert DoubleQuotes(v) + rest == rest;
      assert v + ReadQuoted(rest).0 == ReadQuoted(rest).0;
    } else {
      ReadQuotedPrefix(v[1..], rest);
      ReadQuotedCons(v, rest);
    }
  }

  lemma ReadQuotedCons(v: string, rest: string)
    requires v != []
    requires ReadQuoted(DoubleQuotes(v[1..]) + rest) == (v[1..] + ReadQuoted(rest).0, ReadQuoted(rest).1)
    ensures ReadQuoted(DoubleQuotes(v) + rest) == (v + ReadQuoted(rest).0, ReadQuoted(rest).1)
  {
    var x := DoubleQuotes(v[1..]) + rest;
    DoubledHead(v, rest);
    ConsAppend(v, ReadQuoted(rest).0);
    if v[0] == '"' {
      QuotePairStep(x);
    } else {
      OtherCharStep(v[0], x);
    }
  }

  lemma DoubledHead(v: string, rest: string)
    requires v != []
    ensures DoubleQuotes(v) + rest == (if v[0] == '"' then ['"', '"'] else [v[0]]) + (DoubleQuotes(v[1..]) + rest)
  {
  }

  lemma ConsAppend(v: string, c: string)
    requires v != []
    ensures v + c == [v[0]] + (v[1..] + c)
  {
  }

  lemma QuotePairStep(after: string)
    ensures ReadQuoted(['"', '"'] + after) == (['"'] + ReadQuoted(after).0, ReadQuoted(after).1)
  {
    assert (['"', '"'] + after)[2..] == after;
  }

  lemma OtherCharStep(c: char, after: string)
    requires c != '"'
    ensures ReadQuoted([c] + after) == ([c] + ReadQuoted(after).0, ReadQuoted(after).1)
  {
    assert ([c] + after)[1..] == after;
  }

  lemma {:induction false} ReadUnquotedPlain(v: string, t: string)
    requires ',' !in v && (t == [] || t[0] == ',')
    ensures ReadUnquoted(v + t) == (v, t)
  {
    if v == [] {
      assert v + t == t;
    } else {
      assert (v + t)[1..] == v[1..] + t;
      ReadUnquotedPlain(v[1..], t);
      assert v == [v[0]] + v[1..];
    }
  }

  /** An escaped field followed by the end of the row or a comma is read
      back as its value. */
  lemma ReadEscapedField(v: Option<string>, t: string)
    requires t == [] || t[0] == ','
    ensures ReadField(EscapeCsv(v) + t) == (Plain(v), t)
  {
    var e := EscapeCsv(v);
    if v.Some? && NeedsQuoting(v.value) {
      assert (e + t)[1..] == DoubleQuotes(v.value) + ['"'] + t;
      ReadQuotedDoubled(v.value, t);
      ReadUnquotedPlain([], t);
      assert [] + t == t;
    } else {
      assert e == Plain(v);
      if e != [] {
        assert (e + t)[0] == e[0] && e[0] in Plain(v);
      }
      ReadUnquotedPlain(e, t);
    }
  }

  /** Reading a printed row gives back every value, null printed as empty:
      commas, quotes and line breaks inside values do not split them. */
  lemma {:induction false} ReadRowOfRow(values: seq<Option<string>>)
    requires values != []
    ensures ReadRow(Row(values)) == Plains(values)
  {
    var e := EscapeCsv(values[0]);
    if |values| == 1 {
      assert Row(values) == e + [];
      ReadEscapedField(values[0], []);
    } else {
      var tail := Row(values[1..]);
      assert Escaped(values)[1..] == Escaped(values[1..]);
      assert Row(values) == e + ("," + tail);
      ReadEscapedField(values[0], "," + tail);
      assert ("," + tail)[1..] == tail;
      ReadRowOfRow(values[1..]);
    }
  }

  // ---------------------------------------------------------------------------
  // Rendering

  /** `String.valueOf(BigDecimal)` of an amount in cents, at scale 2. */
  function DecimalText(cents: int): string {
    var a := if cents < 0 then -cents else cents;
    (if cents < 0 then "-" else "") + NatToString(a / 100) + "." + [DigitChar(a % 100 / 10), DigitChar(a % 10)]
  }

  /** `String.valueOf` of an amount that may be null. */
  function DecimalOrNull(v: Option<int>): string {
    if v.Some? then DecimalText(v.value) else "null"
  }

  /** A nullable date through a formatter, or the empty string. */
  function Formatted(v: Option<int>, fmt: int -> string): string {
    if v.Some? then fmt(v.value) else ""
  }

  // ---------------------------------------------------------------------------
  // The exports

  /** The header and one row per item, in order: the `println` calls of an
      export loop. */
  method ExportRows<T>(header: string, items: seq<T>, values: T -> seq<Option<string>>) returns (lines: seq<string>)
    ensures |lines| == |items| + 1 && lines[0] == header
    ensures forall i :: 0 <= i < |items| ==> lines[i + 1] == Row(values(items[i]))
  {
    lines := [header];
    for i := 0 to |items|
      invariant |lines| == i + 1 && lines[0] == header
      invariant forall j :: 0 <= j < i ==> lines[j + 1] == Row(values(items[j]))
    {
      lines := lines + [Row(values(items[i]))];
    }
  }

  const PATIENT_COLUMNS: seq<string> := ["ID", "Nom", "Prenom", "Date Naissance", "Telephone", "Email", "Adresse"]

  function PatientValues(p: Patient, fmtDate: int -> string): (vs: seq<Option<string>>)
    ensures |vs| == |PATIENT_COLUMNS|
  {
    [Some(LongText(p.id)), Some(p.nom), Some(p.prenom), Some(Formatted(p.dateNaissance, fmtDate)),
     p.telephone, Some(Plain(p.email)), Some(Plain(p.adresse))]
  }

  /** `exportPatients`. */
  method ExportPatients(patients: seq<Patient>, fmtDate: int -> string) returns (lines: seq<string>)
    ensures |lines| == |patients| + 1 && lines[0] == JoinComma(PATIENT_COLUMNS)
    ensures forall i :: 0 <= i < |patients| ==> lines[i + 1] == Row(PatientValues(patients[i], fmtDate))
  {
    lines := ExportRows(JoinComma(PATIENT_COLUMNS), patients, (p: Patient) => PatientValues(p, fmtDate));
  }

  const DOCTOR_COLUMNS: seq<string> := ["ID", "Nom", "Prenom", "Specialite", "Email", "Telephone"]

  function DoctorValues(m: Medecin): (vs: seq<Option<string>>)
    ensures |vs| == |DOCTOR_COLUMNS|
  {
    [Some(IntToString(m.id)), Some(m.nom), Some(m.prenom), Some(Plain(m.specialite)),
     Some(Plain(m.email)), Some(Plain(m.telephone))]
  }

  /** `exportDoctors`. */
  method ExportDoctors(doctors: seq<Medecin>) returns (lines: seq<string>)
    ensures |lines| == |doctors| + 1 && lines[0] == JoinComma(DOCTOR_COLUMNS)
    ensures forall i :: 0 <= i < |doctors| ==> lines[i + 1] == Row(DoctorValues(doctors[i]))
  {
    lines := ExportRows(JoinComma(DOCTOR_COLUMNS), doctors, DoctorValues);
  }

  const APPOINTMENT_COLUMNS: seq<string> :=
    ["ID", "Date Heure Debut", "Date Heure Fin", "Patient", "Medecin", "Motif", "Statut", "Duree (min)"]

  function AppointmentValues(r: RendezVous, fmtDateTime: int -> string): (vs: seq<Option<string>>)
    ensures |vs| == |APPOINTMENT_COLUMNS|
  {
    [Some(LongText(r.id)), Some(Formatted(r.start, fmtDateTime)), Some(Formatted(r.end, fmtDateTime)),
     Some(if r.patient.Some? then PatientName(r.patient.value) else ""),
     Some(if r.medecin.Some? then MedecinName(r.medecin.value) else ""),
     Some(Plain(r.motif)), Some(if r.status.Some? then StatusName(r.status.value) else ""),
     Some(IntToString(ToMinutes(Duree(r))))]
  }

  /** `exportAppointments`; the duration column is `getDuree().toMinutes()`. */
  method ExportAppointments(appointments: seq<RendezVous>, fmtDateTime: int -> string) returns (lines: seq<string>)
    ensures |lines| == |appointments| + 1 && lines[0] == JoinComma(APPOINTMENT_COLUMNS)
    ensures forall i :: 0 <= i < |appointments| ==>
      lines[i + 1] == Row(AppointmentValues(appointments[i], fmtDateTime))
  {
    lines := ExportRows(JoinComma(APPOINTMENT_COLUMNS), appointments,
                        (r: RendezVous) => AppointmentValues(r, fmtDateTime));
  }

  const CONSULTATION_COLUMNS: seq<string> := ["ID", "Date", "Patient", "Medecin", "Diagnostic", "Observations"]

  function ConsultationValues(c: Consultation, fmtDateTime: int -> string): (vs: seq<Option<string>>)
    ensures |vs| == |CONSULTATION_COLUMNS|
  {
    var rdv := c.rendezVous;
    var patientName := if rdv.Some? && rdv.value.patient.Some? then PatientName(rdv.value.patient.value) else "N/A";
    var medecinName := if rdv.Some? && rdv.value.medecin.Some? then MedecinName(rdv.value.medecin.value) else "N/A";
    [Some(LongText(c.id)), Some(Formatted(c.date, fmtDateTime)), Some(patientName), Some(medecinName),
     Some(Plain(c.diagnostic)), Some(Plain(c.observations))]
  }

  /** `exportConsultations`: names default to `N/A` without an appointment
      or without its patient or doctor. */
  method ExportConsultations(consultations: seq<Consultation>, fmtDateTime: int -> string) returns (lines: seq<string>)
    ensures |lines| == |consultations| + 1 && lines[0] == JoinComma(CONSULTATION_COLUMNS)
    ensures forall i :: 0 <= i < |consultations| ==>
      lines[i + 1] == Row(ConsultationValues(consultations[i], fmtDateTime))
  {
    lines := ExportRows(JoinComma(CONSULTATION_COLUMNS), consultations,
                        (c: Consultation) => ConsultationValues(c, fmtDateTime));
  }

  const INVOICE_COLUMNS: seq<string> := ["ID", "Date", "Patient", "Montant Total", "Type Paiement"]

  function InvoiceValues(f: Facture, fmtDate: int -> string): (vs: seq<Option<string>>)
    reads f
    ensures |vs| == |INVOICE_COLUMNS|
  {
    [Some(LongText(f.id)), Some(Formatted(f.dateFacturation, fmtDate)),
     Some(if f.patient.Some? then PatientName(f.patient.value) else ""),
     Some(DecimalOrNull(f.montantTotal)),
     Some(if f.typePaiement.Some? then f.typePaiement.value.name else "")]
  }

  /** `exportInvoices`. */
  method ExportInvoices(invoices: seq<Facture>, fmtDate: int -> string) returns (lines: seq<string>)
    ensures |lines| == |invoices| + 1 && lines[0] == JoinComma(INVOICE_COLUMNS)
    ensures forall i :: 0 <= i < |invoices| ==> lines[i + 1] == Row(InvoiceValues(invoices[i], fmtDate))
  {
    lines := [JoinComma(INVOICE_COLUMNS)];
    for i := 0 to |invoices|
      invariant |lines| == i + 1 && lines[0] == JoinComma(INVOICE_COLUMNS)
      invariant forall j :: 0 <= j < i ==> lines[j + 1] == Row(InvoiceValues(invoices[j], fmtDate))
    {
      lines := lines + [Row(InvoiceValues(invoices[i], fmtDate))];
    }
  }
}

module CsvDetailed {
  import opened Common
  import opened Entities
  import opened Invoice
  import opened Csv

  const DETAIL_COLUMNS: seq<string> :=
    ["Facture ID", "Date", "Patient", "Description", "Quantite", "Prix Unitaire", "Montant Ligne",
     "Montant Total Facture"]

  /** The invoice's own three leading cells, shared by all its rows. */
  function InvoiceHead(f: Facture, fmtDate: int -> string): seq<Option<string>>
    reads f
  {
    [Some(LongText(f.id)), Some(Formatted(f.dateFacturation, fmtDate)),
     Some(if f.patient.Some? then PatientName(f.patient.value) else "")]
  }

  /** What the detailed export reads from one invoice line. */
  datatype LineData = LineData(description: Option<string>, prix: Option<int>, quantite: int)

  /** What the detailed export reads from one invoice: its leading cells,
      its total and its lines. */
  datatype InvoiceData = InvoiceData(head: seq<Option<string>>, total: Option<int>, lignes: seq<LineData>)

  function DataOfLine(l: LigneFacture): LineData
    reads l
  {
    LineData(l.description, l.prixUnitaire, l.quantite)
  }

  function DataOfLines(ls: seq<LigneFacture>): (r: seq<LineData>)
    reads ls
    ensures |r| == |ls|
    ensures forall j :: 0 <= j < |ls| ==> r[j] == DataOfLine(ls[j])
  {
    if ls == [] then [] else [DataOfLine(ls[0])] + DataOfLines(ls[1..])
  }

  function DataOf(f: Facture, fmtDate: int -> string): (d: InvoiceData)
    reads f, f.lignes
  {
    InvoiceData(InvoiceHead(f, fmtDate), f.montantTotal, DataOfLines(f.lignes))
  }

  /** The lines of every invoice in the list. */
  function LinesOf(fs: seq<Facture>): set<LigneFacture>
    reads fs
    decreases |fs|
  {
    if fs == [] then {} else LinesOf(fs[..|fs| - 1]) + (var ls := fs[|fs| - 1].lignes; set j | 0 <= j < |ls| :: ls[j])
  }

  /** The data of every invoice in the list, in order. */
  function DataOfAll(fs: seq<Facture>, fmtDate: int -> string): (r: seq<InvoiceData>)
    reads fs, LinesOf(fs)
    ensures |r| == |fs|
    decreases |fs|
  {
    if fs == [] then [] else DataOfAll(fs[..|fs| - 1], fmtDate) + [DataOf(fs[|fs| - 1], fmtDate)]
  }

  lemma {:induction false} DataOfAllAt(fs: seq<Facture>, i: nat, fmtDate: int -> string)
    requires i < |fs|
    ensures DataOfAll(fs, fmtDate)[i] == DataOf(fs[i], fmtDate)
    decreases |fs|
  {
    if i < |fs| - 1 {
      DataOfAllAt(fs[..|fs| - 1], i, fmtDate);
    }
  }

  /** The row of one invoice line, given the text of its amount. */
  function LineCells(head: seq<Option<string>>, total: Option<int>, d: LineData, amountText: string): (vs: seq<Option<string>>)
    ensures |head| == 3 ==> |vs| == |DETAIL_COLUMNS|
  {
    head + [Some(Plain(d.description)), Some(IntToString(d.quantite)), Some(DecimalOrNull(d.prix)),
            Some(amountText), Some(DecimalOrNull(total))]
  }

  /** `String.valueOf(ligne.getMontantLigne())`: the price times the
      quantity, at the price's scale of 2, or `BigDecimal.ZERO`, printed
      "0", for a line without a price. */
  function MontantText(d: LineData): (t: string)
    ensures d.prix.Some? ==> t == DecimalText(d.prix.value * d.quantite)
    ensures d.prix.None? ==> t == "0"
  {
    if d.prix.None? then "0" else DecimalText(Amount(Pricing(d.prix, d.quantite)))
  }

  /** The row of an invoice line whose amount is the value
      `getMontantLigne` returns. */
  function LineValues(head: seq<Option<string>>, total: Option<int>, d: LineData): (vs: seq<Option<string>>)
  {
    LineCells(head, total, d, MontantText(d))
  }

  /** The row of an invoice without lines: empty description and literal
      zeros, which escaping leaves as they are. */
  function NoLineValues(inv: InvoiceData): (vs: seq<Option<string>>)
  {
    NoLineCells(inv.head, inv.total)
  }

  function NoLineCells(head: seq<Option<string>>, total: Option<int>): (vs: seq<Option<string>>)
    ensures |head| == 3 ==> |vs| == |DETAIL_COLUMNS|
  {
    head + [Some(""), Some("0"), Some("0"), Some("0"), Some(DecimalOrNull(total))]
  }

  /** One row for each of the first `n` lines of `ds`, in order. */
  function LineRows(head: seq<Option<string>>, total: Option<int>, ds: seq<LineData>, n: nat): (r: seq<string>)
    requires n <= |ds|
    ensures |r| == n
  {
    if n == 0 then [] else LineRows(head, total, ds, n - 1) + [Row(LineValues(head, total, ds[n - 1]))]
  }

  /** The rows are the line rows mapped over the lines. */
  lemma {:induction false} LineRowsMapped(head: seq<Option<string>>, total: Option<int>, ds: seq<LineData>, n: nat)
    requires n <= |ds|
    ensures LineRows(head, total, ds, n) == MapPrefix((d: LineData) => Row(LineValues(head, total, d)), ds, n)
  {
    if n > 0 {
      LineRowsMapped(head, total, ds, n - 1);
    }
  }

  /** Row `j` is the row of line `j`. */
  lemma LineRowsAt(head: seq<Option<string>>, total: Option<int>, ds: seq<LineData>, n: nat, j: nat)
    requires j < n <= |ds|
    ensures LineRows(head, total, ds, n)[j] == Row(LineValues(head, total, ds[j]))
  {
    LineRowsMapped(head, total, ds, n);
    MapPrefixAt((d: LineData) => Row(LineValues(head, total, d)), ds, n, j);
  }

  /** The rows of one invoice: one per line, or a single row without lines. */
  function InvoiceRows(inv: InvoiceData): (r: seq<string>)
    ensures |r| == if inv.lignes == [] then 1 else |inv.lignes|
    ensures inv.lignes == [] ==> r == [Row(NoLineValues(inv))]
  {
    if inv.lignes == [] then [Row(NoLineValues(inv))] else LineRows(inv.head, inv.total, inv.lignes, |inv.lignes|)
  }

  /** The file after the header and the rows of the first `n` invoices. */
  function DetailedFile(header: string, invs: seq<InvoiceData>, n: nat): (r: seq<string>)
    requires n <= |invs|
    ensures |r| >= 1 && r[0] == header
  {
    if n == 0 then [header] else DetailedFile(header, invs, n - 1) + InvoiceRows(invs[n - 1])
  }

  /** The whole detailed export of `invs`. */
  function DetailedExport(invs: seq<InvoiceData>): seq<string> {
    DetailedFile(JoinComma(DETAIL_COLUMNS), invs, |invs|)
  }

  /** Every line of every invoice has a unit price. */
  predicate PricesSet(invs: seq<InvoiceData>) {
    forall i :: 0 <= i < |invs| ==> LinePricesSet(invs[i].lignes)
  }

  /** Every line of the first `n` invoices has a unit price. */
  predicate PricesSetUpTo(invs: seq<InvoiceData>, n: nat)
    requires n <= |invs|
  {
    n == 0 || (PricesSetUpTo(invs, n - 1) && LinePricesSet(invs[n - 1].lignes))
  }

  lemma {:induction false} PricesSetUpToAll(invs: seq<InvoiceData>, n: nat)
    requires n <= |invs|
    ensures PricesSetUpTo(invs, n) <==> forall i :: 0 <= i < n ==> LinePricesSet(invs[i].lignes)
  {
    if n > 0 {
      PricesSetUpToAll(invs, n - 1);
    }
  }

  /** Every line in `ds` has a unit price. */
  predicate LinePricesSet(ds: seq<LineData>) {
    forall j :: 0 <= j < |ds| ==> ds[j].prix.Some?
  }

  /** The index of the first line without a unit price, `|ds|` when every
      line has one. */
  function FirstUnpriced(ds: seq<LineData>): (k: nat)
    ensures k <= |ds|
    ensures forall j :: 0 <= j < k ==> ds[j].prix.Some?
    ensures k < |ds| ==> ds[k].prix.None?
    ensures k == |ds| <==> LinePricesSet(ds)
  {
    if ds == [] then 0
    else if ds[0].prix.None? then 0
    else
      var k := FirstUnpriced(ds[1..]);
      assert forall j :: 1 <= j < |ds| ==> ds[j] == ds[1..][j - 1];
      1 + k
  }

  /** The index of the first invoice with a line without a unit price,
      `|invs|` when there is none. */
  function FirstUnpricedInvoice(invs: seq<InvoiceData>): (i: nat)
    ensures i <= |invs|
    ensures forall j :: 0 <= j < i ==> LinePricesSet(invs[j].lignes)
    ensures i < |invs| ==> !LinePricesSet(invs[i].lignes)
    ensures i == |invs| <==> PricesSet(invs)
  {
    if invs == [] then 0
    else if !LinePricesSet(invs[0].lignes) then 0
    else
      var i := FirstUnpricedInvoice(invs[1..]);
      assert forall j :: 1 <= j < |invs| ==> invs[j] == invs[1..][j - 1];
      1 + i
  }

  /** What the as-written export leaves in the file when it throws: the
      header, the rows of every invoice before the first one with an
      unpriced line, and that invoice's rows up to that line; the
      try-with-resources block closes, and so flushes, the writer. */
  function WrittenBeforeThrow(invs: seq<InvoiceData>): (r: seq<string>)
    requires !PricesSet(invs)
    ensures |r| >= 1 && r[0] == JoinComma(DETAIL_COLUMNS)
  {
    var i := FirstUnpricedInvoice(invs);
    var d := invs[i];
    DetailedFile(JoinComma(DETAIL_COLUMNS), invs, i) + LineRows(d.head, d.total, d.lignes, FirstUnpriced(d.lignes))
  }

  /** `ligne.getPrixUnitaire().multiply(BigDecimal.valueOf(ligne.getQuantite()))`:
      a null price throws. */
  function LineAmountAsWritten(prix: Option<int>, quantite: int): (r: Result<int>)
    ensures r.Fail? <==> prix.None?
    ensures r.Fail? ==> r.exc == NullPointer
    ensures r.Ok? ==> r.value == Amount(Pricing(prix, quantite))
  {
    if prix.None? then Fail(NullPointer) else Ok(prix.value * quantite)
  }

  /** The rows `exportInvoicesDetailed` writes for one invoice: a line
      without a unit price throws before its row is written, after the
      rows of the lines before it. */
  method InvoiceRowsAsWritten(d: InvoiceData) returns (rows: seq<string>, ok: bool)
    ensures ok <==> LinePricesSet(d.lignes)
    ensures ok ==> rows == InvoiceRows(d)
    ensures !ok ==> rows == LineRows(d.head, d.total, d.lignes, FirstUnpriced(d.lignes))
  {
    if d.lignes == [] {
      return [Row(NoLineCells(d.head, d.total))], true;
    }
    rows, ok := LineRowsAsWritten(d.head, d.total, d.lignes);
  }

  /** The inner loop over an invoice's lines: the rows of the lines before
      the first one without a unit price, and whether there is none. */
  method LineRowsAsWritten(head: seq<Option<string>>, total: Option<int>, ds: seq<LineData>)
    returns (rows: seq<string>, ok: bool)
    ensures ok <==> LinePricesSet(ds)
    ensures rows == LineRows(head, total, ds, FirstUnpriced(ds))
  {
    rows := [];
    for j := 0 to |ds|
      invariant rows == LineRows(head, total, ds, j)
      invariant j <= FirstUnpriced(ds)
    {
      var row, lineOk := LineRowAsWritten(head, total, ds[j]);
      if !lineOk {
        assert FirstUnpriced(ds) == j;
        return rows, false;
      }
      LineRowsSnoc(head, total, ds, j, rows, row);
      rows := rows + [row];
    }
    assert FirstUnpriced(ds) == |ds|;
    ok := true;
  }

  /** The rows of the first `j` lines and the row of line `j` are the rows
      of the first `j + 1` lines. */
  lemma LineRowsSnoc(head: seq<Option<string>>, total: Option<int>, ds: seq<LineData>, j: nat,
                     rows: seq<string>, row: string)
    requires j < |ds| && rows == LineRows(head, total, ds, j) && row == Row(LineValues(head, total, ds[j]))
    ensures rows + [row] == LineRows(head, total, ds, j + 1)
  {
  }

  /** The row of one invoice line, or the exception its amount throws. */
  method LineRowAsWritten(head: seq<Option<string>>, total: Option<int>, l: LineData) returns (row: string, ok: bool)
    ensures ok <==> l.prix.Some?
    ensures ok ==> row == Row(LineValues(head, total, l))
  {
    var amount := LineAmountAsWritten(l.prix, l.quantite);
    if amount.Fail? {
      return "", false;
    }
    row := Row(LineCells(head, total, l, DecimalText(amount.value)));
    ok := true;
  }

  /** `exportInvoicesDetailed` as written, over what it reads from the
      invoices: the amount column multiplies the unit price without a null
      check, so an invoice line without a price throws and the file ends
      after the rows already written. */
  method ExportDetailedAsWritten(invoices: seq<InvoiceData>) returns (lines: seq<string>, res: Outcome)
    ensures res == Done <==> PricesSet(invoices)
    ensures res.Thrown? ==> res.exc == NullPointer
    ensures |lines| >= 1 && lines[0] == JoinComma(DETAIL_COLUMNS)
    ensures res == Done ==> lines == DetailedExport(invoices)
    ensures res.Thrown? ==> lines == WrittenBeforeThrow(invoices)
  {
    var header := JoinComma(DETAIL_COLUMNS);
    lines := [header];
    for i := 0 to |invoices|
      invariant lines == DetailedFile(header, invoices, i)
      invariant PricesSetUpTo(invoices, i)
    {
      var rows, ok := InvoiceRowsAsWritten(invoices[i]);
      if !ok {
        ThrownAt(invoices, i, lines, rows);
        return lines + rows, Thrown(NullPointer);
      }
      lines := lines + rows;
    }
    PricesSetUpToAll(invoices, |invoices|);
    return lines, Done;
  }

  /** When invoice `i` is the first with an unpriced line, the header and
      the rows written so far are what `WrittenBeforeThrow` describes. */
  lemma ThrownAt(invs: seq<InvoiceData>, i: nat, lines: seq<string>, rows: seq<string>)
    requires i < |invs| && PricesSetUpTo(invs, i) && !LinePricesSet(invs[i].lignes)
    requires lines == DetailedFile(JoinComma(DETAIL_COLUMNS), invs, i)
    requires rows == LineRows(invs[i].head, invs[i].total, invs[i].lignes, FirstUnpriced(invs[i].lignes))
    ensures !PricesSet(invs) && lines + rows == WrittenBeforeThrow(invs)
  {
    PricesSetUpToAll(invs, i);
    assert FirstUnpricedInvoice(invs) == i;
  }

  /** One line without a unit price, in any invoice of the export, is
      enough for `ExportDetailedAsWritten` to throw: `creerFacture` accepts
      such a line, and `getMontantLigne` treats it as zero. */
  lemma NullPriceThrows(invs: seq<InvoiceData>, i: nat, j: nat)
    requires i < |invs| && j < |invs[i].lignes| && invs[i].lignes[j].prix.None?
    ensures !PricesSet(invs)
  {
    assert !LinePricesSet(invs[i].lignes);
  }

  /** The smallest such export: one invoice, one line of quantity 1 and no
      price. */
  lemma NullPriceExample()
    ensures !PricesSet([InvoiceData([], None, [LineData(None, None, 1)])])
  {
    NullPriceThrows([InvoiceData([], None, [LineData(None, None, 1)])], 0, 0);
  }

  /** `exportInvoicesDetailed` on the invoice objects: it reads them and
      changes none of them. */
  method ExportInvoicesDetailed(invoices: seq<Facture>, fmtDate: int -> string)
    returns (lines: seq<string>, res: Outcome)
    ensures res == Done <==> old(PricesSet(DataOfAll(invoices, fmtDate)))
    ensures res.Thrown? ==> res.exc == NullPointer
    ensures res == Done ==> lines == old(DetailedExport(DataOfAll(invoices, fmtDate)))
    ensures res.Thrown? ==> lines == old(WrittenBeforeThrow(DataOfAll(invoices, fmtDate)))
  {
    var data := DataOfAll(invoices, fmtDate);
    lines, res := ExportDetailedAsWritten(data);
  }

  /** The rows of one invoice with each line's amount from `getMontantLigne`. */
  method InvoiceRowsNullSafe(d: InvoiceData) returns (rows: seq<string>)
    ensures rows == InvoiceRows(d)
  {
    if d.lignes == [] {
      return [Row(NoLineCells(d.head, d.total))];
    }
    rows := [];
    for j := 0 to |d.lignes|
      invariant rows == LineRows(d.head, d.total, d.lignes, j)
    {
      var l := d.lignes[j];
      rows := rows + [Row(LineCells(d.head, d.total, l, MontantText(l)))];
    }
  }

  /** The detailed export with the line amount taken from `getMontantLigne`,
      which yields zero for a line without a price: it always completes. */
  method ExportDetailedNullSafe(invoices: seq<InvoiceData>) returns (lines: seq<string>)
    ensures lines == DetailedExport(invoices)
  {
    var header := JoinComma(DETAIL_COLUMNS);
    lines := [header];
    for i := 0 to |invoices|
      invariant lines == DetailedFile(header, invoices, i)
    {
      var rows := InvoiceRowsNullSafe(invoices[i]);
      lines := lines + rows;
    }
  }

  /** The corrected export on the invoice objects. */
  method ExportInvoicesDetailedNullSafe(invoices: seq<Facture>, fmtDate: int -> string)
    returns (lines: seq<string>)
    ensures lines == old(DetailedExport(DataOfAll(invoices, fmtDate)))
  {
    var data := DataOfAll(invoices, fmtDate);
    lines := ExportDetailedNullSafe(data);
  }

  /** Each element of `DataOfAll` is read from the invoice at its index. */
  lemma DataOfAllEach(fs: seq<Facture>, fmtDate: int -> string)
    ensures forall i :: 0 <= i < |fs| ==> DataOfAll(fs, fmtDate)[i] == DataOf(fs[i], fmtDate)
  {
    forall i | 0 <= i < |fs|
      ensures DataOfAll(fs, fmtDate)[i] == DataOf(fs[i], fmtDate)
    {
      DataOfAllAt(fs, i, fmtDate);
    }
  }
}
