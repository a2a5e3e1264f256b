/** `QRCodeService`: the text carried by an appointment's QR code, a header
    line followed by `KEY:value` lines, and its parser. The date formatter
    (`dd/MM/yyyy HH:mm`) is the parameter `fmt`; rendering the text as an
    image is not modelled. */
module QRCode {
  import opened Common
  import opened Entities

  const HEADER: string := "MEDICLINIC_RDV"
  const NL: char := '\n'

  /** The appointments `buildQRData` can render without a
      NullPointerException. */
  predicate Renderable(r: RendezVous) {
    r.id.Some? && r.patient.Some? && r.medecin.Some? && r.start.Some? && r.end.Some? && r.status.Some?
  }

  /** One `KEY:value` line, without its newline. */
  function Line(key: string, value: string): string {
    key + [':'] + value
  }

  /** The lines `buildQRData` appends, in order, without their newlines. */
  function QrLines(r: RendezVous, fmt: int -> string): seq<string>
    requires Renderable(r)
  {
    [HEADER]
    + [Line("ID", IntToString(r.id.value))]
    + [Line("PATIENT", PatientName(r.patient.value))]
    + [Line("PATIENT_ID", LongText(r.patient.value.id))]
    + [Line("MEDECIN", "Dr. " + MedecinName(r.medecin.value))]
    + [Line("MEDECIN_ID", IntToString(r.medecin.value.id))]
    + [Line("DATE", fmt(r.start.value))]
    + [Line("DATE_FIN", fmt(r.end.value))]
    + [Line("STATUS", StatusName(r.status.value))]
    + (if r.motif.Some? && r.motif.value != [] then [Line("MOTIF", r.motif.value)] else [])
  }

  /** `buildQRData(rdv)`: the header and each `KEY:value` line, every one
      followed by a newline, appended to the builder in order; the MOTIF
      line only when the reason is set and not empty. */
  method BuildQRData(r: RendezVous, fmt: int -> string) returns (data: string)
    requires Renderable(r)
    ensures data == JoinLines(QrLines(r, fmt), NL)
  {
    var id := Line("ID", IntToString(r.id.value));
    var patient := Line("PATIENT", PatientName(r.patient.value));
    var patientId := Line("PATIENT_ID", LongText(r.patient.value.id));
    var medecin := Line("MEDECIN", "Dr. " + MedecinName(r.medecin.value));
    var medecinId := Line("MEDECIN_ID", IntToString(r.medecin.value.id));
    var date := Line("DATE", fmt(r.start.value));
    var dateFin := Line("DATE_FIN", fmt(r.end.value));
    var status := Line("STATUS", StatusName(r.status.value));
    data := HEADER + [NL];
    data := data + id + [NL];
    data := data + patient + [NL];
    data := data + patientId + [NL];
    data := data + medecin + [NL];
    data := data + medecinId + [NL];
    data := data + date + [NL];
    data := data + dateFin + [NL];
    data := data + status + [NL];
    ghost var front := [HEADER] + [id] + [patient] + [patientId] + [medecin] + [medecinId] + [date] + [dateFin] + [status];
    JoinNineLines(HEADER, id, patient, patientId, medecin, medecinId, date, dateFin, status);
    if r.motif.Some? && r.motif.value != [] {
      var motif := Line("MOTIF", r.motif.value);
      JoinLinesSnoc(front, motif, NL);
      data := data + motif + [NL];
    } else {
      assert front + [] == front;
    }
  }

  /** Nine lines, each followed by a newline. */
  lemma JoinNineLines(a0: string, a1: string, a2: string, a3: string, a4: string, a5: string,
                      a6: string, a7: string, a8: string)
    ensures JoinLines([a0] + [a1] + [a2] + [a3] + [a4] + [a5] + [a6] + [a7] + [a8], NL)
         == a0 + [NL] + a1 + [NL] + a2 + [NL] + a3 + [NL] + a4 + [NL] + a5 + [NL]
            + a6 + [NL] + a7 + [NL] + a8 + [NL]
  {
    assert [a0][1..] == [];
    JoinLinesSnoc([a0], a1, NL);
    JoinLinesSnoc([a0] + [a1], a2, NL);
    JoinLinesSnoc([a0] + [a1] + [a2], a3, NL);
    JoinLinesSnoc([a0] + [a1] + [a2] + [a3], a4, NL);
    JoinLinesSnoc([a0] + [a1] + [a2] + [a3] + [a4], a5, NL);
    JoinLinesSnoc([a0] + [a1] + [a2] + [a3] + [a4] + [a5], a6, NL);
    JoinLinesSnoc([a0] + [a1] + [a2] + [a3] + [a4] + [a5] + [a6], a7, NL);
    JoinLinesSnoc([a0] + [a1] + [a2] + [a3] + [a4] + [a5] + [a6] + [a7], a8, NL);
  }

  /** The payload opens with the header line, then ID, PATIENT, PATIENT_ID,
      MEDECIN (with the `Dr. ` prefix), MEDECIN_ID, DATE, DATE_FIN and STATUS
      lines in this order, and has a MOTIF line at the end exactly when the
      reason is set and not empty. */
  lemma QrLinesShape(r: RendezVous, fmt: int -> string)
    requires Renderable(r)
    ensures var ls := QrLines(r, fmt);
      && |ls| >= 9 && ls[0] == HEADER
      && ls[1] == Line("ID", IntToString(r.id.value))
      && ls[2] == Line("PATIENT", PatientName(r.patient.value))
      && ls[3] == Line("PATIENT_ID", LongText(r.patient.value.id))
      && ls[4] == Line("MEDECIN", "Dr. " + MedecinName(r.medecin.value))
      && ls[5] == Line("MEDECIN_ID", IntToString(r.medecin.value.id))
      && ls[6] == Line("DATE", fmt(r.start.value))
      && ls[7] == Line("DATE_FIN", fmt(r.end.value))
      && ls[8] == Line("STATUS", StatusName(r.status.value))
      && (|ls| == 10 <==> r.motif.Some? && r.motif.value != [])
      && (|ls| == 10 ==> ls[9] == Line("MOTIF", r.motif.value))
  {
  }

  /** The payload starts with the header, so the parser accepts it. */
  lemma PayloadStartsWithHeader(r: RendezVous, fmt: int -> string)
    requires Renderable(r)
    ensures StartsWith(JoinLines(QrLines(r, fmt), NL), HEADER)
  {
    var ls := QrLines(r, fmt);
    var rest := [NL] + JoinLines(ls[1..], NL);
    assert JoinLines(ls, NL) == HEADER + rest;
  }

  /** The guard of `generateAppointmentQRCode` and
      `generateAppointmentQRCodeImage`, then the text they encode; a missing
      patient, doctor, date or status fails inside `buildQRData`. */
  method GenerateQRData(rdv: Option<RendezVous>, fmt: int -> string) returns (res: Result<string>)
    ensures rdv.None? || rdv.value.id.None? ==> res == Fail(IllegalArgument)
    ensures rdv.Some? && rdv.value.id.Some? && !Renderable(rdv.value) ==> res == Fail(NullPointer)
    ensures rdv.Some? && Renderable(rdv.value) ==> res == Ok(JoinLines(QrLines(rdv.value, fmt), NL))
  {
    if rdv.None? || rdv.value.id.None? {
      return Fail(IllegalArgument);
    }
    if !Renderable(rdv.value) {
      return Fail(NullPointer);
    }
    var data := BuildQRData(rdv.value, fmt);
    return Ok(data);
  }

  // ---------------------------------------------------------------------------
  // Parsing

  /** `AppointmentData`: every field starts null. */
  datatype AppointmentData = AppointmentData(
    rendezVousId: Option<int>,
    patientName: Option<string>,
    patientId: Option<int>,
    doctorName: Option<string>,
    doctorId: Option<int>,
    appointmentDateTime: Option<string>,
    appointmentEndDateTime: Option<string>,
    status: Option<string>,
    motif: Option<string>)

  const EMPTY_DATA: AppointmentData := AppointmentData(None, None, None, None, None, None, None, None, None)

  /** The labels of the `switch`. */
  datatype Key = ID | PATIENT | PATIENT_ID | MEDECIN | MEDECIN_ID | DATE | DATE_FIN | STATUS | MOTIF

  function KeyName(k: Key): string {
    match k
    case ID => "ID"
    case PATIENT => "PATIENT"
    case PATIENT_ID => "PATIENT_ID"
    case MEDECIN => "MEDECIN"
    case MEDECIN_ID => "MEDECIN_ID"
    case DATE => "DATE"
    case DATE_FIN => "DATE_FIN"
    case STATUS => "STATUS"
    case MOTIF => "MOTIF"
  }

  /** The label a trimmed key matches, if any. */
  function KeyOf(key: string): (k: Option<Key>)
    ensures k.Some? ==> KeyName(k.value) == key
    ensures k.None? ==> forall x: Key :: KeyName(x) != key
  {
    if key == "ID" then Some(ID)
    else if key == "PATIENT" then Some(PATIENT)
    else if key == "PATIENT_ID" then Some(PATIENT_ID)
    else if key == "MEDECIN" then Some(Key.MEDECIN)
    else if key == "MEDECIN_ID" then Some(MEDECIN_ID)
    else if key == "DATE" then Some(DATE)
    else if key == "DATE_FIN" then Some(DATE_FIN)
    else if key == "STATUS" then Some(STATUS)
    else if key == "MOTIF" then Some(MOTIF)
    else None
  }

  /** Each label is a plain key: no colon, no surrounding blanks. */
  lemma KeyNamePlain(k: Key)
    ensures ':' !in KeyName(k) && IsTrimmed(KeyName(k)) && KeyOf(KeyName(k)) == Some(k)
  {
  }

  /** `Long.parseLong(value)`, or NumberFormatException. */
  function ParseId(value: string): Result<Option<int>> {
    var n := ParseLong(value);
    if n.Some? then Ok(n) else Fail(NumberFormat)
  }

  /** The branch of the `switch` for label `k`. */
  function SetField(d: AppointmentData, k: Key, value: string): Result<AppointmentData> {
    match k
    case ID => var n := ParseId(value); if n.Fail? then Fail(n.exc) else Ok(d.(rendezVousId := n.value))
    case PATIENT => Ok(d.(patientName := Some(value)))
    case PATIENT_ID => var n := ParseId(value); if n.Fail? then Fail(n.exc) else Ok(d.(patientId := n.value))
    case MEDECIN => Ok(d.(doctorName := Some(value)))
    case MEDECIN_ID => var n := ParseId(value); if n.Fail? then Fail(n.exc) else Ok(d.(doctorId := n.value))
    case DATE => Ok(d.(appointmentDateTime := Some(value)))
    case DATE_FIN => Ok(d.(appointmentEndDateTime := Some(value)))
    case STATUS => Ok(d.(status := Some(value)))
    case MOTIF => Ok(d.(motif := Some(value)))
  }

  /** One line of the loop: a line with a colon is split at its first colon
      and both halves are trimmed; a line without one, or with another key,
      is skipped. */
  function ApplyLine(d: AppointmentData, line: string): Result<AppointmentData> {
    if ':' !in line then Ok(d)
    else
      var i := IndexOf(line, ':');
      var k := KeyOf(Trim(line[..i]));
      if k.None? then Ok(d) else SetField(d, k.value, Trim(line[i + 1..]))
  }

  /** The loop over the lines, stopping at the first exception. */
  function ParseLines(d: AppointmentData, lines: seq<string>): Result<AppointmentData>
    decreases |lines|
  {
    if lines == [] then Ok(d)
    else
      var r := ApplyLine(d, lines[0]);
      if r.Fail? then r else ParseLines(r.value, lines[1..])
  }

  /** Processing one more line continues from where the prefix left off. */
  lemma {:induction false} ParseLinesSnoc(d: AppointmentData, lines: seq<string>, line: string)
    ensures ParseLines(d, lines + [line]) ==
      (var r := ParseLines(d, lines); if r.Fail? then r else ApplyLine(r.value, line))
    decreases |lines|
  {
    if lines == [] {
      assert [] + [line] == [line];
      assert [line][1..] == [];
    } else {
      assert (lines + [line])[0] == lines[0];
      assert (lines + [line])[1..] == lines[1..] + [line];
      var r := ApplyLine(d, lines[0]);
      if r.Ok? {
        ParseLinesSnoc(r.value, lines[1..], line);
      }
    }
  }

  /** Once a prefix has failed, the whole loop fails the same way. */
  lemma {:induction false} ParseLinesStops(d: AppointmentData, lines: seq<string>, n: nat)
    requires n <= |lines| && ParseLines(d, lines[..n]).Fail?
    ensures ParseLines(d, lines) == ParseLines(d, lines[..n])
    decreases |lines| - n
  {
    if n < |lines| {
      ParseLinesSnoc(d, lines[..n], lines[n]);
      assert lines[..n + 1] == lines[..n] + [lines[n]];
      ParseLinesStops(d, lines, n + 1);
    } else {
      assert lines[..n] == lines;
    }
  }

  /** `parseQRCode(qrData)`. */
  method ParseQRCode(qrData: Option<string>) returns (res: Result<AppointmentData>)
    ensures qrData.None? || !StartsWith(qrData.value, HEADER) ==> res == Fail(IllegalArgument)
    ensures qrData.Some? && StartsWith(qrData.value, HEADER) ==>
      res == ParseLines(EMPTY_DATA, JavaSplit(qrData.value, NL))
  {
    if qrData.None? || !StartsWith(qrData.value, HEADER) {
      return Fail(IllegalArgument);
    }
    var lines := JavaSplit(qrData.value, NL);
    var data := EMPTY_DATA;
    for i := 0 to |lines|
      invariant ParseLines(EMPTY_DATA, lines[..i]) == Ok(data)
    {
      ParseLinesSnoc(EMPTY_DATA, lines[..i], lines[i]);
      assert lines[..i + 1] == lines[..i] + [lines[i]];
      var line := lines[i];
      if ':' in line {
        var colon := IndexOf(line, ':');
        var key := Trim(line[..colon]);
        var value := Trim(line[colon + 1..]);
        var k := KeyOf(key);
        if k.Some? {
          var r := SetField(data, k.value, value);
          if r.Fail? {
            assert ApplyLine(data, line) == r;
            assert ParseLines(EMPTY_DATA, lines[..i + 1]) == r;
            ParseLinesStops(EMPTY_DATA, lines, i + 1);
            return r;
          }
          data := r.value;
        }
      }
    }
    assert lines[..|lines|] == lines;
    return Ok(data);
  }

  /** A line without a colon, or whose key is not one of the nine labels,
      leaves the data as it was. */
  lemma IgnoredLines(d: AppointmentData, line: string)
    requires ':' !in line || KeyOf(Trim(line[..IndexOf(line, ':')])).None?
    ensures ApplyLine(d, line) == Ok(d)
  {
  }

  /** Splitting at the first colon keeps every later colon in the value, so
      a time such as `09:30` survives. */
  lemma {:induction false} SplitAtFirstColon(d: AppointmentData, k: Key, value: string)
    requires IsTrimmed(value)
    ensures ApplyLine(d, Line(KeyName(k), value)) == SetField(d, k, value)
  {
    var key := KeyName(k);
    KeyNamePlain(k);
    var line := Line(key, value);
    assert line[|key|] == ':';
    assert forall j :: 0 <= j < |key| ==> line[j] == key[j];
    var i := IndexOf(line, ':');
    assert i == |key|;
    assert line[..i] == key && line[i + 1..] == value;
    TrimOfTrimmed(key);
    TrimOfTrimmed(value);
  }

  // ---------------------------------------------------------------------------
  // Round trip

  /** A text the parser gives back unchanged as a value: one line, no
      surrounding blanks. */
  predicate PlainValue(s: string) {
    NL !in s && IsTrimmed(s)
  }

  lemma LinePlain(k: Key, value: string)
    requires PlainValue(value)
    ensures NL !in Line(KeyName(k), value) && Line(KeyName(k), value) != []
  {
    KeyNamePlain(k);
    var l := Line(KeyName(k), value);
    assert forall j :: 0 <= j < |l| ==> l[j] == (if j < |KeyName(k)| then KeyName(k)[j]
                                                 else if j == |KeyName(k)| then ':'
                                                 else value[j - |KeyName(k)| - 1]);
  }

  /** What `parseQRCode(buildQRData(r))` recovers. */
  function Recovered(r: RendezVous, fmt: int -> string): AppointmentData
    requires Renderable(r) && r.patient.value.id.Some?
  {
    AppointmentData(
      r.id, Some(PatientName(r.patient.value)), r.patient.value.id,
      Some("Dr. " + MedecinName(r.medecin.value)), Some(r.medecin.value.id),
      Some(fmt(r.start.value)), Some(fmt(r.end.value)), Some(StatusName(r.status.value)),
      if r.motif.Some? && r.motif.value != [] then r.motif else None)
  }

  predicate InLongRange(v: int) { LONG_MIN <= v <= LONG_MAX }

  /** The conditions under which the payload parses back: Java `long` ids,
      a patient id, and names, dates and reason that are plain values. */
  predicate RoundTrips(r: RendezVous, fmt: int -> string) {
    && Renderable(r) && r.patient.value.id.Some?
    && InLongRange(r.id.value) && InLongRange(r.patient.value.id.value) && InLongRange(r.medecin.value.id)
    && PlainValue(PatientName(r.patient.value)) && PlainValue("Dr. " + MedecinName(r.medecin.value))
    && PlainValue(fmt(r.start.value)) && PlainValue(fmt(r.end.value))
    && (r.motif.Some? ==> PlainValue(r.motif.value))
  }

  /** Parsing the built payload recovers the appointment, patient and doctor
      ids, the names (the doctor's with its `Dr. ` prefix), both dates, the
      status and the reason when it was written. */
  lemma RoundTrip(r: RendezVous, fmt: int -> string)
    requires RoundTrips(r, fmt)
    ensures ParseLines(EMPTY_DATA, JavaSplit(JoinLines(QrLines(r, fmt), NL), NL)) == Ok(Recovered(r, fmt))
  {
    var ls := QrLines(r, fmt);
    forall i | 0 <= i < |ls| ensures NL !in ls[i] {
      PayloadLineNoBreak(r, fmt, i);
    }
    JavaSplitJoinLines(ls, NL);
    ParsePayloadLines(r, fmt);
  }

  lemma StatusNamePlain(s: Status)
    ensures PlainValue(StatusName(s))
  {
  }

  /** The loop over the payload's own lines. */
  lemma ParsePayloadLines(r: RendezVous, fmt: int -> string)
    requires RoundTrips(r, fmt)
    ensures ParseLines(EMPTY_DATA, QrLines(r, fmt)) == Ok(Recovered(r, fmt))
  {
    var ls := QrLines(r, fmt);
    var vs := PayloadValues(r, fmt);
    var withMotif := r.motif.Some? && r.motif.value != [];
    QrLinesShape(r, fmt);
    ParseLinesSkipsHeader(EMPTY_DATA, ls);
    PayloadLinesKeyed(r, fmt);
    ParseKeyedLines(EMPTY_DATA, ls[1..], PayloadKeys(withMotif), vs);
    ParseIntegerOfIntToString(r.id.value, LONG_MIN, LONG_MAX);
    ParseIntegerOfIntToString(r.patient.value.id.value, LONG_MIN, LONG_MAX);
    ParseIntegerOfIntToString(r.medecin.value.id, LONG_MIN, LONG_MAX);
    var motif := if withMotif then r.motif else None;
    FillPayload(vs[0], vs[1], vs[2], vs[3], vs[4], vs[5], vs[6], vs[7], motif,
                r.id.value, r.patient.value.id.value, r.medecin.value.id);
    assert vs == [vs[0], vs[1], vs[2], vs[3], vs[4], vs[5], vs[6], vs[7]]
                 + (if motif.Some? then [motif.value] else []);
  }

  /** The values of the payload lines after the header, in order. */
  function PayloadValues(r: RendezVous, fmt: int -> string): seq<string>
    requires Renderable(r) && r.patient.value.id.Some?
  {
    [IntToString(r.id.value), PatientName(r.patient.value), IntToString(r.patient.value.id.value),
     "Dr. " + MedecinName(r.medecin.value), IntToString(r.medecin.value.id),
     fmt(r.start.value), fmt(r.end.value), StatusName(r.status.value)]
    + (if r.motif.Some? && r.motif.value != [] then [r.motif.value] else [])
  }

  /** After the header, line `j + 1` of the payload is the line for label
      `j` with value `j`, and every value is trimmed. */
  lemma PayloadLinesKeyed(r: RendezVous, fmt: int -> string)
    requires RoundTrips(r, fmt)
    ensures KeyedLines(QrLines(r, fmt)[1..], PayloadKeys(r.motif.Some? && r.motif.value != []), PayloadValues(r, fmt))
  {
    var ls, ks, vs := QrLines(r, fmt)[1..], PayloadKeys(r.motif.Some? && r.motif.value != []), PayloadValues(r, fmt);
    PayloadLineAt(r, fmt, 0);
    forall j | 0 <= j < |ls|
      ensures ls[j] == Line(KeyName(ks[j]), vs[j]) && IsTrimmed(vs[j])
    {
      PayloadLineAt(r, fmt, j);
    }
  }

  lemma PayloadLineAt(r: RendezVous, fmt: int -> string, j: nat)
    requires RoundTrips(r, fmt) && j < |PayloadValues(r, fmt)|
    ensures var ls, ks, vs := QrLines(r, fmt), PayloadKeys(r.motif.Some? && r.motif.value != []), PayloadValues(r, fmt);
      && |ls| == 1 + |vs| && |ks| == |vs|
      && ls[j + 1] == Line(KeyName(ks[j]), vs[j]) && IsTrimmed(vs[j])
  {
    PayloadLineShape(r, fmt, j);
    PayloadValuePlain(r, fmt, j);
  }

  lemma PayloadLineShape(r: RendezVous, fmt: int -> string, j: nat)
    requires Renderable(r) && r.patient.value.id.Some? && j < |PayloadValues(r, fmt)|
    ensures var ls, ks, vs := QrLines(r, fmt), PayloadKeys(r.motif.Some? && r.motif.value != []), PayloadValues(r, fmt);
      && |ls| == 1 + |vs| && |ks| == |vs|
      && ls[j + 1] == Line(KeyName(ks[j]), vs[j])
  {
    QrLinesShape(r, fmt);
    if j < 3 {
      FrontLineShape(r, fmt, j);
    } else if j < 6 {
      MiddleLineShape(r, fmt, j);
    } else {
      BackLineShape(r, fmt, j);
    }
  }

  lemma FrontLineShape(r: RendezVous, fmt: int -> string, j: nat)
    requires Renderable(r) && r.patient.value.id.Some? && j < 3
    ensures QrLines(r, fmt)[j + 1]
         == Line(KeyName(PayloadKeys(r.motif.Some? && r.motif.value != [])[j]), PayloadValues(r, fmt)[j])
  {
    QrLinesShape(r, fmt);
  }

  lemma MiddleLineShape(r: RendezVous, fmt: int -> string, j: nat)
    requires Renderable(r) && r.patient.value.id.Some? && 3 <= j < 6
    ensures QrLines(r, fmt)[j + 1]
         == Line(KeyName(PayloadKeys(r.motif.Some? && r.motif.value != [])[j]), PayloadValues(r, fmt)[j])
  {
    QrLinesShape(r, fmt);
  }

  lemma BackLineShape(r: RendezVous, fmt: int -> string, j: nat)
    requires Renderable(r) && r.patient.value.id.Some? && 6 <= j < |PayloadValues(r, fmt)|
    ensures QrLines(r, fmt)[j + 1]
         == Line(KeyName(PayloadKeys(r.motif.Some? && r.motif.value != [])[j]), PayloadValues(r, fmt)[j])
  {
    QrLinesShape(r, fmt);
  }

  lemma PayloadValuePlain(r: RendezVous, fmt: int -> string, j: nat)
    requires RoundTrips(r, fmt) && j < |PayloadValues(r, fmt)|
    ensures PlainValue(PayloadValues(r, fmt)[j])
  {
    if j == 0 {
      IntToStringTrimmed(r.id.value);
    } else if j == 2 {
      IntToStringTrimmed(r.patient.value.id.value);
    } else if j == 4 {
      IntToStringTrimmed(r.medecin.value.id);
    } else if j == 7 {
      StatusNamePlain(r.status.value);
    }
  }

  /** No line of a round-tripping payload holds a line break. */
  lemma PayloadLineNoBreak(r: RendezVous, fmt: int -> string, i: nat)
    requires RoundTrips(r, fmt) && i < |QrLines(r, fmt)|
    ensures NL !in QrLines(r, fmt)[i]
  {
    QrLinesShape(r, fmt);
    if i > 0 {
      PayloadLineShape(r, fmt, i - 1);
      PayloadValuePlain(r, fmt, i - 1);
      LinePlain(PayloadKeys(r.motif.Some? && r.motif.value != [])[i - 1], PayloadValues(r, fmt)[i - 1]);
    }
  }

  function PayloadKeys(withMotif: bool): seq<Key> {
    [ID, PATIENT, PATIENT_ID, Key.MEDECIN, MEDECIN_ID, DATE, DATE_FIN, STATUS]
    + (if withMotif then [MOTIF] else [])
  }

  /** Setting the payload's fields one by one fills the whole record. */
  lemma FillPayload(idText: string, patient: string, pidText: string, doctor: string, midText: string,
                    date: string, dateFin: string, status: string, motif: Option<string>,
                    id: int, pid: int, mid: int)
    requires ParseLong(idText) == Some(id) && ParseLong(pidText) == Some(pid) && ParseLong(midText) == Some(mid)
    ensures Fill(EMPTY_DATA, PayloadKeys(motif.Some?),
                 [idText, patient, pidText, doctor, midText, date, dateFin, status]
                 + (if motif.Some? then [motif.value] else []))
            == Ok(AppointmentData(Some(id), Some(patient), Some(pid), Some(doctor), Some(mid),
                                  Some(date), Some(dateFin), Some(status), motif))
  {
    var front := [idText, patient, pidText, doctor];
    var back := [midText, date, dateFin, status];
    var frontKeys := [ID, PATIENT, PATIENT_ID, Key.MEDECIN];
    var backKeys := [MEDECIN_ID, DATE, DATE_FIN, STATUS];
    var d := EMPTY_DATA.(rendezVousId := Some(id), patientName := Some(patient), patientId := Some(pid),
                         doctorName := Some(doctor));
    FillFront(EMPTY_DATA, idText, patient, pidText, doctor, id, pid);
    FillBack(d, midText, date, dateFin, status, mid);
    var tail := if motif.Some? then [motif.value] else [];
    var tailKeys := if motif.Some? then [MOTIF] else [];
    FillAppend(EMPTY_DATA, frontKeys, front, backKeys + tailKeys, back + tail);
    FillAppend(d, backKeys, back, tailKeys, tail);
    assert PayloadKeys(motif.Some?) == frontKeys + (backKeys + tailKeys);
    assert [idText, patient, pidText, doctor, midText, date, dateFin, status] + tail == front + (back + tail);
  }

  /** The ID, PATIENT, PATIENT_ID and MEDECIN lines. */
  lemma FillFront(d: AppointmentData, idText: string, patient: string, pidText: string, doctor: string,
                  id: int, pid: int)
    requires ParseLong(idText) == Some(id) && ParseLong(pidText) == Some(pid)
    ensures Fill(d, [ID, PATIENT, PATIENT_ID, Key.MEDECIN], [idText, patient, pidText, doctor])
            == Ok(d.(rendezVousId := Some(id), patientName := Some(patient), patientId := Some(pid),
                     doctorName := Some(doctor)))
  {
    var ks, vs := [ID, PATIENT, PATIENT_ID, Key.MEDECIN], [idText, patient, pidText, doctor];
    var d1 := d.(rendezVousId := Some(id));
    var d2 := d1.(patientName := Some(patient));
    var d3 := d2.(patientId := Some(pid));
    var d4 := d3.(doctorName := Some(doctor));
    FillFrom(d, ks, vs, 0, d1);
    FillFrom(d1, ks, vs, 1, d2);
    FillFrom(d2, ks, vs, 2, d3);
    FillFrom(d3, ks, vs, 3, d4);
    assert ks[4..] == [] && ks[0..] == ks && vs[0..] == vs;
  }

  /** The MEDECIN_ID, DATE, DATE_FIN and STATUS lines. */
  lemma FillBack(d: AppointmentData, midText: string, date: string, dateFin: string, status: string, mid: int)
    requires ParseLong(midText) == Some(mid)
    ensures Fill(d, [MEDECIN_ID, DATE, DATE_FIN, STATUS], [midText, date, dateFin, status])
            == Ok(d.(doctorId := Some(mid), appointmentDateTime := Some(date),
                     appointmentEndDateTime := Some(dateFin), status := Some(status)))
  {
    var ks, vs := [MEDECIN_ID, DATE, DATE_FIN, STATUS], [midText, date, dateFin, status];
    var d1 := d.(doctorId := Some(mid));
    var d2 := d1.(appointmentDateTime := Some(date));
    var d3 := d2.(appointmentEndDateTime := Some(dateFin));
    var d4 := d3.(status := Some(status));
    FillFrom(d, ks, vs, 0, d1);
    FillFrom(d1, ks, vs, 1, d2);
    FillFrom(d2, ks, vs, 2, d3);
    FillFrom(d3, ks, vs, 3, d4);
    assert ks[4..] == [] && ks[0..] == ks && vs[0..] == vs;
  }

  /** Setting the field at position `i` moves the fill one label on. */
  lemma FillFrom(d: AppointmentData, ks: seq<Key>, vs: seq<string>, i: nat, d': AppointmentData)
    requires |ks| == |vs| && i < |ks| && SetField(d, ks[i], vs[i]) == Ok(d')
    ensures Fill(d, ks[i..], vs[i..]) == Fill(d', ks[i + 1..], vs[i + 1..])
  {
    assert ks[i..][1..] == ks[i + 1..] && vs[i..][1..] == vs[i + 1..];
  }

  /** The fields a run of `KEY:value` lines sets, in order, stopping at the
      first value that does not parse. */
  function Fill(d: AppointmentData, ks: seq<Key>, vs: seq<string>): Result<AppointmentData>
    requires |ks| == |vs|
    decreases |ks|
  {
    if ks == [] then Ok(d)
    else
      var r := SetField(d, ks[0], vs[0]);
      if r.Fail? then r else Fill(r.value, ks[1..], vs[1..])
  }

  /** Setting the fields of two runs of labels one after the other. */
  lemma {:induction false} FillAppend(d: AppointmentData, ks: seq<Key>, vs: seq<string>, ks': seq<Key>, vs': seq<string>)
    requires |ks| == |vs| && |ks'| == |vs'|
    ensures Fill(d, ks + ks', vs + vs') ==
      (var r := Fill(d, ks, vs); if r.Fail? then r else Fill(r.value, ks', vs'))
    decreases |ks|
  {
    if ks == [] {
      assert [] + ks' == ks' && [] + vs' == vs';
    } else {
      assert (ks + ks')[1..] == ks[1..] + ks';
      assert (vs + vs')[1..] == vs[1..] + vs';
      var r := SetField(d, ks[0], vs[0]);
      if r.Ok? {
        FillAppend(r.value, ks[1..], vs[1..], ks', vs');
      }
    }
  }

  /** `ls` are the `KEY:value` lines for labels `ks` and trimmed values `vs`. */
  predicate KeyedLines(ls: seq<string>, ks: seq<Key>, vs: seq<string>) {
    && |ls| == |ks| == |vs|
    && forall j :: 0 <= j < |ls| ==> ls[j] == Line(KeyName(ks[j]), vs[j]) && IsTrimmed(vs[j])
  }

  /** The loop over `KEY:value` lines with plain values sets the fields
      those lines name, in order. */
  lemma {:induction false} ParseKeyedLines(d: AppointmentData, ls: seq<string>, ks: seq<Key>, vs: seq<string>)
    requires KeyedLines(ls, ks, vs)
    ensures ParseLines(d, ls) == Fill(d, ks, vs)
    decreases |ks|
  {
    if ks != [] {
      assert ls[0] == Line(KeyName(ks[0]), vs[0]) && IsTrimmed(vs[0]);
      SplitAtFirstColon(d, ks[0], vs[0]);
      var r := SetField(d, ks[0], vs[0]);
      if r.Ok? {
        assert KeyedLines(ls[1..], ks[1..], vs[1..]) by {
          forall j | 0 <= j < |ls| - 1
            ensures ls[1..][j] == Line(KeyName(ks[1..][j]), vs[1..][j]) && IsTrimmed(vs[1..][j])
          {
            assert ls[j + 1] == Line(KeyName(ks[j + 1]), vs[j + 1]) && IsTrimmed(vs[j + 1]);
          }
        }
        ParseKeyedLines(r.value, ls[1..], ks[1..], vs[1..]);
      }
    }
  }

  /** The header line has no colon, so the loop passes over it. */
  lemma ParseLinesSkipsHeader(d: AppointmentData, ls: seq<string>)
    requires ls != [] && ls[0] == HEADER
    ensures ParseLines(d, ls) == ParseLines(d, ls[1..])
  {
    assert ':' !in HEADER;
  }

  /** A patient without an id is written as `PATIENT_ID:null`, which the
      parser rejects with a NumberFormatException. */
  lemma NullPatientIdDoesNotParse(d: AppointmentData)
    ensures ApplyLine(d, Line(KeyName(PATIENT_ID), LongText(None))) == Fail(NumberFormat)
  {
    var v := LongText(None);
    assert v == "null";
    assert !AllDigits(v) by {
      assert !IsDigit(v[0]);
    }
    assert v[0] != '-' && v[0] != '+';
    assert ParseLong(v) == None;
    assert SetField(d, PATIENT_ID, v) == Fail(NumberFormat);
    SplitAtFirstColon(d, PATIENT_ID, v);
  }
}
