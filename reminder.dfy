/** `AppointmentReminderService`: the hourly check that e-mails a reminder
    for every appointment starting within the next 24 hours.  The scheduler
    thread is not modelled; one check takes the appointment rows and the
    current time as parameters, and sending a reminder is the appointment
    being appended to the list of those reminded (its own failures are
    caught inside `sendReminder` and never reach the loop). */
module Reminder {
  import opened Common
  import opened Entities
  import opened Time

  /** `shouldSendReminder(rdv, now, window)`: the checks in their order. */
  predicate ShouldSendReminder(rdv: RendezVous, now: int, window: int): (b: bool)
    ensures b <==>
      && rdv.start.Some?
      && (rdv.status == Some(CONFIRME) || rdv.status == Some(PLANIFIE))
      && rdv.patient.Some? && rdv.patient.value.email.Some?
      && (exists i :: 0 <= i < |rdv.patient.value.email.value| && !IsTrimmable(rdv.patient.value.email.value[i]))
      && now <= rdv.start.value <= window
  {
    if rdv.start.None? then false
    else if rdv.status != Some(CONFIRME) && rdv.status != Some(PLANIFIE) then false
    else if rdv.patient.None? then false
    else if rdv.patient.value.email.None? || (BlankIffAllTrimmable(rdv.patient.value.email.value); IsBlank(rdv.patient.value.email.value)) then false
    else if rdv.start.value < now then false
    else if rdv.start.value > window then false
    else true
  }

  /** The check run at `now` looks 24 hours ahead. */
  function WindowEnd(now: int): int {
    now + 24 * SECONDS_PER_HOUR
  }

  /** The appointments the check at `now` reminds. */
  function Due(rows: seq<RendezVous>, now: int): seq<RendezVous> {
    Filter(rows, (r: RendezVous) => ShouldSendReminder(r, now, WindowEnd(now)))
  }

  /** The loop of `checkAndSendReminders`: each appointment that passes
      `shouldSendReminder` is sent a reminder and counted. */
  method CheckAndSendReminders(rows: seq<RendezVous>, now: int) returns (remindersSent: nat, reminded: seq<RendezVous>)
    ensures reminded == Due(rows, now)
    ensures remindersSent == |reminded| <= |rows|
    ensures forall i :: 0 <= i < |reminded| ==> reminded[i] in rows && ShouldSendReminder(reminded[i], now, WindowEnd(now))
  {
    var reminderWindow := WindowEnd(now);
    var p := (r: RendezVous) => ShouldSendReminder(r, now, reminderWindow);
    remindersSent := 0;
    reminded := [];
    for i := 0 to |rows|
      invariant reminded == Filter(rows[..i], p)
      invariant remindersSent == |reminded|
    {
      FilterAppend(rows[..i], [rows[i]], p);
      assert rows[..i + 1] == rows[..i] + [rows[i]];
      if ShouldSendReminder(rows[i], now, reminderWindow) {
        reminded := reminded + [rows[i]];
        remindersSent := remindersSent + 1;
      }
    }
    assert rows[..|rows|] == rows;
  }

  /** An appointment that is reminded now is reminded again by every later
      hourly check that still falls before its start, since its start stays
      inside the 24-hour window. */
  lemma RemindedUntilStart(rdv: RendezVous, now: int, later: int)
    requires ShouldSendReminder(rdv, now, WindowEnd(now))
    requires now <= later <= rdv.start.value
    ensures ShouldSendReminder(rdv, later, WindowEnd(later))
  {
  }

  /** A cancelled or finished appointment, or one without a start, is never
      reminded, whatever the time. */
  lemma NeverReminded(rdv: RendezVous, now: int, window: int)
    requires rdv.start.None? || rdv.status == Some(ANNULE) || rdv.status == Some(TERMINE)
    ensures !ShouldSendReminder(rdv, now, window)
  {
  }
}
