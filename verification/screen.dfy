/** The alarm screen as a reducer: the state is the alarm list, the
    add-alarm form and two visibility flags, and every user action is an
    event that `Step` turns into the next state. Values the screen reads
    from the platform (the `Date.now()` id of a new alarm, the dialog
    button pressed, the scroll offset) arrive as event parameters. */
module AlarmScreen {
  import opened Seqs
  import opened Days
  import opened TimeFormat
  import opened Wheel
  import opened Alarms

  /** The add-alarm form: the three wheel selections, the repeat days and
      the two text fields. */
  datatype Form = Form(
    hour: int,
    minute: int,
    period: string,
    days: seq<Tag>,
    labelText: string,
    speechText: string)

  /** The form as the screen first shows it and as a save leaves it. */
  const DefaultForm: Form := Form(9, 0, "AM", [Daily], "New Alarm", "This is your reminder!")

  /** `adding` is `showAddAlarm`, `scanning` is `isScanning`. */
  datatype Screen = Screen(alarms: seq<Alarm>, form: Form, adding: bool, scanning: bool)

  /** The two alarms the screen starts with. */
  const SeedAlarms: seq<Alarm> := [
    Alarm(1, "07:00", "AM", "Wake up",
          "Good morning! Time to wake up and start your day!",
          true, [Mon, Tue, Wed, Thu, Fri]),
    Alarm(2, "12:30", "PM", "Lunch break",
          "It's lunch time! Don't forget to take a break and eat something healthy.",
          false, [Daily])
  ]

  const Initial: Screen := Screen(SeedAlarms, DefaultForm, false, false)

  /** The canned record a finished NFC scan appends. */
  function ScannedAlarm(id: int): Alarm {
    Alarm(id, "08:30", "AM", "NFC Reminder",
          "Your NFC reminder is now active! Don't forget your scheduled task.",
          true, [Daily])
  }

  /** The user actions the screen reacts to. */
  datatype Event =
    | OpenAdd                              // "Manual" button
    | CancelAdd                            // "Cancel" in the form header
    | Save(id: int)                        // "Save": `addManualAlarm`, id from the clock
    | HourScrolled(offset: int)
    | MinuteScrolled(offset: int)
    | PeriodScrolled(offset: int)
    | HourTapped(index: int)
    | MinuteTapped(index: int)
    | PeriodTapped(index: int)
    | DayTapped(day: Tag)
    | LabelEdited(text: string)
    | SpeechEdited(text: string)
    | SwitchFlipped(id: int)               // the row's switch: `toggleAlarm`
    | DeletePressed(id: int, confirmed: bool)  // `deleteAlarm` and the dialog's answer
    | ScanStarted                          // "NFC Scan" button
    | ScanFinished(id: int)                // the scan dialog's "OK", id from the clock

  /** Taps can only land on rows the wheels render. */
  predicate ValidEvent(e: Event) {
    match e
    case HourTapped(i) => 0 <= i < |Hours|
    case MinuteTapped(i) => 0 <= i < |Minutes|
    case PeriodTapped(i) => 0 <= i < |Periods|
    case _ => true
  }

  /** Events that change the alarm list. */
  predicate ChangesList(e: Event) {
    e.Save? || e.SwitchFlipped? || e.DeletePressed? || e.ScanFinished?
  }

  /** `addManualAlarm`: appends an active alarm built from the form, closes
      the form and puts every field back to its default. */
  function AddManualAlarm(s: Screen, id: int): (r: Screen)
    ensures |r.alarms| == |s.alarms| + 1
    ensures r.alarms[..|s.alarms|] == s.alarms
    ensures var a := r.alarms[|s.alarms|];
      && a.id == id && a.isActive
      && a.time == FormatTime(s.form.hour, s.form.minute)
      && a.period == s.form.period && a.days == s.form.days
      && a.labelText == s.form.labelText && a.speechText == s.form.speechText
    ensures r.form == DefaultForm && !r.adding && r.scanning == s.scanning
  {
    var f := s.form;
    var a := Alarm(id, FormatTime(f.hour, f.minute), f.period, f.labelText, f.speechText, true, f.days);
    Screen(s.alarms + [a], DefaultForm, false, s.scanning)
  }

  /** The screen's reaction to one event. */
  function Step(s: Screen, e: Event): (r: Screen)
    requires ValidEvent(e)
    ensures !ChangesList(e) ==> r.alarms == s.alarms
    ensures ChangesList(e) && !e.Save? ==> r.form == s.form && r.adding == s.adding
  {
    var f := s.form;
    match e
    case OpenAdd => s.(adding := true)
    case CancelAdd => s.(adding := false)
    case Save(id) => AddManualAlarm(s, id)
    case HourScrolled(o) => s.(form := f.(hour := HourScroll(f.hour, o)))
    case MinuteScrolled(o) => s.(form := f.(minute := MinuteScroll(f.minute, o)))
    case PeriodScrolled(o) => s.(form := f.(period := PeriodScroll(f.period, o)))
    case HourTapped(i) => s.(form := f.(hour := Tap(Hours, i)))
    case MinuteTapped(i) => s.(form := f.(minute := Tap(Minutes, i)))
    case PeriodTapped(i) => s.(form := f.(period := Tap(Periods, i)))
    case DayTapped(d) => s.(form := f.(days := ToggleDay(f.days, d)))
    case LabelEdited(t) => s.(form := f.(labelText := t))
    case SpeechEdited(t) => s.(form := f.(speechText := t))
    case SwitchFlipped(id) => s.(alarms := ToggleAlarm(s.alarms, id))
    case DeletePressed(id, ok) => s.(alarms := DeleteAlarm(s.alarms, id, ok))
    case ScanStarted => s.(scanning := true)
    case ScanFinished(id) => s.(alarms := s.alarms + [ScannedAlarm(id)], scanning := false)
  }

  /** The events of a session, applied in order. */
  function Run(s: Screen, events: seq<Event>): Screen
    requires forall i :: 0 <= i < |events| ==> ValidEvent(events[i])
    decreases events
  {
    if events == [] then s else Run(Step(s, events[0]), events[1..])
  }

  /** The form's fields hold values the form can produce: wheel rows (or
      the initial minute 0) and a well-formed day list. */
  predicate FormOk(f: Form) {
    && f.hour in Hours
    && (f.minute == 0 || f.minute in Minutes)
    && f.period in Periods
    && WellFormed(f.days)
  }

  /** Every stored alarm has 12-hour "HH:MM" time text (hour 1..12,
      minute 0..59), a period, and a well-formed day list. */
  predicate AlarmOk(a: Alarm) {
    && ParseTime(a.time).Some?
    && 1 <= ParseTime(a.time).value.0 <= 12
    && 0 <= ParseTime(a.time).value.1 <= 59
    && a.period in Periods
    && WellFormed(a.days)
  }

  /** Every record is sound and no two share an id. */
  predicate AlarmsOk(alarms: seq<Alarm>) {
    (forall i :: 0 <= i < |alarms| ==> AlarmOk(alarms[i])) && UniqueIds(alarms)
  }

  /** What holds in every state the screen can reach, provided the clock
      never hands out an id that is already in the list. */
  predicate Invariant(s: Screen) {
    FormOk(s.form) && AlarmsOk(s.alarms)
  }

  /** The clock's id for a new alarm is not already in the list. */
  predicate FreshId(s: Screen, e: Event) {
    (e.Save? ==> !HasId(s.alarms, e.id)) && (e.ScanFinished? ==> !HasId(s.alarms, e.id))
  }

  /** Every event of a session gets a fresh id from the clock. */
  predicate FreshRun(s: Screen, events: seq<Event>)
    requires forall i :: 0 <= i < |events| ==> ValidEvent(events[i])
    decreases events
  {
    events == [] || (FreshId(s, events[0]) && FreshRun(Step(s, events[0]), events[1..]))
  }

  /** The starting screen satisfies the invariant. */
  lemma InitialOk()
    ensures Invariant(Initial)
  {
    assert Hours[8] == 9;
    assert "AM" == Periods[0] && "PM" == Periods[1];
    var weekdays := [Mon, Tue, Wed, Thu, Fri];
    assert NoDup(weekdays);
    assert ParseTime("07:00") == Some((7, 0));
    assert ParseTime("12:30") == Some((12, 30));
  }

  /** A saved alarm's time text reads back as the form's hour and minute. */
  lemma SavedTimeReadsBack(s: Screen, id: int)
    requires FormOk(s.form)
    ensures ParseTime(AddManualAlarm(s, id).alarms[|s.alarms|].time) == Some((s.form.hour, s.form.minute))
  {
    FormatThenParse(s.form.hour, s.form.minute);
  }

  /** Saving and then confirming the delete of the new alarm's id gives
      back the list as it was, when the id was fresh. */
  lemma SaveThenDelete(s: Screen, id: int)
    requires !HasId(s.alarms, id)
    ensures DeleteAlarm(AddManualAlarm(s, id).alarms, id, true) == s.alarms
  {
    var a := AddManualAlarm(s, id).alarms[|s.alarms|];
    assert AddManualAlarm(s, id).alarms == s.alarms + [a];
    DeleteKeepsOrder(s.alarms, [a], id);
    DeleteAbsentId(s.alarms, id);
    assert DeleteAlarm([a], id, true) == [];
  }

  /** Appending a record with a fresh id and sound fields keeps the list
      invariant. */
  lemma AppendOk(alarms: seq<Alarm>, a: Alarm)
    requires AlarmsOk(alarms) && AlarmOk(a) && !HasId(alarms, a.id)
    ensures AlarmsOk(alarms + [a])
  {
    var r := alarms + [a];
    forall i | 0 <= i < |r|
      ensures AlarmOk(r[i])
    {
      if i < |alarms| {
        assert r[i] == alarms[i];
      }
    }
    forall i, j | 0 <= i < j < |r|
      ensures r[i].id != r[j].id
    {
      assert r[i] == alarms[i];
      if j < |alarms| {
        assert r[j] == alarms[j];
      }
    }
  }

  /** Every event keeps the invariant, given a fresh clock id. */
  lemma StepOk(s: Screen, e: Event)
    requires Invariant(s) && ValidEvent(e) && FreshId(s, e)
    ensures Invariant(Step(s, e))
  {
    match e
    case Save(id) => SaveOk(s, id);
    case SwitchFlipped(id) => SwitchOk(s, id);
    case DeletePressed(id, ok) => DeleteOk(s, id, ok);
    case ScanFinished(id) => ScanOk(s, id);
    case _ => FormEventOk(s, e);
  }

  /** Events that only touch the form keep it sound, and leave the list
      alone. */
  lemma FormEventOk(s: Screen, e: Event)
    requires Invariant(s) && ValidEvent(e) && !ChangesList(e)
    ensures Invariant(Step(s, e))
  {
    var f := s.form;
    match e
    case MinuteScrolled(o) =>
      var m := MinuteScroll(f.minute, o);
      assert m == f.minute || m in Minutes;
    case DayTapped(d) =>
      ToggleDayWellFormed(f.days, d);
    case _ =>
  }

  /** Saving with a fresh id keeps the invariant: the form's hour is a row
      of 1..12 and its minute 0 or a row of 1..59. */
  lemma SaveOk(s: Screen, id: int)
    requires Invariant(s) && !HasId(s.alarms, id)
    ensures Invariant(Step(s, Save(id)))
  {
    var f := s.form;
    var a := AddManualAlarm(s, id).alarms[|s.alarms|];
    WheelRows();
    FormatThenParse(f.hour, f.minute);
    AppendOk(s.alarms, a);
    assert AddManualAlarm(s, id).alarms == s.alarms + [a];
    assert Hours[8] == 9;
    assert Periods[0] == "AM";
  }

  /** Flipping a switch keeps every record sound and ids unique. */
  lemma SwitchOk(s: Screen, id: int)
    requires Invariant(s)
    ensures Invariant(Step(s, SwitchFlipped(id)))
  {
    var alarms := s.alarms;
    var r := ToggleAlarm(alarms, id);
    ToggleKeepsIds(alarms, id);
    forall i | 0 <= i < |r|
      ensures AlarmOk(r[i])
    {
      assert r[i].(isActive := alarms[i].isActive) == alarms[i];
    }
    assert Step(s, SwitchFlipped(id)) == s.(alarms := r);
  }

  /** Deleting, confirmed or not, keeps every record sound and ids unique. */
  lemma DeleteOk(s: Screen, id: int, ok: bool)
    requires Invariant(s)
    ensures Invariant(Step(s, DeletePressed(id, ok)))
  {
    var alarms := s.alarms;
    var r := DeleteAlarm(alarms, id, ok);
    if ok {
      DeleteUnique(alarms, id);
      forall i | 0 <= i < |r|
        ensures AlarmOk(r[i])
      {
        assert r[i] in alarms;
      }
    }
    assert Step(s, DeletePressed(id, ok)) == s.(alarms := r);
  }

  /** Appending the scanned record with a fresh id keeps the list sound. */
  lemma ScanOk(s: Screen, id: int)
    requires Invariant(s) && !HasId(s.alarms, id)
    ensures Invariant(Step(s, ScanFinished(id)))
  {
    assert ParseTime("08:30") == Some((8, 30));
    AppendOk(s.alarms, ScannedAlarm(id));
  }

  /** Every state a session reaches from a sound state is sound, as long
      as the clock's ids are fresh. */
  lemma {:induction false} RunOk(s: Screen, events: seq<Event>)
    requires forall i :: 0 <= i < |events| ==> ValidEvent(events[i])
    requires Invariant(s) && FreshRun(s, events)
    ensures Invariant(Run(s, events))
    decreases events
  {
    if events != [] {
      StepOk(s, events[0]);
      RunOk(Step(s, events[0]), events[1..]);
    }
  }

  /** Once the minute has left its initial 0, only saving the form brings
      it back: the wheel has no row for 0. */
  lemma OnlySaveResetsMinute(s: Screen, e: Event)
    requires ValidEvent(e) && !e.Save?
    requires s.form.minute != 0
    ensures Step(s, e).form.minute != 0
  {
    if e.MinuteScrolled? {
      MinuteWheelSkipsZero(s.form.minute, e.offset, 0);
    }
  }
}
