/** The three-step booking wizard of components/booking-form.tsx: the draft the form
    holds, the schema that guards "Next", the step state machine with its back/cancel
    button, the price total and the calendar's date window. */
module Booking {
  import opened Options
  import JsNumber

  /** Milliseconds in a day; timestamps are milliseconds as in a JavaScript `Date`. */
  const MsPerDay: int := 86400000
  /** How many days ahead the calendar lets a date be chosen. */
  const BookingWindowDays: int := 30

  /** The hourly start times the time-slot select offers. */
  const TimeSlots: seq<string> := [
    "09:00", "10:00", "11:00", "12:00", "13:00", "14:00",
    "15:00", "16:00", "17:00", "18:00", "19:00", "20:00"
  ]

  /** The hour counts the duration select offers; each option's value is `hours.toString()`. */
  const DurationHours: seq<nat> := [1, 2, 3]

  function DurationOption(hours: nat): string {
    JsNumber.Decimal(hours)
  }

  /** The form values; `None` is a field that is still `undefined`. */
  datatype Draft = Draft(
    date: Option<int>,
    timeSlot: Option<string>,
    duration: Option<string>,
    players: Option<string>,
    notes: Option<string>,
    equipment: Option<seq<string>>)

  /** The form's default values: only players, notes and equipment have one. */
  const DefaultDraft: Draft := Draft(None, None, None, Some(""), Some(""), Some([]))

  datatype Field = DateField | TimeSlotField | DurationField | PlayersField

  /** One validation message, attached to the field it is shown under. */
  datatype Issue = Issue(field: Field, message: string)

  /** The schema holds: date, time slot and duration are present and players is a
      string of length at least 1; notes and equipment may be absent. Nothing checks the
      time slot or duration against the offered options, nor the date against the window. */
  predicate SchemaValid(d: Draft) {
    && d.date.Some?
    && d.timeSlot.Some?
    && d.duration.Some?
    && d.players.Some? && |d.players.value| >= 1
  }

  /** Whether the schema rejects the given field of the draft. */
  predicate FieldInvalid(d: Draft, f: Field) {
    match f
    case DateField => d.date.None?
    case TimeSlotField => d.timeSlot.None?
    case DurationField => d.duration.None?
    case PlayersField => !(d.players.Some? && |d.players.value| >= 1)
  }

  /** The message for one field, if the schema rejects it. A player count that is
      missing altogether gets the schema library's generic "Required". */
  function FieldIssue(d: Draft, f: Field): (r: seq<Issue>)
    ensures |r| <= 1
    ensures r != [] <==> FieldInvalid(d, f)
    ensures r != [] ==> r[0].field == f
  {
    match f
    case DateField => if d.date.None? then [Issue(DateField, "Please select a date")] else []
    case TimeSlotField => if d.timeSlot.None? then [Issue(TimeSlotField, "Please select a time slot")] else []
    case DurationField => if d.duration.None? then [Issue(DurationField, "Please select duration")] else []
    case PlayersField =>
      if d.players.None? then [Issue(PlayersField, "Required")]
      else if |d.players.value| < 1 then [Issue(PlayersField, "Please enter number of players")]
      else []
  }

  /** The schema's fields, in the order it checks them. */
  const SchemaFields: seq<Field> := [DateField, TimeSlotField, DurationField, PlayersField]

  /** Whether some message in `issues` is attached to field `f`. */
  predicate Reports(issues: seq<Issue>, f: Field) {
    exists i :: 0 <= i < |issues| && issues[i].field == f
  }

  lemma ReportsConcat(a: seq<Issue>, b: seq<Issue>)
    ensures forall f :: Reports(a + b, f) <==> Reports(a, f) || Reports(b, f)
  {
    forall f ensures Reports(a + b, f) <==> Reports(a, f) || Reports(b, f) {
      if Reports(a, f) {
        var i :| 0 <= i < |a| && a[i].field == f;
        assert (a + b)[i] == a[i];
      }
      if Reports(b, f) {
        var i :| 0 <= i < |b| && b[i].field == f;
        assert (a + b)[|a| + i] == b[i];
      }
      if Reports(a + b, f) {
        var i :| 0 <= i < |a + b| && (a + b)[i].field == f;
        if i < |a| { assert a[i] == (a + b)[i]; } else { assert b[i - |a|] == (a + b)[i]; }
      }
    }
  }

  function IssuesOf(d: Draft, fields: seq<Field>): (r: seq<Issue>)
    ensures r == [] <==> forall i :: 0 <= i < |fields| ==> !FieldInvalid(d, fields[i])
    ensures forall f :: Reports(r, f) <==> f in fields && FieldInvalid(d, f)
  {
    if fields == [] then []
    else
      var head, rest := FieldIssue(d, fields[0]), IssuesOf(d, fields[1..]);
      ReportsConcat(head, rest);
      assert forall f :: f in fields <==> f == fields[0] || f in fields[1..];
      assert forall f :: Reports(head, f) <==> f == fields[0] && FieldInvalid(d, f);
      head + rest
  }

  /** The messages the schema reports for a draft, in its field order: one for each
      field it rejects and none for the others. */
  function Issues(d: Draft): (r: seq<Issue>)
    ensures r == [] <==> SchemaValid(d)
    ensures forall f :: Reports(r, f) <==> FieldInvalid(d, f)
  {
    var r := IssuesOf(d, SchemaFields);
    assert SchemaFields[0] == DateField && SchemaFields[1] == TimeSlotField;
    assert SchemaFields[2] == DurationField && SchemaFields[3] == PlayersField;
    assert forall f: Field :: f.DateField? || f.TimeSlotField? || f.DurationField? || f.PlayersField?;
    r
  }

  /** The end of the calendar's window, `addDays(now, days)`. */
  function AddDays(now: int, days: int): int {
    now + days * MsPerDay
  }

  /** The calendar's `disabled` predicate: dates before `now` or more than 30 days after it. */
  function DateDisabled(date: int, now: int): (r: bool)
    ensures !r <==> now <= date <= now + BookingWindowDays * MsPerDay
  {
    date < now || date > AddDays(now, BookingWindowDays)
  }

  /** The price total shown on the summary: the hourly price times `parseInt` of the
      duration, where a missing or empty duration counts as "1". `None` is `NaN`. */
  function TotalPrice(price: int, duration: Option<string>): Option<int> {
    var text := if duration.None? || duration.value == "" then "1" else duration.value;
    match JsNumber.ParseInt(text)
    case None => None
    case Some(hours) => Some(price * hours)
  }

  /** The label of the left button. */
  function LeftButtonLabel(step: int): (r: string)
    ensures r == "Cancel" <==> step == 1
    ensures r == "Cancel" || r == "Back"
  {
    if step == 1 then "Cancel" else "Back"
  }

  /** The label of the submit button. */
  function SubmitButtonLabel(step: int): (r: string)
    ensures r == "Confirm & Pay" <==> step == 3
    ensures r == "Confirm & Pay" || r == "Next"
  {
    if step == 3 then "Confirm & Pay" else "Next"
  }

  datatype WizardState = WizardState(step: int, draft: Draft)

  /** The state a freshly mounted form starts in. */
  const Initial: WizardState := WizardState(1, DefaultDraft)

  /** What the user can do. The date, time-slot and duration inputs are on screen only at
      step 1, the players and notes inputs only at step 2; equipment has no input. */
  datatype Action =
    | Next
    | BackOrCancel
    | PickDate(date: int, now: int)
    | PickTimeSlot(slot: string)
    | PickDuration(hours: string)
    | EnterPlayers(players: string)
    | EnterNotes(notes: string)

  /** What an action leads to beyond the new state: `Cancelled` is the call of the
      parent's cancel callback, `Confirmed` the final submission with its values. */
  datatype Event =
    | Advanced
    | Confirmed(values: Draft)
    | Rejected(issues: seq<Issue>)
    | SteppedBack
    | Cancelled
    | Edited
    | Ignored

  /** One user action. "Next" validates the whole draft and only then moves on (or, at
      step 3, submits); the left button goes back, or at step 1 cancels. An edit of an
      input that is not on screen cannot happen and is `Ignored`, as is a click on a
      disabled calendar date. */
  function Apply(s: WizardState, a: Action): (r: (WizardState, Event))
    ensures a != Next && a != BackOrCancel ==> r.0.step == s.step
    ensures 1 <= s.step <= 3 ==> 1 <= r.0.step <= 3
  {
    match a
    case Next =>
      if !SchemaValid(s.draft) then (s, Rejected(Issues(s.draft)))
      else if s.step < 3 then (s.(step := s.step + 1), Advanced)
      else (s, Confirmed(s.draft))
    case BackOrCancel =>
      if s.step == 1 then (s, Cancelled) else (s.(step := s.step - 1), SteppedBack)
    case PickDate(date, now) =>
      if s.step == 1 && !DateDisabled(date, now)
      then (s.(draft := s.draft.(date := Some(date))), Edited) else (s, Ignored)
    case PickTimeSlot(slot) =>
      if s.step == 1 then (s.(draft := s.draft.(timeSlot := Some(slot))), Edited) else (s, Ignored)
    case PickDuration(hours) =>
      if s.step == 1 then (s.(draft := s.draft.(duration := Some(hours))), Edited) else (s, Ignored)
    case EnterPlayers(players) =>
      if s.step == 2 then (s.(draft := s.draft.(players := Some(players))), Edited) else (s, Ignored)
    case EnterNotes(notes) =>
      if s.step == 2 then (s.(draft := s.draft.(notes := Some(notes))), Edited) else (s, Ignored)
  }

  /** The state after a sequence of actions. */
  function Run(s: WizardState, actions: seq<Action>): WizardState
    decreases |actions|
  {
    if actions == [] then s else Run(Apply(s, actions[0]).0, actions[1..])
  }

  /** The events a sequence of actions produces, one per action: the k-th is what the
      k-th action does in the state the earlier actions left. */
  function Events(s: WizardState, actions: seq<Action>): (r: seq<Event>)
    ensures |r| == |actions|
    ensures forall k :: 0 <= k < |actions| ==> r[k] == Apply(Run(s, actions[..k]), actions[k]).1
    decreases |actions|
  {
    if actions == [] then []
    else
      var t := Apply(s, actions[0]);
      var r := [t.1] + Events(t.0, actions[1..]);
      assert actions[..0] == [];
      assert forall k :: 0 < k < |actions| ==>
        actions[..k][0] == actions[0] && actions[..k][1..] == actions[1..][..k - 1];
      r
  }

  /** The wizard, as the component holds it: the pitch and hourly price it was given,
      the current step and the form's draft. */
  class BookingWizard {
    const pitchId: string
    const price: int
    var step: int
    var draft: Draft

    ghost predicate Valid()
      reads this
    {
      1 <= step <= 3
    }

    function State(): WizardState
      reads this
    {
      WizardState(step, draft)
    }

    constructor (pitchId: string, price: int)
      ensures this.pitchId == pitchId && this.price == price
      ensures Valid() && State() == Initial
    {
      this.pitchId := pitchId;
      this.price := price;
      step := 1;
      draft := DefaultDraft;
    }

    /** The submit button: the whole draft is validated; only a valid draft moves the
        wizard on, and at step 3 it is handed over as the final values. */
    method Submit() returns (event: Event)
      requires Valid()
      modifies this
      ensures Valid() && (State(), event) == Apply(old(State()), Next)
      ensures !SchemaValid(old(draft)) ==> step == old(step) && event == Rejected(Issues(draft))
      ensures SchemaValid(old(draft)) && old(step) < 3 ==> step == old(step) + 1 && event == Advanced
      ensures SchemaValid(old(draft)) && old(step) == 3 ==> step == 3 && event == Confirmed(draft)
      ensures draft == old(draft)
    {
      if !SchemaValid(draft) {
        event := Rejected(Issues(draft));
        return;
      }
      if step < 3 {
        step := step + 1;
        event := Advanced;
        return;
      }
      event := Confirmed(draft);
    }

    /** The left button: back one step, or at step 1 the parent's cancel callback. */
    method BackOrCancel() returns (cancelled: bool)
      requires Valid()
      modifies this
      ensures Valid() && (State(), if cancelled then Cancelled else SteppedBack) == Apply(old(State()), Action.BackOrCancel)
      ensures cancelled <==> old(step) == 1
      ensures step == if cancelled then 1 else old(step) - 1
      ensures draft == old(draft)
    {
      cancelled := step == 1;
      if !cancelled {
        step := step - 1;
      }
    }

    /** A click on a calendar date at time `now`; a disabled date does nothing. */
    method PickDate(date: int, now: int) returns (accepted: bool)
      requires Valid() && step == 1
      modifies this
      ensures Valid() && (State(), if accepted then Edited else Ignored) == Apply(old(State()), Action.PickDate(date, now))
      ensures accepted <==> !DateDisabled(date, now)
      ensures draft == if accepted then old(draft).(date := Some(date)) else old(draft)
      ensures step == old(step)
    {
      accepted := !DateDisabled(date, now);
      if accepted {
        draft := draft.(date := Some(date));
      }
    }

    method PickTimeSlot(slot: string)
      requires Valid() && step == 1
      modifies this
      ensures Valid() && (State(), Edited) == Apply(old(State()), Action.PickTimeSlot(slot))
      ensures draft == old(draft).(timeSlot := Some(slot)) && step == old(step)
    {
      draft := draft.(timeSlot := Some(slot));
    }

    method PickDuration(hours: string)
      requires Valid() && step == 1
      modifies this
      ensures Valid() && (State(), Edited) == Apply(old(State()), Action.PickDuration(hours))
      ensures draft == old(draft).(duration := Some(hours)) && step == old(step)
    {
      draft := draft.(duration := Some(hours));
    }

    method EnterPlayers(players: string)
      requires Valid() && step == 2
      modifies this
      ensures Valid() && (State(), Edited) == Apply(old(State()), Action.EnterPlayers(players))
      ensures draft == old(draft).(players := Some(players)) && step == old(step)
    {
      draft := draft.(players := Some(players));
    }

    method EnterNotes(notes: string)
      requires Valid() && step == 2
      modifies this
      ensures Valid() && (State(), Edited) == Apply(old(State()), Action.EnterNotes(notes))
      ensures draft == old(draft).(notes := Some(notes)) && step == old(step)
    {
      draft := draft.(notes := Some(notes));
    }

    /** The total on the summary, for this wizard's price and duration. */
    function Total(): (r: Option<int>)
      reads this
      ensures draft.duration.None? || draft.duration == Some("") ==> r == Some(price)
      ensures forall hours: nat :: draft.duration == Some(JsNumber.Decimal(hours)) ==> r == Some(price * hours)
      ensures r.None? <==> draft.duration.Some? && draft.duration.value != "" && JsNumber.ParseInt(draft.duration.value).None?
    {
      TotalNaN(price, draft.duration);
      if draft.duration.None? || draft.duration == Some("") then
        TotalDefaultsToOneHour(price, draft.duration);
        TotalPrice(price, draft.duration)
      else
        TotalOfEveryWholeHours(price);
        TotalPrice(price, draft.duration)
    }
  }

  // ---------------------------------------------------------------------------
  // Properties of the step machine

  /** From any step in {1, 2, 3}, every sequence of actions stays in {1, 2, 3}. */
  lemma {:induction false} RunKeepsStepInRange(s: WizardState, actions: seq<Action>)
    requires 1 <= s.step <= 3
    ensures 1 <= Run(s, actions).step <= 3
    decreases |actions|
  {
    if actions != [] {
      RunKeepsStepInRange(Apply(s, actions[0]).0, actions[1..]);
    }
  }

  /** "Next" changes the step only when the whole schema holds, and then at step 1 or 2
      it moves exactly one step forward; at step 3 the step stays and the draft is
      submitted. The draft is never changed. */
  lemma NextAdvancesOnlyWhenValid(s: WizardState)
    requires 1 <= s.step <= 3
    ensures Apply(s, Next).0.draft == s.draft
    ensures Apply(s, Next).0.step != s.step <==> SchemaValid(s.draft) && s.step < 3
    ensures Apply(s, Next).0.step != s.step ==> Apply(s, Next).0.step == s.step + 1
    ensures Apply(s, Next).1.Confirmed? <==> SchemaValid(s.draft) && s.step == 3
    ensures Apply(s, Next).1 == Confirmed(s.draft) || !Apply(s, Next).1.Confirmed?
    ensures !SchemaValid(s.draft) ==> Apply(s, Next).1 == Rejected(Issues(s.draft)) && Issues(s.draft) != []
  {
  }

  /** The left button at step 2 or 3 goes back one step and keeps every field; at
      step 1 it cancels and changes nothing. */
  lemma BackKeepsDraft(s: WizardState)
    requires 1 <= s.step <= 3
    ensures s.step > 1 ==> Apply(s, BackOrCancel) == (WizardState(s.step - 1, s.draft), SteppedBack)
    ensures s.step == 1 ==> Apply(s, BackOrCancel) == (s, Cancelled)
  {
  }

  /** The labels agree with what the buttons do: the left button reads "Cancel" exactly
      when it cancels, and for a valid draft the submit button reads "Confirm & Pay"
      exactly when it submits. */
  lemma LabelsMatchBehaviour(s: WizardState)
    requires 1 <= s.step <= 3
    ensures LeftButtonLabel(s.step) == "Cancel" <==> Apply(s, BackOrCancel).1 == Cancelled
    ensures SchemaValid(s.draft) ==>
      (SubmitButtonLabel(s.step) == "Confirm & Pay" <==> Apply(s, Next).1.Confirmed?)
  {
  }

  /** Every confirmed submission carries a draft that satisfies the schema. */
  lemma {:induction false} ConfirmedValuesAreValid(s: WizardState, actions: seq<Action>, k: nat)
    requires k < |actions|
    requires Events(s, actions)[k].Confirmed?
    ensures SchemaValid(Events(s, actions)[k].values)
    ensures Events(s, actions)[k].values == Run(s, actions[..k]).draft
    decreases k
  {
    if k == 0 {
      assert actions[..0] == [];
    } else {
      assert actions[1..][..k - 1] == actions[..k][1..];
      ConfirmedValuesAreValid(Apply(s, actions[0]).0, actions[1..], k - 1);
    }
  }

  /** As written, the wizard never leaves step 1: "Next" validates the players field,
      whose default is the empty string, and the players input is only on screen at
      step 2. So from the initial state no sequence of actions reaches step 2, and no
      booking is ever confirmed. */
  lemma {:induction false} InitialRunStaysAtStepOne(actions: seq<Action>)
    ensures Run(Initial, actions).step == 1
    ensures forall k :: 0 <= k < |actions| ==> !Events(Initial, actions)[k].Confirmed?
  {
    StuckStaysStuck(Initial, actions);
  }

  /** Step 1 with an unusable players field is closed under every action. */
  predicate Stuck(s: WizardState) {
    s.step == 1 && !(s.draft.players.Some? && |s.draft.players.value| >= 1)
  }

  lemma {:induction false} StuckStaysStuck(s: WizardState, actions: seq<Action>)
    requires Stuck(s)
    ensures Stuck(Run(s, actions))
    ensures forall k :: 0 <= k < |actions| ==> !Events(s, actions)[k].Confirmed?
    decreases |actions|
  {
    if actions != [] {
      var t := Apply(s, actions[0]);
      assert Stuck(t.0) && !t.1.Confirmed?;
      StuckStaysStuck(t.0, actions[1..]);
      assert Events(s, actions) == [t.1] + Events(t.0, actions[1..]);
    }
  }

  // ---------------------------------------------------------------------------
  // Properties of the total and the calendar

  /** A duration that is missing or empty counts as one hour. */
  lemma TotalDefaultsToOneHour(price: int, duration: Option<string>)
    requires duration.None? || duration == Some("")
    ensures TotalPrice(price, duration) == Some(price)
  {
    assert "1" == JsNumber.Decimal(1);
    JsNumber.ParseIntOfDecimal(1);
  }

  /** The total is the price times the duration for every whole number of hours written
      as `toString` writes it. */
  lemma TotalOfWholeHours(price: int, hours: nat)
    ensures TotalPrice(price, Some(JsNumber.Decimal(hours))) == Some(price * hours)
  {
    JsNumber.ParseIntOfDecimal(hours);
  }

  lemma TotalOfEveryWholeHours(price: int)
    ensures forall hours: nat :: TotalPrice(price, Some(JsNumber.Decimal(hours))) == Some(price * hours)
  {
    forall hours: nat ensures TotalPrice(price, Some(JsNumber.Decimal(hours))) == Some(price * hours) {
      TotalOfWholeHours(price, hours);
    }
  }

  /** The offered durations "1", "2" and "3" give the price times one, two and three;
      an hourly price of 60 for two hours totals 120. */
  lemma TotalOfOfferedDurations(price: int)
    ensures DurationOption(1) == "1" && DurationOption(2) == "2" && DurationOption(3) == "3"
    ensures forall i :: 0 <= i < |DurationHours| ==>
      TotalPrice(price, Some(DurationOption(DurationHours[i]))) == Some(price * DurationHours[i])
    ensures TotalPrice(60, Some("2")) == Some(120)
  {
    forall i | 0 <= i < |DurationHours|
      ensures TotalPrice(price, Some(DurationOption(DurationHours[i]))) == Some(price * DurationHours[i])
    {
      TotalOfWholeHours(price, DurationHours[i]);
    }
    TotalOfWholeHours(60, 2);
  }

  /** The schema does not restrict the time slot or the duration to what the selects
      offer: "21:00" is no offered slot and "4" no offered duration, yet a draft that
      passes the schema still passes with them. */
  lemma SchemaIgnoresOfferedChoices(d: Draft)
    requires SchemaValid(d)
    ensures "21:00" !in TimeSlots
    ensures forall i :: 0 <= i < |DurationHours| ==> DurationOption(DurationHours[i]) != "4"
    ensures SchemaValid(d.(timeSlot := Some("21:00"), duration := Some("4")))
  {
    NoSlotAfterEight();
    NoFourHourDuration();
  }

  /** The duration select offers "1", "2" and "3", so not "4". */
  lemma NoFourHourDuration()
    ensures forall i :: 0 <= i < |DurationHours| ==> DurationOption(DurationHours[i]) != "4"
  {
    forall i | 0 <= i < |DurationHours| ensures DurationOption(DurationHours[i]) != "4" {
      var r := DurationOption(DurationHours[i]);
      assert |r| == 1 && JsNumber.DigitValue(r[0]) == DurationHours[i];
      assert JsNumber.DigitValue("4"[0]) == 4;
    }
  }

  /** The last offered slot is "20:00", and "21:00" is not offered. */
  lemma NoSlotAfterEight()
    ensures TimeSlots[|TimeSlots| - 1] == "20:00"
    ensures "21:00" !in TimeSlots
  {
    forall i | 0 <= i < |TimeSlots| ensures TimeSlots[i] != "21:00" {
      assert TimeSlots[i][0] != '2' || TimeSlots[i][1] != '1';
      assert "21:00"[0] == '2' && "21:00"[1] == '1';
    }
  }

  /** The total is `NaN` exactly when a non-empty duration has no number to parse. */
  lemma TotalNaN(price: int, duration: Option<string>)
    ensures TotalPrice(price, duration).None? <==>
      duration.Some? && duration.value != "" && JsNumber.ParseInt(duration.value).None?
  {
    if duration.None? || duration.value == "" {
      TotalDefaultsToOneHour(price, duration);
    }
  }

  /** A date the calendar accepts lies in the window `[now, now + 30 days]`, and the draft
      then holds exactly that date. */
  lemma PickedDateInWindow(s: WizardState, date: int, now: int)
    requires s.step == 1
    ensures Apply(s, PickDate(date, now)).1 == Edited <==> AddDays(now, 0) <= date <= AddDays(now, BookingWindowDays)
    ensures Apply(s, PickDate(date, now)).1 == Edited ==> Apply(s, PickDate(date, now)).0.draft.date == Some(date)
    ensures Apply(s, PickDate(date, now)).1 == Ignored ==> Apply(s, PickDate(date, now)).0 == s
  {
  }
}
