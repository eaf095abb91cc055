/** The room-aware slot picker: bookable start times from a room's opening time,
    closing time and interval, with already-booked times disabled. */
module RoomTimePicker {
  import opened Wrappers
  import opened Text
  import opened TimeOfDay
  import TimePicker

  /** A room as the picker reads it: the record of the rooms API plus the optional
      opening hours that the picker consults. */
  datatype Room = Room(
    id: int,
    number: string,
    availability: bool,
    startTime: Option<string>,
    endTime: Option<string>,
    intervalMinutes: Option<nat>)

  /** All three settings are truthy (an interval of 0 is falsy). */
  predicate Configured(room: Room) {
    Truthy(room.startTime) && Truthy(room.endTime)
    && room.intervalMinutes.Some? && room.intervalMinutes.value != 0
  }

  /** Hours that are actually parsed are well-formed `HH:MM` text. */
  predicate WellFormed(room: Option<Room>) {
    room.Some? && Configured(room.value) ==>
      IsTime(room.value.startTime.value) && IsTime(room.value.endTime.value)
  }

  /** The start times emitted for a configured room: from the opening time, one interval
      apart, every one strictly before the closing time. */
  function ConfiguredMinutes(start: nat, end: nat, interval: nat): seq<nat>
    requires interval > 0
  {
    Grid(start, interval, CeilDiv(end - start, interval))
  }

  /** What `generateTimeSlots(room)` returns. */
  function Slots(room: Option<Room>): (s: seq<string>)
    requires WellFormed(room)
    ensures forall i :: 0 <= i < |s| ==> IsTime(s[i])
    ensures forall i, j :: 0 <= i < j < |s| ==> ParseTime(s[i]) < ParseTime(s[j])
  {
    if room.None? || !Configured(room.value) then
      DefaultDayMinutesShape();
      TimesWellFormed(DefaultDayMinutes());
      Times(DefaultDayMinutes())
    else
      var r := room.value;
      var ms := ConfiguredMinutes(ParseTime(r.startTime.value), ParseTime(r.endTime.value), r.intervalMinutes.value);
      ConfiguredMinutesShape(ParseTime(r.startTime.value), ParseTime(r.endTime.value), r.intervalMinutes.value);
      TimesWellFormed(ms);
      Times(ms)
  }

  method GenerateTimeSlots(room: Option<Room>) returns (times: seq<string>)
    requires WellFormed(room)
    ensures times == Slots(room)
  {
    if room.None? || !Configured(room.value) {
      times := TimePicker.GenerateTimeSlots();
    } else {
      var r := room.value;
      times := ConfiguredTimeSlots(ParseTime(r.startTime.value), ParseTime(r.endTime.value), r.intervalMinutes.value);
    }
  }

  /** The configured path: a `while` loop advancing the current time by the interval. */
  method ConfiguredTimeSlots(start: nat, end: nat, interval: nat) returns (times: seq<string>)
    requires interval > 0 && end < MinutesPerDay
    ensures times == Times(ConfiguredMinutes(start, end, interval))
  {
    var current := start;
    times := [];
    ghost var n: nat := 0;
    while current < end
      invariant |times| == n
      invariant current == start + n * interval
      invariant n == 0 || current - interval < end
      invariant times == Times(Grid(start, interval, n))
      decreases end - current
    {
      ClockLabelSnoc(start, interval, n, current);
      NextStep(start, interval, n);
      times := times + [Label(current / 60, current % 60)];
      current := current + interval;
      n := n + 1;
    }
    StepsToReach(end - start, interval, n);
  }

  lemma NextStep(start: nat, step: nat, n: nat)
    ensures start + (n + 1) * step == start + n * step + step
  {
  }

  /** Without a room, or with any of the three settings falsy, the picker offers the
      fixed grid 08:00, 08:30, ..., 18:00, closing time included. */
  lemma UnconfiguredRoomGetsDefaultGrid(room: Option<Room>)
    requires room.None? || !Configured(room.value)
    ensures Slots(room) == Times(DefaultDayMinutes())
    ensures |Slots(room)| == 21
    ensures Slots(room)[0] == "08:00" && Slots(room)[20] == "18:00"
    ensures LabelsOf(Slots(room), DefaultDayMinutes())
  {
    DefaultDayEnds();
    DefaultDayGrid();
  }

  /** The configured minutes: ceil((closing - opening) / interval) of them (none when
      closing <= opening), all in [opening, closing), one interval apart. */
  lemma ConfiguredMinutesShape(start: nat, end: nat, step: nat)
    requires step > 0
    ensures var ms := ConfiguredMinutes(start, end, step);
      && |ms| == CeilDiv(end - start, step)
      && (end <= start ==> ms == [])
      && (start < end ==> ms[0] == start)
      && (forall i :: 0 <= i < |ms| ==> start <= ms[i] < end)
      && (forall i :: 0 <= i < |ms| - 1 ==> ms[i + 1] == ms[i] + step)
      && StrictlyIncreasing(ms)
  {
    var ms := ConfiguredMinutes(start, end, step);
    forall i | 0 <= i < |ms| ensures start <= ms[i] < end {
      BelowIffUnderCeil(end - start, step, i);
    }
    GridIncreasing(start, step, |ms|);
    BelowIffUnderCeil(end - start, step, 0);
  }

  /** The configured path labels those minutes: the first label is the room's own opening
      text and the closing time is never offered. */
  lemma ConfiguredSlots(r: Room)
    requires Configured(r) && WellFormed(Some(r))
    ensures var start, end, step := ParseTime(r.startTime.value), ParseTime(r.endTime.value), r.intervalMinutes.value;
      var ms := ConfiguredMinutes(start, end, step);
      var s := Slots(Some(r));
      && s == Times(ms)
      && LabelsOf(s, ms)
      && (start < end ==> s[0] == r.startTime.value)
      && r.endTime.value !in s
  {
    var start, end, step := ParseTime(r.startTime.value), ParseTime(r.endTime.value), r.intervalMinutes.value;
    var ms := ConfiguredMinutes(start, end, step);
    var s := Slots(Some(r));
    ConfiguredMinutesShape(start, end, step);
    TimesWellFormed(ms);
    if start < end {
      FormatParseTime(r.startTime.value);
    }
    forall k | 0 <= k < |s| ensures s[k] != r.endTime.value {
      assert ParseTime(s[k]) == ms[k] < end;
    }
  }

  /** 09:00 to 10:15 every 30 minutes: 09:00, 09:30 and 10:00, no partial slot. */
  lemma NineToQuarterPastTen()
    ensures Slots(Some(Room(1, "101", true, Some("09:00"), Some("10:15"), Some(30))))
         == ["09:00", "09:30", "10:00"]
  {
    assert ParseTime("09:00") == 540 && ParseTime("10:15") == 615;
    assert CeilDiv(75, 30) == 3;
    assert Grid(540, 30, 3) == [540, 570, 600];
    NineToTenLabels();
  }

  lemma NineToTenLabels()
    ensures Times([540, 570, 600]) == ["09:00", "09:30", "10:00"]
  {
    FormatTimeShape(540);
    FormatTimeShape(570);
    FormatTimeShape(600);
  }

  datatype View =
    | NoRoomSelected                                    // "Selecione uma sala primeiro"
    | NoHoursConfigured                                 // "Esta sala não tem horários configurados"
    | SlotGrid(buttons: seq<TimePicker.SlotButton>, noneAvailable: bool)

  /** What the component renders. The guard checks only the opening and closing time,
      not the interval. */
  function Render(room: Option<Room>, value: Option<string>, disabledTimes: seq<string>): (v: View)
    requires WellFormed(room)
    ensures v.NoRoomSelected? <==> room.None?
    ensures v.NoHoursConfigured? <==> room.Some? && !(Truthy(room.value.startTime) && Truthy(room.value.endTime))
    ensures v.SlotGrid? ==>
      && |v.buttons| == |Slots(room)|
      && (v.noneAvailable <==> Slots(room) == [])
      && forall i :: 0 <= i < |v.buttons| ==>
           && v.buttons[i].time == Slots(room)[i]
           && (v.buttons[i].disabled <==> Slots(room)[i] in disabledTimes)
           && (v.buttons[i].selected <==> value == Some(Slots(room)[i]))
  {
    if room.None? then NoRoomSelected
    else if !Truthy(room.value.startTime) || !Truthy(room.value.endTime) then NoHoursConfigured
    else
      var slots := Slots(room);
      SlotGrid(seq(|slots|, i requires 0 <= i < |slots| =>
                 TimePicker.SlotButton(slots[i], value == Some(slots[i]), slots[i] in disabledTimes)),
               |slots| == 0)
  }

  /** Clicking a button of the grid selects its slot; the handler, the plain picker's
      `onSelect?.(time)`, has no availability check of its own. */
  lemma ClickSelectsSlot(room: Option<Room>, value: Option<string>, disabledTimes: seq<string>, i: nat)
    requires WellFormed(room)
    requires Render(room, value, disabledTimes).SlotGrid?
    requires i < |Render(room, value, disabledTimes).buttons|
    ensures var b := Render(room, value, disabledTimes).buttons[i];
      && TimePicker.OnClick(b) == Some(Slots(room)[i])
      && (b.disabled <==> TimePicker.OnClick(b).value in disabledTimes)
  {
  }

  /** A room with hours but no interval passes the render guard and then shows the
      default 08:00-18:00 grid instead of its own hours. */
  lemma HoursWithoutIntervalShowDefaultGrid(r: Room, value: Option<string>, disabledTimes: seq<string>)
    requires Truthy(r.startTime) && Truthy(r.endTime)
    requires r.intervalMinutes.None? || r.intervalMinutes == Some(0)
    ensures Render(Some(r), value, disabledTimes).SlotGrid?
    ensures |Render(Some(r), value, disabledTimes).buttons| == 21
    ensures Render(Some(r), value, disabledTimes).buttons[0].time == "08:00"
    ensures Render(Some(r), value, disabledTimes).buttons[20].time == "18:00"
  {
    UnconfiguredRoomGetsDefaultGrid(Some(r));
  }
}
