/** The plain slot picker: a fixed half-hourly grid from 08:00 to 18:00 with booked
    times disabled. The room-aware picker falls back to the same loop. */
module TimePicker {
  import opened Wrappers
  import opened TimeOfDay

  /** Nested hour and minute loops with an early `break` at 18:30. */
  method GenerateTimeSlots() returns (times: seq<string>)
    ensures times == Times(DefaultDayMinutes())
  {
    ghost var ms: seq<nat> := [];
    times := [];
    var hour := 8;
    while hour <= 18
      invariant 8 <= hour <= 19
      invariant |ms| == if hour <= 18 then 2 * (hour - 8) else 21
      invariant forall i :: 0 <= i < |ms| ==> ms[i] == 480 + 30 * i
      invariant times == Times(ms)
    {
      var minute := 0;
      while minute < 60
        invariant minute == 0 || minute == 30 || minute == 60
        invariant hour == 18 ==> minute <= 30
        invariant |ms| == 2 * (hour - 8) + minute / 30
        invariant forall i :: 0 <= i < |ms| ==> ms[i] == 480 + 30 * i
        invariant times == Times(ms)
      {
        if hour == 18 && minute > 0 {
          break;
        }
        TimesSnocLabel(ms, hour, minute);
        times := times + [Label(hour, minute)];
        ms := ms + [hour * 60 + minute];
        minute := minute + 30;
      }
      hour := hour + 1;
    }
    DefaultDayMinutesShape();
    assert ms == DefaultDayMinutes();
  }

  /** 21 slots from 08:00 to 18:00 inclusive, 30 minutes apart, in increasing order, every
      one a well-formed label ending in ":00" or ":30", none after 18:00, no two alike. */
  lemma GridShape()
    ensures var s, ms := Times(DefaultDayMinutes()), DefaultDayMinutes();
      && |s| == 21
      && s[0] == "08:00" && s[20] == "18:00"
      && LabelsOf(s, ms)
      && StrictlyIncreasing(ms)
      && (forall i :: 0 <= i < 20 ==> ms[i + 1] == ms[i] + 30)
      && (forall i :: 0 <= i < 21 ==> ParseTime(s[i]) <= 18 * 60)
      && (forall i :: 0 <= i < 21 ==> s[i][3..] == "00" || s[i][3..] == "30")
      && (forall i, j :: 0 <= i < j < 21 ==> s[i] != s[j])
  {
    var ms := DefaultDayMinutes();
    DefaultDayMinutesShape();
    DefaultDayEnds();
    DefaultDayGrid();
    TimesDistinct(ms);
  }

  datatype SlotButton = SlotButton(time: string, selected: bool, disabled: bool)

  /** One button per slot: selected iff it is the current value, disabled iff booked. */
  function Buttons(value: Option<string>, disabledTimes: seq<string>): (r: seq<SlotButton>)
    ensures |r| == |Times(DefaultDayMinutes())|
    ensures forall i :: 0 <= i < |r| ==>
      && r[i].time == Times(DefaultDayMinutes())[i]
      && (r[i].selected <==> value == Some(r[i].time))
      && (r[i].disabled <==> r[i].time in disabledTimes)
  {
    var slots := Times(DefaultDayMinutes());
    seq(|slots|, i requires 0 <= i < |slots| =>
      SlotButton(slots[i], value == Some(slots[i]), slots[i] in disabledTimes))
  }

  /** The click handler hands the slot's time on without looking at `disabled`. */
  function OnClick(button: SlotButton): (selected: Option<string>)
    ensures selected.Some? && selected.value == button.time
  {
    Some(button.time)
  }

  /** Clicking the i-th button selects the i-th slot, whether or not it is booked: only
      the button's `disabled` attribute stands between a booked time and a click. */
  lemma ClickSelectsSlot(value: Option<string>, disabledTimes: seq<string>, i: nat)
    requires i < |Times(DefaultDayMinutes())|
    ensures var b := Buttons(value, disabledTimes)[i];
      && OnClick(b) == Some(Times(DefaultDayMinutes())[i])
      && (b.disabled <==> OnClick(b).value in disabledTimes)
  {
  }
}
