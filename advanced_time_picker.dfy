/** The advanced slot picker: every whole hour from `startHour` to `endHour` at a chosen
    interval (only `:00` in the last hour), each slot marked available unless booked,
    shown in a morning and an afternoon section. */
module AdvancedTimePicker {
  import opened Wrappers
  import opened Text
  import opened Seqs
  import opened TimeOfDay

  datatype TimeSlot = TimeSlot(time: string, available: bool, labelText: Option<string>)

  /** The component's default props. */
  const DefaultStartHour: nat := 8
  const DefaultEndHour: nat := 18
  const DefaultInterval: nat := 30

  /** How many of the offsets 0, interval, 2 * interval, ... lie below 60. */
  function PerHour(interval: nat): nat
    requires interval > 0
  {
    CeilDiv(60, interval)
  }

  /** The minutes of one full hour. */
  function HourRow(hour: nat, interval: nat): seq<nat>
    requires interval > 0
  {
    Grid(hour * 60, interval, PerHour(interval))
  }

  /** The full hours `startHour .. hour - 1`, one after the other. */
  function Rows(startHour: nat, hour: nat, interval: nat): seq<nat>
    requires interval > 0
    decreases hour
  {
    if hour <= startHour then [] else Rows(startHour, hour - 1, interval) + HourRow(hour - 1, interval)
  }

  /** The generated minutes: every full hour before `endHour`, then `endHour:00` alone. */
  function SlotMinutes(startHour: nat, endHour: nat, interval: nat): seq<nat>
    requires interval > 0
  {
    if startHour > endHour then [] else Rows(startHour, endHour, interval) + [endHour * 60]
  }

  /** A generated slot: available unless booked, labelled with its own time. */
  function MakeSlot(time: string, unavailableTimes: seq<string>): TimeSlot {
    TimeSlot(time, time !in unavailableTimes, Some(time))
  }

  function MakeSlots(times: seq<string>, unavailableTimes: seq<string>): (r: seq<TimeSlot>)
    ensures |r| == |times|
    ensures forall i :: 0 <= i < |times| ==> r[i] == MakeSlot(times[i], unavailableTimes)
  {
    seq(|times|, i requires 0 <= i < |times| => MakeSlot(times[i], unavailableTimes))
  }

  /** What `generateTimeSlots(startHour, endHour, interval, unavailableTimes)` returns. */
  function Generated(startHour: nat, endHour: nat, interval: nat, unavailableTimes: seq<string>): (r: seq<TimeSlot>)
    requires interval > 0
    ensures |r| == |SlotMinutes(startHour, endHour, interval)|
    ensures forall i :: 0 <= i < |r| ==> (r[i].available <==> r[i].time !in unavailableTimes) && r[i].labelText == Some(r[i].time)
  {
    MakeSlots(Times(SlotMinutes(startHour, endHour, interval)), unavailableTimes)
  }

  /** Nested hour and minute loops; in the last hour the loop breaks after `:00`. The
      interval must be positive, or the minute loop never ends. */
  method GenerateTimeSlots(startHour: nat, endHour: nat, interval: nat, unavailableTimes: seq<string>)
    returns (slots: seq<TimeSlot>)
    requires interval > 0
    ensures slots == Generated(startHour, endHour, interval, unavailableTimes)
  {
    ghost var ms: seq<nat> := [];
    slots := [];
    var hour := startHour;
    while hour <= endHour
      invariant startHour <= hour && (hour <= endHour + 1 || hour == startHour)
      invariant hour <= endHour ==> ms == Rows(startHour, hour, interval)
      invariant hour > endHour ==> ms == SlotMinutes(startHour, endHour, interval)
      invariant slots == MakeSlots(Times(ms), unavailableTimes)
    {
      ghost var k: nat := 0;
      var minute := 0;
      while minute < 60
        invariant minute == k * interval
        invariant k == 0 || minute - interval < 60
        invariant hour == endHour ==> k <= 1
        invariant ms == Rows(startHour, hour, interval) + Grid(hour * 60, interval, k)
        invariant slots == MakeSlots(Times(ms), unavailableTimes)
      {
        if hour == endHour && minute > 0 {
          break;
        }
        var timeString := Label(hour, minute);
        var available := timeString !in unavailableTimes;
        SlotsSnoc(ms, hour, minute, unavailableTimes);
        RowSnoc(Rows(startHour, hour, interval), hour, interval, k, minute);
        slots := slots + [TimeSlot(timeString, available, Some(timeString))];
        ms := ms + [hour * 60 + minute];
        assert minute + interval == (k + 1) * interval;
        minute := minute + interval;
        k := k + 1;
      }
      HourDone(startHour, endHour, hour, interval, k, ms);
      hour := hour + 1;
    }
  }

  lemma SlotsSnoc(ms: seq<nat>, hour: nat, minute: nat, unavailableTimes: seq<string>)
    requires minute < 60
    ensures MakeSlots(Times(ms + [hour * 60 + minute]), unavailableTimes)
         == MakeSlots(Times(ms), unavailableTimes) + [MakeSlot(Label(hour, minute), unavailableTimes)]
  {
    TimesSnocLabel(ms, hour, minute);
    var a, b := Times(ms), Times(ms + [hour * 60 + minute]);
    assert b == a + [Label(hour, minute)];
    var x, y := MakeSlots(a, unavailableTimes), MakeSlots(b, unavailableTimes);
    assert y == x + [MakeSlot(Label(hour, minute), unavailableTimes)];
  }

  lemma RowSnoc(prefix: seq<nat>, hour: nat, interval: nat, k: nat, minute: nat)
    requires minute == k * interval
    ensures prefix + Grid(hour * 60, interval, k) + [hour * 60 + minute]
         == prefix + Grid(hour * 60, interval, k + 1)
  {
    GridSnoc(hour * 60, interval, k);
    var g, g' := Grid(hour * 60, interval, k), Grid(hour * 60, interval, k + 1);
    assert g' == g + [hour * 60 + minute];
    assert prefix + g + [hour * 60 + minute] == prefix + (g + [hour * 60 + minute]);
  }

  /** When the minute loop of `hour` ends: a full hour has been added, or, in the last hour,
      just its `:00`. */
  lemma HourDone(startHour: nat, endHour: nat, hour: nat, interval: nat, k: nat, ms: seq<nat>)
    requires interval > 0 && startHour <= hour <= endHour
    requires ms == Rows(startHour, hour, interval) + Grid(hour * 60, interval, k)
    requires hour == endHour ==> k <= 1
    requires (k * interval >= 60 && (k == 0 || k * interval - interval < 60))
          || (hour == endHour && k * interval > 0)
    ensures hour < endHour ==> ms == Rows(startHour, hour + 1, interval)
    ensures hour == endHour ==> ms == SlotMinutes(startHour, endHour, interval)
  {
    if hour < endHour {
      StepsToReach(60, interval, k);
    } else {
      assert k == 1;
      assert Grid(hour * 60, interval, 1) == [hour * 60];
    }
  }

  /** `(endHour - startHour) * ceil(60 / interval) + 1` slots, none when the hours are
      reversed. */
  lemma SlotCount(startHour: nat, endHour: nat, interval: nat, unavailableTimes: seq<string>)
    requires interval > 0
    ensures |Generated(startHour, endHour, interval, unavailableTimes)|
         == if startHour > endHour then 0 else (endHour - startHour) * CeilDiv(60, interval) + 1
  {
    if startHour <= endHour {
      RowsLength(startHour, endHour, interval);
    }
  }

  lemma {:induction false} RowsLength(startHour: nat, hour: nat, interval: nat)
    requires interval > 0
    ensures |Rows(startHour, hour, interval)| == if hour <= startHour then 0 else (hour - startHour) * PerHour(interval)
    decreases hour
  {
    if hour > startHour {
      RowsLength(startHour, hour - 1, interval);
      var p := PerHour(interval);
      assert (hour - startHour) * p == (hour - 1 - startHour) * p + p;
    }
  }

  /** Every minute of a full hour lies in that hour, at an offset that is a multiple of the
      interval. */
  lemma HourRowElements(hour: nat, interval: nat)
    requires interval > 0
    ensures forall i :: 0 <= i < |HourRow(hour, interval)| ==>
      HourRow(hour, interval)[i] / 60 == hour && HourRow(hour, interval)[i] % 60 == i * interval
  {
    var r := HourRow(hour, interval);
    forall i | 0 <= i < |r| ensures r[i] / 60 == hour && r[i] % 60 == i * interval {
      BelowIffUnderCeil(60, interval, i);
      assert r[i] == hour * 60 + i * interval;
    }
  }

  lemma {:induction false} RowsElements(startHour: nat, hour: nat, interval: nat)
    requires interval > 0
    ensures forall i :: 0 <= i < |Rows(startHour, hour, interval)| ==>
      && startHour <= Rows(startHour, hour, interval)[i] / 60 < hour
      && Rows(startHour, hour, interval)[i] % 60 % interval == 0
    decreases hour
  {
    if hour > startHour {
      RowsElements(startHour, hour - 1, interval);
      HourRowElements(hour - 1, interval);
      var a, b := Rows(startHour, hour - 1, interval), HourRow(hour - 1, interval);
      forall j | 0 <= j < |b| ensures b[j] % 60 % interval == 0 {
        MulMod(j, interval);
      }
      assert Rows(startHour, hour, interval) == a + b;
    }
  }

  lemma MulMod(j: nat, interval: nat)
    requires interval > 0
    ensures (j * interval) % interval == 0
  {
    var q, r := (j * interval) / interval, (j * interval) % interval;
    assert j * interval == q * interval + r && 0 <= r < interval;
    if q > j {
      MulMono(j + 1, q, interval);
      MulSucc(j, interval);
      assert false;
    }
    if q < j {
      MulMono(q + 1, j, interval);
      MulSucc(q, interval);
      assert false;
    }
  }

  lemma MulSucc(a: nat, b: nat)
    ensures (a + 1) * b == a * b + b
  {
  }

  /** Slots cover the hours `startHour..endHour`, at offsets that are multiples of the
      interval, and the last hour has only its `:00`. */
  lemma SlotMinutesElements(startHour: nat, endHour: nat, interval: nat)
    requires interval > 0
    ensures var ms := SlotMinutes(startHour, endHour, interval);
      forall i :: 0 <= i < |ms| ==>
        && startHour <= ms[i] / 60 <= endHour
        && ms[i] % 60 % interval == 0
        && (ms[i] / 60 == endHour ==> ms[i] % 60 == 0)
  {
    if startHour <= endHour {
      var a := Rows(startHour, endHour, interval);
      var ms := a + [endHour * 60];
      RowsElements(startHour, endHour, interval);
      forall i | 0 <= i < |ms|
        ensures startHour <= ms[i] / 60 <= endHour && ms[i] % 60 % interval == 0
        ensures ms[i] / 60 == endHour ==> ms[i] % 60 == 0
      {
        if i < |a| {
          assert ms[i] == a[i];
        } else {
          assert ms[i] == endHour * 60;
        }
      }
    }
  }

  /** Every offset below 60 of every full hour is generated. */
  lemma {:induction false} RowsCover(startHour: nat, hour: nat, interval: nat, h: nat, j: nat)
    requires interval > 0 && startHour <= h < hour && j * interval < 60
    ensures h * 60 + j * interval in Rows(startHour, hour, interval)
    decreases hour
  {
    var a, b := Rows(startHour, hour - 1, interval), HourRow(hour - 1, interval);
    assert Rows(startHour, hour, interval) == a + b;
    if h < hour - 1 {
      RowsCover(startHour, hour - 1, interval, h, j);
    } else {
      BelowIffUnderCeil(60, interval, j);
      assert b[j] == h * 60 + j * interval;
    }
  }

  lemma SlotMinutesCover(startHour: nat, endHour: nat, interval: nat, h: nat, j: nat)
    requires interval > 0 && startHour <= h <= endHour && j * interval < 60
    requires h == endHour ==> j == 0
    ensures h * 60 + j * interval in SlotMinutes(startHour, endHour, interval)
  {
    if h < endHour {
      RowsCover(startHour, endHour, interval, h, j);
    }
  }

  lemma {:induction false} RowsIncreasing(startHour: nat, hour: nat, interval: nat)
    requires interval > 0
    ensures StrictlyIncreasing(Rows(startHour, hour, interval))
    decreases hour
  {
    if hour > startHour {
      RowsIncreasing(startHour, hour - 1, interval);
      RowsElements(startHour, hour - 1, interval);
      HourRowElements(hour - 1, interval);
      GridIncreasing((hour - 1) * 60, interval, PerHour(interval));
      var a, b := Rows(startHour, hour - 1, interval), HourRow(hour - 1, interval);
      forall i, j | 0 <= i < |a| && 0 <= j < |b| ensures a[i] < b[j] {
        assert a[i] / 60 < hour - 1 && b[j] / 60 == hour - 1;
      }
      IncreasingAppend(a, b);
    }
  }

  /** Generated slots are in strictly increasing time order. */
  lemma SlotMinutesIncreasing(startHour: nat, endHour: nat, interval: nat)
    requires interval > 0
    ensures StrictlyIncreasing(SlotMinutes(startHour, endHour, interval))
  {
    if startHour <= endHour {
      var a := Rows(startHour, endHour, interval);
      RowsIncreasing(startHour, endHour, interval);
      RowsElements(startHour, endHour, interval);
      IncreasingAppend(a, [endHour * 60]);
    }
  }

  /** When the interval divides an hour, the slots are one evenly spaced grid from
      `startHour:00` to `endHour:00`. */
  lemma {:induction false} RowsEven(startHour: nat, hour: nat, interval: nat)
    requires interval > 0 && 60 % interval == 0 && startHour <= hour
    ensures Rows(startHour, hour, interval) == Grid(startHour * 60, interval, (hour - startHour) * (60 / interval))
    decreases hour
  {
    if hour > startHour {
      var p := 60 / interval;
      CeilDivExact(60, interval);
      RowsEven(startHour, hour - 1, interval);
      var n := (hour - 1 - startHour) * p;
      assert p * interval == 60;
      assert n * interval == (hour - 1 - startHour) * 60 by {
        assert n * interval == (hour - 1 - startHour) * (p * interval);
      }
      GridAppend(startHour * 60, interval, n, p);
      assert (hour - startHour) * p == n + p;
    }
  }

  lemma SlotMinutesEven(startHour: nat, endHour: nat, interval: nat)
    requires interval > 0 && 60 % interval == 0 && startHour <= endHour
    ensures SlotMinutes(startHour, endHour, interval)
         == Grid(startHour * 60, interval, (endHour - startHour) * (60 / interval) + 1)
  {
    var p := 60 / interval;
    var n := (endHour - startHour) * p;
    RowsEven(startHour, endHour, interval);
    assert p * interval == 60;
    assert n * interval == (endHour - startHour) * 60 by {
      assert n * interval == (endHour - startHour) * (p * interval);
    }
    GridSnoc(startHour * 60, interval, n);
  }

  /** With the default props the picker offers the same 21 slots 08:00 ... 18:00 as the
      plain picker. */
  lemma DefaultPropsGiveDefaultDay(unavailableTimes: seq<string>)
    ensures SlotMinutes(DefaultStartHour, DefaultEndHour, DefaultInterval) == DefaultDayMinutes()
    ensures |Generated(DefaultStartHour, DefaultEndHour, DefaultInterval, unavailableTimes)| == 21
    ensures Generated(DefaultStartHour, DefaultEndHour, DefaultInterval, unavailableTimes)[0].time == "08:00"
    ensures Generated(DefaultStartHour, DefaultEndHour, DefaultInterval, unavailableTimes)[20].time == "18:00"
  {
    SlotMinutesEven(8, 18, 30);
    assert (18 - 8) * (60 / 30) + 1 == 21;
    DefaultDayEnds();
  }

  /** Each generated slot shows its own time as label and is available iff its time is not
      booked; within the day every time is well-formed `HH:MM`. */
  lemma GeneratedMarking(startHour: nat, endHour: nat, interval: nat, unavailableTimes: seq<string>)
    requires interval > 0
    ensures var g := Generated(startHour, endHour, interval, unavailableTimes);
      var ms := SlotMinutes(startHour, endHour, interval);
      && |g| == |ms|
      && (forall i :: 0 <= i < |g| ==>
            && g[i].time == FormatTime(ms[i])
            && (g[i].available <==> g[i].time !in unavailableTimes)
            && g[i].labelText == Some(g[i].time))
      && (endHour < 24 ==> forall i :: 0 <= i < |g| ==> IsTime(g[i].time) && ParseTime(g[i].time) == ms[i])
  {
    var ms := SlotMinutes(startHour, endHour, interval);
    if endHour < 24 {
      SlotMinutesElements(startHour, endHour, interval);
      forall i | 0 <= i < |ms| ensures ms[i] < MinutesPerDay {
        assert ms[i] / 60 <= endHour;
      }
      TimesWellFormed(ms);
    }
  }

  /** `parseInt(slot.time.split(':')[0])`: the digits before the first colon, if any. */
  function SlotHour(slot: TimeSlot): Option<nat> {
    ParseIntPrefix(BeforeFirst(slot.time, ':'))
  }

  /** A slot whose hour does not parse (`NaN`) is neither morning nor afternoon. */
  predicate IsMorning(slot: TimeSlot) {
    SlotHour(slot).Some? && SlotHour(slot).value < 12
  }

  predicate IsAfternoon(slot: TimeSlot) {
    SlotHour(slot).Some? && SlotHour(slot).value >= 12
  }

  function MorningSlots(slots: seq<TimeSlot>): (r: seq<TimeSlot>)
    ensures |r| <= |slots|
    ensures forall i :: 0 <= i < |r| ==> SlotHour(r[i]).Some? && SlotHour(r[i]).value < 12
  {
    Filter(IsMorning, slots)
  }

  function AfternoonSlots(slots: seq<TimeSlot>): (r: seq<TimeSlot>)
    ensures |r| <= |slots|
    ensures forall i :: 0 <= i < |r| ==> SlotHour(r[i]).Some? && SlotHour(r[i]).value >= 12
  {
    Filter(IsAfternoon, slots)
  }

  /** For any slot list: each section keeps the original order, a slot is in the morning or
      the afternoon section according to its hour, and a slot whose hour parses is in
      exactly one. */
  lemma SectionsOfAnySlots(slots: seq<TimeSlot>, x: TimeSlot)
    ensures IsSubsequence(MorningSlots(slots), slots) && IsSubsequence(AfternoonSlots(slots), slots)
    ensures x in MorningSlots(slots) <==> x in slots && SlotHour(x).Some? && SlotHour(x).value < 12
    ensures x in AfternoonSlots(slots) <==> x in slots && SlotHour(x).Some? && SlotHour(x).value >= 12
    ensures SlotHour(x).None? ==> x !in MorningSlots(slots) && x !in AfternoonSlots(slots)
  {
    FilterIsSubsequence(IsMorning, slots);
    FilterIsSubsequence(IsAfternoon, slots);
    FilterMembership(IsMorning, slots, x);
    FilterMembership(IsAfternoon, slots, x);
  }

  /** When every hour parses, the two sections together hold every slot once. */
  lemma SectionsPartition(slots: seq<TimeSlot>)
    requires forall i :: 0 <= i < |slots| ==> SlotHour(slots[i]).Some?
    ensures |MorningSlots(slots)| + |AfternoonSlots(slots)| == |slots|
  {
    FilterPartitionLength(IsMorning, IsAfternoon, slots);
  }

  /** For generated slots the morning section followed by the afternoon section is exactly
      the generated list. */
  lemma GeneratedSections(startHour: nat, endHour: nat, interval: nat, unavailableTimes: seq<string>)
    requires interval > 0 && endHour < 100
    ensures var g := Generated(startHour, endHour, interval, unavailableTimes);
      MorningSlots(g) + AfternoonSlots(g) == g
  {
    var g := Generated(startHour, endHour, interval, unavailableTimes);
    var ms := SlotMinutes(startHour, endHour, interval);
    SlotMinutesElements(startHour, endHour, interval);
    SlotMinutesIncreasing(startHour, endHour, interval);
    forall i | 0 <= i < |g| ensures SlotHour(g[i]) == Some(ms[i] / 60) {
      assert ms[i] / 60 <= endHour;
      HourOfFormatTime(ms[i]);
    }
    forall i, j | 0 <= i < j < |g| && IsAfternoon(g[i]) ensures IsAfternoon(g[j]) {
      DivMono(ms[i], ms[j]);
    }
    FilterSplitOrdered(IsMorning, IsAfternoon, g);
  }

  lemma DivMono(a: nat, b: nat)
    requires a <= b
    ensures a / 60 <= b / 60
  {
  }

  /** `timeSlots || generateTimeSlots(...)`: a supplied list, even an empty one, is used
      as it is. */
  function SlotsToShow(timeSlots: Option<seq<TimeSlot>>, startHour: nat, endHour: nat, interval: nat,
                       unavailableTimes: seq<string>): (r: seq<TimeSlot>)
    requires timeSlots.None? ==> interval > 0
    ensures timeSlots.Some? ==> r == timeSlots.value
    ensures timeSlots.None? ==> r == Generated(startHour, endHour, interval, unavailableTimes)
  {
    if timeSlots.Some? then timeSlots.value else Generated(startHour, endHour, interval, unavailableTimes)
  }

  /** One button: `slot.labelText || slot.time` as text. */
  datatype SlotButton = SlotButton(time: string, text: string, selected: bool, disabled: bool)

  /** The two sections (absent when empty) and the "Nenhum horário disponível" message. */
  datatype View = View(morning: Option<seq<SlotButton>>, afternoon: Option<seq<SlotButton>>, noSlots: bool)

  function ButtonOf(slot: TimeSlot, value: Option<string>): (b: SlotButton)
    ensures b.time == slot.time
    ensures b.disabled <==> !slot.available
    ensures b.selected <==> value == Some(slot.time)
    ensures b.text == if Truthy(slot.labelText) then slot.labelText.value else slot.time
  {
    SlotButton(slot.time, if Truthy(slot.labelText) then slot.labelText.value else slot.time,
               value == Some(slot.time), !slot.available)
  }

  function Buttons(slots: seq<TimeSlot>, value: Option<string>): (r: seq<SlotButton>)
    ensures |r| == |slots|
    ensures forall i :: 0 <= i < |slots| ==> r[i] == ButtonOf(slots[i], value)
  {
    seq(|slots|, i requires 0 <= i < |slots| => ButtonOf(slots[i], value))
  }

  function Render(timeSlots: Option<seq<TimeSlot>>, value: Option<string>, startHour: nat, endHour: nat,
                  interval: nat, unavailableTimes: seq<string>): (v: View)
    requires timeSlots.None? ==> interval > 0
    ensures var slots := SlotsToShow(timeSlots, startHour, endHour, interval, unavailableTimes);
      && (v.morning.Some? <==> |MorningSlots(slots)| > 0)
      && (v.afternoon.Some? <==> |AfternoonSlots(slots)| > 0)
      && (v.morning.Some? ==> v.morning.value == Buttons(MorningSlots(slots), value))
      && (v.afternoon.Some? ==> v.afternoon.value == Buttons(AfternoonSlots(slots), value))
      && (v.noSlots <==> slots == [])
  {
    var slots := SlotsToShow(timeSlots, startHour, endHour, interval, unavailableTimes);
    var m, a := MorningSlots(slots), AfternoonSlots(slots);
    View(if |m| > 0 then Some(Buttons(m, value)) else None,
         if |a| > 0 then Some(Buttons(a, value)) else None,
         |slots| == 0)
  }

  /** `isAvailable && onSelect?.(slot.time)`: only an available slot is passed on. */
  function OnClick(slot: TimeSlot): (selected: Option<string>)
    ensures selected.Some? <==> slot.available
    ensures selected.Some? ==> selected.value == slot.time
  {
    if slot.available then Some(slot.time) else None
  }

  /** A booked time is never selected by a click in the generated grid. */
  lemma BookedTimeNeverSelected(startHour: nat, endHour: nat, interval: nat, unavailableTimes: seq<string>, i: nat)
    requires interval > 0
    requires i < |Generated(startHour, endHour, interval, unavailableTimes)|
    requires Generated(startHour, endHour, interval, unavailableTimes)[i].time in unavailableTimes
    ensures OnClick(Generated(startHour, endHour, interval, unavailableTimes)[i]).None?
  {
  }
}
