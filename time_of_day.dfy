/** Times of day as minutes since midnight, and the zero-padded `HH:MM` text that every
    picker builds with `${h.toString().padStart(2,'0')}:${m.toString().padStart(2,'0')}`. */
module TimeOfDay {
  import opened Text
  import opened Wrappers

  const MinutesPerDay: nat := 1440

  /** The label the pickers build from an hour and a minute counter. */
  function Label(hour: nat, minute: nat): string {
    PadStart2(hour) + ":" + PadStart2(minute)
  }

  /** The `HH:MM` label of minute `t` (hour `t / 60`, minute `t % 60`). */
  function FormatTime(t: nat): string {
    Label(t / 60, t % 60)
  }

  /** A well-formed `HH:MM` time of day, as the room configuration stores it. */
  predicate IsTime(s: string) {
    && |s| == 5
    && IsDigit(s[0]) && IsDigit(s[1]) && s[2] == ':' && IsDigit(s[3]) && IsDigit(s[4])
    && DigitValue(s[0]) * 10 + DigitValue(s[1]) < 24
    && DigitValue(s[3]) * 10 + DigitValue(s[4]) < 60
  }

  /** `s.split(':').map(Number)` turned into minutes since midnight. */
  function ParseTime(s: string): (t: nat)
    requires IsTime(s)
    ensures t < MinutesPerDay
  {
    (DigitValue(s[0]) * 10 + DigitValue(s[1])) * 60 + DigitValue(s[3]) * 10 + DigitValue(s[4])
  }

  lemma FormatTimeShape(t: nat)
    requires t < 6000
    ensures FormatTime(t) == [DigitChar(t / 60 / 10), DigitChar(t / 60 % 10), ':',
                              DigitChar(t % 60 / 10), DigitChar(t % 60 % 10)]
  {
    PadStart2TwoDigits(t / 60);
    PadStart2TwoDigits(t % 60);
  }

  /** Formatting a time of day yields well-formed text that parses back to it. */
  lemma ParseFormatTime(t: nat)
    requires t < MinutesPerDay
    ensures IsTime(FormatTime(t)) && ParseTime(FormatTime(t)) == t
  {
    FormatTimeShape(t);
  }

  /** Parsing well-formed text and formatting it again gives the same text back. */
  lemma FormatParseTime(s: string)
    requires IsTime(s)
    ensures FormatTime(ParseTime(s)) == s
  {
    var t := ParseTime(s);
    var h := DigitValue(s[0]) * 10 + DigitValue(s[1]);
    var m := DigitValue(s[3]) * 10 + DigitValue(s[4]);
    assert t / 60 == h && t % 60 == m;
    FormatTimeShape(t);
  }

  /** Two times of the first hundred hours have the same label only if they are equal. */
  lemma FormatTimeInjective(a: nat, b: nat)
    requires a < 6000 && b < 6000
    requires FormatTime(a) == FormatTime(b)
    ensures a == b
  {
    FormatTimeShape(a);
    FormatTimeShape(b);
    var fa, fb := FormatTime(a), FormatTime(b);
    assert DigitValue(fa[0]) == a / 60 / 10 && DigitValue(fb[0]) == b / 60 / 10;
    assert DigitValue(fa[1]) == a / 60 % 10 && DigitValue(fb[1]) == b / 60 % 10;
    assert DigitValue(fa[3]) == a % 60 / 10 && DigitValue(fb[3]) == b % 60 / 10;
    assert DigitValue(fa[4]) == a % 60 % 10 && DigitValue(fb[4]) == b % 60 % 10;
    assert a / 60 == b / 60 && a % 60 == b % 60;
  }

  /** The hour that `parseInt(label.split(':')[0])` reads back from a label. */
  lemma HourOfFormatTime(t: nat)
    requires t < 6000
    ensures ParseIntPrefix(BeforeFirst(FormatTime(t), ':')) == Some(t / 60)
  {
    FormatTimeShape(t);
    var s := FormatTime(t);
    var p := [s[0], s[1]];
    assert BeforeFirst(s[2..], ':') == [];
    assert BeforeFirst(s, ':') == p;
    LeadingDigitsOfDigits(p);
    assert p[..1] == [s[0]] && [s[0]][..0] == [];
    assert DigitsValue([s[0]]) == t / 60 / 10;
    assert DigitsValue(p) == t / 60 / 10 * 10 + t / 60 % 10;
  }

  /** The labels of a sequence of minutes. */
  function Times(ms: seq<nat>): (r: seq<string>)
    ensures |r| == |ms|
    ensures forall i :: 0 <= i < |ms| ==> r[i] == FormatTime(ms[i])
  {
    seq(|ms|, i requires 0 <= i < |ms| => FormatTime(ms[i]))
  }

  /** `count` minutes starting at `first`, `step` apart. */
  function Grid(first: nat, step: nat, count: nat): (r: seq<nat>)
    ensures |r| == count
    ensures forall i :: 0 <= i < count ==> r[i] == first + i * step
  {
    seq(count, i requires 0 <= i < count => first + i * step)
  }

  lemma GridSnoc(first: nat, step: nat, n: nat)
    ensures Grid(first, step, n + 1) == Grid(first, step, n) + [first + n * step]
  {
  }

  lemma TimesSnoc(ms: seq<nat>, t: nat)
    ensures Times(ms + [t]) == Times(ms) + [FormatTime(t)]
  {
  }

  predicate StrictlyIncreasing(ms: seq<nat>) {
    forall i, j :: 0 <= i < j < |ms| ==> ms[i] < ms[j]
  }

  /** Two increasing runs, the first entirely below the second, make an increasing run. */
  lemma IncreasingAppend(a: seq<nat>, b: seq<nat>)
    requires StrictlyIncreasing(a) && StrictlyIncreasing(b)
    requires forall i, j :: 0 <= i < |a| && 0 <= j < |b| ==> a[i] < b[j]
    ensures StrictlyIncreasing(a + b)
  {
    var c := a + b;
    forall i, j | 0 <= i < j < |c| ensures c[i] < c[j] {
      if j < |a| {
        assert c[i] == a[i] && c[j] == a[j];
      } else if i >= |a| {
        assert c[i] == b[i - |a|] && c[j] == b[j - |a|];
      } else {
        assert c[i] == a[i] && c[j] == b[j - |a|];
      }
    }
  }

  /** Consecutive grids with the same step join into one grid. */
  lemma GridAppend(first: nat, step: nat, n: nat, m: nat)
    ensures Grid(first, step, n) + Grid(first + n * step, step, m) == Grid(first, step, n + m)
  {
    var a, b, c := Grid(first, step, n), Grid(first + n * step, step, m), Grid(first, step, n + m);
    forall i | n <= i < n + m ensures (a + b)[i] == c[i] {
      assert (a + b)[i] == b[i - n] == first + n * step + (i - n) * step;
      assert (i - n) * step + n * step == i * step;
    }
    assert a + b == c;
  }

  lemma GridIncreasing(first: nat, step: nat, count: nat)
    requires step > 0
    ensures StrictlyIncreasing(Grid(first, step, count))
    ensures forall i :: 0 <= i < count - 1 ==> Grid(first, step, count)[i + 1] - Grid(first, step, count)[i] == step
  {
    var g := Grid(first, step, count);
    forall i, j | 0 <= i < j < count ensures g[i] < g[j] {
      MulStrictMono(i, j, step);
    }
  }

  lemma MulStrictMono(i: nat, j: nat, step: nat)
    requires i < j && step > 0
    ensures i * step < j * step
  {
    assert j * step == i * step + (j - i) * step;
  }

  /** Distinct minutes within the first hundred hours have distinct labels. */
  lemma TimesDistinct(ms: seq<nat>)
    requires StrictlyIncreasing(ms)
    requires forall i :: 0 <= i < |ms| ==> ms[i] < 6000
    ensures forall i, j :: 0 <= i < j < |ms| ==> Times(ms)[i] != Times(ms)[j]
  {
    forall i, j | 0 <= i < j < |ms| ensures Times(ms)[i] != Times(ms)[j] {
      if Times(ms)[i] == Times(ms)[j] {
        FormatTimeInjective(ms[i], ms[j]);
      }
    }
  }

  /** `s` are well-formed `HH:MM` labels that read back as the minutes `ms`. */
  predicate LabelsOf(s: seq<string>, ms: seq<nat>) {
    |s| == |ms| && forall i :: 0 <= i < |s| ==> IsTime(s[i]) && ParseTime(s[i]) == ms[i]
  }

  /** Every label of a time of day is well-formed `HH:MM`. */
  lemma TimesWellFormed(ms: seq<nat>)
    requires forall i :: 0 <= i < |ms| ==> ms[i] < MinutesPerDay
    ensures LabelsOf(Times(ms), ms)
  {
    forall i | 0 <= i < |ms| ensures IsTime(Times(ms)[i]) && ParseTime(Times(ms)[i]) == ms[i] {
      ParseFormatTime(ms[i]);
    }
  }

  /** A multiple of thirty minutes is labelled `:00` or `:30`. */
  lemma HalfHourMinutes(t: nat)
    requires t < 6000 && t % 30 == 0
    ensures FormatTime(t)[3..] == "00" || FormatTime(t)[3..] == "30"
  {
    FormatTimeShape(t);
    assert t % 60 == 0 || t % 60 == 30;
  }

  lemma LabelIsFormatTime(hour: nat, minute: nat)
    requires minute < 60
    ensures Label(hour, minute) == FormatTime(hour * 60 + minute)
  {
    assert (hour * 60 + minute) / 60 == hour && (hour * 60 + minute) % 60 == minute;
  }

  /** One more step of a grid: the label of the clock reading `t`, the next point of the
      grid, extends the labelled grid. */
  lemma ClockLabelSnoc(first: nat, step: nat, n: nat, t: nat)
    requires t == first + n * step
    ensures Times(Grid(first, step, n + 1)) == Times(Grid(first, step, n)) + [Label(t / 60, t % 60)]
  {
    GridLabelSnoc(first, step, n);
    var a, b := Times(Grid(first, step, n + 1)), Times(Grid(first, step, n));
    assert a == b + [FormatTime(t)];
  }

  /** One more step of a grid: the label of the next time extends the labelled grid. */
  lemma GridLabelSnoc(first: nat, step: nat, n: nat)
    ensures Times(Grid(first, step, n + 1)) == Times(Grid(first, step, n)) + [FormatTime(first + n * step)]
  {
    var g, t := Grid(first, step, n), first + n * step;
    GridSnoc(first, step, n);
    assert Grid(first, step, n + 1) == g + [t];
    TimesSnoc(g, t);
  }

  /** Appending the label built from an hour and a minute extends the labels by the
      label of that minute of the day. */
  lemma TimesSnocLabel(ms: seq<nat>, hour: nat, minute: nat)
    requires minute < 60
    ensures Times(ms + [hour * 60 + minute]) == Times(ms) + [Label(hour, minute)]
  {
    var t := hour * 60 + minute;
    LabelIsFormatTime(hour, minute);
    TimesSnoc(ms, t);
  }

  /** `ceil(span / step)` for a possibly negative span: how many of `0, step, 2*step, ...`
      lie below `span`. */
  function CeilDiv(span: int, step: nat): nat
    requires step > 0
  {
    if span <= 0 then 0 else (span + step - 1) / step
  }

  lemma BelowIffUnderCeil(span: int, step: nat, n: nat)
    requires step > 0
    ensures n * step < span <==> n < CeilDiv(span, step)
  {
    if span > 0 {
      var q := (span + step - 1) / step;
      var r := (span + step - 1) % step;
      assert span + step - 1 == q * step + r && 0 <= r < step;
      if n * step < span {
        if n >= q {
          MulMono(q, n, step);
          assert false;
        }
      }
      if n < q {
        MulMono(n, q - 1, step);
        assert (q - 1) * step == q * step - step;
      }
    }
  }

  /** A stepping loop that stops at the first multiple of `step` at or past `span` has
      taken exactly `CeilDiv(span, step)` steps. */
  lemma StepsToReach(span: int, step: nat, n: nat)
    requires step > 0
    requires n * step >= span
    requires n == 0 || n * step - step < span
    ensures n == CeilDiv(span, step)
  {
    BelowIffUnderCeil(span, step, n);
    if n > 0 {
      BelowIffUnderCeil(span, step, n - 1);
      assert (n - 1) * step == n * step - step;
    } else {
      BelowIffUnderCeil(span, step, 0);
    }
  }

  lemma MulMono(i: nat, j: nat, step: nat)
    requires i <= j
    ensures i * step <= j * step
  {
    assert j * step == i * step + (j - i) * step;
  }

  lemma CeilDivExact(span: nat, step: nat)
    requires step > 0 && span % step == 0
    ensures CeilDiv(span, step) == span / step
  {
    if span > 0 {
      var q := span / step;
      assert span == q * step;
      BelowIffUnderCeil(span, step, q);
      BelowIffUnderCeil(span, step, q - 1);
      assert (q - 1) * step == q * step - step;
    }
  }

  /** The fixed grid 08:00, 08:30, ..., 18:00 used when no room hours apply. */
  function DefaultDayMinutes(): seq<nat> {
    Grid(8 * 60, 30, 21)
  }

  /** The default grid has 21 half-hour steps from 08:00 to 18:00. */
  lemma DefaultDayMinutesShape()
    ensures |DefaultDayMinutes()| == 21
    ensures StrictlyIncreasing(DefaultDayMinutes())
    ensures forall i :: 0 <= i < 20 ==> DefaultDayMinutes()[i + 1] == DefaultDayMinutes()[i] + 30
    ensures forall i :: 0 <= i < 21 ==> 480 <= DefaultDayMinutes()[i] <= 1080 && DefaultDayMinutes()[i] % 30 == 0
  {
    var ms := DefaultDayMinutes();
    GridIncreasing(480, 30, 21);
    forall i | 0 <= i < 21 ensures 480 <= ms[i] <= 1080 && ms[i] % 30 == 0 {
      MulMono(i, 20, 30);
    }
  }

  /** Its labels run from "08:00" to "18:00". */
  lemma DefaultDayEnds()
    ensures |Times(DefaultDayMinutes())| == 21
    ensures Times(DefaultDayMinutes())[0] == "08:00" && Times(DefaultDayMinutes())[20] == "18:00"
  {
    var ms := DefaultDayMinutes();
    assert ms[0] == 480 && ms[20] == 1080;
    FormatTimeShape(480);
    FormatTimeShape(1080);
  }

  /** Its labels are well-formed, read back as the grid, and end in ":00" or ":30". */
  lemma DefaultDayGrid()
    ensures LabelsOf(Times(DefaultDayMinutes()), DefaultDayMinutes())
    ensures forall i :: 0 <= i < 21 ==>
      Times(DefaultDayMinutes())[i][3..] == "00" || Times(DefaultDayMinutes())[i][3..] == "30"
  {
    var ms := DefaultDayMinutes();
    DefaultDayMinutesShape();
    TimesWellFormed(ms);
    forall i | 0 <= i < 21 ensures Times(ms)[i][3..] == "00" || Times(ms)[i][3..] == "30" {
      HalfHourMinutes(ms[i]);
    }
  }
}
