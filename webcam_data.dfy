/**
 * The snapshot query of the webcam-data hook: the selected "HH:MM" time is
 * turned into the "h:MM AM/PM" label the capture job stores, and the
 * selected day becomes a closed window of `captured_at` values. The query
 * itself is a database call and is not modelled.
 */
module WebcamData {
  import opened Wrappers
  import opened JsString
  import CaptureGuards

  /** An entry of the time-slot table the selector offers. */
  datatype TimeSlot = TimeSlot(time: string, labelText: string)

  const TimeSlots: seq<TimeSlot> := [
    TimeSlot("07:30", "7:30 AM"), TimeSlot("12:00", "12:00 PM"), TimeSlot("15:30", "3:30 PM")]

  // ---------------------------------------------------------------------
  // Slot label
  // ---------------------------------------------------------------------

  /** The run of decimal digits `parseInt` reads at the start of `s`. */
  function LeadingDigits(s: string): (d: string)
    ensures IsDigits(d) && StartsWith(s, d)
    ensures |d| < |s| ==> !IsDigit(s[|d|])
    ensures IsDigits(s) ==> d == s
    decreases |s|
  {
    if s == [] || !IsDigit(s[0]) then "" else [s[0]] + LeadingDigits(s[1..])
  }

  /** `parseInt(s)` on decimal text; None stands for NaN. */
  function ParseInt(s: string): (n: Option<nat>)
    ensures n.None? <==> s == [] || !IsDigit(s[0])
    ensures IsDigits(s) && s != [] ==> n == Some(ParseDecimal(s))
  {
    var d := LeadingDigits(s);
    if d == "" then None else Some(ParseDecimal(d))
  }

  /** `hour >= 12 ? 'PM' : 'AM'`; NaN compares false. */
  function Period(hour: Option<nat>): (p: string)
    ensures p == "PM" <==> hour.Some? && hour.value >= 12
    ensures p == "AM" <==> !(hour.Some? && hour.value >= 12)
  {
    if hour.Some? && hour.value >= 12 then "PM" else "AM"
  }

  /** The twelve-hour clock's hour for a parsed hour. */
  function Display12(h: nat): (d: nat)
    ensures h < 24 ==> 1 <= d <= 12
  {
    if h > 12 then h - 12 else if h == 0 then 12 else h
  }

  /** `displayHour` as a template literal renders it; NaN falls through both tests. */
  function DisplayHour(hour: Option<nat>): string {
    if hour.Some? then NatToDecimal(Display12(hour.value)) else "NaN"
  }

  /** The label `queryFn` matches `time_slot` against; a missing minutes part renders "undefined". */
  function SlotLabel(selectedTime: string): string {
    var parts := Split(selectedTime, ':');
    var hour := ParseInt(parts[0]);
    var minutes := if |parts| >= 2 then parts[1] else "undefined";
    DisplayHour(hour) + ":" + minutes + " " + Period(hour)
  }

  /** Back from the twelve-hour clock to the hour of the day. */
  function To24(d: nat, period: string): nat {
    if period == "AM" then (if d == 12 then 0 else d)
    else (if d == 12 then 12 else d + 12)
  }

  /** The twelve-hour rendering loses nothing on a real hour of the day. */
  lemma TwelveHourRoundTrip(h: nat)
    requires h < 24
    ensures To24(Display12(h), Period(Some(h))) == h
    ensures h > 12 ==> Display12(h) == h - 12
    ensures h == 0 ==> Display12(h) == 12
    ensures 1 <= h <= 12 ==> Display12(h) == h
  {
  }

  /**
   * On "hh:mm…" with digits before the first colon, the label is the
   * hour without its leading zeros on the twelve-hour clock, the minutes
   * text copied verbatim up to the next colon, and the period.
   */
  lemma ClockLabel(hh: string, mm: string, tail: string)
    requires IsDigits(hh) && hh != []
    requires ':' !in mm && (tail == [] || tail[0] == ':')
    ensures var h := ParseDecimal(hh);
            SlotLabel(hh + ":" + mm + tail)
            == NatToDecimal(Display12(h)) + ":" + mm + " " + (if h >= 12 then "PM" else "AM")
  {
    assert ':' !in hh by {
      forall k | 0 <= k < |hh| ensures hh[k] != ':' {
        assert IsDigit(hh[k]);
      }
    }
    assert hh + ":" + mm + tail == hh + [':'] + (mm + tail);
    SplitAtFirst(hh, mm + tail, ':');
    SplitFirstPart(mm, tail, ':');
  }

  /** A concrete "hh:mm" converts to `label` once its hour, twelve-hour text and period are known. */
  lemma ConvertsTo(hh: string, mm: string, time: string, h: nat, hourText: string, period: string, expected: string)
    requires IsDigits(hh) && hh != [] && ParseDecimal(hh) == h && ':' !in mm
    requires time == hh + ":" + mm
    requires hourText == NatToDecimal(Display12(h)) && period == (if h >= 12 then "PM" else "AM")
    requires expected == hourText + ":" + mm + " " + period
    ensures SlotLabel(time) == expected
  {
    ClockLabel(hh, mm, "");
    assert hh + ":" + mm + "" == time;
  }

  lemma MorningSlotConverts()
    ensures SlotLabel("07:30") == "7:30 AM"
  {
    assert ParseDecimal("07") == 7 by { assert "07"[..1] == "0"; }
    ConvertsTo("07", "30", "07:30", 7, "7", "AM", "7:30 AM");
  }

  lemma NoonSlotConverts()
    ensures SlotLabel("12:00") == "12:00 PM"
  {
    assert ParseDecimal("12") == 12 by { assert "12"[..1] == "1"; }
    assert NatToDecimal(12) == "12" by { assert NatToDecimal(1) == "1"; }
    ConvertsTo("12", "00", "12:00", 12, "12", "PM", "12:00 PM");
  }

  lemma AfternoonSlotConverts()
    ensures SlotLabel("15:30") == "3:30 PM"
  {
    assert ParseDecimal("15") == 15 by { assert "15"[..1] == "1"; }
    ConvertsTo("15", "30", "15:30", 15, "3", "PM", "3:30 PM");
  }

  /** Every entry of the selector's table converts to exactly its own label. */
  lemma TimeSlotsConvert()
    ensures forall i :: 0 <= i < |TimeSlots| ==> SlotLabel(TimeSlots[i].time) == TimeSlots[i].labelText
  {
    forall i | 0 <= i < |TimeSlots|
      ensures SlotLabel(TimeSlots[i].time) == TimeSlots[i].labelText
    {
      if i == 0 {
        MorningSlotConverts();
      } else if i == 1 {
        NoonSlotConverts();
      } else {
        AfternoonSlotConverts();
      }
    }
  }

  /**
   * The labels the capture job writes are exactly the converted table,
   * in order: every stored slot can be selected, and every selection can
   * find stored rows.
   */
  lemma CaptureLabelsQueryable()
    ensures |TimeSlots| == |CaptureGuards.SlotLabels|
    ensures forall i :: 0 <= i < |TimeSlots| ==> SlotLabel(TimeSlots[i].time) == CaptureGuards.SlotLabels[i]
    ensures forall l :: l in CaptureGuards.SlotLabels <==> exists i :: 0 <= i < |TimeSlots| && SlotLabel(TimeSlots[i].time) == l
  {
    TimeSlotsConvert();
    forall l | l in CaptureGuards.SlotLabels
      ensures exists i :: 0 <= i < |TimeSlots| && SlotLabel(TimeSlots[i].time) == l
    {
      var i :| 0 <= i < |CaptureGuards.SlotLabels| && CaptureGuards.SlotLabels[i] == l;
      assert SlotLabel(TimeSlots[i].time) == l;
    }
  }

  /** Text of the form digits ":" minutes " " two-letter period splits back into its three parts. */
  lemma LabelTextInjective(a1: string, mm1: string, p1: string, a2: string, mm2: string, p2: string)
    requires IsDigits(a1) && IsDigits(a2) && |p1| == 2 && |p2| == 2
    requires a1 + ":" + mm1 + " " + p1 == a2 + ":" + mm2 + " " + p2
    ensures a1 == a2 && mm1 == mm2 && p1 == p2
  {
    var r1, r2 := mm1 + " " + p1, mm2 + " " + p2;
    assert a1 + ":" + mm1 + " " + p1 == a1 + ":" + r1;
    assert a2 + ":" + mm2 + " " + p2 == a2 + ":" + r2;
    DigitsBeforeSeparator(a1, r1, a2, r2, ":");
    assert |mm1| == |mm2|;
    assert p1 == r1[|r1| - 2..] && p2 == r2[|r2| - 2..];
    assert mm1 == r1[..|mm1|] && mm2 == r2[..|mm2|];
  }

  /** A rendered label splits back into hour, minutes and a two-letter period. */
  lemma RenderedLabelInjective(d1: nat, mm1: string, p1: string, d2: nat, mm2: string, p2: string)
    requires |p1| == 2 && |p2| == 2
    requires NatToDecimal(d1) + ":" + mm1 + " " + p1 == NatToDecimal(d2) + ":" + mm2 + " " + p2
    ensures d1 == d2 && mm1 == mm2 && p1 == p2
  {
    LabelTextInjective(NatToDecimal(d1), mm1, p1, NatToDecimal(d2), mm2, p2);
    DecimalInjective(d1, d2);
  }

  /** Distinct times of day ("hh:mm" with h < 24) select distinct labels. */
  lemma ClockLabelInjective(hh1: string, mm1: string, hh2: string, mm2: string)
    requires IsDigits(hh1) && hh1 != [] && ParseDecimal(hh1) < 24 && ':' !in mm1
    requires IsDigits(hh2) && hh2 != [] && ParseDecimal(hh2) < 24 && ':' !in mm2
    requires SlotLabel(hh1 + ":" + mm1) == SlotLabel(hh2 + ":" + mm2)
    ensures ParseDecimal(hh1) == ParseDecimal(hh2) && mm1 == mm2
  {
    var h1, h2 := ParseDecimal(hh1), ParseDecimal(hh2);
    ClockLabel(hh1, mm1, "");
    ClockLabel(hh2, mm2, "");
    assert hh1 + ":" + mm1 + "" == hh1 + ":" + mm1;
    assert hh2 + ":" + mm2 + "" == hh2 + ":" + mm2;
    RenderedLabelInjective(Display12(h1), mm1, if h1 >= 12 then "PM" else "AM",
                           Display12(h2), mm2, if h2 >= 12 then "PM" else "AM");
    TwelveHourRoundTrip(h1);
    TwelveHourRoundTrip(h2);
  }

  // ---------------------------------------------------------------------
  // Day window
  // ---------------------------------------------------------------------

  /** The inclusive bounds `.gte` and `.lte` put on `captured_at`. */
  datatype Window = Window(lower: string, upper: string)

  function DayWindow(date: string): Window {
    Window(date + "T00:00:00", date + "T23:59:59")
  }

  function Pad2(n: nat): (s: string)
    requires n < 100
    ensures |s| == 2 && IsDigits(s)
  {
    [DigitChar(n / 10), DigitChar(n % 10)]
  }

  /** A time of day written "hh:mm:ss", with the milliseconds past midnight it denotes. */
  function ClockText(h: nat, m: nat, s: nat): string
    requires h < 24 && m < 60 && s < 60
  {
    Pad2(h) + ":" + Pad2(m) + ":" + Pad2(s)
  }

  function ClockMs(h: nat, m: nat, s: nat): nat {
    ((h * 60 + m) * 60 + s) * 1000
  }

  const MsPerDay: nat := 24 * 60 * 60 * 1000

  /** An instant as a calendar date and the milliseconds elapsed since its midnight. */
  datatype Instant = Instant(date: string, msOfDay: nat)

  /** The instants the window for `date` admits, reading each bound as the instant it writes out. */
  predicate InDayWindow(date: string, at: Instant) {
    at.date == date && ClockMs(0, 0, 0) <= at.msOfDay <= ClockMs(23, 59, 59)
  }

  /**
   * The bounds are the date followed by midnight and by the last whole
   * second of the day; a capture on that date is selected exactly when it
   * falls no later than 23:59:59.000, so the final 999 ms of a day are
   * outside every window.
   */
  lemma DayWindowBounds(date: string, at: Instant)
    requires at.msOfDay < MsPerDay
    ensures DayWindow(date).lower == date + "T" + ClockText(0, 0, 0)
    ensures DayWindow(date).upper == date + "T" + ClockText(23, 59, 59)
    ensures InDayWindow(date, at) <==> at.date == date && at.msOfDay <= MsPerDay - 1000
  {
    assert ClockText(0, 0, 0) == "00:00:00";
    assert ClockText(23, 59, 59) == "23:59:59";
  }
}
