/**
 * The demonstration data generator: one snapshot per Crystal Mountain
 * camera, all stamped with the selected day at the selected "HH:MM".
 * The `Date` argument arrives as its ISO text and its local calendar day.
 */
module MockData {
  import opened Wrappers
  import opened JsString
  import WebcamData

  const Cameras: seq<string> := ["Summit Cam", "Snow Stake", "Gold Hills", "Northway Lift Cam"]
  const Resort := "Crystal Mountain"
  const FirstPhotoNumber: nat := 1515438261181
  const UrlPrefix := "https://images.unsplash.com/photo-"
  const UrlSuffix := "-1e62ba5a1e92?w=800&h=600&fit=crop&q=80"

  /** A local date and time after `setHours(h, m, 0, 0)`, or an Invalid Date when either part is NaN. */
  datatype Timestamp = InvalidDate | LocalTime(day: string, hours: nat, minutes: nat, seconds: nat, millis: nat)

  /** The `Date` handed in: what `toISOString()` prints and the local day `setHours` keeps. */
  datatype DateArg = DateArg(iso: string, day: string)

  datatype WebcamSnapshot = WebcamSnapshot(
    id: string, cameraName: string, timestamp: Timestamp, imageUrl: string, resort: string)

  /** `Number(s)` on digit text (the empty text is 0); anything else is NaN, shown as None. */
  function NumberOf(s: string): (n: Option<nat>)
    ensures IsDigits(s) <==> n.Some?
    ensures n.Some? ==> n.value == ParseDecimal(s)
  {
    if IsDigits(s) then Some(ParseDecimal(s)) else None
  }

  /** The one timestamp every snapshot shares; a missing minutes part is `Number(undefined)`. */
  function SnapshotTime(date: DateArg, timeSlot: string): (t: Timestamp)
    ensures t.LocalTime? ==> t.day == date.day && t.seconds == 0 && t.millis == 0
    ensures var parts := Split(timeSlot, ':');
            t.LocalTime? <==> |parts| >= 2 && IsDigits(parts[0]) && IsDigits(parts[1])
    ensures var parts := Split(timeSlot, ':');
            t.LocalTime? ==> t.hours == ParseDecimal(parts[0]) && t.minutes == ParseDecimal(parts[1])
  {
    var parts := Split(timeSlot, ':');
    var hours := NumberOf(parts[0]);
    var minutes := if |parts| >= 2 then NumberOf(parts[1]) else None;
    if hours.Some? && minutes.Some? then LocalTime(date.day, hours.value, minutes.value, 0, 0)
    else InvalidDate
  }

  function ImageUrl(index: nat): string {
    UrlPrefix + NatToDecimal(FirstPhotoNumber + index) + UrlSuffix
  }

  function SnapshotId(date: DateArg, timeSlot: string, camera: string): string {
    date.iso + "-" + timeSlot + "-" + camera
  }

  /** `generateMockSnapshots`: `cameras.map` with the camera's position. */
  function GenerateMockSnapshots(date: DateArg, timeSlot: string): (snaps: seq<WebcamSnapshot>)
    ensures |snaps| == |Cameras|
    ensures forall i :: 0 <= i < |snaps| ==>
              snaps[i].cameraName == Cameras[i] && snaps[i].resort == Resort
              && snaps[i].timestamp == SnapshotTime(date, timeSlot)
              && snaps[i].id == date.iso + "-" + timeSlot + "-" + Cameras[i]
              && snaps[i].imageUrl == ImageUrl(i)
  {
    seq(|Cameras|, i requires 0 <= i < |Cameras| =>
      WebcamSnapshot(SnapshotId(date, timeSlot, Cameras[i]), Cameras[i],
                     SnapshotTime(date, timeSlot), ImageUrl(i), Resort))
  }

  lemma CamerasDistinct()
    ensures forall i, j :: 0 <= i < j < |Cameras| ==> Cameras[i] != Cameras[j]
  {
  }

  /** An id determines the camera it was made for, whatever the date's ISO text and the slot. */
  lemma SnapshotIdInjective(date: DateArg, timeSlot: string, c1: string, c2: string)
    requires SnapshotId(date, timeSlot, c1) == SnapshotId(date, timeSlot, c2)
    ensures c1 == c2
  {
    var p := date.iso + "-" + timeSlot + "-";
    assert SnapshotId(date, timeSlot, c1) == p + c1 + "";
    assert SnapshotId(date, timeSlot, c2) == p + c2 + "";
    Cancel(p, c1, c2, "");
  }

  /** Within one call the ids are pairwise distinct, since they differ in the camera name. */
  lemma IdsDistinct(date: DateArg, timeSlot: string)
    ensures var snaps := GenerateMockSnapshots(date, timeSlot);
            forall i, j :: 0 <= i < j < |snaps| ==> snaps[i].id != snaps[j].id
  {
    var snaps := GenerateMockSnapshots(date, timeSlot);
    CamerasDistinct();
    forall i, j | 0 <= i < j < |snaps|
      ensures snaps[i].id != snaps[j].id
    {
      assert snaps[i].id == SnapshotId(date, timeSlot, Cameras[i]);
      assert snaps[j].id == SnapshotId(date, timeSlot, Cameras[j]);
      if snaps[i].id == snaps[j].id {
        SnapshotIdInjective(date, timeSlot, Cameras[i], Cameras[j]);
      }
    }
  }

  /** The digits between the address's fixed prefix and suffix are read back from it. */
  lemma PhotoDigitsInjective(d1: string, d2: string)
    requires IsDigits(d1) && IsDigits(d2)
    requires UrlPrefix + d1 + UrlSuffix == UrlPrefix + d2 + UrlSuffix
    ensures d1 == d2
  {
    var u1, u2 := UrlPrefix + d1 + UrlSuffix, UrlPrefix + d2 + UrlSuffix;
    assert u1[|UrlPrefix|..] == d1 + UrlSuffix + "";
    assert u2[|UrlPrefix|..] == d2 + UrlSuffix + "";
    DigitsBeforeSeparator(d1, "", d2, "", UrlSuffix);
  }

  /** The photo number is read back from the address, so distinct positions get distinct images. */
  lemma ImageUrlInjective(i: nat, j: nat)
    requires ImageUrl(i) == ImageUrl(j)
    ensures i == j
  {
    PhotoDigitsInjective(NatToDecimal(FirstPhotoNumber + i), NatToDecimal(FirstPhotoNumber + j));
    DecimalInjective(FirstPhotoNumber + i, FirstPhotoNumber + j);
  }

  lemma ImageUrlsDistinct(date: DateArg, timeSlot: string)
    ensures var snaps := GenerateMockSnapshots(date, timeSlot);
            forall i, j :: 0 <= i < j < |snaps| ==> snaps[i].imageUrl != snaps[j].imageUrl
  {
    var snaps := GenerateMockSnapshots(date, timeSlot);
    forall i, j | 0 <= i < j < |snaps|
      ensures snaps[i].imageUrl != snaps[j].imageUrl
    {
      if snaps[i].imageUrl == snaps[j].imageUrl {
        ImageUrlInjective(i, j);
      }
    }
  }

  /** An "hh:mm" of digits stamps every snapshot at that hour and minute of the selected day. */
  lemma ClockTimestamp(date: DateArg, hh: string, mm: string)
    requires IsDigits(hh) && IsDigits(mm)
    ensures SnapshotTime(date, hh + ":" + mm) == LocalTime(date.day, ParseDecimal(hh), ParseDecimal(mm), 0, 0)
  {
    assert ':' !in hh by {
      forall k | 0 <= k < |hh| ensures hh[k] != ':' {
        assert IsDigit(hh[k]);
      }
    }
    assert ':' !in mm by {
      forall k | 0 <= k < |mm| ensures mm[k] != ':' {
        assert IsDigit(mm[k]);
      }
    }
    assert hh + ":" + mm == hh + [':'] + mm;
    SplitAtFirst(hh, mm, ':');
    SplitFirstPart(mm, "", ':');
    assert mm + "" == mm;
  }

  /** Each time the selector offers yields a valid timestamp at that clock time. */
  lemma MorningTimestamp(date: DateArg)
    ensures SnapshotTime(date, WebcamData.TimeSlots[0].time) == LocalTime(date.day, 7, 30, 0, 0)
  {
    assert "07" + ":" + "30" == WebcamData.TimeSlots[0].time;
    assert ParseDecimal("07") == 7 by { assert "07"[..1] == "0"; }
    assert ParseDecimal("30") == 30 by { assert "30"[..1] == "3"; }
    ClockTimestamp(date, "07", "30");
  }

  lemma NoonTimestamp(date: DateArg)
    ensures SnapshotTime(date, WebcamData.TimeSlots[1].time) == LocalTime(date.day, 12, 0, 0, 0)
  {
    assert "12" + ":" + "00" == WebcamData.TimeSlots[1].time;
    assert ParseDecimal("12") == 12 by { assert "12"[..1] == "1"; }
    assert ParseDecimal("00") == 0 by { assert "00"[..1] == "0"; }
    ClockTimestamp(date, "12", "00");
  }

  lemma AfternoonTimestamp(date: DateArg)
    ensures SnapshotTime(date, WebcamData.TimeSlots[2].time) == LocalTime(date.day, 15, 30, 0, 0)
  {
    assert "15" + ":" + "30" == WebcamData.TimeSlots[2].time;
    assert ParseDecimal("15") == 15 by { assert "15"[..1] == "1"; }
    assert ParseDecimal("30") == 30 by { assert "30"[..1] == "3"; }
    ClockTimestamp(date, "15", "30");
  }
}
