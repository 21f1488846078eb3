/**
 * Durations between messages and how the timeline prints them
 * (slack.py:97-113). A Python `timedelta` at whole-second resolution is a
 * number of days (any sign) and a number of seconds in `[0, 86400)`; a
 * difference of two times is normalised into that form by floor division.
 */
module Duration {
  import opened Strings

  const SecondsPerDay: int := 86400

  type DaySeconds = s: int | 0 <= s < 86400

  datatype TimeDelta = TimeDelta(days: int, seconds: DaySeconds)

  /** The length of a delta in seconds. */
  function TotalSeconds(d: TimeDelta): int {
    d.days * SecondsPerDay + d.seconds
  }

  /** `timedelta(seconds=total)`: whole days by floor division, the remainder in seconds. */
  function FromSeconds(total: int): (d: TimeDelta)
    ensures TotalSeconds(d) == total
  {
    TimeDelta(total / SecondsPerDay, total % SecondsPerDay)
  }

  /** The normal form is unique: a delta is rebuilt from its own length. */
  lemma FromTotalSeconds(d: TimeDelta)
    ensures FromSeconds(TotalSeconds(d)) == d
  {
  }

  /** A delta is negative exactly when its days are. */
  lemma NonNegativeDelta(total: int)
    ensures total >= 0 <==> FromSeconds(total).days >= 0
  {
  }

  /**
   * `render_delta` (slack.py:97-113): the number of days when there are any
   * (of either sign); otherwise the largest non-zero unit among hours,
   * minutes and seconds of the day part, printed with two digits; `""` for a
   * zero delta.
   */
  function RenderDelta(d: TimeDelta): string {
    var mm0, ss := d.seconds / 60, d.seconds % 60;
    var hh, mm := mm0 / 60, mm0 % 60;
    if d.days != 0 then IntToString(d.days) + " days"
    else if hh != 0 then Pad2(hh) + " hours"
    else if mm != 0 then Pad2(mm) + " minutes"
    else if ss != 0 then Pad2(ss) + " seconds"
    else ""
  }

  /**
   * The rendered unit, stated by the thresholds on the delta instead of
   * through `divmod`: days, then whole hours from one hour up, whole
   * minutes from one minute up, and seconds; each count stays below the
   * next unit's size.
   */
  lemma RenderDeltaUnits(d: TimeDelta)
    ensures d.days != 0 ==> RenderDelta(d) == IntToString(d.days) + " days"
    ensures d.days == 0 && d.seconds >= 3600 ==>
      RenderDelta(d) == Pad2(d.seconds / 3600) + " hours" && d.seconds / 3600 < 24
    ensures d.days == 0 && 60 <= d.seconds < 3600 ==>
      RenderDelta(d) == Pad2(d.seconds / 60) + " minutes" && d.seconds / 60 < 60
    ensures d.days == 0 && 0 < d.seconds < 60 ==>
      RenderDelta(d) == Pad2(d.seconds) + " seconds"
    ensures RenderDelta(d) == "" <==> d == TimeDelta(0, 0)
  {
    var mm0 := d.seconds / 60;
    assert mm0 / 60 == d.seconds / 3600;
    if d.days != 0 {
      assert |IntToString(d.days)| >= 1;
    } else if d.seconds >= 3600 {
      assert |Pad2(d.seconds / 3600)| == 2;
    } else if d.seconds >= 60 {
      assert mm0 % 60 == mm0;
      assert |Pad2(mm0)| == 2;
    } else if d.seconds > 0 {
      assert |Pad2(d.seconds)| == 2;
    }
  }

  /** Below a day the printed number is two digits that read back as the unit's count. */
  lemma RenderDeltaReadsBack(d: TimeDelta)
    requires d.days == 0 && d.seconds > 0
    ensures |RenderDelta(d)| >= 2
    ensures ParseNat(RenderDelta(d)[..2]) ==
      if d.seconds >= 3600 then d.seconds / 3600
      else if d.seconds >= 60 then d.seconds / 60
      else d.seconds
  {
    RenderDeltaUnits(d);
    var n := if d.seconds >= 3600 then d.seconds / 3600 else if d.seconds >= 60 then d.seconds / 60 else d.seconds;
    Pad2RoundTrip(n);
    var unit := if d.seconds >= 3600 then " hours" else if d.seconds >= 60 then " minutes" else " seconds";
    assert RenderDelta(d) == Pad2(n) + unit;
    assert RenderDelta(d)[..2] == Pad2(n);
  }
}
