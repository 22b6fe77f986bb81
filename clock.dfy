/** The playback clocks: `formatTime` of the current client (`client/src/utils/formatTime.js`) and
    the one the earlier room page defines (`chillsync/client/src/pages/Room.jsx`). Positions are
    non-negative reals; every field is a `Math.floor`, so both work on whole seconds. */
module Clock {
  import opened JsText

  /** Hours, minutes and seconds as the formatters compute them. */
  datatype Fields = Fields(h: nat, m: nat, s: nat)

  /** The fields of a whole number of seconds; they are a base-60 reading of it. */
  function FieldsOf(w: nat): (f: Fields)
    ensures f.m < 60 && f.s < 60
    ensures f.h * 3600 + f.m * 60 + f.s == w
  {
    var r := w % 3600;
    assert w == 3600 * (w / 3600) + r;
    assert r == 60 * (r / 60) + r % 60;
    ModMod(w);
    Fields(w / 3600, r / 60, w % 60)
  }

  /** Taking seconds modulo an hour first does not change them modulo a minute. */
  lemma ModMod(w: nat)
    ensures (w % 3600) % 60 == w % 60
  {
    var q, r := w / 3600, w % 3600;
    assert w == 60 * (60 * q + r / 60) + r % 60;
  }

  /** The whole seconds of a position. */
  function Whole(seconds: real): nat
    requires seconds >= 0.0
  {
    seconds.Floor
  }

  /** The value a viewer reads off a clock: its `:`-separated fields taken in base 60. */
  function ClockValue(parts: seq<string>): nat
  {
    if parts == [] then 0 else ClockValue(parts[..|parts| - 1]) * 60 + ParseNat(parts[|parts| - 1])
  }

  lemma ClockValue2(a: string, b: string)
    ensures ClockValue([a, b]) == ParseNat(a) * 60 + ParseNat(b)
  {
    assert [a, b][..1] == [a];
    assert [a][..0] == [];
    assert ClockValue([a]) == ParseNat(a);
  }

  lemma ClockValue3(a: string, b: string, c: string)
    ensures ClockValue([a, b, c]) == ParseNat(a) * 3600 + ParseNat(b) * 60 + ParseNat(c)
  {
    assert [a, b, c][..2] == [a, b];
    ClockValue2(a, b);
  }

  // ----- client/src/utils/formatTime.js -----

  /** Whether `formatTime` shows the hour: decided by a truthy duration when there is one,
      otherwise by the hour field. A duration of 0 stands for none. */
  predicate UseHours(h: nat, totalDuration: real)
  {
    if totalDuration != 0.0 then totalDuration >= 3600.0 else h > 0
  }

  /** Whether, without the hour, the minute field is shown rather than `00`. */
  predicate UseMinutes(m: nat, totalDuration: real)
  {
    (totalDuration != 0.0 && totalDuration >= 60.0) || (totalDuration == 0.0 && m > 0)
  }

  /** The clock `formatTime` draws for a position that is not zero. */
  function Render(f: Fields, totalDuration: real): string
  {
    if UseHours(f.h, totalDuration) then Pad2(f.h) + ":" + Pad2(f.m) + ":" + Pad2(f.s)
    else if UseMinutes(f.m, totalDuration) then Pad2(f.m) + ":" + Pad2(f.s)
    else "00:" + Pad2(f.s)
  }

  /** `formatTime(seconds, totalDuration)`: `'00:00'` for a zero position, else `HH:MM:SS`,
      `MM:SS` or `00:SS` as the duration (or the fields) call for. */
  function FormatTime(seconds: real, totalDuration: real): string
    requires seconds >= 0.0
  {
    if seconds == 0.0 then "00:00" else Render(FieldsOf(Whole(seconds)), totalDuration)
  }

  lemma Clock2(a: nat, b: nat)
    requires b < 60
    ensures Split(Pad2(a) + ":" + Pad2(b), ':') == [Pad2(a), Pad2(b)]
    ensures ClockValue([Pad2(a), Pad2(b)]) == a * 60 + b
  {
    Pad2Facts(a);
    Pad2Facts(b);
    DigitsHaveNo(Pad2(a), ':');
    DigitsHaveNo(Pad2(b), ':');
    Split2(Pad2(a), Pad2(b), ':');
    ClockValue2(Pad2(a), Pad2(b));
  }

  lemma Clock3(a: nat, b: nat, c: nat)
    ensures Split(Pad2(a) + ":" + Pad2(b) + ":" + Pad2(c), ':') == [Pad2(a), Pad2(b), Pad2(c)]
    ensures ClockValue([Pad2(a), Pad2(b), Pad2(c)]) == a * 3600 + b * 60 + c
  {
    Pad2Facts(a);
    Pad2Facts(b);
    Pad2Facts(c);
    DigitsHaveNo(Pad2(a), ':');
    DigitsHaveNo(Pad2(b), ':');
    DigitsHaveNo(Pad2(c), ':');
    Split3(Pad2(a), Pad2(b), Pad2(c), ':');
    ClockValue3(Pad2(a), Pad2(b), Pad2(c));
  }

  /** The `00` field, alone or in front of another. */
  lemma PadZero(b: nat)
    ensures Pad2(0) == "00"
    ensures "00:" + Pad2(b) == Pad2(0) + ":" + Pad2(b)
  {
  }

  /** The fields of a drawn clock: three exactly when the hour is shown, otherwise two, the
      first of them `00` when the minutes are not shown either. */
  lemma RenderParts(f: Fields, totalDuration: real)
    requires f.m < 60 && f.s < 60
    ensures Split(Render(f, totalDuration), ':') ==
      if UseHours(f.h, totalDuration) then [Pad2(f.h), Pad2(f.m), Pad2(f.s)]
      else if UseMinutes(f.m, totalDuration) then [Pad2(f.m), Pad2(f.s)]
      else [Pad2(0), Pad2(f.s)]
  {
    if UseHours(f.h, totalDuration) {
      Clock3(f.h, f.m, f.s);
    } else if UseMinutes(f.m, totalDuration) {
      Clock2(f.m, f.s);
    } else {
      PadZero(f.s);
      Clock2(0, f.s);
    }
  }

  /** The clock has three fields exactly when the hour is shown, two otherwise; every field is
      digits, at least two wide, and the minute and second fields exactly two. A zero position
      shows `00:00`. */
  lemma FormatTimeFields(seconds: real, totalDuration: real)
    requires seconds >= 0.0
    ensures var p := Split(FormatTime(seconds, totalDuration), ':');
      (|p| == 3 <==> seconds != 0.0 && UseHours(FieldsOf(Whole(seconds)).h, totalDuration))
      && (|p| == 2 || |p| == 3)
      && (forall i :: 0 <= i < |p| ==> AllDigits(p[i]) && 2 <= |p[i]|)
      && |p[|p| - 1]| == 2 && |p[|p| - 2]| == 2
    ensures seconds == 0.0 ==> FormatTime(seconds, totalDuration) == "00:00"
  {
    var f := FieldsOf(Whole(seconds));
    Pad2Facts(0);
    Pad2Facts(f.h);
    Pad2Facts(f.m);
    Pad2Facts(f.s);
    if seconds == 0.0 {
      PadZero(0);
      assert FormatTime(seconds, totalDuration) == "00:" + "00" == Pad2(0) + ":" + Pad2(0);
      Clock2(0, 0);
    } else {
      RenderParts(f, totalDuration);
    }
  }

  /** Reading the clock back gives the whole seconds when the hour is shown, the seconds within
      the hour when only the minutes are, and the seconds within the minute otherwise: under a
      known short duration a longer position loses its leading fields. */
  lemma FormatTimeRoundTrip(seconds: real, totalDuration: real)
    requires seconds >= 0.0
    ensures var w := Whole(seconds); var f := FieldsOf(w);
      ClockValue(Split(FormatTime(seconds, totalDuration), ':'))
        == if UseHours(f.h, totalDuration) then w
           else if UseMinutes(f.m, totalDuration) then w % 3600
           else w % 60
  {
    var w := Whole(seconds);
    var f := FieldsOf(w);
    if seconds == 0.0 {
      PadZero(0);
      assert FormatTime(seconds, totalDuration) == "00:" + "00" == Pad2(0) + ":" + Pad2(0);
      Clock2(0, 0);
    } else {
      RenderParts(f, totalDuration);
      if UseHours(f.h, totalDuration) {
        Clock3(f.h, f.m, f.s);
      } else if UseMinutes(f.m, totalDuration) {
        assert w % 3600 == f.m * 60 + f.s by { ModMod(w); }
        Clock2(f.m, f.s);
      } else {
        Clock2(0, f.s);
      }
    }
  }

  /** With a known duration under an hour, a position one hour later shows the same clock. */
  lemma HourDroppedUnderShortDuration(seconds: real, totalDuration: real)
    requires seconds >= 0.0 && 0.0 < totalDuration < 3600.0
    ensures FormatTime(seconds + 3600.0, totalDuration) == FormatTime(seconds, totalDuration)
  {
    var w := Whole(seconds);
    assert Whole(seconds + 3600.0) == w + 3600;
    var f, g := FieldsOf(w), FieldsOf(w + 3600);
    assert g.m == f.m && g.s == f.s by {
      ShiftByHour(w);
    }
    assert !UseHours(f.h, totalDuration) && !UseHours(g.h, totalDuration);
    if seconds == 0.0 {
      assert f == Fields(0, 0, 0);
      PadZero(0);
    }
  }

  lemma ShiftByHour(w: nat)
    ensures (w + 3600) % 3600 == w % 3600 && (w + 3600) % 60 == w % 60
  {
    assert w + 3600 == 3600 * (w / 3600 + 1) + w % 3600;
    assert w + 3600 == 60 * (w / 60 + 60) + w % 60;
  }

  // ----- chillsync/client/src/pages/Room.jsx -----

  /** The earlier `formatTime`: `[h || null, m, s].filter(Boolean).join(':')`, where a padded
      field is a (truthy) string and an unpadded minute a number, so only a zero minute without
      hours disappears, along with the zero hour. */
  function LegacyFormatTime(seconds: real): string
    requires seconds >= 0.0
  {
    var f := FieldsOf(Whole(seconds));
    if f.h > 0 then NatToString(f.h) + ":" + Pad2(f.m) + ":" + Pad2(f.s)
    else if f.m > 0 then NatToString(f.m) + ":" + Pad2(f.s)
    else Pad2(f.s)
  }

  /** Three fields with hours, two with minutes only, one otherwise; hours and minutes in
      front are unpadded, the fields after the first two digits wide. */
  lemma LegacyFormatTimeFields(seconds: real)
    requires seconds >= 0.0
    ensures var f := FieldsOf(Whole(seconds)); var p := Split(LegacyFormatTime(seconds), ':');
      (|p| == 3 <==> f.h > 0)
      && (|p| == 2 <==> f.h == 0 && f.m > 0)
      && (|p| == 1 <==> f.h == 0 && f.m == 0)
      && (forall i :: 0 <= i < |p| ==> AllDigits(p[i]))
      && (forall i :: 1 <= i < |p| ==> |p[i]| == 2)
      && |p[|p| - 1]| == 2
      && (|p| > 1 ==> p[0] == NatToString(ParseNat(p[0])))
  {
    var f := FieldsOf(Whole(seconds));
    LegacyParts(f);
    Pad2Facts(f.m);
    Pad2Facts(f.s);
    ParseNatToString(f.h);
    ParseNatToString(f.m);
  }

  lemma LegacyParts(f: Fields)
    requires f.m < 60 && f.s < 60
    ensures var p := Split(if f.h > 0 then NatToString(f.h) + ":" + Pad2(f.m) + ":" + Pad2(f.s)
                           else if f.m > 0 then NatToString(f.m) + ":" + Pad2(f.s)
                           else Pad2(f.s), ':');
      p == if f.h > 0 then [NatToString(f.h), Pad2(f.m), Pad2(f.s)]
           else if f.m > 0 then [NatToString(f.m), Pad2(f.s)]
           else [Pad2(f.s)]
  {
    Pad2Facts(f.m);
    Pad2Facts(f.s);
    DigitsHaveNo(NatToString(f.h), ':');
    DigitsHaveNo(NatToString(f.m), ':');
    DigitsHaveNo(Pad2(f.m), ':');
    DigitsHaveNo(Pad2(f.s), ':');
    if f.h > 0 {
      Split3(NatToString(f.h), Pad2(f.m), Pad2(f.s), ':');
    } else if f.m > 0 {
      Split2(NatToString(f.m), Pad2(f.s), ':');
    } else {
      SplitNoSep(Pad2(f.s), ':');
    }
  }

  /** The earlier clock loses nothing: reading it back gives the whole seconds. */
  lemma LegacyFormatTimeRoundTrip(seconds: real)
    requires seconds >= 0.0
    ensures ClockValue(Split(LegacyFormatTime(seconds), ':')) == Whole(seconds)
  {
    var f := FieldsOf(Whole(seconds));
    LegacyParts(f);
    Pad2Facts(f.m);
    Pad2Facts(f.s);
    ParseNatToString(f.h);
    ParseNatToString(f.m);
    if f.h > 0 {
      ClockValue3(NatToString(f.h), Pad2(f.m), Pad2(f.s));
    } else if f.m > 0 {
      ClockValue2(NatToString(f.m), Pad2(f.s));
    } else {
      assert [Pad2(f.s)][..0] == [];
    }
  }

  /** The zero minute vanishes without hours: five seconds show as `05`, sixty-five as `1:05`. */
  lemma LegacyDropsZeroMinute()
    ensures LegacyFormatTime(5.0) == "05"
    ensures LegacyFormatTime(65.0) == "1:05"
  {
    assert FieldsOf(Whole(5.0)) == Fields(0, 0, 5);
    assert FieldsOf(Whole(65.0)) == Fields(0, 1, 5);
  }
}
