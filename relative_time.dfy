/** Relative ages: the first branches of the current client's `formatChatTime`
    (`client/src/utils/formatTime.js`) and the planet list's `formatTimeAgo`
    (`chillsync/client/src/pages/Planets.jsx`). The difference in whole seconds is taken from the
    clock by the caller and passed in. */
module RelativeTime {
  import opened Wrappers
  import opened JsText

  /** `` `${n} ${unit} ago` ``. */
  function Ago(n: nat, unit: string): string
  {
    NatToString(n) + " " + unit + " ago"
  }

  /** The phrase splits on spaces into the count, the unit and `ago`. */
  lemma AgoParts(n: nat, unit: string)
    requires ' ' !in unit
    ensures Split(Ago(n, unit), ' ') == [NatToString(n), unit, "ago"]
    ensures ParseNat(NatToString(n)) == n
  {
    DigitsHaveNo(NatToString(n), ' ');
    assert ' ' !in "ago";
    assert Ago(n, unit) == NatToString(n) + [' '] + unit + [' '] + "ago";
    Split3(NatToString(n), unit, "ago", ' ');
    ParseNatToString(n);
  }

  // ----- client/src/utils/formatTime.js -----

  /** `formatChatTime` down to its hour branch: `''` for a falsy timestamp, `'just now'` under a
      minute, whole minutes under an hour; `None` where the date-formatting branches take over. */
  function ChatAgo(timestamp: string, diffInSeconds: int): Option<string>
  {
    if timestamp == "" then Some("")
    else if diffInSeconds < 60 then Some("just now")
    else if diffInSeconds < 3600 then
      var minutes := diffInSeconds / 60;
      Some(Ago(minutes, if minutes == 1 then "min" else "mins"))
    else None
  }

  /** The relative branches cover exactly a falsy timestamp and differences under an hour; a
      minute count read back from the text is the number of whole minutes elapsed, between 1
      and 59, and the unit is singular exactly for 1. */
  lemma ChatAgoReadsBack(timestamp: string, diffInSeconds: int)
    ensures ChatAgo(timestamp, diffInSeconds).Some? <==> timestamp == "" || diffInSeconds < 3600
    ensures timestamp == "" ==> ChatAgo(timestamp, diffInSeconds) == Some("")
    ensures timestamp != "" && diffInSeconds < 60 ==> ChatAgo(timestamp, diffInSeconds) == Some("just now")
    ensures timestamp != "" && 60 <= diffInSeconds < 3600 ==>
      var p := Split(ChatAgo(timestamp, diffInSeconds).value, ' ');
      |p| == 3 && p[2] == "ago" && (p[1] == "min" || p[1] == "mins")
      && var n := ParseNat(p[0]);
         1 <= n < 60 && n * 60 <= diffInSeconds < n * 60 + 60 && (p[1] == "min" <==> n == 1)
  {
    if timestamp != "" && 60 <= diffInSeconds < 3600 {
      var minutes := diffInSeconds / 60;
      AgoParts(minutes, if minutes == 1 then "min" else "mins");
    }
  }

  // ----- chillsync/client/src/pages/Planets.jsx -----

  /** `formatTimeAgo`: `'just now'` under a minute (a clock running behind included), then whole
      minutes, hours or days, each singular exactly when the count is 1. */
  function TimeAgo(diffInSeconds: int): string
  {
    if diffInSeconds < 60 then "just now"
    else if diffInSeconds < 3600 then
      var minutes := diffInSeconds / 60;
      Ago(minutes, if minutes == 1 then "minute" else "minutes")
    else if diffInSeconds < 86400 then
      var hours := diffInSeconds / 3600;
      Ago(hours, if hours == 1 then "hour" else "hours")
    else
      var days := diffInSeconds / 86400;
      Ago(days, if days == 1 then "day" else "days")
  }

  /** The length of the unit a phrase counts in, 0 for a word that is not one. */
  function UnitSeconds(unit: string): nat
  {
    if unit == "minute" || unit == "minutes" then 60
    else if unit == "hour" || unit == "hours" then 3600
    else if unit == "day" || unit == "days" then 86400
    else 0
  }

  predicate Singular(unit: string)
  {
    unit == "minute" || unit == "hour" || unit == "day"
  }

  /** A phrase read back: three words ending in `ago`, whose count times its unit is the time
      elapsed rounded down to that unit, singular exactly for a count of 1. */
  predicate Counts(p: seq<string>, diffInSeconds: int)
  {
    |p| == 3 && p[2] == "ago"
    && var n, u := ParseNat(p[0]), UnitSeconds(p[1]);
       u > 0 && n >= 1 && n * u <= diffInSeconds < n * u + u && (Singular(p[1]) <==> n == 1)
  }

  /** One bucket of `formatTimeAgo`: the count in units of `scale`, named `one` or `many`. */
  lemma CountsIn(diffInSeconds: int, scale: nat, one: string, many: string)
    requires 0 < scale <= diffInSeconds
    requires ' ' !in one && ' ' !in many
    requires UnitSeconds(one) == scale && UnitSeconds(many) == scale && Singular(one) && !Singular(many)
    ensures var n := diffInSeconds / scale; var p := Split(Ago(n, if n == 1 then one else many), ' ');
      Counts(p, diffInSeconds) && UnitSeconds(p[1]) == scale
  {
    var n := diffInSeconds / scale;
    assert diffInSeconds == n * scale + diffInSeconds % scale;
    AgoParts(n, if n == 1 then one else many);
  }

  /** The unit `formatTimeAgo` counts in: the largest of minute, hour and day that fits. */
  function Scale(diffInSeconds: int): nat
  {
    if diffInSeconds < 3600 then 60 else if diffInSeconds < 86400 then 3600 else 86400
  }

  lemma TimeAgoCounts(diffInSeconds: int)
    requires diffInSeconds >= 60
    ensures var p := Split(TimeAgo(diffInSeconds), ' ');
      Counts(p, diffInSeconds) && UnitSeconds(p[1]) == Scale(diffInSeconds)
  {
    if diffInSeconds < 3600 {
      CountsIn(diffInSeconds, 60, "minute", "minutes");
    } else if diffInSeconds < 86400 {
      var n := diffInSeconds / 3600;
      assert TimeAgo(diffInSeconds) == Ago(n, if n == 1 then "hour" else "hours");
      CountsIn(diffInSeconds, 3600, "hour", "hours");
    } else {
      CountsIn(diffInSeconds, 86400, "day", "days");
    }
  }

  /** A phrase starts with its count's first digit. */
  lemma AgoStartsWithDigit(n: nat, unit: string)
    ensures IsDigit(Ago(n, unit)[0])
  {
    assert Ago(n, unit)[0] == NatToString(n)[0];
  }

  /** A phrase, rather than `just now`, from a minute on; the unit is the largest of minute, hour
      and day that fits (days are unbounded), and the phrase reads back as the time elapsed. */
  lemma TimeAgoReadsBack(diffInSeconds: int)
    ensures TimeAgo(diffInSeconds) == "just now" <==> diffInSeconds < 60
    ensures diffInSeconds >= 60 ==>
      var p := Split(TimeAgo(diffInSeconds), ' ');
      Counts(p, diffInSeconds) && UnitSeconds(p[1]) == Scale(diffInSeconds)
  {
    if diffInSeconds >= 60 {
      TimeAgoCounts(diffInSeconds);
      var n := diffInSeconds / Scale(diffInSeconds);
      var r := TimeAgo(diffInSeconds);
      assert exists unit :: r == Ago(n, unit);
      var unit :| r == Ago(n, unit);
      AgoStartsWithDigit(n, unit);
      assert r[0] != "just now"[0];
    }
  }

  /** At each boundary the count starts over at one. */
  lemma TimeAgoBoundaries()
    ensures TimeAgo(59) == "just now"
    ensures TimeAgo(60) == "1 minute ago"
    ensures TimeAgo(3600) == "1 hour ago"
    ensures TimeAgo(86400) == "1 day ago"
  {
  }
}
