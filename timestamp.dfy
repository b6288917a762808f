/** CodeBuddy.formatTimestamp: how long ago a message was written, as shown
    beside it. The elapsed time is given as the millisecond difference
    between now and the message's creation time; it is cut into whole
    minutes with a floor division, and written "now", "Nm ago" or "Nh ago",
    or left to the browser's locale date format beyond a day. */
module Timestamp {
  import opened Wrappers
  import Text

  const MsPerMinute: nat := 60000
  const MinutesPerHour: nat := 60
  const MinutesPerDay: nat := 1440

  /** The bucket formatTimestamp picks. Dated is the toLocaleDateString
      branch, whose text depends on the locale. */
  datatype Age = Now | MinutesAgo(minutes: nat) | HoursAgo(hours: nat) | Dated

  /** The branch formatTimestamp takes for a millisecond difference (which
      is negative for a creation time in the future). With
      diffMins = floor(diffMs / 60000): "now" below one minute, so also for
      every future time; whole minutes 1..59 below an hour; whole hours
      1..23 below a day; the date otherwise. Each bucket's number is the
      count of whole units elapsed. */
  function Classify(diffMs: int): (a: Age)
    ensures a.Now? <==> diffMs < MsPerMinute
    ensures a.MinutesAgo? <==> MsPerMinute <= diffMs < MinutesPerHour * MsPerMinute
    ensures a.HoursAgo? <==> MinutesPerHour * MsPerMinute <= diffMs < MinutesPerDay * MsPerMinute
    ensures a.Dated? <==> diffMs >= MinutesPerDay * MsPerMinute
    ensures a.MinutesAgo? ==>
      1 <= a.minutes <= 59 && a.minutes * MsPerMinute <= diffMs < (a.minutes + 1) * MsPerMinute
    ensures a.HoursAgo? ==>
      1 <= a.hours <= 23 &&
      a.hours * MinutesPerHour * MsPerMinute <= diffMs < (a.hours + 1) * MinutesPerHour * MsPerMinute
  {
    // Dafny's division by a positive constant rounds down, as Math.floor does.
    var diffMins := diffMs / MsPerMinute;
    if diffMins < 1 then Now
    else if diffMins < MinutesPerHour then MinutesAgo(diffMins)
    else if diffMins < MinutesPerDay then HoursAgo(diffMins / MinutesPerHour)
    else Dated
  }

  /** The text of a bucket; None for the locale-dependent date. */
  function AgeText(a: Age): Option<string>
  {
    match a
    case Now => Some("now")
    case MinutesAgo(m) => Some(Text.Decimal(m) + "m ago")
    case HoursAgo(h) => Some(Text.Decimal(h) + "h ago")
    case Dated => None
  }

  /** formatTimestamp, on the millisecond difference: no relative text
      exactly from a day on, and "now" exactly below a minute. */
  function FormatTimestamp(diffMs: int): (r: Option<string>)
    ensures r.None? <==> diffMs >= MinutesPerDay * MsPerMinute
    ensures r == Some("now") <==> diffMs < MsPerMinute
  {
    AgeText(Classify(diffMs))
  }

  /** Reads a relative-time text back into its bucket. */
  function ParseAgeText(s: string): Option<Age>
  {
    if s == "now" then Some(Now)
    else if |s| > 5 && Text.IsDigits(s[..|s| - 5]) && s[|s| - 5..] == "m ago" then
      Some(MinutesAgo(Text.DigitsValue(s[..|s| - 5])))
    else if |s| > 5 && Text.IsDigits(s[..|s| - 5]) && s[|s| - 5..] == "h ago" then
      Some(HoursAgo(Text.DigitsValue(s[..|s| - 5])))
    else None
  }

  /** Each relative-time text names one bucket only: reading it back gives
      the bucket it was written from. */
  lemma AgeTextRoundTrip(a: Age)
    requires !a.Dated?
    ensures AgeText(a).Some? && ParseAgeText(AgeText(a).value) == Some(a)
  {
    match a
    case Now =>
    case MinutesAgo(m) =>
      var s := Text.Decimal(m) + "m ago";
      assert s[..|s| - 5] == Text.Decimal(m);
      assert s[|s| - 5..] == "m ago";
      Text.DecimalRoundTrip(m);
    case HoursAgo(h) =>
      var s := Text.Decimal(h) + "h ago";
      assert s[..|s| - 5] == Text.Decimal(h);
      assert s[|s| - 5..] == "h ago";
      assert "h ago" != "m ago";
      Text.DecimalRoundTrip(h);
  }

  /** What a shown text says about the elapsed time: "now" means less than a
      minute; "Nm ago" means N whole minutes, N in 1..59; "Nh ago" means N
      whole hours, N in 1..23; no text means at least a day. */
  lemma FormatTimestampMeaning(diffMs: int)
    ensures FormatTimestamp(diffMs).Some? ==>
      match ParseAgeText(FormatTimestamp(diffMs).value)
      case Some(Now) => diffMs < MsPerMinute
      case Some(MinutesAgo(m)) =>
        1 <= m <= 59 && m * MsPerMinute <= diffMs < (m + 1) * MsPerMinute
      case Some(HoursAgo(h)) =>
        1 <= h <= 23 && h * MinutesPerHour * MsPerMinute <= diffMs < (h + 1) * MinutesPerHour * MsPerMinute
      case _ => false
  {
    var a := Classify(diffMs);
    if !a.Dated? {
      AgeTextRoundTrip(a);
    }
    if a.MinutesAgo? || a.HoursAgo? {
      assert |AgeText(a).value| > 5;
    }
  }
}
