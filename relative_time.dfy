/** The "time ago" label the history and downloads panels show next to an entry. Both panels
    carry the same helper. Times are millisecond timestamps; the current time is a parameter. */
module RelativeTime {
  import opened JsString

  /** The label: a count in the largest unit that fits, or the entry's own date once it is
      thirty days old or more. */
  datatype Ago = JustNow | MinutesAgo(minutes: nat) | HoursAgo(hours: nat) | DaysAgo(days: nat)
               | OnDate(timestamp: int)

  /** `getTimeAgo`: the whole seconds elapsed (rounded down, so a future time reads as "just
      now") decide the unit, and the count is rounded down too. */
  function TimeAgo(now: int, time: int): (r: Ago)
    ensures var s := (now - time) / 1000;
            (s < 60 <==> r.JustNow?)
            && (r.MinutesAgo? <==> 60 <= s < 3600)
            && (r.MinutesAgo? ==> 1 <= r.minutes < 60 && r.minutes * 60 <= s < (r.minutes + 1) * 60)
            && (r.HoursAgo? <==> 3600 <= s < 86400)
            && (r.HoursAgo? ==> 1 <= r.hours < 24 && r.hours * 3600 <= s < (r.hours + 1) * 3600)
            && (r.DaysAgo? <==> 86400 <= s < 2592000)
            && (r.DaysAgo? ==> 1 <= r.days < 30 && r.days * 86400 <= s < (r.days + 1) * 86400)
            && (r.OnDate? <==> s >= 2592000) && (r.OnDate? ==> r.timestamp == time)
  {
    var diffInSeconds := (now - time) / 1000;
    if diffInSeconds < 60 then JustNow
    else if diffInSeconds < 3600 then MinutesAgo(diffInSeconds / 60)
    else if diffInSeconds < 86400 then HoursAgo(diffInSeconds / 3600)
    else if diffInSeconds < 2592000 then DaysAgo(diffInSeconds / 86400)
    else OnDate(time)
  }

  /** The order of the units, finest first. */
  function Rank(a: Ago): nat
  {
    match a
    case JustNow => 0
    case MinutesAgo(_) => 1
    case HoursAgo(_) => 2
    case DaysAgo(_) => 3
    case OnDate(_) => 4
  }

  /** An older entry never gets a finer unit than a newer one. */
  lemma TimeAgoMonotone(now: int, newer: int, older: int)
    requires older <= newer
    ensures Rank(TimeAgo(now, newer)) <= Rank(TimeAgo(now, older))
  {
  }

  /** The text shown: `Just now`, `5m ago`, `3h ago`, `2d ago`, or the date, whose locale
      rendering is passed in. */
  function Render(a: Ago, localeDate: int -> string): (r: string)
    ensures a.JustNow? ==> r == "Just now"
    ensures a.MinutesAgo? ==> r == NatToString(a.minutes) + "m ago"
    ensures a.HoursAgo? ==> r == NatToString(a.hours) + "h ago"
    ensures a.DaysAgo? ==> r == NatToString(a.days) + "d ago"
    ensures a.OnDate? ==> r == localeDate(a.timestamp)
  {
    match a
    case JustNow => "Just now"
    case MinutesAgo(m) => NatToString(m) + "m ago"
    case HoursAgo(h) => NatToString(h) + "h ago"
    case DaysAgo(d) => NatToString(d) + "d ago"
    case OnDate(t) => localeDate(t)
  }

  /** Every relative label tells its unit and its count apart from any other: different
      values never share a text. Only the date, whose rendering is the locale's, is left out. */
  lemma RenderUnambiguous(a: Ago, b: Ago, localeDate: int -> string)
    requires !a.OnDate? && !b.OnDate?
    ensures Render(a, localeDate) == Render(b, localeDate) <==> a == b
  {
    var ra, rb := Render(a, localeDate), Render(b, localeDate);
    if a != b {
      if a.JustNow? {
        assert IsDigit(rb[0]) && !IsDigit(ra[0]);
      } else if b.JustNow? {
        assert IsDigit(ra[0]) && !IsDigit(rb[0]);
      } else {
        var da, db := NatToString(Count(a)), NatToString(Count(b));
        assert ra == da + [UnitChar(a)] + " ago" && rb == db + [UnitChar(b)] + " ago";
        if |da| == |db| {
          if UnitChar(a) != UnitChar(b) {
            assert ra[|da|] != rb[|db|];
          } else {
            NatToStringInjective(Count(a), Count(b));
            assert ra[..|da|] == da && rb[..|db|] == db;
          }
        }
      }
    }
  }

  /** The count of a relative label. */
  function Count(a: Ago): nat
    requires !a.JustNow? && !a.OnDate?
  {
    match a
    case MinutesAgo(m) => m
    case HoursAgo(h) => h
    case DaysAgo(d) => d
  }

  /** The letter after the count of a relative label. */
  function UnitChar(a: Ago): char
    requires !a.JustNow? && !a.OnDate?
  {
    match a
    case MinutesAgo(_) => 'm'
    case HoursAgo(_) => 'h'
    case DaysAgo(_) => 'd'
  }

  /** `getTimeAgo`: the label text for an entry stamped `time`, seen at `now`. */
  function GetTimeAgo(now: int, time: int, localeDate: int -> string): (r: string)
    ensures var s := (now - time) / 1000;
            (s < 60 ==> r == "Just now")
            && (60 <= s < 3600 ==> r == NatToString(s / 60) + "m ago")
            && (3600 <= s < 86400 ==> r == NatToString(s / 3600) + "h ago")
            && (86400 <= s < 2592000 ==> r == NatToString(s / 86400) + "d ago")
            && (s >= 2592000 ==> r == localeDate(time))
  {
    Render(TimeAgo(now, time), localeDate)
  }

  /** Within thirty days two entries get the same label exactly when they fall in the same
      unit with the same whole count: the text gives back the elapsed time to its unit. */
  lemma SameLabelSameAgo(now: int, t1: int, t2: int, localeDate: int -> string)
    requires (now - t1) / 1000 < 2592000 && (now - t2) / 1000 < 2592000
    ensures GetTimeAgo(now, t1, localeDate) == GetTimeAgo(now, t2, localeDate)
            <==> TimeAgo(now, t1) == TimeAgo(now, t2)
  {
    RenderUnambiguous(TimeAgo(now, t1), TimeAgo(now, t2), localeDate);
  }
}
