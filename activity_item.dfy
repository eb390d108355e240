/** One row of the feed: the relative timestamp, the icon and label for the
    record's type, and whether the row is still an optimistic entry. */
module ActivityItem {
  import opened Wrappers
  import opened JsText
  import opened ActivityModel

  // ---------------------------------------------------------------------
  // formatTimeAgo

  const SecondMs: int := 1000
  const MinuteMs: int := 60000
  const HourMs: int := 3600000
  const DayMs: int := 86400000
  const WeekMs: int := 604800000

  /** The bucket formatTimeAgo picks. `CalendarDate` is the fall-through to
      locale date formatting, which is also where an invalid date (NaN)
      ends up, since every comparison with NaN is false. */
  datatype TimeAgo =
    | JustNow
    | MinutesAgo(minutes: int)
    | HoursAgo(hours: int)
    | DaysAgo(days: int)
    | CalendarDate(date: Option<int>)

  /** Flooring in steps (ms to s to min to h to days) is flooring once by
      the whole unit (`Math.floor` is Dafny's division for a positive
      divisor). */
  lemma FloorChain(ms: int)
    ensures ms / 1000 / 60 == ms / MinuteMs
    ensures ms / MinuteMs / 60 == ms / HourMs
    ensures ms / HourMs / 24 == ms / DayMs
  {
  }

  /** formatTimeAgo for the instant `now` and the record's time (`None` for
      an unparsable date string), both in milliseconds. */
  function FormatTimeAgo(now: int, date: Option<int>): (t: TimeAgo)
    ensures date.None? ==> t == CalendarDate(None)
    ensures date.Some? ==>
      var diff := now - date.value;
      && (t == JustNow <==> diff < MinuteMs)
      && (t.MinutesAgo? <==> MinuteMs <= diff < HourMs)
      && (t.MinutesAgo? ==> t.minutes == diff / MinuteMs && 1 <= t.minutes <= 59)
      && (t.HoursAgo? <==> HourMs <= diff < DayMs)
      && (t.HoursAgo? ==> t.hours == diff / HourMs && 1 <= t.hours <= 23)
      && (t.DaysAgo? <==> DayMs <= diff < WeekMs)
      && (t.DaysAgo? ==> t.days == diff / DayMs && 1 <= t.days <= 6)
      && (t.CalendarDate? <==> WeekMs <= diff)
      && (t.CalendarDate? ==> t.date == date)
  {
    match date
    case None => CalendarDate(None)
    case Some(d) =>
      var diffMs := now - d;
      var diffSec := diffMs / 1000;
      var diffMin := diffSec / 60;
      var diffHr := diffMin / 60;
      var diffDay := diffHr / 24;
      FloorChain(diffMs);
      if diffSec < 60 then JustNow
      else if diffMin < 60 then MinutesAgo(diffMin)
      else if diffHr < 24 then HoursAgo(diffHr)
      else if diffDay < 7 then DaysAgo(diffDay)
      else CalendarDate(date)
  }

  /** The buckets in the order formatTimeAgo tries them. */
  function Rank(t: TimeAgo): nat {
    match t
    case JustNow => 0
    case MinutesAgo(_) => 1
    case HoursAgo(_) => 2
    case DaysAgo(_) => 3
    case CalendarDate(_) => 4
  }

  /** An older record never lands in an earlier bucket, and within a bucket
      never shows a smaller count. */
  lemma OlderNeverFresher(now: int, d1: int, d2: int)
    requires d2 <= d1
    ensures Rank(FormatTimeAgo(now, Some(d1))) <= Rank(FormatTimeAgo(now, Some(d2)))
    ensures var t1 := FormatTimeAgo(now, Some(d1)); var t2 := FormatTimeAgo(now, Some(d2));
      && (t1.MinutesAgo? && t2.MinutesAgo? ==> t1.minutes <= t2.minutes)
      && (t1.HoursAgo? && t2.HoursAgo? ==> t1.hours <= t2.hours)
      && (t1.DaysAgo? && t2.DaysAgo? ==> t1.days <= t2.days)
  {
    var diff1 := now - d1;
    var diff2 := now - d2;
    assert diff1 <= diff2;
    assert diff1 / MinuteMs <= diff2 / MinuteMs;
    assert diff1 / HourMs <= diff2 / HourMs;
    assert diff1 / DayMs <= diff2 / DayMs;
  }

  /** The text of a bucket; `formatDate` stands for `toLocaleDateString`. */
  function RelativeText(t: TimeAgo, formatDate: Option<int> -> string): (s: string)
    ensures t.JustNow? ==> s == "just now"
    ensures t.MinutesAgo? && t.minutes >= 0 ==> s == NatToDecimal(t.minutes) + "m ago"
    ensures t.HoursAgo? && t.hours >= 0 ==> s == NatToDecimal(t.hours) + "h ago"
    ensures t.DaysAgo? && t.days >= 0 ==> s == NatToDecimal(t.days) + "d ago"
    ensures t.CalendarDate? ==> s == formatDate(t.date)
  {
    match t
    case JustNow => "just now"
    case MinutesAgo(m) => (if m >= 0 then NatToDecimal(m) else "-" + NatToDecimal(-m)) + "m ago"
    case HoursAgo(h) => (if h >= 0 then NatToDecimal(h) else "-" + NatToDecimal(-h)) + "h ago"
    case DaysAgo(d) => (if d >= 0 then NatToDecimal(d) else "-" + NatToDecimal(-d)) + "d ago"
    case CalendarDate(d) => formatDate(d)
  }

  /** The count a relative bucket carries. */
  function Count(t: TimeAgo): int {
    match t
    case MinutesAgo(m) => m
    case HoursAgo(h) => h
    case DaysAgo(d) => d
    case _ => 0
  }

  /** The count shown in a relative label reads back with parseInt as the
      number of whole minutes, hours or days elapsed. */
  lemma RelativeTextCount(t: TimeAgo, formatDate: Option<int> -> string)
    requires t.MinutesAgo? || t.HoursAgo? || t.DaysAgo?
    requires Count(t) >= 0
    ensures ParseInt(RelativeText(t, formatDate)) == Some(Count(t))
  {
    match t {
      case MinutesAgo(m) => DecimalPrefixRoundTrip(m, "m ago");
      case HoursAgo(h) => DecimalPrefixRoundTrip(h, "h ago");
      case DaysAgo(d) => DecimalPrefixRoundTrip(d, "d ago");
    }
  }

  // ---------------------------------------------------------------------
  // The type badge

  datatype TypeConfig = TypeConfig(icon: string, labelText: string)

  const Pin: string := "\U{1F4CC}"

  const TypeConfigs: map<string, TypeConfig> := map[
    "USER_LOGIN" := TypeConfig("\U{1F511}", "User Login"),
    "USER_LOGOUT" := TypeConfig("\U{1F6AA}", "User Logout"),
    "DOCUMENT_CREATED" := TypeConfig("\U{1F4C4}", "Document Created"),
    "DOCUMENT_UPDATED" := TypeConfig("\U{270F}\U{FE0F}", "Document Updated"),
    "DOCUMENT_DELETED" := TypeConfig("\U{1F5D1}\U{FE0F}", "Document Deleted"),
    "COMMENT_ADDED" := TypeConfig("\U{1F4AC}", "Comment Added"),
    "TASK_ASSIGNED" := TypeConfig("\U{1F4CB}", "Task Assigned"),
    "TASK_COMPLETED" := TypeConfig("\U{2705}", "Task Completed"),
    "PROFILE_UPDATED" := TypeConfig("\U{1F464}", "Profile Updated"),
    "TEAM_MEMBER_ADDED" := TypeConfig("\U{2795}", "Team Member Added"),
    "TEAM_MEMBER_REMOVED" := TypeConfig("\U{2796}", "Team Member Removed"),
    "REPORT_GENERATED" := TypeConfig("\U{1F4CA}", "Report Generated"),
    "SETTING_CHANGED" := TypeConfig("\U{2699}\U{FE0F}", "Setting Changed")
  ]

  /** The badge for a type: its configured entry, or a pin and the raw type
      for a type the table does not know. */
  function ConfigFor(kind: string): (c: TypeConfig)
    ensures kind in TypeConfigs ==> c == TypeConfigs[kind]
    ensures kind !in TypeConfigs ==> c == TypeConfig(Pin, kind)
  {
    if kind in TypeConfigs then TypeConfigs[kind] else TypeConfig(Pin, kind)
  }

  /** The table covers exactly the schema's types, so every saved record
      gets a configured badge and never the pin (no configured icon is the
      pin). */
  lemma ConfigCoversSchema(kind: string)
    ensures kind in TypeConfigs <==> IsActivityType(kind)
    ensures IsActivityType(kind) ==> ConfigFor(kind).icon != Pin
    ensures !IsActivityType(kind) ==> ConfigFor(kind) == TypeConfig(Pin, kind)
  {
  }

  // ---------------------------------------------------------------------
  // Optimistic rows

  /** `activity._id?.startsWith("temp-")`. */
  predicate IsOptimistic(id: string) {
    StartsWith(id, "temp-")
  }

  /** A store-generated id (24 hexadecimal digits) is never taken for an
      optimistic entry. */
  lemma HexIdNotOptimistic(id: string)
    requires forall i :: 0 <= i < |id| ==> IsDigit(id[i], 16)
    ensures !IsOptimistic(id)
  {
    if |id| >= 5 {
      assert IsDigit(id[0], 16);
    }
  }
}
