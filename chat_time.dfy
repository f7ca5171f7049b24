/**
 * lib/utils.ts: `formatChatTime`, the timestamp of a conversation row.  The
 * locale formatting itself is opaque; the model decides which of the three
 * formats applies.
 */
module ChatTime {
  import opened Wrappers
  import opened Domain

  const DayMs := 86_400_000

  /** The format chosen for a timestamp. */
  datatype ChatTime =
    | Blank                   // no timestamp: the empty string
    | TimeOfDay(at: Clock)    // today: hour and minute
    | Weekday(at: Clock)      // within the last week: the short weekday
    | DayMonth(at: Clock)     // older: day and month
    | InvalidDate             // an unparsable timestamp reaches the day/month formatter, which throws a RangeError

  /** The whole days from `d` to `now`, rounded down (`Math.floor` of a millisecond difference). */
  function DaysBetween(d: Clock, now: Clock): int {
    (now.ms - d.ms) / DayMs
  }

  /** `formatChatTime(iso)` with `now` standing for `new Date()`. */
  function FormatChatTime(iso: Option<Stamp>, now: Clock): (r: ChatTime)
    ensures r == Blank <==> iso.None? || iso.value.raw == ""
    ensures r == InvalidDate <==> iso.Some? && iso.value.raw != "" && iso.value.parsed.None?
    ensures r.TimeOfDay? <==> iso.Some? && iso.value.raw != "" && iso.value.parsed.Some? && SameDay(iso.value.parsed.value, now)
    ensures r.Weekday? <==>
      && iso.Some? && iso.value.raw != "" && iso.value.parsed.Some?
      && !SameDay(iso.value.parsed.value, now)
      && now.ms - iso.value.parsed.value.ms < 7 * DayMs
    ensures r.TimeOfDay? || r.Weekday? || r.DayMonth? ==> iso.value.parsed == Some(r.at)
  {
    if iso.None? || iso.value.raw == "" then Blank
    else
      match iso.value.parsed
      case None => InvalidDate
      case Some(d) =>
        if SameDay(d, now) then TimeOfDay(d)
        else if DaysBetween(d, now) < 7 then Weekday(d)
        else DayMonth(d)
  }

  /**
   * The same-day test comes first: a timestamp on today's date shows the
   * time even when it lies more than a week from `now` (a clock far off,
   * say), and a timestamp in the future on another day shows the weekday.
   */
  lemma SameDayTakesPrecedence(s: Stamp, now: Clock)
    requires s.raw != "" && s.parsed.Some?
    ensures SameDay(s.parsed.value, now) ==> FormatChatTime(Some(s), now) == TimeOfDay(s.parsed.value)
    ensures !SameDay(s.parsed.value, now) && s.parsed.value.ms > now.ms ==>
      FormatChatTime(Some(s), now) == Weekday(s.parsed.value)
  {
  }
}
