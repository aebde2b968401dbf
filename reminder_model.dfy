/** The Reminder collection's schema: one reminder per document, in one of the two
    workspaces, with a trimmed task, an `HH:MM` time of day and a repeat mode. */
module ReminderModel {
  import opened Text
  import opened Collections
  import opened Api

  /** A calendar instant in the one local time zone of the model: what `getFullYear`,
      `getMonth` (0-based), `getDate`, `getHours`, `getMinutes`, `getSeconds` and
      `getMilliseconds` report. */
  datatype Instant = Instant(year: int, month: int, day: int, hour: int, minute: int, second: int, millisecond: int)

  /** A stored reminder. `createdAt` is the `timestamps` creation time in milliseconds
      since the epoch; `lastDoneDate` is `null` (None) until first marked done. */
  datatype Reminder = Reminder(id: string, kind: string, task: string, timeOfDay: string, isActive: bool,
                               lastDoneDate: Option<Instant>, repeat: string, createdAt: int)

  const Repeats: seq<string> := ["daily", "weekday", "weekend"]

  /** The schema's `/^\d{2}:\d{2}$/`: two digits, a colon, two digits and nothing else.
      The hours and minutes are not range-checked ("99:99" passes). */
  predicate IsTimeOfDay(s: string) {
    |s| == 5 && IsDigit(s[0]) && IsDigit(s[1]) && s[2] == ':' && IsDigit(s[3]) && IsDigit(s[4])
  }

  /** A time matching the pattern starts and ends with a digit, so `trim` leaves it alone. */
  lemma TimeOfDayIsTrimmed(s: string)
    requires IsTimeOfDay(s)
    ensures IsTrimmed(s) && Trim(s) == s
  {
    TrimOfTrimmed(s);
  }

  /** What the schema's validators accept of a stored document. */
  predicate Valid(r: Reminder) {
    r.kind in Workspaces && r.task != "" && IsTrimmed(r.task) && IsTimeOfDay(r.timeOfDay) && r.repeat in Repeats
  }

  /** The fields handed to `Reminder.create`; `None` is a field left out, which takes
      the schema default. */
  datatype Fields = Fields(kind: string, task: string, timeOfDay: string, isActive: Option<bool>, repeat: Option<string>)

  /** `Reminder.create(fields)`: the `trim` setters run, defaults fill the missing
      fields, then the validators run; `None` is a rejected document. */
  function Create(f: Fields, id: string, createdAt: int): (r: Option<Reminder>)
    ensures r.Some? <==> f.kind in Workspaces && Trim(f.task) != "" && IsTimeOfDay(Trim(f.timeOfDay))
                         && f.repeat.GetOr("daily") in Repeats
    ensures r.Some? ==> Valid(r.value) && r.value.id == id && r.value.createdAt == createdAt
    ensures r.Some? ==> r.value.isActive == f.isActive.GetOr(true) && r.value.lastDoneDate == None
                        && r.value.repeat == f.repeat.GetOr("daily")
    ensures r.Some? ==> r.value.kind == f.kind && r.value.task == Trim(f.task) && r.value.timeOfDay == Trim(f.timeOfDay)
  {
    var doc := Reminder(id, f.kind, Trim(f.task), Trim(f.timeOfDay), f.isActive.GetOr(true), None,
                        f.repeat.GetOr("daily"), createdAt);
    if Valid(doc) then Some(doc) else None
  }
}
