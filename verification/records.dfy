/** The persisted reminder record (bot.py:71-77, 104-110) and the notices the tick sends. */
module Records {
  import opened Wrappers

  /** The `repeat` field of a record: None, "daily" or "weekly". */
  datatype Interval = Daily | Weekly

  /** One entry of reminders.json. `time` is the text the record was created or last advanced
      with, not a parsed value; `notifyBefore` holds signed minute offsets. */
  datatype Reminder = Reminder(
    userId: int,
    text: string,
    time: string,
    repeat: Option<Interval>,
    notifyBefore: seq<int>)

  datatype NoticeKind = PreNotice | MainNotice

  /** A direct message the tick sends: to whom, which kind, and the record's text and time
      string as they were when the tick read the record (bot.py:151, 158). */
  datatype Notice = Notice(userId: int, kind: NoticeKind, text: string, time: string)

  function IntervalName(iv: Interval): string {
    match iv
    case Daily => "daily"
    case Weekly => "weekly"
  }

  /** The interval check of bot.py:100: only "daily" and "weekly" are accepted. */
  function ParseInterval(s: string): (r: Option<Interval>)
    ensures r.Some? ==> IntervalName(r.value) == s
    ensures forall iv :: s == IntervalName(iv) ==> r == Some(iv)
  {
    if s == "daily" then Some(Daily)
    else if s == "weekly" then Some(Weekly)
    else None
  }

  /** The length of one period: `timedelta(days=1)` or `timedelta(weeks=1)` (bot.py:162, 165). */
  function PeriodDays(iv: Interval): nat {
    match iv
    case Daily => 1
    case Weekly => 7
  }
}
