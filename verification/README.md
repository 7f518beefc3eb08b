# Reminder engine of a Discord reminder bot

This project is a Dafny model of the reminder engine in `bot.py`. Users create reminders with
`/reminder` and `/repeatreminder`, list their own with `/reminders`, and attach "notify me N
minutes/hours/days before" offsets with `/notifyme`. A one-minute task, `reminder_check`, sends
the pre-notices and main notices that are due, moves daily and weekly reminders forward, and
drops one-off reminders that have fired. All state is one list of records, kept in
`reminders.json`.

Modules, in dependency order:

- `Wrappers`: `Option` and `Result`.
- `Text`: ASCII digits, digit strings and their values, zero padding, Python's `str(n)` and
  the whitespace set that `\s` matches in a Python `str` pattern.
- `Calendar`: the proleptic Gregorian calendar of Python's naive `datetime` at minute resolution.
  It covers:
  - years 1 to 9999;
  - conversion to and from a minute count since 0001-01-01 00:00;
  - "the calendar day k days later", which is what `dt + timedelta(days=k)` computes.
- `DateFormat`: `parse_datetime`, which is `strptime(s, "%Y-%m-%d %H:%M")` with every failure
  turned into `None`, and `strftime("%Y-%m-%d %H:%M")`.
- `Offsets`: the `before` argument of `/notifyme`. The last character picks the unit (`m`, `h` or `d`),
  and the rest goes through Python's `int()`.
- `Records`: the stored record, the notices the tick sends, and the repeat interval.
- `Listing`: the per-user listing and what `/notifyme` does to the list.
- `Scheduler`: one run of `reminder_check` as functions of the list and the instant `now`.
- `Store`: the imperative side.
  - The methods run the loops of the source step by step and are proved equal to the
    `Scheduler` and `Listing` functions.
  - The class `ReminderStore` holds the list and has one method per command and one for the
    tick.

The model follows the code wherever a plain reading of the bot's intent says otherwise:

- A negative offset such as `-5m` is accepted, because `int()` takes a sign.
- `/notifyme` does not only update the chosen record. The loop compares every record with the
  chosen dict, and that dict changes when the loop reaches it:
  - records before the chosen one that equal it also get the offset;
  - records after it get the offset only when they equal the updated record;
  - so a later exact copy of the chosen record is left untouched.
- An exception inside the tick ends that run with nothing saved. The notices already sent stay
  sent. The exceptions are:
  - a stored time that does not parse (`None` used as a `datetime`);
  - a notice time, or an advanced time, outside years 1 to 9999.
- A time typed with one-digit fields is stored as typed. An advance rewrites it zero padded.

## Model

| member | source | states |
|---|---|---|
| Calendar.ToMinutes | bot.py:147-148 | A date-time's minute count is non-negative, and it is at most the last minute of 9999-12-31 exactly when the year is at most 9999 |
| Calendar.FromMinutes | bot.py:162 | A minute count names a date-time exactly when it lies between 0001-01-01 00:00 and 9999-12-31 23:59 (otherwise `timedelta` arithmetic raises OverflowError); the date-time it names is valid and has that minute count |
| Calendar.FromToMinutes | bot.py:147 | Every valid date-time survives the trip to its minute count and back |
| Calendar.ToMinutesInjective | bot.py:155 | Equal minute counts mean equal date-times: distinct valid date-times have distinct minute counts |
| Calendar.ToMinutesOrder | bot.py:148-155 | One valid date-time is before another in Python's field-by-field order exactly when its minute count is smaller, so the window tests compare minute counts |
| Calendar.NextDay | bot.py:162 | The next calendar day at the same time of day, with month and year rollover. Its contract is carried by `Calendar.NextDayMinutes` |
| Calendar.AddDays | bot.py:162-165 | k calendar days later, one day at a time. Its contract is carried by `Calendar.AddDaysMinutes` and `Calendar.ShiftByDays` |
| Calendar.NextDayMinutes | bot.py:162 | The next calendar day, with month and year rollover and February 29 in leap years, is a real date exactly 1440 minutes later |
| Calendar.AddDaysMinutes | bot.py:162-165 | k calendar days later is a real date exactly k * 1440 minutes later |
| Calendar.ShiftByDays | bot.py:162-165 | `dt + timedelta(days=k)` is the k-th next calendar day at the same time of day, or OverflowError when that day is past 9999-12-31 |
| DateFormat.Parse | bot.py:44-48 | Whatever parse_datetime accepts is a real date and time in years 1-9999 |
| DateFormat.ParseCanonical | bot.py:44-48 | On a zero-padded `YYYY-MM-DD HH:MM` string, parse_datetime succeeds exactly when the five numbers form a real date and time (month 1-12, day within its month, February 29 only in leap years, hour 0-23, minute 0-59, year 1-9999), and then returns those numbers |
| DateFormat.Format | bot.py:163-166 | `strftime("%Y-%m-%d %H:%M")`. Its contract is carried by `DateFormat.FormatCanonical`, `DateFormat.ParseFormat` and `DateFormat.FormatParse` |
| DateFormat.FormatCanonical | bot.py:163 | strftime writes the zero-padded layout, and the numbers it writes are the date-time's fields |
| DateFormat.ParseFormat | bot.py:163 | A time written by an advance parses back to the same date-time at the next tick |
| DateFormat.FormatParse | bot.py:163 | A zero-padded string that parses is exactly strftime's rendering of the value it parses to |
| DateFormat.ParseOneDigitFields | bot.py:44-48 | strptime also accepts one-digit month, day and hour (`2025-8-5 9:05`), and such a string differs from the zero-padded text an advance would write |
| DateFormat.ParseLeapDay | bot.py:44-48 | `2024-02-29 10:00` is accepted and `2025-02-29 10:00` is rejected |
| DateFormat.FormatPadsFields | bot.py:163 | A daily advance of 2025-08-05 14:30 is written `2025-08-06 14:30`, and that text parses back to the same value |
| Offsets.PyInt | bot.py:126 | Python's `int()` in base 10: surrounding whitespace (the set `int()` strips, which leaves out the separators U+001C-U+001F), an optional sign, digits with single underscores, and None where it raises ValueError. Its contract is carried by `Offsets.PyIntDecimal`, `Offsets.PyIntDigits` and `Offsets.PyIntNegative` |
| Offsets.Multiplier | bot.py:123-127 | The `mult` table: m is 1, h is 60 and d is 1440 minutes, and any other unit raises KeyError. Its contract is carried by `Offsets.ParseOffset` and `Offsets.ParseOffsetDecimal` |
| Offsets.PyIntDecimal | bot.py:126 | `int()` reads back every integer that `str()` writes, negative ones included |
| Offsets.PyIntDigits | bot.py:126 | `int()` of a nonempty string of digits is its decimal value |
| Offsets.PyIntNegative | bot.py:126 | `int()` of a minus sign followed by digits is the negated decimal value |
| Offsets.ParseOffset | bot.py:123-130 | An empty argument, a last character other than m, h or d, or a number part `int()` rejects is an invalid format. Otherwise the offset is `int()` of the number part times the unit's minutes, so every spelling `int()` takes (`+5m`, `05m`, ` 5m`, `1_0m`) is accepted |
| Offsets.ParseOffsetDecimal | bot.py:123-127 | Every integer followed by m, h or d is accepted as that many minutes, hours (times 60) or days (times 1440) |
| Offsets.ParseOffsetSigned | bot.py:126-127 | A sign gets through: `-5m` is -5 minutes |
| Offsets.ParseOffsetHours | bot.py:123-127 | `2h` is 120 minutes |
| Offsets.ParseOffsetRejects | bot.py:124-130 | A fraction (`1.5h`) and a bare unit (`m`) are invalid formats |
| Offsets.ParseOffsetSeparators | bot.py:126 | A leading file separator U+001C is not stripped, so `\x1c5m` is an invalid format, while a leading tab is stripped and `\t5m` is 5 minutes |
| Records.ParseInterval | bot.py:100 | Only the names `daily` and `weekly` are accepted, each as its own interval |
| Records.PeriodDays | bot.py:162-165 | `timedelta(days=1)` for a daily record and `timedelta(weeks=1)` for a weekly one. Its contract is carried by `Scheduler.ProcessAdvances`, which states that the new time is 1440 or 10080 minutes later |
| Listing.ForUser | bot.py:118 | The comprehension that lists one user's records in list order (also at bot.py:84). Its contract is carried by `Listing.ForUserMembers`, `Listing.ForUserAppend` and `Listing.Select` |
| Listing.WithOffset | bot.py:133 | Appends one offset at the end of a record's offset list. Its contract is carried by `Listing.Marked` and `Listing.NotifyShowsOffset` |
| Listing.ForUserMembers | bot.py:84 | A user's listing holds exactly that user's records |
| Listing.ForUserAppend | bot.py:71-77 | Appending a record adds it last to its owner's listing, under the number listing length + 1, and changes no other user's listing |
| Listing.Select | bot.py:122 | Number k + 1 of a user's listing is that user's record at a list position with exactly k of the user's records before it |
| Listing.Marked | bot.py:131-133 | The equality loop keeps the list length, gives the chosen record the offset, gives each record the offset at most once and leaves other users' records untouched. A record at or before the chosen position gets the offset exactly when it equals the chosen record. A record after it gets the offset exactly when it equals the updated record, so a later exact copy stays untouched |
| Listing.Notify | bot.py:114-135 | `/notifyme` fails with an invalid index exactly when the number is outside 1..listing length. It fails with an invalid format exactly when the number is in range and the `before` argument does not parse. On success the new list is the equality loop's result for the chosen record and the parsed minutes, with the same before/after-position cases as `Listing.Marked` |
| Listing.NotifyShowsOffset | bot.py:131-135 | After a successful `/notifyme`, the user's listing has the same length and shows under the chosen number the record it showed before, with the new offset last |
| Listing.DuplicateExample | bot.py:131-133 | With two identical records, choosing the second gives both the offset, and choosing the first gives it to the first only |
| Scheduler.PreNotices | bot.py:146-153 | The offset loop of one record. Its contract is carried by `Scheduler.PreNoticesMeaning` and `Store.CheckOffsets` |
| Scheduler.Process | bot.py:142-168 | One iteration of the tick's loop, with a time that does not parse raising TypeError. Its contract is carried by `Scheduler.ProcessNotices`, `Scheduler.ProcessKeepsFields` and `Scheduler.ProcessAgain`, and `Store.CheckOne` runs it step by step |
| Scheduler.ProcessDue | bot.py:146-168 | The same iteration once the time has been parsed. Its contract is carried by `Scheduler.NotDueSettled` and `Store.CheckDue` |
| Scheduler.Fire | bot.py:161-168 | After the main notice: advance a daily or weekly record, or retire a one-off one. Its contract is carried by `Scheduler.ProcessAdvances` and `Scheduler.AdvanceReparses` |
| Scheduler.Collect | bot.py:142-169 | Folds the per-record outcomes in list order, with the first exception ending the loop. Its contract is carried by `Scheduler.TickSplit` and `Scheduler.TickSurvivors` |
| Scheduler.RunTick | bot.py:138-169 | One whole tick: every notice sent, the survivors, and whether it raised. Its contract is carried by `Scheduler.TickSplit`, `Scheduler.TickNothingDue` and `Scheduler.TickAgain`, and `Store.CheckAll` runs it step by step |
| Scheduler.StoreAfterTick | bot.py:169-170 | The list left after a tick: the survivors, or the old list when the tick raised before saving. Its contract is carried by `Scheduler.TickIdempotent` and `Store.ReminderStore.Tick` |
| Scheduler.Firing | bot.py:146-148 | The offsets whose pre-notice window holds `now` are exactly the record's offsets with `now` in that window |
| Scheduler.FiringCount | bot.py:146-148 | Each firing offset fires as many times as the record lists it, so a duplicated offset sends its pre-notice twice, and an offset whose window does not hold `now` never fires |
| Scheduler.InWindow | bot.py:148-155 | `t <= now < t + timedelta(seconds=59)` for a whole-minute `t`, on minute and second counts. Its meaning as a date-time comparison is carried by `Calendar.ToMinutesOrder` |
| Scheduler.InRange | bot.py:147 | Whether `dt - timedelta(minutes=nb)` is a date-time in years 1-9999, without OverflowError. Its contract is carried by `Scheduler.PreNoticesMeaning` |
| Scheduler.PreNoticesMeaning | bot.py:146-153 | The offset loop raises exactly when some offset moves the notice time outside years 1-9999. Otherwise it sends one pre-notice per firing offset, each offset checked on its own. Every pre-notice carries the record's user, text and time string |
| Scheduler.ProcessNotices | bot.py:142-160 | Every notice for a record carries its user, text and old time string. The main notice is sent exactly when the offset loop did not raise and `dt <= now < dt + 59s`. A record whose offsets are all in range gets one notice per firing offset, plus one when due. The main notice comes after all of the record's pre-notices, and without it the notices are exactly the pre-notices |
| Scheduler.ProcessKeepsFields | bot.py:155-168 | A kept record differs from the old one at most in its time, and only when its main notice fired. A record is removed only when its main notice fired and it does not repeat, and such a record is always removed unless the tick raised |
| Scheduler.ProcessAdvances | bot.py:161-166 | When a daily or weekly record fires, its new time is the zero-padded rendering of the calendar day 1 or 7 days later at the same hour and minute, which is exactly 1440 or 10080 minutes later. The tick raises exactly when that day is past 9999-12-31 |
| Scheduler.AdvanceReparses | bot.py:163 | The advanced time string is a valid time and parses back to the advanced date-time |
| Scheduler.NotDueSettled | bot.py:155 | A record whose main window does not hold `now` gets only pre-notices and, if kept, is kept unchanged |
| Scheduler.ProcessAgain | bot.py:155-166 | A record kept by the tick, processed again at the same `now`, sends no main notice and is kept unchanged or raises: an advanced time is at least a day after `now` |
| Scheduler.TickSplit | bot.py:142-169 | Records are processed in list order: the tick of a concatenation is the tick of the first part followed by the tick of the second, unless the first part raised |
| Scheduler.TickSurvivors | bot.py:169 | A completed tick keeps the records it did not retire, in the same order and with the same user, text, repeat and offsets. The saved list is as long as the old one minus the retired records |
| Scheduler.TickNothingDue | bot.py:142-170 | When no main notice is due, a completed tick sends only pre-notices and saves the list unchanged |
| Scheduler.TickAgain | bot.py:138-170 | A second tick at the same `now`, on the list the first saved, sends no main notice and saves that list unchanged, or raises |
| Scheduler.PoisonedAborts | bot.py:146-147 | A record with an offset that puts its notice time outside years 1-9999 makes its iteration raise OverflowError at every `now` |
| Scheduler.PoisonedTick | bot.py:141-170 | One such record anywhere in the list makes every tick raise, whatever `now` is, so the list is never saved again |
| Scheduler.TickIdempotent | bot.py:138-170 | Two ticks at the same `now` leave the same saved list as one |
| Scheduler.OneOffExample | bot.py:146-168 | A one-off 14:30 reminder with a 60-minute offset sends only the pre-notice during 13:30:00-13:30:58 and stays. During 14:30:00-14:30:58 it sends only the main notice and is removed |
| Scheduler.DailyExample | bot.py:161-163 | A daily reminder due 2025-08-05 14:30 fires and is moved to 2025-08-06 14:30 |
| Scheduler.WeeklyExample | bot.py:164-166 | A weekly reminder due 2025-12-31 23:59 fires and is moved into the next year, to 2026-01-07 23:59 |
| Store.CheckOffsets | bot.py:146-153 | The offset loop, run step by step, sends the pre-notices and reports the overflow that the offset-loop specification gives |
| Store.CheckOne | bot.py:143-168 | One loop iteration, run step by step, has the outcome the per-record specification gives |
| Store.CheckDue | bot.py:146-168 | The same iteration once the time has been parsed |
| Store.Advance | bot.py:162-165 | Adding k days on the minute count gives the k-th next calendar day, or OverflowError past 9999 |
| Store.MarkAll | bot.py:131-133 | The loop over the list, comparing each record with the chosen one, which changes when the loop updates it, gives exactly the equality-loop result |
| Store.Unlisted | bot.py:169 | The list comprehension that drops the indices in `to_remove`. Its contract is carried by `Store.UnlistedLength`, `Store.UnlistedMembers` and `Store.CheckAll`, whose saved list is the tick's survivors |
| Store.UnlistedLength | bot.py:169 | The filter removes one record per position `to_remove` lists inside the list, however often a position is listed |
| Store.UnlistedMembers | bot.py:169 | A record is in the filtered list exactly when it sits at a position `to_remove` does not list |
| Store.UnlistedIgnoresLater | bot.py:169 | An index at or past the end of the list removes nothing |
| Store.CheckAll | bot.py:141-169 | The whole loop plus the index filter sends exactly the tick's notices, in order, and reports whether it raised. When it did not raise, it yields the tick's survivors |
| Store.ReminderStore.constructor | bot.py:37-38 | A store whose file does not exist yet holds no reminders |
| Store.ReminderStore.AddReminder | bot.py:62-79 | Succeeds exactly when the date and time parse. It then appends one one-off record holding the time as typed, with no offsets, and otherwise changes nothing |
| Store.ReminderStore.AddRepeatReminder | bot.py:95-112 | Succeeds exactly when the date and time parse and the interval is daily or weekly. It then appends one repeating record, and otherwise changes nothing |
| Store.ReminderStore.NotifyMe | bot.py:114-135 | The list becomes the `/notifyme` result on success, and stays as it was, with the reason returned, on failure |
| Store.ReminderStore.Tick | bot.py:138-170 | Sends exactly the tick's notices. The list becomes the survivors, or stays as it was when the tick raised |

## Left out

- The Flask keep-alive server, the Discord client, slash-command registration and `tree.sync`: not part of the reminder logic.
- Reading and writing `reminders.json` (bot.py:33-42). The list is the `reminders` field, and saving is assigning it. Only "a missing file is an empty list" is kept, as the constructor. Unreadable or malformed files are not modelled.
- `fetch_user` and `user.send` (bot.py:144, 149-160).
  - A sent message is a `Notice` appended to the tick's output.
  - Delivery failures are swallowed by the source, so they change nothing.
  - A `fetch_user` that raises would end the tick. This is not modelled: a record's notices depend only on the record and `now`.
- Reply texts of the commands, and the text of the `/reminders` listing (bot.py:85-93). Only which records a user sees, in which order and under which number, is modelled.
- Concurrency: each command and tick reloads and rewrites the file, and interleavings of the async handlers are not modelled. Each operation is one atomic step on the list.
- `datetime.now()` is the parameter `now`, in whole seconds since 0001-01-01 00:00. Dropping the microseconds changes no comparison, because both window bounds are whole seconds.
- Time zones: all date-times are naive, as in the source.
- The `tasks.loop` scheduler (bot.py:137): each tick is modelled on its own. In discord.py an uncaught exception such as the OverflowError of `Scheduler.PoisonedTick` ends the loop, so no later tick runs until the bot restarts. After a restart the same record makes the first tick raise again.
- Scheduler.PreNotices: treats any notice time outside years 1-9999 as the OverflowError that ends the tick, including offsets so large that building `timedelta(minutes=nb)` already raises. The outcome is the same.
- DateFormat.Parse: `\d` in strptime's pattern also matches non-ASCII decimal digits. The model accepts ASCII digits only.
- DateFormat.Format: pads years below 1000 to four digits. glibc's `%Y` does not pad them. Such years cannot be reached by an advance of a time near the present, and the round trip is proved for the padded form.
- Offsets.ParseOffset: does not model Python's 4300-digit limit on `int()` (a longer number raises ValueError, which is reported as an invalid format), and accepts ASCII digits only where `int()` also takes other Unicode decimal digits.
- Records: a record's `repeat` is `None`, daily or weekly, and it always has an offset list, as the two creation commands write it. Hand-edited files with a missing `notify_before` key or another `repeat` value are not modelled.
- The object identity of the selected dict in `/notifyme` is modelled by its position in the list (`Listing.Select`).
