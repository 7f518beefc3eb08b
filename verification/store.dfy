/** The reminder list the commands and the tick update in place (bot.py:33-42, 62-170).
    Loading and saving the JSON file are left out: the list lives in `reminders`, and a
    missing file is an empty list (bot.py:37-38). */
module Store {
  import opened Wrappers
  import opened Calendar
  import opened DateFormat
  import opened Offsets
  import opened Records
  import opened Listing
  import opened Scheduler

  /** `[r for i, r in enumerate(w) if i not in drop]` (bot.py:169). */
  function Unlisted(w: seq<Reminder>, drop: seq<int>): (u: seq<Reminder>)
    ensures |u| <= |w|
    decreases |w|
  {
    if w == [] then []
    else Unlisted(w[..|w| - 1], drop) + (if |w| - 1 in drop then [] else [w[|w| - 1]])
  }

  /** Indices at or past the end of w do not affect Unlisted(w, drop). */
  lemma {:induction false} UnlistedIgnoresLater(w: seq<Reminder>, drop: seq<int>, k: int)
    requires k >= |w|
    ensures Unlisted(w, drop + [k]) == Unlisted(w, drop)
    decreases |w|
  {
    if w != [] {
      UnlistedIgnoresLater(w[..|w| - 1], drop, k);
    }
  }

  /** The positions of w that `to_remove` lists: indices below n that occur in drop. */
  function Dropped(n: nat, drop: seq<int>): set<int> {
    set i | 0 <= i < n && i in drop
  }

  /** The filter removes one record per position it lists, however often a position is
      listed, and positions outside the list remove nothing. */
  lemma {:induction false} UnlistedLength(w: seq<Reminder>, drop: seq<int>)
    ensures |Unlisted(w, drop)| == |w| - |Dropped(|w|, drop)|
    decreases |w|
  {
    if w != [] {
      var n := |w| - 1;
      UnlistedLength(w[..n], drop);
      if n in drop {
        assert Dropped(|w|, drop) == Dropped(n, drop) + {n};
      } else {
        assert Dropped(|w|, drop) == Dropped(n, drop);
      }
    }
  }

  /** A record is in the filtered list exactly when it sits at some position the filter
      does not list. */
  lemma {:induction false} UnlistedMembers(w: seq<Reminder>, drop: seq<int>)
    ensures forall x :: x in Unlisted(w, drop) <==> exists i :: 0 <= i < |w| && i !in drop && w[i] == x
    decreases |w|
  {
    if w != [] {
      var n := |w| - 1;
      var v := w[..n];
      UnlistedMembers(v, drop);
      forall x ensures x in Unlisted(w, drop) <==> exists i :: 0 <= i < |w| && i !in drop && w[i] == x {
        if exists i :: 0 <= i < |w| && i !in drop && w[i] == x {
          var i :| 0 <= i < |w| && i !in drop && w[i] == x;
          if i < n {
            assert v[i] == x;
          }
        }
        if exists i :: 0 <= i < |v| && i !in drop && v[i] == x {
          var i :| 0 <= i < |v| && i !in drop && v[i] == x;
          assert w[i] == x;
        }
      }
    }
  }

  /** Writing x at index i of w: the prefix through i becomes w[..i] + [x], the rest stays. */
  lemma PrefixStep<T>(w: seq<T>, i: nat, x: T)
    requires i < |w|
    ensures w[i := x][..i + 1] == w[..i] + [x]
    ensures w[i := x][i + 1..] == w[i + 1..]
    ensures w[i] == x ==> w[..i + 1] == w[..i] + [x]
  {
  }

  /** Appending one record to w appends it to Unlisted(w, drop) unless its index is dropped. */
  lemma UnlistedExtend(w: seq<Reminder>, drop: seq<int>, x: Reminder)
    ensures Unlisted(w + [x], drop) == Unlisted(w, drop) + (if |w| in drop then [] else [x])
  {
    assert (w + [x])[..|w|] == w;
  }

  /** The offset loop of bot.py:146-153 for record r due at minute `due`: the pre-notices
      it sends, and whether `dt - timedelta(minutes=nb)` raised. */
  method CheckOffsets(r: Reminder, due: int, now: int) returns (sent: seq<Notice>, overflow: bool)
    ensures Scan(sent, overflow) == PreNotices(r, due, r.notifyBefore, now)
  {
    var nbs := r.notifyBefore;
    sent := [];
    var k := 0;
    while k < |nbs|
      invariant 0 <= k <= |nbs|
      invariant var rest := PreNotices(r, due, nbs[k..], now);
        PreNotices(r, due, nbs, now) == Scan(sent + rest.notices, rest.overflow)
    {
      ghost var tail := nbs[k..];
      assert tail[0] == nbs[k] && tail[1..] == nbs[k + 1..];
      ghost var rest := PreNotices(r, due, nbs[k + 1..], now);
      var notifyAt := due - nbs[k];
      if !InRange(notifyAt) {
        assert PreNotices(r, due, tail, now) == Scan([], true);
        assert sent + [] == sent;
        return sent, true;
      }
      if InWindow(notifyAt, now) {
        assert PreNotices(r, due, tail, now) == Scan([PreNoticeOf(r)] + rest.notices, rest.overflow);
        assert sent + ([PreNoticeOf(r)] + rest.notices) == (sent + [PreNoticeOf(r)]) + rest.notices;
        sent := sent + [PreNoticeOf(r)];
      } else {
        assert PreNotices(r, due, tail, now) == Scan([] + rest.notices, rest.overflow);
        assert [] + rest.notices == rest.notices;
      }
      k := k + 1;
    }
    assert nbs[k..] == [];
    assert sent + [] == sent;
    return sent, false;
  }

  /** One iteration of the loop of bot.py:142-168 for record r: the notices it sends and
      what becomes of r, computed step by step as the source does. */
  method CheckOne(r: Reminder, now: int) returns (o: Outcome)
    ensures o == Process(r, now)
  {
    var parsed := Parse(r.time);
    if parsed.None? {
      return Abort([]);
    }
    o := CheckDue(r, parsed.value, now);
  }

  /** The same iteration once the time has been read as `dt`; the advance is done on the
      minute count, as `dt + timedelta(days=k)` does. */
  method CheckDue(r: Reminder, dt: DateTime, now: int) returns (o: Outcome)
    requires Valid(dt)
    ensures o == ProcessDue(r, dt, now)
  {
    var due := ToMinutes(dt);
    var sent, overflow := CheckOffsets(r, due, now);
    if overflow {
      return Abort(sent);
    }
    if !InWindow(due, now) {
      return Keep(r, sent);
    }
    sent := sent + [MainNoticeOf(r)];
    match r.repeat
    case None =>
      return Retire(sent);
    case Some(iv) =>
      var next := Advance(dt, PeriodDays(iv));
      if next.None? {
        return Abort(sent);
      }
      return Keep(r.(time := Format(next.value)), sent);
  }

  /** `dt + timedelta(days=k)` (bot.py:162, 165), done on the minute count as the tick does it:
      the imperative counterpart of Calendar.ShiftByDays, which it calls for its proof. The
      result is the calendar day k days later, or None where Python raises OverflowError. */
  method Advance(dt: DateTime, k: nat) returns (next: Option<DateTime>)
    requires Valid(dt)
    ensures Shaped(AddDays(dt, k))
    ensures next == if AddDays(dt, k).year <= MAX_YEAR then Some(AddDays(dt, k)) else None
  {
    next := FromMinutes(ToMinutes(dt) + k * MINUTES_PER_DAY);
    ShiftByDays(dt, k);
    AddDaysMinutes(dt, k);
  }

  /** The loop of bot.py:131-133 with `r` the record at position p of s: every dict equal to
      `r` gets the offset appended. Appending to the selected dict changes `r` too, so the
      records after p are compared against the updated one. */
  method MarkAll(s: seq<Reminder>, p: nat, m: int) returns (work: seq<Reminder>)
    requires p < |s|
    ensures work == Marked(s, p, m)
  {
    ghost var t := Marked(s, p, m);
    work := s;
    var r := s[p];
    var i := 0;
    while i < |work|
      invariant 0 <= i <= |work| == |s|
      invariant forall j :: 0 <= j < i ==> work[j] == t[j]
      invariant forall j :: i <= j < |s| ==> work[j] == s[j]
      invariant r == if i <= p then s[p] else WithOffset(s[p], m)
    {
      assert t[i] == if (i <= p && s[i] == s[p]) || (i > p && s[i] == WithOffset(s[p], m))
                     then WithOffset(s[i], m) else s[i];
      if work[i] == r {
        work := work[i := WithOffset(work[i], m)];
        if i == p {
          r := work[i];
        }
      }
      i := i + 1;
    }
  }

  /** The loop of bot.py:142-168 over s, updating the records in place and collecting the
      indices to drop, then the filter of bot.py:169: the notices sent, whether an exception
      ended the loop, and otherwise the list to save. */
  method CheckAll(s: seq<Reminder>, now: int) returns (sent: seq<Notice>, aborted: bool, saved: seq<Reminder>)
    ensures sent == RunTick(s, now).notices && aborted == RunTick(s, now).aborted
    ensures !aborted ==> saved == RunTick(s, now).survivors
  {
    ghost var os := Outcomes(s, now);
    var work := s;
    var toRemove: seq<int> := [];
    sent := [];
    assert |os| == |s|;
    for i := 0 to |s|
      invariant |work| == |s|
      invariant !Collect(os[..i]).aborted && sent == Collect(os[..i]).notices
      invariant Unlisted(work[..i], toRemove) == Collect(os[..i]).survivors
      invariant forall j :: i <= j < |s| ==> work[j] == s[j]
      invariant forall j :: j in toRemove ==> j < i
    {
      var o := CheckOne(work[i], now);
      assert o == os[i];
      CollectStep(os, i);
      ghost var done := work[..i];
      PrefixStep(work, i, work[i]);
      match o
      case Abort(ns) =>
        sent := sent + ns;
        CollectAbortedPrefix(os, i + 1);
        return sent, true, s;
      case Retire(ns) =>
        sent := sent + ns;
        UnlistedExtend(done, toRemove + [i], work[i]);
        UnlistedIgnoresLater(done, toRemove, i);
        toRemove := toRemove + [i];
      case Keep(kept, ns) =>
        sent := sent + ns;
        UnlistedExtend(done, toRemove, kept);
        PrefixStep(work, i, kept);
        work := work[i := kept];
    }
    assert work[..|s|] == work && os[..|s|] == os;
    return sent, false, Unlisted(work, toRemove);
  }

  class ReminderStore {
    var reminders: seq<Reminder>

    /** `load_reminders()` when the file does not exist yet. */
    constructor ()
      ensures reminders == []
    {
      reminders := [];
    }

    /** `/reminder date time text` (bot.py:62-79): appends a one-off record holding the time
        exactly as typed when it parses, and changes nothing otherwise. */
    method AddReminder(user: int, date: string, time: string, text: string) returns (ok: bool)
      modifies this
      ensures ok <==> Parse(date + " " + time).Some?
      ensures ok ==> reminders == old(reminders) + [Reminder(user, text, date + " " + time, None, [])]
      ensures !ok ==> reminders == old(reminders)
    {
      var dtStr := date + " " + time;
      if Parse(dtStr).None? {
        return false;
      }
      reminders := reminders + [Reminder(user, text, dtStr, None, [])];
      return true;
    }

    /** `/repeatreminder interval date time text` (bot.py:95-112): as AddReminder, for a
        daily or weekly record; any other interval changes nothing. */
    method AddRepeatReminder(user: int, interval: string, date: string, time: string, text: string)
      returns (ok: bool)
      modifies this
      ensures ok <==> Parse(date + " " + time).Some? && ParseInterval(interval).Some?
      ensures ok ==> reminders == old(reminders)
                     + [Reminder(user, text, date + " " + time, ParseInterval(interval), [])]
      ensures !ok ==> reminders == old(reminders)
    {
      var dtStr := date + " " + time;
      var iv := ParseInterval(interval);
      if Parse(dtStr).None? || iv.None? {
        return false;
      }
      reminders := reminders + [Reminder(user, text, dtStr, iv, [])];
      return true;
    }

    /** `/notifyme before idx` (bot.py:114-135): the list becomes Notify's result, or stays as
        it is and the reason is returned. The selected dict is the record at position p of the
        list, so updating it in place also updates `r`, which the loop compares against. */
    method NotifyMe(user: int, before: string, idx: int) returns (err: Option<NotifyError>)
      modifies this
      ensures var res := Notify(old(reminders), user, before, idx);
        && (res.Failure? ==> err == Some(res.error) && reminders == old(reminders))
        && (res.Success? ==> err == None && reminders == res.value)
    {
      var s := reminders;
      var mine := ForUser(s, user);
      if idx < 1 || idx > |mine| {
        return Some(InvalidIndex);
      }
      var minutes := ParseOffset(before);
      if minutes.None? {
        return Some(InvalidFormat);
      }
      var m := minutes.value;
      var p := Select(s, user, idx - 1);
      reminders := MarkAll(s, p, m);
      return None;
    }

    /** One run of `reminder_check` (bot.py:138-170) at `now`: every notice it sends, in
        order, and whether it raised; the list is saved only when it did not. */
    method Tick(now: int) returns (sent: seq<Notice>, aborted: bool)
      modifies this
      ensures sent == RunTick(old(reminders), now).notices
      ensures aborted == RunTick(old(reminders), now).aborted
      ensures reminders == StoreAfterTick(old(reminders), now)
    {
      var saved;
      sent, aborted, saved := CheckAll(reminders, now);
      if !aborted {
        reminders := saved;
      }
    }
  }
}
