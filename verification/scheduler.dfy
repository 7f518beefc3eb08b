/** What one run of `reminder_check` (bot.py:138-170) does to a list of records at a given
    instant: which notices it sends, in which order, and which list it saves. `now` is a
    parameter, in whole seconds since 0001-01-01 00:00; due instants are whole minutes since
    the same origin. */
module Scheduler {
  import opened Wrappers
  import opened Calendar
  import opened DateFormat
  import opened Records
  import opened Text

  /** `start <= now < start + timedelta(seconds=59)` for a whole-minute `start`. Python's `now`
      has microseconds; flooring it to whole seconds changes neither comparison, because both
      bounds are whole seconds. */
  predicate InWindow(start: int, now: int) {
    start * 60 <= now < start * 60 + 59
  }

  /** Whether a minute count names a `datetime`; `dt - timedelta(minutes=nb)` outside this
      range raises OverflowError. */
  predicate InRange(m: int) {
    0 <= m <= MAX_MINUTE
  }

  function PreNoticeOf(r: Reminder): Notice {
    Notice(r.userId, PreNotice, r.text, r.time)
  }

  function MainNoticeOf(r: Reminder): Notice {
    Notice(r.userId, MainNotice, r.text, r.time)
  }

  /** The notices sent by the offset loop so far, and whether it raised. */
  datatype Scan = Scan(notices: seq<Notice>, overflow: bool)

  /** The loop of bot.py:146-153 over the offsets nbs of record r, due at minute `due`. */
  function PreNotices(r: Reminder, due: int, nbs: seq<int>, now: int): Scan
    decreases |nbs|
  {
    if nbs == [] then Scan([], false)
    else if !InRange(due - nbs[0]) then Scan([], true)
    else
      var rest := PreNotices(r, due, nbs[1..], now);
      Scan((if InWindow(due - nbs[0], now) then [PreNoticeOf(r)] else []) + rest.notices,
           rest.overflow)
  }

  /** What the tick does with one record: keep it (perhaps with a new time), drop it, or raise
      and abandon the whole tick; with the notices sent for it either way. */
  datatype Outcome =
    | Keep(record: Reminder, notices: seq<Notice>)
    | Retire(notices: seq<Notice>)
    | Abort(notices: seq<Notice>)

  /** One iteration of bot.py:142-168. A time that does not parse makes `dt` None, and the
      first use of it raises TypeError. */
  function Process(r: Reminder, now: int): Outcome {
    match Parse(r.time)
    case None => Abort([])
    case Some(dt) => ProcessDue(r, dt, now)
  }

  /** The same iteration once the record's time has been read as `dt`. */
  function ProcessDue(r: Reminder, dt: DateTime, now: int): Outcome
    requires Valid(dt)
  {
    var due := ToMinutes(dt);
    var pre := PreNotices(r, due, r.notifyBefore, now);
    if pre.overflow then Abort(pre.notices)
    else if !InWindow(due, now) then Keep(r, pre.notices)
    else Fire(r, dt, pre.notices + [MainNoticeOf(r)])
  }

  /** bot.py:161-168, after the main notice was sent: advance a repeating record by its
      period, or retire a one-off record. `dt + timedelta(days=k)` is the calendar day k days
      later, and raises OverflowError past year 9999 (Calendar.ShiftByDays). */
  function Fire(r: Reminder, dt: DateTime, notices: seq<Notice>): Outcome
    requires Valid(dt)
  {
    match r.repeat
    case None => Retire(notices)
    case Some(iv) =>
      var next := AddDays(dt, PeriodDays(iv));
      AddDaysMinutes(dt, PeriodDays(iv));
      if next.year > MAX_YEAR then Abort(notices)
      else Keep(r.(time := Format(next)), notices)
  }

  /** All notices sent, the records that stay, and whether the tick raised before saving. */
  datatype TickResult = TickResult(notices: seq<Notice>, survivors: seq<Reminder>, aborted: bool)

  /** Folds the records' outcomes, in list order, into what the tick sends and keeps;
      the first Abort ends the loop. */
  function Collect(os: seq<Outcome>): TickResult
    decreases |os|
  {
    if os == [] then TickResult([], [], false)
    else
      match os[0]
      case Abort(ns) => TickResult(ns, [], true)
      case Retire(ns) =>
        var rest := Collect(os[1..]);
        TickResult(ns + rest.notices, rest.survivors, rest.aborted)
      case Keep(r, ns) =>
        var rest := Collect(os[1..]);
        TickResult(ns + rest.notices, [r] + rest.survivors, rest.aborted)
  }

  /** The outcome of each record at `now`, in list order. */
  function Outcomes(s: seq<Reminder>, now: int): seq<Outcome> {
    Apply(s, r => Process(r, now))
  }

  /** f applied to every element of s. */
  function Apply<A, B>(s: seq<A>, f: A -> B): (m: seq<B>)
    ensures |m| == |s| && forall i :: 0 <= i < |s| ==> m[i] == f(s[i])
  {
    seq(|s|, i requires 0 <= i < |s| => f(s[i]))
  }

  lemma ApplyAppend<A, B>(s1: seq<A>, s2: seq<A>, f: A -> B)
    ensures Apply(s1 + s2, f) == Apply(s1, f) + Apply(s2, f)
  {
    assert forall i :: 0 <= i < |s1| ==> (s1 + s2)[i] == s1[i];
    assert forall i :: |s1| <= i < |s1| + |s2| ==> (s1 + s2)[i] == s2[i - |s1|];
  }

  /** The loop of bot.py:142-168 followed by the filter of bot.py:169. */
  function RunTick(s: seq<Reminder>, now: int): TickResult {
    Collect(Outcomes(s, now))
  }

  /** The saved list: the survivors, or the old list when the tick raised before
      `save_reminders` (bot.py:170). */
  function StoreAfterTick(s: seq<Reminder>, now: int): seq<Reminder> {
    var t := RunTick(s, now);
    if t.aborted then s else t.survivors
  }

  // ---------------------------------------------------------------- one record

  /** The offsets, in list order, whose pre-notice window holds `now`. An offset listed twice
      fires twice (bot.py:146 walks the whole list). */
  function Firing(due: int, nbs: seq<int>, now: int): (f: seq<int>)
    ensures forall nb :: nb in f <==> nb in nbs && InWindow(due - nb, now)
    decreases |nbs|
  {
    if nbs == [] then []
    else (if InWindow(due - nbs[0], now) then [nbs[0]] else []) + Firing(due, nbs[1..], now)
  }

  /** Each offset fires as many times as it is listed when its window holds `now`, and
      never otherwise. */
  lemma {:induction false} FiringCount(due: int, nbs: seq<int>, now: int, nb: int)
    ensures multiset(Firing(due, nbs, now))[nb] == if InWindow(due - nb, now) then multiset(nbs)[nb] else 0
    decreases |nbs|
  {
    if nbs != [] {
      FiringCount(due, nbs[1..], now, nb);
      var head := if InWindow(due - nbs[0], now) then [nbs[0]] else [];
      assert multiset(Firing(due, nbs, now)) == multiset(head) + multiset(Firing(due, nbs[1..], now));
      assert nbs == [nbs[0]] + nbs[1..];
      assert multiset(nbs) == multiset([nbs[0]]) + multiset(nbs[1..]);
    }
  }

  /** The offset loop raises iff some offset puts the notice time outside years 1-9999;
      otherwise it sends one pre-notice per offset whose window holds `now`, each checked on
      its own, and every pre-notice carries the record's user, text and time string. */
  lemma {:induction false} PreNoticesMeaning(r: Reminder, due: int, nbs: seq<int>, now: int)
    ensures var sc := PreNotices(r, due, nbs, now);
      && (sc.overflow <==> exists i :: 0 <= i < |nbs| && !InRange(due - nbs[i]))
      && (forall n :: n in sc.notices ==> n == PreNoticeOf(r))
      && (!sc.overflow ==> |sc.notices| == |Firing(due, nbs, now)|)
    decreases |nbs|
  {
    if nbs != [] {
      PreNoticesMeaning(r, due, nbs[1..], now);
      var sc := PreNotices(r, due, nbs, now);
      if exists i :: 0 <= i < |nbs| && !InRange(due - nbs[i]) {
        var i :| 0 <= i < |nbs| && !InRange(due - nbs[i]);
        if i > 0 { assert nbs[1..][i - 1] == nbs[i]; }
      }
      if exists i :: 0 <= i < |nbs[1..]| && !InRange(due - nbs[1..][i]) {
        var i :| 0 <= i < |nbs[1..]| && !InRange(due - nbs[1..][i]);
        assert nbs[i + 1] == nbs[1..][i];
      }
    }
  }

  /** Whether the main notice of r fires at `now`: its time parses and
      `dt <= now < dt + 59 s` (bot.py:155). */
  predicate MainFires(r: Reminder, now: int) {
    Parse(r.time).Some? && InWindow(ToMinutes(Parse(r.time).value), now)
  }

  /** Every notice sent for a record carries its user, text and time string as read; the
      main notice is sent iff the offset loop did not raise and the due minute's window holds
      `now`, and then after all of the record's pre-notices; and a record whose offsets are all
      in range gets one notice per firing offset plus the main one when due. */
  lemma ProcessNotices(r: Reminder, now: int)
    requires Parse(r.time).Some?
    ensures var o := Process(r, now);
      var due := ToMinutes(Parse(r.time).value);
      var pre := PreNotices(r, due, r.notifyBefore, now);
      && (forall n :: n in o.notices ==> n.userId == r.userId && n.text == r.text && n.time == r.time)
      && (MainNoticeOf(r) in o.notices <==> !pre.overflow && InWindow(due, now))
      && (!pre.overflow ==>
            |o.notices| == |Firing(due, r.notifyBefore, now)| + if InWindow(due, now) then 1 else 0)
      && (!pre.overflow && InWindow(due, now) ==> o.notices == pre.notices + [MainNoticeOf(r)])
      && (pre.overflow || !InWindow(due, now) ==> o.notices == pre.notices)
  {
    var due := ToMinutes(Parse(r.time).value);
    PreNoticesMeaning(r, due, r.notifyBefore, now);
  }

  /** Whatever the tick does with a record, a kept record differs from the old one at most in
      its time, and only when its main notice fired; a record whose main notice does not
      fire is never removed. */
  lemma ProcessKeepsFields(r: Reminder, now: int)
    ensures var o := Process(r, now);
      && (o.Keep? ==> o.record.(time := r.time) == r)
      && (o.Keep? && !MainFires(r, now) ==> o.record == r)
      && (o.Retire? ==> MainFires(r, now) && r.repeat == None)
      && (MainFires(r, now) && r.repeat == None ==> o.Retire? || o.Abort?)
  {
  }

  /** When the main notice of a daily or weekly record fires, its time becomes the calendar day
      one period later at the same hour and minute, written zero padded: one day or seven
      days of minutes later, with month and year rollover. The tick raises only when that
      day is past 9999-12-31. */
  lemma ProcessAdvances(r: Reminder, now: int, dt: DateTime, iv: Interval)
    requires Parse(r.time) == Some(dt) && r.repeat == Some(iv) && InWindow(ToMinutes(dt), now)
    requires !PreNotices(r, ToMinutes(dt), r.notifyBefore, now).overflow
    ensures var next := AddDays(dt, PeriodDays(iv));
      && Shaped(next)
      && ToMinutes(next) == ToMinutes(dt) + PeriodDays(iv) * MINUTES_PER_DAY
      && (Process(r, now).Abort? <==> next.year > MAX_YEAR)
      && (Process(r, now).Keep? ==> Process(r, now).record == r.(time := Format(next)))
  {
    AddDaysMinutes(dt, PeriodDays(iv));
  }

  /** The advanced time string reads back as the advanced date-time, so the next tick
      compares against it (bot.py:143 reading what bot.py:163 wrote). */
  lemma AdvanceReparses(r: Reminder, now: int, dt: DateTime, iv: Interval)
    requires Parse(r.time) == Some(dt) && r.repeat == Some(iv) && InWindow(ToMinutes(dt), now)
    requires !PreNotices(r, ToMinutes(dt), r.notifyBefore, now).overflow
    requires Process(r, now).Keep?
    ensures Valid(AddDays(dt, PeriodDays(iv)))
    ensures Parse(Process(r, now).record.time) == Some(AddDays(dt, PeriodDays(iv)))
  {
    ProcessAdvances(r, now, dt, iv);
    ParseFormat(AddDays(dt, PeriodDays(iv)));
  }

  /** A record the tick keeps, processed again at the same instant, is kept unchanged or makes
      the tick raise, and never sends its main notice again: an advanced time is at least a day
      after `now`. */
  lemma ProcessAgain(r: Reminder, now: int)
    requires Process(r, now).Keep?
    ensures var r' := Process(r, now).record;
      && !MainFires(r', now)
      && (Process(r', now).Keep? ==> Process(r', now).record == r')
      && (forall n :: n in Process(r', now).notices ==> n.kind == PreNotice)
  {
    var dt := Parse(r.time).value;
    var r' := Process(r, now).record;
    if MainFires(r, now) {
      var iv := r.repeat.value;
      var next := AddDays(dt, PeriodDays(iv));
      ProcessAdvances(r, now, dt, iv);
      AdvanceReparses(r, now, dt, iv);
      NotDueSettled(r', now, next);
    } else {
      NotDueSettled(r, now, dt);
    }
  }

  /** A record whose main notice is not due at `now` only gets pre-notices and, when kept,
      is kept as it is. */
  lemma NotDueSettled(r: Reminder, now: int, dt: DateTime)
    requires Parse(r.time) == Some(dt) && !InWindow(ToMinutes(dt), now)
    ensures !MainFires(r, now)
    ensures Process(r, now).Keep? ==> Process(r, now).record == r
    ensures forall n :: n in Process(r, now).notices ==> n.kind == PreNotice
  {
    PreNoticesMeaning(r, ToMinutes(dt), r.notifyBefore, now);
  }

  // ---------------------------------------------------------------- the whole list

  lemma {:induction false} CollectSplit(a: seq<Outcome>, b: seq<Outcome>)
    ensures var c := Collect(a);
      var d := Collect(b);
      Collect(a + b)
        == if c.aborted then c else TickResult(c.notices + d.notices, c.survivors + d.survivors, d.aborted)
    decreases |a|
  {
    if a == [] {
      assert a + b == b;
    } else {
      assert (a + b)[0] == a[0];
      assert (a + b)[1..] == a[1..] + b;
      CollectSplit(a[1..], b);
      var c, d := Collect(a[1..]), Collect(b);
      match a[0]
      case Abort(ns) =>
      case Retire(ns) =>
        assert ns + (c.notices + d.notices) == (ns + c.notices) + d.notices;
      case Keep(r, ns) =>
        assert ns + (c.notices + d.notices) == (ns + c.notices) + d.notices;
        assert [r] + (c.survivors + d.survivors) == ([r] + c.survivors) + d.survivors;
    }
  }

  /** Folding one more outcome onto a prefix that did not raise. */
  lemma CollectStep(os: seq<Outcome>, i: nat)
    requires i < |os|
    ensures var c := Collect(os[..i]);
      var o := os[i];
      Collect(os[..i + 1])
        == if c.aborted then c
           else TickResult(c.notices + o.notices,
                           c.survivors + (if o.Keep? then [o.record] else []), o.Abort?)
  {
    assert os[..i + 1] == os[..i] + [os[i]];
    CollectSplit(os[..i], [os[i]]);
    assert [os[i]][1..] == [];
  }

  /** Once a prefix raised, the outcomes after it do not matter. */
  lemma CollectAbortedPrefix(os: seq<Outcome>, n: nat)
    requires n <= |os| && Collect(os[..n]).aborted
    ensures Collect(os) == Collect(os[..n])
  {
    assert os == os[..n] + os[n..];
    CollectSplit(os[..n], os[n..]);
  }

  /** Records are processed in list order: the tick of a concatenation is the tick of the
      first part followed by the tick of the second, unless the first part raised. */
  lemma TickSplit(s1: seq<Reminder>, s2: seq<Reminder>, now: int)
    ensures var t1 := RunTick(s1, now);
      var t2 := RunTick(s2, now);
      RunTick(s1 + s2, now)
        == if t1.aborted then t1
           else TickResult(t1.notices + t2.notices, t1.survivors + t2.survivors, t2.aborted)
  {
    ApplyAppend(s1, s2, r => Process(r, now));
    CollectSplit(Outcomes(s1, now), Outcomes(s2, now));
  }

  /** A record with its time blanked out: the fields a tick never changes. */
  function Erase(r: Reminder): Reminder {
    r.(time := "")
  }

  function EraseAll(s: seq<Reminder>): (e: seq<Reminder>)
    ensures |e| == |s|
    decreases |s|
  {
    if s == [] then [] else [Erase(s[0])] + EraseAll(s[1..])
  }

  /** The records of s whose outcome is not Retire, in list order. */
  function Kept(s: seq<Reminder>, os: seq<Outcome>): seq<Reminder>
    requires |os| == |s|
    decreases |s|
  {
    if s == [] then []
    else (if os[0].Retire? then [] else [s[0]]) + Kept(s[1..], os[1..])
  }

  /** How many outcomes are Retire. */
  function Retired(os: seq<Outcome>): (n: nat)
    ensures n <= |os|
    decreases |os|
  {
    if os == [] then 0 else (if os[0].Retire? then 1 else 0) + Retired(os[1..])
  }

  lemma {:induction false} EraseAllAppend(a: seq<Reminder>, b: seq<Reminder>)
    ensures EraseAll(a + b) == EraseAll(a) + EraseAll(b)
    decreases |a|
  {
    if a != [] {
      assert (a + b)[0] == a[0];
      assert (a + b)[1..] == a[1..] + b;
      EraseAllAppend(a[1..], b);
    } else {
      assert a + b == b;
    }
  }

  lemma {:induction false} CollectSurvivors(s: seq<Reminder>, os: seq<Outcome>)
    requires |os| == |s|
    requires forall i :: 0 <= i < |s| && os[i].Keep? ==> Erase(os[i].record) == Erase(s[i])
    ensures !Collect(os).aborted ==>
      && EraseAll(Collect(os).survivors) == EraseAll(Kept(s, os))
      && |Collect(os).survivors| == |s| - Retired(os)
    decreases |s|
  {
    if s != [] {
      CollectSurvivors(s[1..], os[1..]);
      if os[0].Keep? {
        var rest := Collect(os[1..]);
        EraseAllAppend([os[0].record], rest.survivors);
        EraseAllAppend([s[0]], Kept(s[1..], os[1..]));
      } else if os[0].Retire? {
        assert Kept(s, os) == Kept(s[1..], os[1..]);
      }
    }
  }

  /** A completed tick saves one record per record it did not retire, in the same relative
      order and with the same user, text, repeat and offsets; so the saved list is as long as
      the old one minus the retired records. */
  lemma TickSurvivors(s: seq<Reminder>, now: int)
    ensures var t := RunTick(s, now);
      !t.aborted ==>
        && EraseAll(t.survivors) == EraseAll(Kept(s, Outcomes(s, now)))
        && |t.survivors| == |s| - Retired(Outcomes(s, now))
  {
    var os := Outcomes(s, now);
    forall i | 0 <= i < |s| && os[i].Keep?
      ensures Erase(os[i].record) == Erase(s[i])
    {
      ProcessKeepsFields(s[i], now);
    }
    CollectSurvivors(s, os);
  }

  /** A record that processing at `now` leaves in place: it is kept unchanged or raises, and
      only pre-notices are sent for it. */
  predicate Settled(r: Reminder, now: int) {
    SettledOutcome(Process(r, now), r)
  }

  /** Outcome o leaves record r in place: r is kept unchanged or the tick raises, and only
      pre-notices are sent. */
  predicate SettledOutcome(o: Outcome, r: Reminder) {
    && !o.Retire?
    && (o.Keep? ==> o.record == r)
    && (forall n :: n in o.notices ==> n.kind == PreNotice)
  }

  lemma {:induction false} CollectSettled(s: seq<Reminder>, os: seq<Outcome>)
    requires |os| == |s|
    requires forall i :: 0 <= i < |s| ==> SettledOutcome(os[i], s[i])
    ensures forall n :: n in Collect(os).notices ==> n.kind == PreNotice
    ensures !Collect(os).aborted ==> Collect(os).survivors == s
    decreases |s|
  {
    if s != [] {
      CollectSettled(s[1..], os[1..]);
    }
  }

  /** A completed tick in which no main notice fires sends only pre-notices and saves the list unchanged. */
  lemma TickNothingDue(s: seq<Reminder>, now: int)
    requires forall i :: 0 <= i < |s| ==> !MainFires(s[i], now)
    ensures forall n :: n in RunTick(s, now).notices ==> n.kind == PreNotice
    ensures !RunTick(s, now).aborted ==> RunTick(s, now).survivors == s
  {
    var os := Outcomes(s, now);
    forall i | 0 <= i < |s|
      ensures SettledOutcome(os[i], s[i])
    {
      ProcessKeepsFields(s[i], now);
      if Parse(s[i].time).Some? {
        PreNoticesMeaning(s[i], ToMinutes(Parse(s[i].time).value), s[i].notifyBefore, now);
      }
    }
    CollectSettled(s, os);
  }

  lemma {:induction false} SurvivorsSettled(os: seq<Outcome>, now: int)
    requires forall i :: 0 <= i < |os| && os[i].Keep? ==> Settled(os[i].record, now)
    ensures forall j :: 0 <= j < |Collect(os).survivors| ==> Settled(Collect(os).survivors[j], now)
    decreases |os|
  {
    if os != [] {
      SurvivorsSettled(os[1..], now);
    }
  }

  /** A second tick at the same instant, on the list a completed tick saved, sends no main
      notice and saves that list unchanged (or raises, which saves nothing). */
  lemma TickAgain(s: seq<Reminder>, now: int)
    ensures var t := RunTick(s, now);
      !t.aborted ==>
        var t2 := RunTick(t.survivors, now);
        && (forall n :: n in t2.notices ==> n.kind == PreNotice)
        && (!t2.aborted ==> t2.survivors == t.survivors)
  {
    var os := Outcomes(s, now);
    forall i | 0 <= i < |os| && os[i].Keep?
      ensures Settled(os[i].record, now)
    {
      ProcessAgain(s[i], now);
    }
    SurvivorsSettled(os, now);
    var t := Collect(os);
    CollectSettled(t.survivors, Outcomes(t.survivors, now));
  }

  /** Running the tick twice at the same instant saves the same list as running it once. */
  lemma TickIdempotent(s: seq<Reminder>, now: int)
    ensures StoreAfterTick(StoreAfterTick(s, now), now) == StoreAfterTick(s, now)
  {
    TickAgain(s, now);
  }

  /** A record with an offset that puts its notice time outside years 1-9999, such as one
      added by `/notifyme` with `1000000d`. */
  predicate Poisoned(r: Reminder) {
    && Parse(r.time).Some?
    && exists i :: 0 <= i < |r.notifyBefore| && !InRange(ToMinutes(Parse(r.time).value) - r.notifyBefore[i])
  }

  /** Such a record makes its iteration raise at bot.py:147, whatever `now` is. */
  lemma PoisonedAborts(r: Reminder, now: int)
    requires Poisoned(r)
    ensures Process(r, now).Abort?
  {
    PreNoticesMeaning(r, ToMinutes(Parse(r.time).value), r.notifyBefore, now);
  }

  /** One such record anywhere in the list makes every tick raise, whatever `now` is: the
      records after it are never processed, and bot.py:170 never saves the list again. */
  lemma PoisonedTick(s: seq<Reminder>, k: int, now: int)
    requires 0 <= k < |s| && Poisoned(s[k])
    ensures RunTick(s, now).aborted
    ensures StoreAfterTick(s, now) == s
  {
    PoisonedAborts(s[k], now);
    assert Outcomes([s[k]], now)[0].Abort?;
    TickSplit([s[k]], s[k + 1..], now);
    assert s[k..] == [s[k]] + s[k + 1..];
    TickSplit(s[..k], s[k..], now);
    assert s == s[..k] + s[k..];
  }

  // ---------------------------------------------------------------- worked examples

  /** A one-off record with a single 60-minute notice: the tick one hour before the due
      minute keeps it and sends the pre-notice; the tick at the due minute retires it. */
  lemma OneOffOutcomes(r: Reminder, d: DateTime, sec: int)
    requires Parse(r.time) == Some(d) && r.repeat == None && r.notifyBefore == [60]
    requires ToMinutes(d) >= 60 && 0 <= sec < 59
    ensures Process(r, (ToMinutes(d) - 60) * 60 + sec) == Keep(r, [PreNoticeOf(r)])
    ensures Process(r, ToMinutes(d) * 60 + sec) == Retire([MainNoticeOf(r)])
  {
    var due := ToMinutes(d);
    assert [60][1..] == [];
    assert PreNotices(r, due, r.notifyBefore, (due - 60) * 60 + sec) == Scan([PreNoticeOf(r)], false);
    assert PreNotices(r, due, r.notifyBefore, due * 60 + sec) == Scan([], false);
  }

  /** A one-off reminder whose time reads as 2025-08-05 14:30, with a notice
      60 minutes before: at a tick during 13:30:00-13:30:58 it sends the pre-notice only and
      stays; at a tick during 14:30:00-14:30:58 it sends the main notice only and is removed. */
  lemma OneOffExample(r: Reminder, d: DateTime, sec: int)
    requires d == DateTime(2025, 8, 5, 14, 30)
    requires r == Reminder(42, "stand-up", r.time, None, [60]) && Parse(r.time) == Some(d)
    requires 0 <= sec < 59
    ensures Process(r, (ToMinutes(d) - 60) * 60 + sec) == Keep(r, [PreNoticeOf(r)])
    ensures Process(r, ToMinutes(d) * 60 + sec) == Retire([MainNoticeOf(r)])
  {
    LaterThanYearOne(d);
    OneOffOutcomes(r, d, sec);
  }

  /** A repeating record with no notices, when its main notice fires. */
  lemma RepeatOutcome(r: Reminder, d: DateTime, iv: Interval, next: DateTime, sec: int)
    requires Parse(r.time) == Some(d) && r.repeat == Some(iv) && r.notifyBefore == []
    requires AddDays(d, PeriodDays(iv)) == next && Valid(next) && 0 <= sec < 59
    ensures Process(r, ToMinutes(d) * 60 + sec) == Keep(r.(time := Format(next)), [MainNoticeOf(r)])
  {
    var now := ToMinutes(d) * 60 + sec;
    assert PreNotices(r, ToMinutes(d), r.notifyBefore, now) == Scan([], false);
    ProcessAdvances(r, now, d, iv);
  }

  /** A daily reminder due 2025-08-05 14:30 fires and stays, moved to 2025-08-06 14:30. */
  lemma DailyExample(r: Reminder, d: DateTime, next: DateTime, sec: int)
    requires d == DateTime(2025, 8, 5, 14, 30) && next == DateTime(2025, 8, 6, 14, 30)
    requires r == Reminder(42, "stand-up", r.time, Some(Daily), []) && Parse(r.time) == Some(d)
    requires 0 <= sec < 59
    ensures Process(r, ToMinutes(d) * 60 + sec) == Keep(r.(time := Format(next)), [MainNoticeOf(r)])
  {
    DayAfterAugustFifth(d);
    RepeatOutcome(r, d, Daily, next, sec);
  }

  lemma DayAfterAugustFifth(d: DateTime)
    requires d == DateTime(2025, 8, 5, 14, 30)
    ensures AddDays(d, 1) == DateTime(2025, 8, 6, 14, 30) && Valid(DateTime(2025, 8, 6, 14, 30))
  {
    assert NextDay(d) == DateTime(2025, 8, 6, 14, 30);
  }

  /** A weekly reminder due 2025-12-31 23:59 fires and stays, moved into the next year:
      2026-01-07 23:59. */
  lemma WeeklyExample(r: Reminder, d: DateTime, next: DateTime, sec: int)
    requires d == DateTime(2025, 12, 31, 23, 59) && next == DateTime(2026, 1, 7, 23, 59)
    requires r == Reminder(42, "fireworks", r.time, Some(Weekly), []) && Parse(r.time) == Some(d)
    requires 0 <= sec < 59
    ensures Process(r, ToMinutes(d) * 60 + sec) == Keep(r.(time := Format(next)), [MainNoticeOf(r)])
  {
    WeekAfterNewYearsEve(d);
    RepeatOutcome(r, d, Weekly, next, sec);
  }

  lemma WeekAfterNewYearsEve(d: DateTime)
    requires d == DateTime(2025, 12, 31, 23, 59)
    ensures AddDays(d, 7) == DateTime(2026, 1, 7, 23, 59) && Valid(DateTime(2026, 1, 7, 23, 59))
  {
    assert NextDay(d) == DateTime(2026, 1, 1, 23, 59);
    assert AddDays(DateTime(2026, 1, 1, 23, 59), 6) == AddDays(DateTime(2026, 1, 3, 23, 59), 4);
    assert AddDays(DateTime(2026, 1, 3, 23, 59), 4) == AddDays(DateTime(2026, 1, 5, 23, 59), 2);
  }
}
