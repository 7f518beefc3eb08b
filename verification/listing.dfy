/** The per-user view of the reminder list and the `/notifyme` update (bot.py:84, 114-135):
    which records a user sees, in which order and under which number, and what adding a
    notice offset does to the list. */
module Listing {
  import opened Wrappers
  import opened Records
  import opened Offsets

  /** The user's records in list order: the comprehension at bot.py:84 and bot.py:118. */
  function ForUser(s: seq<Reminder>, user: int): (u: seq<Reminder>)
    ensures |u| <= |s|
    decreases |s|
  {
    if s == [] then []
    else (if s[0].userId == user then [s[0]] else []) + ForUser(s[1..], user)
  }

  /** The listing holds exactly the user's records. */
  lemma {:induction false} ForUserMembers(s: seq<Reminder>, user: int)
    ensures forall r :: r in ForUser(s, user) <==> r in s && r.userId == user
    decreases |s|
  {
    if s != [] {
      ForUserMembers(s[1..], user);
      assert s == [s[0]] + s[1..];
    }
  }

  /** Appending a record adds it at the end of its owner's listing and changes nobody else's:
      a new reminder is listed last, under the number |listing| + 1. */
  lemma {:induction false} ForUserAppend(s: seq<Reminder>, r: Reminder, user: int)
    ensures ForUser(s + [r], user) == ForUser(s, user) + (if r.userId == user then [r] else [])
    decreases |s|
  {
    if s == [] {
      assert s + [r] == [r];
      assert [r][1..] == [];
    } else {
      assert (s + [r])[0] == s[0];
      assert (s + [r])[1..] == s[1..] + [r];
      ForUserAppend(s[1..], r, user);
      var head := if s[0].userId == user then [s[0]] else [];
      var tail := ForUser(s[1..], user);
      var last := if r.userId == user then [r] else [];
      assert ForUser(s + [r], user) == head + (tail + last);
      assert head + (tail + last) == (head + tail) + last;
    }
  }

  /** The position in the list of the user's record number k + 1: the record the listing
      shows under that number, with exactly k of the user's records before it. */
  function Select(s: seq<Reminder>, user: int, k: nat): (p: nat)
    requires k < |ForUser(s, user)|
    ensures p < |s| && s[p].userId == user && s[p] == ForUser(s, user)[k]
    ensures |ForUser(s[..p], user)| == k
    decreases |s|
  {
    if s[0].userId == user && k == 0 then
      assert s[..0] == [];
      0
    else
      var k' := if s[0].userId == user then k - 1 else k;
      var p := 1 + Select(s[1..], user, k');
      assert s[..p][0] == s[0] && s[..p][1..] == s[1..][..p - 1];
      p
  }

  /** Why `/notifyme` refuses a request. */
  datatype NotifyError = InvalidIndex | InvalidFormat

  /** r with one more notice offset, at the end of its list (bot.py:133). */
  function WithOffset(r: Reminder, m: int): Reminder {
    r.(notifyBefore := r.notifyBefore + [m])
  }

  /** What the loop of bot.py:131-133 does to s when the selected record sits at position p.
      The loop compares every record with the selected dict by value, and the selected dict is
      itself the record at p: up to p, the copies of the old record get the offset; from then
      on the selected dict already holds the offset, so the records equal to the updated
      record get it instead (a second time). */
  function Marked(s: seq<Reminder>, p: nat, m: int): (t: seq<Reminder>)
    requires p < |s|
    ensures |t| == |s|
    ensures t[p] == WithOffset(s[p], m)
    ensures forall i :: 0 <= i < |s| ==> t[i] == s[i] || t[i] == WithOffset(s[i], m)
    ensures forall i :: 0 <= i < |s| && s[i].userId != s[p].userId ==> t[i] == s[i]
    ensures forall i :: 0 <= i < |s| && s[i] != s[p] && s[i] != WithOffset(s[p], m) ==> t[i] == s[i]
    ensures forall i :: 0 <= i < p && s[i] == s[p] ==> t[i] == WithOffset(s[i], m)
    ensures forall i :: 0 <= i <= p ==> (t[i] == WithOffset(s[i], m) <==> s[i] == s[p])
    ensures forall i :: p < i < |s| ==> (t[i] == WithOffset(s[i], m) <==> s[i] == WithOffset(s[p], m))
  {
    assert forall r: Reminder :: WithOffset(r, m) != r by {
      forall r: Reminder ensures WithOffset(r, m) != r {
        assert |WithOffset(r, m).notifyBefore| == |r.notifyBefore| + 1;
      }
    }
    seq(|s|, i requires 0 <= i < |s| =>
      if (i <= p && s[i] == s[p]) || (i > p && s[i] == WithOffset(s[p], m))
      then WithOffset(s[i], m) else s[i])
  }

  /** `/notifyme before idx` by `user` on list s: the new list, or why nothing changes. The
      number is checked before the offset is parsed (bot.py:119, 123-130). */
  function Notify(s: seq<Reminder>, user: int, before: string, idx: int)
    : (res: Result<seq<Reminder>, NotifyError>)
    ensures res == Failure(InvalidIndex) <==> !(1 <= idx <= |ForUser(s, user)|)
    ensures res == Failure(InvalidFormat)
        <==> 1 <= idx <= |ForUser(s, user)| && ParseOffset(before) == None
    ensures res.Success? ==>
      var p := Select(s, user, idx - 1);
      var m := ParseOffset(before).value;
      var t := res.value;
      && |t| == |s|
      && t[p] == WithOffset(s[p], m)
      && (forall i :: 0 <= i < |s| ==> t[i] == s[i] || t[i] == WithOffset(s[i], m))
      && (forall i :: 0 <= i < |s| && s[i].userId != user ==> t[i] == s[i])
      && (forall i :: 0 <= i < |s| && s[i] != s[p] && s[i] != WithOffset(s[p], m) ==> t[i] == s[i])
      && (forall i :: 0 <= i < p && s[i] == s[p] ==> t[i] == WithOffset(s[i], m))
      && (forall i :: 0 <= i <= p ==> (t[i] == WithOffset(s[i], m) <==> s[i] == s[p]))
      && (forall i :: p < i < |s| ==> (t[i] == WithOffset(s[i], m) <==> s[i] == WithOffset(s[p], m)))
  {
    if !(1 <= idx <= |ForUser(s, user)|) then Failure(InvalidIndex)
    else
      match ParseOffset(before)
      case None => Failure(InvalidFormat)
      case Some(m) => Success(Marked(s, Select(s, user, idx - 1), m))
  }

  /** Lists with the same owners record by record have listings of the same length, and
      the listing of t shows, under each number, t's record at the position s's listing
      uses for that number. */
  lemma {:induction false} ForUserSameOwners(s: seq<Reminder>, t: seq<Reminder>, user: int, k: nat)
    requires |t| == |s| && forall i :: 0 <= i < |s| ==> t[i].userId == s[i].userId
    requires k < |ForUser(s, user)|
    ensures |ForUser(t, user)| == |ForUser(s, user)|
    ensures ForUser(t, user)[k] == t[Select(s, user, k)]
    decreases |s|
  {
    SameOwnersLength(s, t, user);
    var head: seq<Reminder> := if t[0].userId == user then [t[0]] else [];
    assert ForUser(t, user) == head + ForUser(t[1..], user);
    if !(s[0].userId == user && k == 0) {
      var k' := if s[0].userId == user then k - 1 else k;
      var headS: seq<Reminder> := if s[0].userId == user then [s[0]] else [];
      assert ForUser(s, user) == headS + ForUser(s[1..], user);
      assert k' < |ForUser(s[1..], user)|;
      assert forall i :: 0 <= i < |s[1..]| ==> t[1..][i].userId == s[1..][i].userId by {
        forall i | 0 <= i < |s[1..]| ensures t[1..][i].userId == s[1..][i].userId {
          assert t[1..][i] == t[i + 1] && s[1..][i] == s[i + 1];
        }
      }
      ForUserSameOwners(s[1..], t[1..], user, k');
      assert k == k' + |head|;
      assert (head + ForUser(t[1..], user))[k] == ForUser(t[1..], user)[k'];
    }
  }

  lemma {:induction false} SameOwnersLength(s: seq<Reminder>, t: seq<Reminder>, user: int)
    requires |t| == |s| && forall i :: 0 <= i < |s| ==> t[i].userId == s[i].userId
    ensures |ForUser(t, user)| == |ForUser(s, user)|
    decreases |s|
  {
    if s != [] {
      SameOwnersLength(s[1..], t[1..], user);
    }
  }

  /** After a successful `/notifyme before idx`, the user's listing has the same length and
      shows under number idx the record it showed before, with the new offset last. */
  lemma NotifyShowsOffset(s: seq<Reminder>, user: int, before: string, idx: int)
    requires Notify(s, user, before, idx).Success?
    ensures var t := Notify(s, user, before, idx).value;
      && |ForUser(t, user)| == |ForUser(s, user)|
      && ForUser(t, user)[idx - 1]
         == WithOffset(ForUser(s, user)[idx - 1], ParseOffset(before).value)
  {
    var t := Notify(s, user, before, idx).value;
    ForUserSameOwners(s, t, user, idx - 1);
  }

  /** Two identical records of a user. Selecting the second gives the offset to both, the
      earlier copy included; selecting the first gives it to the first only, because by the
      time the loop reaches the second the selected record already holds the offset. */
  lemma DuplicateExample(r: Reminder, m: int)
    ensures Marked([r, r], 0, m) == [WithOffset(r, m), r]
    ensures Marked([r, r], 1, m) == [WithOffset(r, m), WithOffset(r, m)]
  {
    assert |WithOffset(r, m).notifyBefore| == |r.notifyBefore| + 1;
  }
}
