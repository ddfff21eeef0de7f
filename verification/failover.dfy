/** The state a mirror failure updates, as values: a mirror list with its
    cursor (the group's master `mirrors`/`_next`, or a request's private copy),
    and the two halves of `MirrorGroup.increment_mirror` as functions on it. */
module Failover {
  import opened Wrappers
  import opened Actions
  import opened Urls

  /** A mirror descriptor, `{'mirror': url}` after `_parse_mirrors`. Two
      descriptors are the same mirror exactly when they are equal values. */
  datatype Mirror = Mirror(url: Url)

  /** A mirror list and the index of the mirror to use next. */
  datatype ListState = ListState(mirrors: seq<Mirror>, next: int)

  /** The cursor is a valid index into the list, or 0 once the list is empty. */
  predicate CursorOk(s: ListState) {
    0 <= s.next && (s.next < |s.mirrors| || s.next == 0)
  }

  /** `if next >= len(mirrors): next = 0`. */
  function Wrap(ms: seq<Mirror>, next: int): (r: ListState)
    ensures r.mirrors == ms
    ensures 0 <= next ==> CursorOk(r)
    ensures next >= |ms| ==> r.next == 0
    ensures next < |ms| ==> r.next == next
  {
    ListState(ms, if next >= |ms| then 0 else next)
  }

  /** `s.index(x)`, with `None` for the `ValueError` when `x` is absent: the
      position of the first element equal to `x`. */
  function IndexOf<T(==)>(s: seq<T>, x: T): (r: Option<nat>)
    ensures r.None? <==> x !in s
    ensures r.Some? ==> r.value < |s| && s[r.value] == x && x !in s[..r.value]
  {
    if s == [] then None
    else if s[0] == x then Some(0)
    else match IndexOf(s[1..], x)
      case None => None
      case Some(i) =>
        assert s[..i + 1] == [s[0]] + s[1..][..i];
        Some(i + 1)
  }

  /** The first occurrence of `x` in `s` is at a unique position. */
  lemma FirstOccurrenceUnique<T>(s: seq<T>, x: T, i: nat, j: nat)
    requires i < |s| && s[i] == x && x !in s[..i]
    requires j < |s| && s[j] == x && x !in s[..j]
    ensures i == j
  {
  }

  /** `del s[i]`: one entry shorter, with exactly one copy of `s[i]` gone. */
  function RemoveAt<T>(s: seq<T>, i: nat): (r: seq<T>)
    requires i < |s|
    ensures |r| == |s| - 1
    ensures multiset(r) == multiset(s) - multiset{s[i]}
  {
    assert s == s[..i] + [s[i]] + s[i + 1..];
    s[..i] + s[i + 1..]
  }

  /** After `del s[i]` the others keep their relative order: the entries
      before `i` stay where they were and those after it move down by one. */
  lemma RemoveAtShifts<T>(s: seq<T>, i: nat)
    requires i < |s|
    ensures forall j :: 0 <= j < i ==> RemoveAt(s, i)[j] == s[j]
    ensures forall j :: i <= j < |s| - 1 ==> RemoveAt(s, i)[j] == s[j + 1]
  {
  }

  /** The master half of `increment_mirror` (one locked step): find the
      failed mirror by value; if it is gone, change nothing; otherwise delete
      it (`remove_master`) or, when the cursor is on it, advance the cursor
      (`increment_master`), and wrap the cursor. */
  function MasterStep(s: ListState, bad: Mirror, action: Action): (r: ListState)
    ensures bad !in s.mirrors ==> r == s
    ensures bad in s.mirrors && 0 <= s.next ==> CursorOk(r)
    ensures CursorOk(s) ==> CursorOk(r)
    ensures !Flag(action, RemoveMaster) ==> r.mirrors == s.mirrors
    ensures multiset(r.mirrors)
         == if bad in s.mirrors && Flag(action, RemoveMaster)
            then multiset(s.mirrors) - multiset{bad} else multiset(s.mirrors)
  {
    match IndexOf(s.mirrors, bad)
    case None => s
    case Some(ind) =>
      if Flag(action, RemoveMaster) then Wrap(RemoveAt(s.mirrors, ind), s.next)
      else if s.next == ind && Flag(action, IncrementMaster) then Wrap(s.mirrors, s.next + 1)
      else Wrap(s.mirrors, s.next)
  }

  /** With `remove_master` set, exactly the first entry equal to the failed
      mirror is deleted, and the cursor keeps its number unless that falls off
      the end. */
  lemma MasterRemovesFirstOccurrence(s: ListState, bad: Mirror, action: Action, i: nat)
    requires i < |s.mirrors| && s.mirrors[i] == bad && bad !in s.mirrors[..i]
    requires Flag(action, RemoveMaster)
    ensures MasterStep(s, bad, action).mirrors == s.mirrors[..i] + s.mirrors[i + 1..]
    ensures MasterStep(s, bad, action).next
         == if s.next >= |s.mirrors| - 1 then 0 else s.next
  {
    FirstOccurrenceUnique(s.mirrors, bad, i, IndexOf(s.mirrors, bad).value);
  }

  /** Without `remove_master`, the list is untouched and a valid cursor moves
      to the next position, cyclically, exactly when it was on the failed
      mirror's first occurrence and `increment_master` is set. */
  lemma MasterAdvances(s: ListState, bad: Mirror, action: Action, i: nat)
    requires CursorOk(s)
    requires i < |s.mirrors| && s.mirrors[i] == bad && bad !in s.mirrors[..i]
    requires !Flag(action, RemoveMaster)
    ensures MasterStep(s, bad, action).mirrors == s.mirrors
    ensures MasterStep(s, bad, action).next
         == if s.next == i && Flag(action, IncrementMaster)
            then (i + 1) % |s.mirrors| else s.next
  {
    FirstOccurrenceUnique(s.mirrors, bad, i, IndexOf(s.mirrors, bad).value);
    Successor(i, |s.mirrors|);
  }

  /** When the failed mirror is deleted from the master list at a position
      before the cursor, the cursor keeps its number, so it now designates the
      entry after the one it designated before: that entry is skipped. */
  lemma MasterRemovalBeforeCursorSkips(s: ListState, bad: Mirror, action: Action, i: nat)
    requires i < s.next < |s.mirrors| - 1
    requires s.mirrors[i] == bad && bad !in s.mirrors[..i]
    requires Flag(action, RemoveMaster)
    ensures var r := MasterStep(s, bad, action);
      0 <= r.next < |r.mirrors| && r.mirrors[r.next] == s.mirrors[s.next + 1]
  {
    MasterRemovesFirstOccurrence(s, bad, action, i);
  }

  /** The request half of `increment_mirror`: delete the entry at the cursor
      (`remove`) or advance the cursor (`increment`), then wrap it. */
  function LocalStep(s: ListState, action: Action): (r: ListState)
    requires 0 <= s.next < |s.mirrors|
    ensures CursorOk(r)
    ensures Flag(action, Remove) ==> r.mirrors == RemoveAt(s.mirrors, s.next)
    ensures !Flag(action, Remove) ==> r.mirrors == s.mirrors
    ensures multiset(r.mirrors) <= multiset(s.mirrors)
  {
    if Flag(action, Remove) then Wrap(RemoveAt(s.mirrors, s.next), s.next)
    else if Flag(action, Increment) then Wrap(s.mirrors, s.next + 1)
    else s
  }

  /** The cyclic successor of a valid index. */
  lemma Successor(k: int, n: int)
    requires 0 <= k < n
    ensures (k + 1) % n == if k + 1 < n then k + 1 else 0
  {
    if k + 1 == n {
      assert (k + 1) % n == n % n == 0;
    }
  }

  /** After a local step the cursor is at the index that follows the failed
      entry's, cyclically: with `remove` the next entry has moved down into
      the failed one's index (or the cursor wraps to 0 when the failed entry
      was last); with `increment` the cursor moves one on; with neither it
      stays. Either way, when `remove` or `increment` is set it designates the
      entry that followed the failed one. */
  lemma LocalStepNext(s: ListState, action: Action)
    requires 0 <= s.next < |s.mirrors|
    ensures var r := LocalStep(s, action);
      && r.next == (if Flag(action, Remove) then (if s.next + 1 < |s.mirrors| then s.next else 0)
                    else if Flag(action, Increment) then (s.next + 1) % |s.mirrors|
                    else s.next)
      && (r.mirrors != [] ==>
            0 <= r.next < |r.mirrors| &&
            r.mirrors[r.next]
              == if Flag(action, Remove) || Flag(action, Increment)
                 then s.mirrors[(s.next + 1) % |s.mirrors|] else s.mirrors[s.next])
  {
    var n := |s.mirrors|;
    Successor(s.next, n);
    var r := LocalStep(s, action);
    if Flag(action, Remove) && r.mirrors != [] {
      if s.next + 1 == n {
        assert r.next == 0 && r.mirrors[0] == s.mirrors[0];
      } else {
        assert r.next == s.next && r.mirrors[s.next] == s.mirrors[s.next + 1];
      }
    }
  }

  /** The order in which a list is used from its cursor on: the entries from
      the cursor to the end, then those before it. */
  function Rotation(s: ListState): (r: seq<Mirror>)
    requires CursorOk(s)
    ensures |r| == |s.mirrors| && multiset(r) == multiset(s.mirrors)
    ensures s.mirrors != [] ==> r[0] == s.mirrors[s.next]
  {
    assert s.mirrors == s.mirrors[..s.next] + s.mirrors[s.next..];
    s.mirrors[s.next..] + s.mirrors[..s.next]
  }

  /** Entry `i` of the rotation is the entry `i` places after the cursor,
      cyclically. */
  lemma RotationAt(s: ListState, i: nat)
    requires CursorOk(s) && i < |s.mirrors|
    ensures Rotation(s)[i] == s.mirrors[(s.next + i) % |s.mirrors|]
  {
    var n, k := |s.mirrors|, s.next + i;
    Cyclic(k, n);
    var r := s.mirrors[s.next..] + s.mirrors[..s.next];
    if k < n {
      assert r[i] == s.mirrors[s.next..][i];
    } else {
      assert r[i] == s.mirrors[..s.next][i - (n - s.next)];
    }
  }

  /** An index less than twice the length, taken cyclically. */
  lemma Cyclic(k: int, n: int)
    requires 0 <= k < 2 * n
    ensures k % n == if k < n then k else k - n
  {
    if k >= n {
      assert k == (k - n) + n;
    }
  }

  /** Removing the entry at the cursor takes exactly the first entry off the
      order of use: the others are still used in the order they had. */
  lemma {:induction false} LocalRemoveRotates(s: ListState, action: Action)
    requires 0 <= s.next < |s.mirrors| && Flag(action, Remove)
    ensures Rotation(LocalStep(s, action)) == Rotation(s)[1..]
  {
    var ms, c := s.mirrors, s.next;
    var r := LocalStep(s, action);
    LocalStepNext(s, action);
    var rest := ms[c + 1..] + ms[..c];
    assert ms[c..] == [ms[c]] + ms[c + 1..];
    assert Rotation(s) == [ms[c]] + rest;
    assert r.mirrors == ms[..c] + ms[c + 1..];
    if c + 1 < |ms| {
      assert r.mirrors[c..] == ms[c + 1..];
      assert r.mirrors[..c] == ms[..c];
    } else {
      assert r.mirrors == ms[..c];
    }
  }

  /** With the built-in defaults a failure removes the mirror from the
      request's list only: the request's list is one entry shorter, with one
      fewer copy of the failed mirror, and the master list is left as it was,
      so the next request's copy holds the failed mirror again. */
  lemma DefaultFailure(master: ListState, local: ListState)
    requires 0 <= local.next < |local.mirrors|
    ensures var bad := local.mirrors[local.next];
      && MasterStep(master, bad, map[]).mirrors == master.mirrors
      && |LocalStep(local, map[]).mirrors| == |local.mirrors| - 1
      && multiset(LocalStep(local, map[]).mirrors)[bad] == multiset(local.mirrors)[bad] - 1
      && (bad in master.mirrors ==> bad in MasterStep(master, bad, map[]).mirrors)
  {
  }
}
