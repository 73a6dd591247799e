/**
 What purging one key does to its list.

 `Del` ranges over the slice it read while `cleanEntry` shifts the same backing array, so each removal makes
 the iteration pass over the element after it, except that the last element stays visible in the old slice.
 `Purged` is the resulting function on lists; `HttpCache.HTTPCache.Del` is proved to compute it.
 */
module Deletion {
  import opened Entries
  import opened Freshness
  import opened Http

  /** What is left, which entries were removed and cleaned in which order, and whether no Clean failed. */
  datatype Outcome = Outcome(kept: seq<Entry>, cleaned: seq<Entry>, ok: bool)

  function Then(kept: seq<Entry>, cleaned: seq<Entry>, rest: Outcome): Outcome {
    Outcome(kept + rest.kept, cleaned + rest.cleaned, rest.ok)
  }

  /** `clock(i)` is the reading at iteration `i`; an entry whose Clean fails is removed and ends the loop. */
  function Purged(list: seq<Entry>, clock: nat -> Time, fails: Entry -> bool, i: nat := 0): Outcome {
    if list == [] then Outcome([], [], true)
    else
      var x := list[0];
      if !IsFresh(x, clock(i)) then Then([x], [], Purged(list[1..], clock, fails, i + 1))
      else if fails(x) then Outcome(list[1..], [x], false)
      else if |list| == 1 then Outcome([], [x], true)
      else if |list| == 2 then Then([], [x], PurgedLast(list[1], clock(i + 1), fails))
      else Then([list[1]], [x], Purged(list[2..], clock, fails, i + 1))
  }

  function PurgedLast(x: Entry, now: Time, fails: Entry -> bool): Outcome {
    if IsFresh(x, now) then Outcome([], [x], !fails(x)) else Outcome([x], [], true)
  }

  // ---------- iterating over the shifted array ----------

  /**
   The loop itself: `current` is the live list, whose backing array still shows `last`, the list's original last
   element, in the cells that removals vacated.
   */
  function Walk(current: seq<Entry>, last: Entry, clock: nat -> Time, fails: Entry -> bool, i: nat, n: nat): Outcome
    decreases n - i
  {
    if i >= n then Outcome(current, [], true)
    else
      var e := if i < |current| then current[i] else last;
      if !IsFresh(e, clock(i)) then Walk(current, last, clock, fails, i + 1, n)
      else
        var removed := if e in current then [e] else [];
        if e in current && fails(e) then Outcome(RemoveEntry(current, e), removed, false)
        else Then([], removed, Walk(RemoveEntry(current, e), last, clock, fails, i + 1, n))
  }

  ghost predicate NeverBack(clock: nat -> Time) { forall i: nat, j: nat :: i <= j ==> clock(i) <= clock(j) }

  lemma {:induction false} WalkEnd(current: seq<Entry>, last: Entry, clock: nat -> Time, fails: Entry -> bool, i: nat, n: nat)
    requires NeverBack(clock) && i >= |current|
    requires last !in current || (i > 0 && !IsFresh(last, clock(i - 1)))
    ensures Walk(current, last, clock, fails, i, n) == Outcome(current, [], true)
    decreases n - i
  {
    if i < n {
      assert i > 0 ==> clock(i - 1) <= clock(i);
      WalkEnd(current, last, clock, fails, i + 1, n);
    }
  }

  lemma RemoveFirst(done: seq<Entry>, rest: seq<Entry>)
    requires rest != [] && NoDup(done + rest)
    ensures rest[0] !in done && rest[0] in done + rest
    ensures RemoveEntry(done + rest, rest[0]) == done + rest[1..]
    ensures NoDup(done + rest[1..])
  {
    var list, i := done + rest, IndexOf(done + rest, rest[0]);
    assert list[|done|] == rest[0];
    assert i == |done|;
    RemoveKeepsNoDup(list, rest[0]);
  }

  /** The last element, passed over because its neighbour was removed, is still found in the vacated cell. */
  lemma WalkLast(done: seq<Entry>, last: Entry, clock: nat -> Time, fails: Entry -> bool, i: nat, n: nat)
    requires NeverBack(clock) && NoDup(done + [last]) && i == |done| + 1 && n > i
    ensures Walk(done + [last], last, clock, fails, i, n) == Then(done, [], PurgedLast(last, clock(i), fails))
  {
    RemoveFirst(done, [last]);
    assert done + [last][1..] == done;
    if IsFresh(last, clock(i)) {
      WalkEnd(done, last, clock, fails, i + 1, n);
    } else {
      WalkEnd(done + [last], last, clock, fails, i + 1, n);
    }
  }

  lemma WalkNext(current: seq<Entry>, last: Entry, clock: nat -> Time, fails: Entry -> bool, i: nat, n: nat)
    requires i < |current| && i < n
    ensures var w, e := Walk(current, last, clock, fails, i, n), current[i];
            if !IsFresh(e, clock(i)) then w == Walk(current, last, clock, fails, i + 1, n)
            else if fails(e) then w == Outcome(RemoveEntry(current, e), [e], false)
            else w == Then([], [e], Walk(RemoveEntry(current, e), last, clock, fails, i + 1, n))
  {
    hide IsFresh, RemoveEntry;
  }

  lemma PurgedNext(done: seq<Entry>, rest: seq<Entry>, clock: nat -> Time, fails: Entry -> bool, i: nat)
    requires rest != []
    ensures var p, x := Then(done, [], Purged(rest, clock, fails, i)), rest[0];
            if !IsFresh(x, clock(i)) then
              p == if |rest| == 1 then Outcome(done + rest, [], true) else Then(done + [x], [], Purged(rest[1..], clock, fails, i + 1))
            else if fails(x) then p == Outcome(done + rest[1..], [x], false)
            else if |rest| == 1 then p == Outcome(done, [x], true)
            else if |rest| == 2 then p == Then(done, [x], PurgedLast(rest[1], clock(i + 1), fails))
            else p == Then(done + [rest[1]], [x], Purged(rest[2..], clock, fails, i + 1))
  {
    hide IsFresh, PurgedLast;
  }

  ghost predicate AtElement(done: seq<Entry>, rest: seq<Entry>, clock: nat -> Time, i: nat, n: nat) {
    NeverBack(clock) && rest != [] && NoDup(done + rest) && i == |done| && n >= i + |rest|
  }

  /** Walking the shifted array computes `Purged`. */
  lemma {:induction false} WalkIsPurged(done: seq<Entry>, rest: seq<Entry>, clock: nat -> Time, fails: Entry -> bool, i: nat, n: nat)
    requires AtElement(done, rest, clock, i, n)
    ensures Walk(done + rest, Last(rest), clock, fails, i, n) == Then(done, [], Purged(rest, clock, fails, i))
    decreases |rest|, 1
  {
    assert (done + rest)[i] == rest[0];
    if !IsFresh(rest[0], clock(i)) {
      WalkKept(done, rest, clock, fails, i, n);
    } else if |rest| > 2 && !fails(rest[0]) {
      WalkSkips(done, rest, clock, fails, i, n);
    } else {
      WalkRemovesLast(done, rest, clock, fails, i, n);
    }
  }

  lemma {:induction false} WalkKept(done: seq<Entry>, rest: seq<Entry>, clock: nat -> Time, fails: Entry -> bool, i: nat, n: nat)
    requires AtElement(done, rest, clock, i, n) && !IsFresh(rest[0], clock(i))
    ensures Walk(done + rest, Last(rest), clock, fails, i, n) == Then(done, [], Purged(rest, clock, fails, i))
    decreases |rest|, 0
  {
    hide IsFresh, Walk, Purged;
    WalkNext(done + rest, Last(rest), clock, fails, i, n);
    PurgedNext(done, rest, clock, fails, i);
    if |rest| == 1 {
      WalkEnd(done + rest, Last(rest), clock, fails, i + 1, n);
    } else {
      assert (done + [rest[0]]) + rest[1..] == done + rest;
      WalkIsPurged(done + [rest[0]], rest[1..], clock, fails, i + 1, n);
    }
  }

  lemma {:induction false} WalkSkips(done: seq<Entry>, rest: seq<Entry>, clock: nat -> Time, fails: Entry -> bool, i: nat, n: nat)
    requires AtElement(done, rest, clock, i, n) && |rest| > 2 && IsFresh(rest[0], clock(i)) && !fails(rest[0])
    ensures Walk(done + rest, Last(rest), clock, fails, i, n) == Then(done, [], Purged(rest, clock, fails, i))
    decreases |rest|, 0
  {
    hide IsFresh, RemoveEntry, Walk, Purged;
    var z := Last(rest);
    RemoveFirst(done, rest);
    assert (done + rest)[i] == rest[0];
    WalkNext(done + rest, z, clock, fails, i, n);
    assert (done + [rest[1]]) + rest[2..] == done + rest[1..];
    WalkIsPurged(done + [rest[1]], rest[2..], clock, fails, i + 1, n);
    PurgedNext(done, rest, clock, fails, i);
  }

  lemma WalkRemovesLast(done: seq<Entry>, rest: seq<Entry>, clock: nat -> Time, fails: Entry -> bool, i: nat, n: nat)
    requires AtElement(done, rest, clock, i, n) && IsFresh(rest[0], clock(i)) && (|rest| <= 2 || fails(rest[0]))
    ensures Walk(done + rest, Last(rest), clock, fails, i, n) == Then(done, [], Purged(rest, clock, fails, i))
  {
    hide IsFresh, RemoveEntry, Walk, Purged, PurgedLast;
    var z := Last(rest);
    RemoveFirst(done, rest);
    assert (done + rest)[i] == rest[0];
    WalkNext(done + rest, z, clock, fails, i, n);
    PurgedNext(done, rest, clock, fails, i);
    if fails(rest[0]) {
    } else if |rest| == 1 {
      assert done + rest[1..] == done;
      WalkEnd(done, z, clock, fails, i + 1, n);
    } else {
      WalkLastTwo(done, rest, clock, fails, i, n);
    }
  }

  lemma WalkLastTwo(done: seq<Entry>, rest: seq<Entry>, clock: nat -> Time, fails: Entry -> bool, i: nat, n: nat)
    requires NeverBack(clock) && |rest| == 2 && NoDup(done + rest[1..]) && i == |done| && n >= i + 2
    ensures Walk(done + rest[1..], Last(rest), clock, fails, i + 1, n) == Then(done, [], PurgedLast(rest[1], clock(i + 1), fails))
  {
    hide IsFresh, RemoveEntry, Walk, PurgedLast;
    assert rest[1..] == [rest[1]];
    WalkLast(done, rest[1], clock, fails, i + 1, n);
  }

  /** The loop of `Del`, one iteration at a time: `removed` has been cleaned and `goal` is what the call computes. */
  lemma WalkStep(goal: Outcome, removed: seq<Entry>, current: seq<Entry>, last: Entry, clock: nat -> Time, fails: Entry -> bool, i: nat, n: nat)
    requires i < n && goal == Then([], removed, Walk(current, last, clock, fails, i, n))
    ensures var e := if i < |current| then current[i] else last;
            var after := removed + if e in current then [e] else [];
            if !IsFresh(e, clock(i)) then goal == Then([], removed, Walk(current, last, clock, fails, i + 1, n))
            else if e in current && fails(e) then goal == Outcome(RemoveEntry(current, e), after, false)
            else goal == Then([], after, Walk(RemoveEntry(current, e), last, clock, fails, i + 1, n))
  {
    hide IsFresh, RemoveEntry;
  }

  /** Until the iteration is past the live list, that list still ends in the original last element. */
  ghost predicate EndKnown(current: seq<Entry>, last: Entry, i: nat) {
    current != [] && (i < |current| || last in current) ==> Last(current) == last
  }

  lemma RemoveKeepsEnd(current: seq<Entry>, last: Entry, i: nat, e: Entry)
    requires NoDup(current) && EndKnown(current, last, i)
    requires e == if i < |current| then current[i] else last
    ensures e in current ==> Last(current) == last && |RemoveEntry(current, e)| == |current| - 1
    ensures e !in current ==> RemoveEntry(current, e) == current
    ensures EndKnown(RemoveEntry(current, e), last, i + 1)
  {
    var k := IndexOf(current, e);
    if i < |current| {
      assert k == i;
    } else if e in current {
      assert current[|current| - 1] == e;
      assert k == |current| - 1;
    }
  }

  /** One iteration of `Del` on values: `e` is what the old slice shows, `gone` and `after` what the iteration makes of it. */
  lemma VisitStep(goal: Outcome, removed: seq<Entry>, current: seq<Entry>, last: Entry, clock: nat -> Time, fails: Entry -> bool, i: nat, n: nat,
                  e: Entry, gone: seq<Entry>, after: seq<Entry>)
    requires i < n && NoDup(current) && EndKnown(current, last, i)
    requires goal == Then([], removed, Walk(current, last, clock, fails, i, n))
    requires e == if i < |current| then current[i] else last
    requires gone == if IsFresh(e, clock(i)) && e in current then [e] else []
    requires after == if IsFresh(e, clock(i)) then RemoveEntry(current, e) else current
    ensures EndKnown(after, last, i + 1)
    ensures gone != [] ==> Last(current) == last && |after| == |current| - 1
    ensures gone == [] ==> after == current
    ensures if gone != [] && fails(e) then goal == Outcome(after, removed + gone, false)
            else goal == Then([], removed + gone, Walk(after, last, clock, fails, i + 1, n))
  {
    hide Walk, RemoveEntry, IsFresh;
    WalkStep(goal, removed, current, last, clock, fails, i, n);
    RemoveKeepsEnd(current, last, i, e);
    assert removed + [] == removed;
  }

  lemma WalkStarts(list: seq<Entry>, clock: nat -> Time, fails: Entry -> bool)
    requires NeverBack(clock) && NoDup(list)
    ensures list != [] ==> Purged(list, clock, fails) == Then([], [], Walk(list, Last(list), clock, fails, 0, |list|))
    ensures list == [] ==> Purged(list, clock, fails) == Outcome([], [], true)
  {
    if list != [] {
      assert [] + list == list;
      WalkIsPurged([], list, clock, fails, 0, |list|);
    }
  }

  lemma WalkEnds(removed: seq<Entry>, current: seq<Entry>, last: Entry, clock: nat -> Time, fails: Entry -> bool, n: nat)
    ensures Then([], removed, Walk(current, last, clock, fails, n, n)) == Outcome(current, removed, true)
  {
  }

  lemma {:induction false} PurgedOk(list: seq<Entry>, clock: nat -> Time, fails: Entry -> bool, i: nat)
    requires forall x :: !fails(x)
    ensures Purged(list, clock, fails, i).ok
  {
    if list != [] && !IsFresh(list[0], clock(i)) {
      PurgedOk(list[1..], clock, fails, i + 1);
    } else if |list| > 2 {
      PurgedOk(list[2..], clock, fails, i + 1);
    }
  }

  lemma PurgedEmpty(fails: Entry -> bool)
    ensures forall clock: nat -> Time :: Purged([], clock, fails) == Outcome([], [], true)
  {
  }

  // ---------- what it amounts to ----------

  ghost predicate FreshThroughout(list: seq<Entry>, clock: nat -> Time) {
    forall x, i :: x in list ==> IsFresh(x, clock(i))
  }

  /** Nothing is lost or invented. */
  lemma {:induction false} PurgedConserves(list: seq<Entry>, clock: nat -> Time, fails: Entry -> bool, i: nat)
    ensures var o := Purged(list, clock, fails, i);
            multiset(o.kept) + multiset(o.cleaned) == multiset(list)
  {
    hide IsFresh;
    if list != [] {
      assert list == [list[0]] + list[1..];
      if !IsFresh(list[0], clock(i)) {
        PurgedConserves(list[1..], clock, fails, i + 1);
      } else if !fails(list[0]) && |list| > 1 {
        assert list[1..] == [list[1]] + list[2..];
        if |list| > 2 {
          PurgedConserves(list[2..], clock, fails, i + 1);
        }
      }
    }
  }

  /** Only entries that some reading of the call shows fresh are removed. */
  lemma {:induction false} PurgedOnlyFresh(list: seq<Entry>, clock: nat -> Time, fails: Entry -> bool, i: nat)
    ensures forall x :: x in Purged(list, clock, fails, i).cleaned ==> exists k :: IsFresh(x, clock(k))
  {
    if list != [] && !IsFresh(list[0], clock(i)) {
      PurgedOnlyFresh(list[1..], clock, fails, i + 1);
    } else if |list| > 2 {
      PurgedOnlyFresh(list[2..], clock, fails, i + 1);
    }
  }

  function Half(n: nat): nat { if n == 0 then 0 else (n - 1) / 2 }

  lemma {:induction false} AllFreshLeavesHalf(list: seq<Entry>, clock: nat -> Time, fails: Entry -> bool, i: nat)
    requires FreshThroughout(list, clock) && forall x :: x in list ==> !fails(x)
    ensures var o := Purged(list, clock, fails, i);
            o.ok && |o.kept| == Half(|list|) && forall x :: x in o.kept ==> x in list
  {
    if list != [] {
      assert list[0] in list;
      if |list| == 2 {
        assert list[1] in list;
      } else if |list| > 2 {
        forall x | x in list[2..] ensures x in list && !fails(x) {
        }
        AllFreshLeavesHalf(list[2..], clock, fails, i + 1);
      }
    }
  }

  function PurgedTimes(list: seq<Entry>, clock: nat -> Time, fails: Entry -> bool, times: nat): seq<Entry>
    decreases times
  {
    if times == 0 then list else PurgedTimes(Purged(list, clock, fails).kept, clock, fails, times - 1)
  }

  function Pow2(n: nat): nat { if n == 0 then 1 else 2 * Pow2(n - 1) }

  /** Exactly how many calls it takes to empty a list of fresh entries. */
  lemma {:induction false} CallsToEmpty(list: seq<Entry>, clock: nat -> Time, fails: Entry -> bool, times: nat)
    requires FreshThroughout(list, clock) && forall x :: x in list ==> !fails(x)
    ensures PurgedTimes(list, clock, fails, times) == [] <==> |list| + 2 <= Pow2(times + 1)
    decreases times
  {
    if times > 0 {
      AllFreshLeavesHalf(list, clock, fails, 0);
      CallsToEmpty(Purged(list, clock, fails).kept, clock, fails, times - 1);
    }
  }

  // ---------- the intent ----------

  function Instant(now: Time): nat -> Time { _ => now }

  /**
   The same loop over a copy of the list, taken beforehand: position `i` of the copy is examined and, if it is fresh,
   `cleanEntry` removes it from the live list.
   */
  function CopyWalk(current: seq<Entry>, copy: seq<Entry>, clock: nat -> Time, fails: Entry -> bool, i: nat := 0): Outcome
    requires i <= |copy|
    decreases |copy| - i
  {
    if i == |copy| then Outcome(current, [], true)
    else
      var e := copy[i];
      if !IsFresh(e, clock(i)) then CopyWalk(current, copy, clock, fails, i + 1)
      else
        var removed := if e in current then [e] else [];
        if e in current && fails(e) then Outcome(RemoveEntry(current, e), removed, false)
        else Then([], removed, CopyWalk(RemoveEntry(current, e), copy, clock, fails, i + 1))
  }

  /** What is intended: every entry found fresh goes, in order, until a Clean fails. */
  function Intended(list: seq<Entry>, clock: nat -> Time, fails: Entry -> bool, i: nat := 0): Outcome {
    if list == [] then Outcome([], [], true)
    else
      var x := list[0];
      if !IsFresh(x, clock(i)) then Then([x], [], Intended(list[1..], clock, fails, i + 1))
      else if fails(x) then Outcome(list[1..], [x], false)
      else Then([], [x], Intended(list[1..], clock, fails, i + 1))
  }

  lemma CopyWalkNext(current: seq<Entry>, copy: seq<Entry>, clock: nat -> Time, fails: Entry -> bool, i: nat)
    requires i < |copy| && copy[i] in current
    ensures var w, e := CopyWalk(current, copy, clock, fails, i), copy[i];
            if !IsFresh(e, clock(i)) then w == CopyWalk(current, copy, clock, fails, i + 1)
            else if fails(e) then w == Outcome(RemoveEntry(current, e), [e], false)
            else w == Then([], [e], CopyWalk(RemoveEntry(current, e), copy, clock, fails, i + 1))
  {
    hide IsFresh, RemoveEntry;
  }

  lemma IntendedNext(done: seq<Entry>, rest: seq<Entry>, clock: nat -> Time, fails: Entry -> bool, i: nat)
    requires rest != []
    ensures var p, x := Then(done, [], Intended(rest, clock, fails, i)), rest[0];
            if !IsFresh(x, clock(i)) then p == Then(done + [x], [], Intended(rest[1..], clock, fails, i + 1))
            else if fails(x) then p == Outcome(done + rest[1..], [x], false)
            else p == Then([], [x], Then(done, [], Intended(rest[1..], clock, fails, i + 1)))
  {
    hide IsFresh;
  }

  /** The loop over a copy does what is intended. */
  lemma {:induction false} CopyWalkIsIntended(done: seq<Entry>, copy: seq<Entry>, clock: nat -> Time, fails: Entry -> bool, i: nat)
    requires i <= |copy| && NoDup(done + copy[i..])
    ensures CopyWalk(done + copy[i..], copy, clock, fails, i) == Then(done, [], Intended(copy[i..], clock, fails, i))
    decreases |copy| - i
  {
    var rest := copy[i..];
    if i == |copy| {
      assert done + rest == done;
    } else {
      hide IsFresh, RemoveEntry, CopyWalk, Intended;
      RemoveFirst(done, rest);
      assert rest[1..] == copy[i + 1..];
      CopyWalkNext(done + rest, copy, clock, fails, i);
      IntendedNext(done, rest, clock, fails, i);
      if !IsFresh(copy[i], clock(i)) {
        assert (done + [copy[i]]) + copy[i + 1..] == done + rest;
        CopyWalkIsIntended(done + [copy[i]], copy, clock, fails, i + 1);
      } else {
        CopyWalkIsIntended(done, copy, clock, fails, i + 1);
      }
    }
  }

  /** At one instant it removes all the fresh entries and no others, and keeps the rest in order. */
  lemma CopyWalkRemovesFresh(list: seq<Entry>, now: Time, fails: Entry -> bool)
    requires NoDup(list) && forall x :: !fails(x)
    ensures var o := CopyWalk(list, list, Instant(now), fails);
            && o.ok && o.kept == StaleOf(list, now)
            && multiset(o.kept) + multiset(o.cleaned) == multiset(list)
            && (forall x :: x in o.kept <==> x in list && !IsFresh(x, now))
            && (forall x :: x in o.cleaned <==> x in list && IsFresh(x, now))
  {
    assert [] + list[0..] == list;
    CopyWalkIsIntended([], list, Instant(now), fails, 0);
    IntendedRemovesFresh(list, now, fails, 0);
    StaleOfMembers(list, now);
  }

  lemma {:induction false} IntendedRemovesFresh(list: seq<Entry>, now: Time, fails: Entry -> bool, i: nat)
    requires forall x :: !fails(x)
    ensures var o := Intended(list, Instant(now), fails, i);
            && o.ok && o.kept == StaleOf(list, now)
            && multiset(o.kept) + multiset(o.cleaned) == multiset(list)
            && forall x :: x in o.cleaned <==> x in list && IsFresh(x, now)
  {
    if list != [] {
      IntendedRemovesFresh(list[1..], now, fails, i + 1);
      assert list == [list[0]] + list[1..];
    }
  }

  function StaleOf(list: seq<Entry>, now: Time): seq<Entry> {
    if list == [] then []
    else (if IsFresh(list[0], now) then [] else [list[0]]) + StaleOf(list[1..], now)
  }

  lemma {:induction false} StaleOfMembers(list: seq<Entry>, now: Time)
    ensures forall x :: x in StaleOf(list, now) <==> x in list && !IsFresh(x, now)
  {
    if list != [] {
      StaleOfMembers(list[1..], now);
      assert list == [list[0]] + list[1..];
    }
  }

  ghost predicate NoFreshPairBeforeLast(list: seq<Entry>, now: Time) {
    forall j :: 0 <= j && j + 2 < |list| ==> !(IsFresh(list[j], now) && IsFresh(list[j + 1], now))
  }

  /**
   At one instant, with every Clean succeeding, a call leaves what the loop over a copy leaves exactly when no two
   fresh entries are adjacent before the last position.
   */
  lemma PurgedAsIntended(list: seq<Entry>, now: Time, fails: Entry -> bool)
    requires NoDup(list) && forall x :: !fails(x)
    ensures Purged(list, Instant(now), fails).kept == CopyWalk(list, list, Instant(now), fails).kept <==> NoFreshPairBeforeLast(list, now)
  {
    CopyWalkRemovesFresh(list, now, fails);
    PurgedLeavesStale(list, now, fails, 0);
  }

  lemma {:induction false} PurgedLeavesStale(list: seq<Entry>, now: Time, fails: Entry -> bool, i: nat)
    requires forall x :: !fails(x)
    ensures Purged(list, Instant(now), fails, i).kept == StaleOf(list, now) <==> NoFreshPairBeforeLast(list, now)
  {
    var clock := Instant(now);
    if list == [] {
    } else if !IsFresh(list[0], now) {
      PurgedLeavesStale(list[1..], now, fails, i + 1);
      ConsInjective(list[0], Purged(list[1..], clock, fails, i + 1).kept, StaleOf(list[1..], now));
      SamePairs(list, 1, now);
    } else if |list| == 1 {
      assert StaleOf(list[1..], now) == [];
    } else if |list| == 2 {
      assert StaleOf(list[1..], now) == (if IsFresh(list[1], now) then [] else [list[1]]) + StaleOf(list[2..], now);
    } else if IsFresh(list[1], now) {
      StaleOfMembers(list, now);
      assert list[1] in Purged(list, clock, fails, i).kept;
      assert IsFresh(list[0], now) && IsFresh(list[0 + 1], now);
    } else {
      PurgedLeavesStale(list[2..], now, fails, i + 1);
      assert list[1..][1..] == list[2..];
      assert StaleOf(list, now) == [list[1]] + StaleOf(list[2..], now);
      ConsInjective(list[1], Purged(list[2..], clock, fails, i + 1).kept, StaleOf(list[2..], now));
      SamePairs(list, 2, now);
    }
  }

  lemma ConsInjective(x: Entry, s: seq<Entry>, t: seq<Entry>)
    ensures [x] + s == [x] + t <==> s == t
  {
    assert ([x] + s)[1..] == s && ([x] + t)[1..] == t;
  }

  lemma SamePairs(list: seq<Entry>, n: nat, now: Time)
    requires 1 <= n <= |list| && !IsFresh(list[n - 1], now)
    requires forall j :: 0 <= j < n - 1 && j + 2 < |list| ==> !(IsFresh(list[j], now) && IsFresh(list[j + 1], now))
    ensures NoFreshPairBeforeLast(list, now) <==> NoFreshPairBeforeLast(list[n..], now)
  {
    var rest := list[n..];
    if NoFreshPairBeforeLast(list, now) {
      forall j | 0 <= j && j + 2 < |rest| ensures !(IsFresh(rest[j], now) && IsFresh(rest[j + 1], now)) {
        assert rest[j] == list[n + j] && rest[j + 1] == list[n + j + 1];
      }
    }
    if NoFreshPairBeforeLast(rest, now) {
      forall j | n <= j && j + 2 < |list| ensures !(IsFresh(list[j], now) && IsFresh(list[j + 1], now)) {
        assert rest[j - n] == list[j] && rest[j - n + 1] == list[j + 1];
      }
    }
  }
}
