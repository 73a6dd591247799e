/**
 The cache object: buckets of lists kept in Go slices, updated in place.

 A slice is a backing array and a length.  Deleting from a slice shifts the backing array, so a slice value read
 earlier sees the shift; `Del` depends on it.  `cleaned` records the Clean requests in order and `timers` the
 expiry timers started.  Locks are not part of this class: each method is what one caller does while it holds
 the bucket lock, except `Del` and `Purge`, which are whole calls without interference.
 */
module HttpCache {
  import opened Deletion
  import opened Entries
  import opened Freshness
  import opened Http

  datatype Slice = Slice(arr: array<Entry>, len: nat)

  ghost predicate Proper(key: string, list: seq<Entry>) {
    NoDup(list) && forall e :: e in list ==> e.key == key
  }

  lemma PutProper(list: seq<Entry>, e: Entry)
    requires Proper(e.key, list) && e !in list
    ensures Proper(e.key, PutList(list, e))
  {
    hide Matches;
    PutKeepsNoDup(list, e);
  }

  lemma RemoveProper(list: seq<Entry>, e: Entry, i: nat)
    requires Proper(e.key, list) && i < |list| && list[i] == e && forall j :: 0 <= j < i ==> list[j] != e
    ensures Proper(e.key, RemoveEntry(list, e)) && RemoveEntry(list, e) == list[..i] + list[i + 1..] && e in list
  {
    RemoveMembers(list, e);
    RemoveKeepsNoDup(list, e);
  }

  class HTTPCache {
    const hash: string -> nat
    const bucketsNum: nat
    var entries: seq<map<string, Slice>>
    var cleaned: seq<Entry>
    var timers: seq<(Entry, Time)>
    ghost var repr: set<array<Entry>>  // the backing arrays

    function Bucket(key: string): (b: nat)
      requires bucketsNum > 0
      ensures b < bucketsNum
    {
      hash(key) % bucketsNum
    }

    predicate Has(key: string)
      requires bucketsNum > 0 && |entries| == bucketsNum
      reads `entries
    {
      key in entries[Bucket(key)]
    }

    function Head(key: string): Slice
      requires bucketsNum > 0 && |entries| == bucketsNum && Has(key)
      reads `entries
    {
      entries[Bucket(key)][key]
    }

    /** Every key sits in the bucket its hash selects. */
    ghost predicate Bucketed()
      reads `entries
    {
      && bucketsNum > 0 && |entries| == bucketsNum
      && forall b, k :: 0 <= b < |entries| && k in entries[b] ==> b == Bucket(k)
    }

    /** Every list sits in its key's bucket and has a backing array of its own. */
    ghost predicate Shape()
      reads `entries, `repr, repr
    {
      && Bucketed()
      && (forall k :: Has(k) ==> Head(k).arr in repr && Head(k).len <= Head(k).arr.Length)
      && (forall k, k' :: Has(k) && Has(k') && k != k' ==> Head(k).arr != Head(k').arr)
    }

    ghost function ListAt(key: string): seq<Entry>
      requires Shape()
      reads `entries, `repr, repr
    {
      if Has(key) then Head(key).arr[..Head(key).len] else []
    }

    /** Every list holds distinct entries of its key. */
    ghost predicate Valid()
      reads `entries, `repr, repr
    {
      Shape() && forall k :: Proper(k, ListAt(k))
    }

    constructor (hash: string -> nat, bucketsNum: nat)
      requires bucketsNum > 0
      ensures Valid() && fresh(repr)
      ensures this.hash == hash && this.bucketsNum == bucketsNum
      ensures cleaned == [] && timers == [] && forall k :: ListAt(k) == []
    {
      this.hash, this.bucketsNum := hash, bucketsNum;
      this.entries, this.cleaned, this.timers := [], [], [];
      this.repr := {};
      new;
      for i := 0 to bucketsNum
        invariant |entries| == i && (forall b :: 0 <= b < i ==> entries[b] == map[])
        invariant repr == {} && cleaned == [] && timers == []
      {
        entries := entries + [map[]];
      }
    }

    method Get(key: string, request: Request, clock: nat -> Time, includeStale: bool) returns (r: Option<Entry>)
      requires Valid()
      ensures r == Lookup(ListAt(key), request, clock, includeStale)
    {
      if key !in entries[Bucket(key)] {
        return None;
      }
      var previous := entries[Bucket(key)][key];
      for i := 0 to previous.len
        invariant Lookup(ListAt(key), request, clock, includeStale) == Lookup(ListAt(key), request, clock, includeStale, i)
      {
        var e := previous.arr[i];
        if IsFresh(e, clock(i)) || includeStale {
          var matches := MatchVary(e.vary, request.header, e.request.header);
          if matches {
            return Some(e);
          }
        }
      }
      return None;
    }

    /** Lists the keys that hold an entry, each once. */
    method Keys() returns (keys: seq<string>)
      requires Valid()
      ensures forall k :: k in keys <==> ListAt(k) != []
      ensures forall i, j :: 0 <= i < j < |keys| ==> keys[i] != keys[j]
    {
      keys := [];
      for b := 0 to |entries|
        invariant forall k :: k in keys <==> ListAt(k) != [] && Bucket(k) < b
        invariant forall i, j :: 0 <= i < j < |keys| ==> keys[i] != keys[j]
      {
        var rest := entries[b].Keys;
        while rest != {}
          invariant rest <= entries[b].Keys
          invariant forall k :: k in keys <==> ListAt(k) != [] && (Bucket(k) < b || (Bucket(k) == b && k !in rest))
          invariant forall i, j :: 0 <= i < j < |keys| ==> keys[i] != keys[j]
          decreases rest
        {
          var k :| k in rest;
          if entries[b][k].len != 0 {
            keys := keys + [k];
          }
          rest := rest - {k};
        }
      }
    }

    method SetHead(key: string, s: Slice)
      requires Bucketed()
      modifies this`entries
      ensures Bucketed() && Has(key) && Head(key) == s
      ensures forall k :: k != key ==> (Has(k) <==> old(Has(k)))
      ensures forall k :: k != key && Has(k) ==> Head(k) == old(Head(k))
    {
      var b := Bucket(key);
      entries := entries[b := entries[b][key := s]];
    }

    /** `append` of one element: in place when the capacity allows it, else into a larger array. */
    method Append(key: string, e: Entry)
      requires Shape()
      modifies this, repr
      ensures Shape() && fresh(repr - old(repr))
      ensures ListAt(key) == old(ListAt(key)) + [e]
      ensures forall k :: k != key ==> ListAt(k) == old(ListAt(k))
      ensures cleaned == old(cleaned) && timers == old(timers)
    {
      var b := Bucket(key);
      if key in entries[b] && entries[b][key].len < entries[b][key].arr.Length {
        AppendInPlace(key, e);
      } else {
        AppendGrown(key, e);
      }
    }

    method AppendInPlace(key: string, e: Entry)
      requires Shape() && Has(key) && Head(key).len < Head(key).arr.Length
      modifies this, repr
      ensures Shape() && repr == old(repr)
      ensures ListAt(key) == old(ListAt(key)) + [e]
      ensures forall k :: k != key ==> ListAt(k) == old(ListAt(k))
      ensures cleaned == old(cleaned) && timers == old(timers)
    {
      var s := Head(key);
      s.arr[s.len] := e;
      SetHead(key, Slice(s.arr, s.len + 1));
    }

    method AppendGrown(key: string, e: Entry)
      requires Shape()
      modifies this
      ensures Shape() && fresh(repr - old(repr))
      ensures ListAt(key) == old(ListAt(key)) + [e]
      ensures forall k :: k != key ==> ListAt(k) == old(ListAt(k))
      ensures cleaned == old(cleaned) && timers == old(timers)
    {
      var arr, len := Grow(key, e);
      assert forall k :: ListAt(k) == old(ListAt(k));
      SetHead(key, Slice(arr, len + 1));
      assert forall k :: k != key && Has(k) ==> Head(k) == old(Head(k)) && Head(k).arr != arr;
      repr := repr + {arr};
    }

    /** A fresh array with room to spare that holds the key's list and then `e`. */
    method Grow(key: string, e: Entry) returns (arr: array<Entry>, len: nat)
      requires Shape()
      ensures fresh(arr) && len == |ListAt(key)| < arr.Length && arr[..len + 1] == ListAt(key) + [e]
    {
      len := if key in entries[Bucket(key)] then entries[Bucket(key)][key].len else 0;
      var grown :| grown > len;
      arr := new Entry[grown](_ => e);
      if len > 0 {
        var from := entries[Bucket(key)][key].arr;
        forall i | 0 <= i < len { arr[i] := from[i]; }
      }
    }

    method SetAt(key: string, i: nat, e: Entry)
      requires Shape() && i < |ListAt(key)|
      modifies this, repr
      ensures Shape() && repr == old(repr)
      ensures ListAt(key) == old(ListAt(key))[i := e]
      ensures forall k :: k != key ==> ListAt(k) == old(ListAt(k))
      ensures cleaned == old(cleaned) && timers == old(timers)
    {
      assert Has(key);
      entries[Bucket(key)][key].arr[i] := e;
    }

    /** `append(s[:i], s[i+1:]...)`: the backing array is shifted, and its cells behind the new length stay as they are. */
    method DeleteAt(key: string, i: nat)
      requires Shape() && i < |ListAt(key)|
      modifies this, repr
      ensures Shape() && repr == old(repr) && Has(key)
      ensures ListAt(key) == old(ListAt(key)[..i] + ListAt(key)[i + 1..])
      ensures forall k :: k != key ==> ListAt(k) == old(ListAt(k))
      ensures cleaned == old(cleaned) && timers == old(timers)
      ensures Head(key) == Slice(old(Head(key).arr), old(Head(key).len) - 1)
      ensures forall j :: Head(key).len <= j < Head(key).arr.Length ==> Head(key).arr[j] == old(Head(key).arr[j])
    {
      assert Has(key);
      var b := Bucket(key);
      var s := entries[b][key];
      assert s == Head(key);
      forall j | i <= j < s.len - 1 { s.arr[j] := s.arr[j + 1]; }
      SetHead(key, Slice(s.arr, s.len - 1));
    }

    /** The loop of `Put`: the first stored entry that the request matches. */
    method FindMatch(key: string, request: Request) returns (i: nat)
      requires Shape()
      ensures i == FirstMatch(ListAt(key), request)
    {
      hide Agree;
      i := 0;
      if key in entries[Bucket(key)] {
        var s := entries[Bucket(key)][key];
        assert Has(key) && s == Head(key);
        while i < s.len
          invariant i <= s.len && forall j :: 0 <= j < i ==> !Matches(request, ListAt(key)[j])
        {
          var previous := s.arr[i];
          var matches := MatchVary(previous.vary, request.header, previous.request.header);
          if matches {
            break;
          }
          i := i + 1;
        }
      }
    }

    /** The loop of `cleanEntry`: this very entry. */
    method FindEntry(e: Entry) returns (i: nat)
      requires Shape()
      ensures i <= |ListAt(e.key)| && forall j :: 0 <= j < i ==> ListAt(e.key)[j] != e
      ensures i < |ListAt(e.key)| ==> ListAt(e.key)[i] == e
    {
      i := 0;
      if e.key in entries[Bucket(e.key)] {
        var s := entries[Bucket(e.key)][e.key];
        assert Has(e.key) && s == Head(e.key);
        while i < s.len && s.arr[i] != e
          invariant i <= s.len && forall j :: 0 <= j < i ==> ListAt(e.key)[j] != e
        {
          i := i + 1;
        }
      }
    }

    /** An entry is put once, so it is not in the table before. */
    method Put(e: Entry, staleMaxAge: Duration)
      requires Valid() && e !in ListAt(e.key)
      modifies this, repr
      ensures Valid() && fresh(repr - old(repr))
      ensures ListAt(e.key) == PutList(old(ListAt(e.key)), e)
      ensures forall k :: k != e.key ==> ListAt(k) == old(ListAt(k))
      ensures cleaned == old(cleaned) + Replaced(old(ListAt(e.key)), e)
      ensures timers == old(timers) + [(e, e.expiration + staleMaxAge)]
    {
      hide Proper, Matches;
      ghost var list := ListAt(e.key);
      PutProper(list, e);
      var i := FindMatch(e.key, e.request);
      timers := timers + [(e, e.expiration + staleMaxAge)];
      if e.key in entries[Bucket(e.key)] && i < entries[Bucket(e.key)][e.key].len {
        cleaned := cleaned + [entries[Bucket(e.key)][e.key].arr[i]];
        SetAt(e.key, i, e);
      } else {
        Append(e.key, e);
      }
      assert Proper(e.key, ListAt(e.key)) && forall k :: k != e.key ==> Proper(k, ListAt(k));
    }

    /** Removes this entry, found at `i`. */
    method Detach(e: Entry, i: nat)
      requires Valid() && i < |ListAt(e.key)| && ListAt(e.key)[i] == e && forall j :: 0 <= j < i ==> ListAt(e.key)[j] != e
      modifies this, repr
      ensures Valid() && repr == old(repr) && cleaned == old(cleaned) && timers == old(timers)
      ensures e in old(ListAt(e.key)) && ListAt(e.key) == RemoveEntry(old(ListAt(e.key)), e)
      ensures forall k :: k != e.key ==> ListAt(k) == old(ListAt(k))
      ensures Has(e.key) && old(Has(e.key)) && Head(e.key) == Slice(old(Head(e.key).arr), old(Head(e.key).len) - 1)
      ensures forall j :: Head(e.key).len <= j < Head(e.key).arr.Length ==> Head(e.key).arr[j] == old(Head(e.key).arr[j])
    {
      hide Proper, RemoveEntry;
      RemoveProper(ListAt(e.key), e, i);
      DeleteAt(e.key, i);
      forall k ensures Proper(k, ListAt(k)) {
        assert k != e.key ==> ListAt(k) == old(ListAt(k));
      }
    }

    /** Removes this entry if it is still there and requests its Clean; `fails` says whose Clean returns an error. */
    method CleanEntry(e: Entry, fails: Entry -> bool) returns (ok: bool)
      requires Valid()
      modifies this, repr
      ensures Valid() && repr == old(repr) && timers == old(timers)
      ensures ListAt(e.key) == RemoveEntry(old(ListAt(e.key)), e)
      ensures forall k :: k != e.key ==> ListAt(k) == old(ListAt(k))
      ensures cleaned == old(cleaned) + if e in old(ListAt(e.key)) then [e] else []
      ensures ok <==> !(e in old(ListAt(e.key)) && fails(e))
      ensures Has(e.key) <==> old(Has(e.key))
      // the old slice shows the shift, and behind it what was there before
      ensures Has(e.key) ==> Head(e.key).arr == old(Head(e.key).arr) && Head(e.key).len <= old(Head(e.key).len)
      ensures Has(e.key) ==> forall j :: Head(e.key).len <= j < Head(e.key).arr.Length ==> Head(e.key).arr[j] == old(Head(e.key).arr[j])
    {
      hide Proper, RemoveEntry;
      ghost var list := ListAt(e.key);
      var i := FindEntry(e);
      var len := if e.key in entries[Bucket(e.key)] then entries[Bucket(e.key)][e.key].len else 0;
      if i < len {
        Detach(e, i);
        cleaned := cleaned + [e];
        return !fails(e);
      }
      RemoveAbsent(list, e);
      return true;
    }

    /**
     The slice value read before still has the key's array: beyond the live list it shows the original last element.
     */
    ghost predicate Shows(key: string, previous: Slice, last: Entry)
      requires Shape()
      reads `entries, `repr, repr, previous.arr
    {
      && Has(key) && Head(key).arr == previous.arr && Head(key).len <= previous.len <= previous.arr.Length
      && forall j :: Head(key).len <= j < previous.len ==> previous.arr[j] == last
    }

    /** What holds before iteration `i` of `Del`: `previous` is the slice value it read, `removed` what it has cleaned. */
    ghost predicate Passing(key: string, previous: Slice, list: seq<Entry>, removed: seq<Entry>, clock: nat -> Time, fails: Entry -> bool, i: nat)
      reads `entries, `repr, repr, previous.arr
    {
      && Valid() && previous.len == |list| && list != [] && Last(list).key == key
      && Shows(key, previous, Last(list))
      && EndKnown(ListAt(key), Last(list), i)
      && Purged(list, clock, fails) == Then([], removed, Walk(ListAt(key), Last(list), clock, fails, i, |list|))
    }

    /** What iteration `i` of `Del` finds at position `i` of the slice it read. */
    lemma ShownAt(key: string, previous: Slice, last: Entry, i: nat)
      requires Valid() && Shows(key, previous, last) && last.key == key && i < previous.len
      ensures previous.arr[i] == (if i < |ListAt(key)| then ListAt(key)[i] else last) && previous.arr[i].key == key
    {
      assert Proper(key, ListAt(key));
    }

    /** Cleaning an entry in that iteration leaves the last element in the vacated cell. */
    method CleanShown(key: string, previous: Slice, ghost last: Entry, e: Entry, fails: Entry -> bool) returns (ok: bool)
      requires Valid() && Shows(key, previous, last) && e.key == key
      requires e in ListAt(key) ==> Last(ListAt(key)) == last && |RemoveEntry(ListAt(key), e)| == |ListAt(key)| - 1
      modifies this, repr
      ensures Valid() && repr == old(repr) && timers == old(timers) && Shows(key, previous, last)
      ensures ListAt(key) == RemoveEntry(old(ListAt(key)), e)
      ensures forall k :: k != key ==> ListAt(k) == old(ListAt(k))
      ensures cleaned == old(cleaned) + if e in old(ListAt(key)) then [e] else []
      ensures ok <==> !(e in old(ListAt(key)) && fails(e))
    {
      hide Proper, RemoveEntry;
      ghost var before := ListAt(key);
      assert before != [] ==> Last(before) == previous.arr[|before| - 1];
      ok := CleanEntry(e, fails);
      if e !in before {
        RemoveAbsent(before, e);
      }
    }

    /** One iteration of the loop of `Del`. */
    method Visit(key: string, previous: Slice, ghost list: seq<Entry>, ghost removed: seq<Entry>, clock: nat -> Time, fails: Entry -> bool, i: nat)
      returns (ok: bool, ghost gone: seq<Entry>)
      requires Passing(key, previous, list, removed, clock, fails, i) && i < previous.len
      modifies this, repr
      ensures Valid() && repr == old(repr) && timers == old(timers) && cleaned == old(cleaned) + gone
      ensures forall k :: k != key ==> ListAt(k) == old(ListAt(k))
      ensures ok ==> Passing(key, previous, list, removed + gone, clock, fails, i + 1)
      ensures !ok ==> Purged(list, clock, fails) == Outcome(ListAt(key), removed + gone, false)
    {
      hide Walk, Purged, RemoveEntry, IsFresh, Then, EndKnown, Last;
      var e := previous.arr[i];
      ghost var before := ListAt(key);
      ShownAt(key, previous, Last(list), i);
      assert Proper(key, before);
      gone := if IsFresh(e, clock(i)) && e in before then [e] else [];
      VisitStep(Purged(list, clock, fails), removed, before, Last(list), clock, fails, i, |list|,
                e, gone, if IsFresh(e, clock(i)) then RemoveEntry(before, e) else before);
      hide Shows, Proper;
      ok := true;
      if IsFresh(e, clock(i)) {
        ok := CleanShown(key, previous, Last(list), e, fails);
      }
    }

    lemma PassingStarts(key: string, previous: Slice, clock: nat -> Time, fails: Entry -> bool)
      requires Valid() && NeverBack(clock) && Has(key) && previous == Head(key) && ListAt(key) != []
      ensures Passing(key, previous, ListAt(key), [], clock, fails, 0)
    {
      hide Walk, Purged;
      assert Proper(key, ListAt(key));
      WalkStarts(ListAt(key), clock, fails);
    }

    lemma PassingEnds(key: string, previous: Slice, list: seq<Entry>, removed: seq<Entry>, clock: nat -> Time, fails: Entry -> bool)
      requires Passing(key, previous, list, removed, clock, fails, previous.len)
      ensures Purged(list, clock, fails) == Outcome(ListAt(key), removed, true)
    {
      hide Walk, Purged;
      WalkEnds(removed, ListAt(key), Last(list), clock, fails, |list|);
    }

    method Del(key: string, clock: nat -> Time, fails: Entry -> bool) returns (ok: bool)
      requires Valid() && NeverBack(clock)
      modifies this, repr
      ensures Valid() && repr == old(repr) && timers == old(timers)
      ensures var o := Purged(old(ListAt(key)), clock, fails);
              ListAt(key) == o.kept && cleaned == old(cleaned) + o.cleaned && ok == o.ok
      ensures forall k :: k != key ==> ListAt(k) == old(ListAt(k))
    {
      hide Purged, Passing, Proper;
      ghost var list := ListAt(key);
      ghost var removed: seq<Entry> := [];
      PurgedEmpty(fails);
      if key !in entries[Bucket(key)] {
        return true;
      }
      var previous := entries[Bucket(key)][key];
      if list != [] {
        PassingStarts(key, previous, clock, fails);
      }
      for i := 0 to previous.len
        invariant Valid() && repr == old(repr) && timers == old(timers)
        invariant forall k :: k != key ==> ListAt(k) == old(ListAt(k))
        invariant cleaned == old(cleaned) + removed && (i == 0 ==> removed == [] && ListAt(key) == list)
        invariant list != [] ==> Passing(key, previous, list, removed, clock, fails, i)
      {
        ghost var gone: seq<Entry>;
        ok, gone := Visit(key, previous, list, removed, clock, fails, i);
        removed := removed + gone;
        if !ok {
          return false;
        }
      }
      if list != [] {
        PassingEnds(key, previous, list, removed, clock, fails);
      }
      return true;
    }

    /**
     Purges every key that the condition matches.  Each call of `Del` has its own clock readings.  After an error
     the keys not yet reached are as they were.
     */
    method Purge(condition: string -> bool, clocks: string -> nat -> Time, fails: Entry -> bool) returns (ok: bool)
      requires Valid() && forall k :: NeverBack(clocks(k))
      modifies this, repr
      ensures Valid() && repr == old(repr) && timers == old(timers)
      ensures forall k :: !condition(k) ==> ListAt(k) == old(ListAt(k))
      ensures forall k :: condition(k) ==> ListAt(k) == Purged(old(ListAt(k)), clocks(k), fails).kept || (!ok && ListAt(k) == old(ListAt(k)))
      ensures ok <==> forall k :: condition(k) ==> Purged(old(ListAt(k)), clocks(k), fails).ok
    {
      hide Purged, Proper;
      PurgedEmpty(fails);
      var keys := Keys();
      for n := 0 to |keys|
        invariant Valid() && repr == old(repr) && timers == old(timers)
        invariant forall k :: !condition(k) || k !in keys[..n] ==> ListAt(k) == old(ListAt(k))
        invariant forall k :: condition(k) && k in keys[..n] ==>
          var o := Purged(old(ListAt(k)), clocks(k), fails); o.ok && ListAt(k) == o.kept
      {
        assert keys[..n + 1] == keys[..n] + [keys[n]] && keys[n] !in keys[..n];
        if condition(keys[n]) {
          var done := Del(keys[n], clocks(keys[n]), fails);
          if !done {
            return false;
          }
        }
      }
      return true;
    }

    /** A purge that meets no error takes every matching key with at most two entries, all fresh, off the list of keys. */
    method PurgeAndList(condition: string -> bool, clocks: string -> nat -> Time) returns (keys: seq<string>)
      requires Valid() && forall k :: NeverBack(clocks(k))
      modifies this, repr
      ensures Valid()
      ensures forall k :: k in keys ==> old(ListAt(k)) != []
      ensures forall k :: old(ListAt(k)) != [] && !condition(k) ==> k in keys
      ensures forall k :: condition(k) && FreshThroughout(old(ListAt(k)), clocks(k)) ==> (k in keys <==> |old(ListAt(k))| > 2)
    {
      hide Purged, Proper;
      var fails := (e: Entry) => false;
      PurgedEmpty(fails);
      var ok := Purge(condition, clocks, fails);
      keys := Keys();
      forall k ensures Purged(old(ListAt(k)), clocks(k), fails).ok {
        PurgedOk(old(ListAt(k)), clocks(k), fails, 0);
      }
      forall k | FreshThroughout(old(ListAt(k)), clocks(k))
        ensures |Purged(old(ListAt(k)), clocks(k), fails).kept| == Half(|old(ListAt(k))|)
      {
        AllFreshLeavesHalf(old(ListAt(k)), clocks(k), fails, 0);
      }
    }
  }
}
