/**
 The subscribers of a file backend: a slice of one-slot channels, changed in place under its lock.

 A send on a closed channel, or a second close, would panic.  `Chan.Close` and `Chan.TrySend` therefore require an
 open channel, so a method that uses them cannot panic; `NotifyAll` reports the panic it can meet.
 */
module Subscriptions {

  class Chan {
    const capacity: nat
    var buf: seq<int>
    var closed: bool

    constructor (capacity: nat)
      ensures this.capacity == capacity && buf == [] && !closed
    {
      this.capacity, buf, closed := capacity, [], false;
    }

    method Close()
      requires !closed
      modifies this
      ensures closed && buf == old(buf)
    {
      closed := true;
    }

    /** A send that gives up when the channel is full. */
    method TrySend(x: int)
      requires !closed
      modifies this
      ensures buf == (if old(|buf|) < capacity then old(buf) + [x] else old(buf)) && !closed
    {
      if |buf| < capacity {
        buf := buf + [x];
      }
    }
  }

  function Without(s: seq<Chan>, c: Chan): seq<Chan> {
    if s == [] then [] else (if s[0] == c then [] else [s[0]]) + Without(s[1..], c)
  }

  ghost predicate Distinct(s: seq<Chan>) { forall i, j :: 0 <= i < j < |s| ==> s[i] != s[j] }

  lemma {:induction false} WithoutAbsent(s: seq<Chan>, c: Chan)
    requires c !in s
    ensures Without(s, c) == s
  {
    if s != [] {
      WithoutAbsent(s[1..], c);
      assert s == [s[0]] + s[1..];
    }
  }

  /** Taking one element out of a list without duplicates takes out just that one. */
  lemma {:induction false} WithoutAt(s: seq<Chan>, i: nat)
    requires Distinct(s) && i < |s|
    ensures Without(s, s[i]) == s[..i] + s[i + 1..]
  {
    if i == 0 {
      WithoutAbsent(s[1..], s[0]);
    } else {
      WithoutAt(s[1..], i - 1);
      assert s[i] == s[1..][i - 1];
      assert s[..i] + s[i + 1..] == [s[0]] + (s[1..][..i - 1] + s[1..][i..]);
    }
  }

  lemma WithoutKeeps(s: seq<Chan>, i: nat)
    requires Distinct(s) && i < |s|
    ensures Distinct(s[..i] + s[i + 1..]) && forall x :: x in s[..i] + s[i + 1..] ==> x in s
  {
  }

  class Subscription {
    var closed: bool
    var arr: array<Chan>   // the slice of subscribers: backing array and length
    var len: nat
    var token: nat         // tokens in noSubscriberChan, which holds one

    ghost function Subscribers(): seq<Chan>
      requires len <= arr.Length
      reads this, arr
    {
      arr[..len]
    }

    /** Registered channels are distinct one-slot channels, and they are closed exactly when the subscription is. */
    ghost predicate Valid()
      reads this, arr, set i | 0 <= i < arr.Length :: arr[i]
    {
      && len <= arr.Length && token <= 1
      && Distinct(Subscribers())
      && forall c :: c in Subscribers() ==> c.capacity == 1 && |c.buf| <= 1 && (c.closed <==> closed)
    }

    constructor ()
      ensures Valid() && Subscribers() == [] && !closed && token == 0 && fresh(arr)
    {
      closed, len, token := false, 0, 0;
      arr := new Chan[0];
    }

    /** After `Close` a subscriber gets a closed channel and is not registered. */
    method NewSubscriber() returns (c: Chan)
      requires Valid()
      modifies this, arr
      ensures Valid() && closed == old(closed) && token == old(token)
      ensures fresh(c) && c.buf == [] && c.closed == closed && c.capacity == (if closed then 0 else 1)
      ensures Subscribers() == if closed then old(Subscribers()) else old(Subscribers()) + [c]
      ensures arr == old(arr) || fresh(arr)
    {
      if closed {
        c := new Chan(0);
        c.Close();
        return;
      }
      c := new Chan(1);
      Append(c);
    }

    /** `append` of one channel: in place when the capacity allows it, else into a larger array. */
    method Append(c: Chan)
      requires len <= arr.Length
      modifies this`arr, this`len, arr
      ensures len == old(len) + 1 <= arr.Length
      ensures Subscribers() == old(Subscribers()) + [c]
      ensures arr == old(arr) || fresh(arr)
    {
      if len == arr.Length {
        var grown :| grown > len;
        var bigger := new Chan[grown](_ => c);
        forall i | 0 <= i < len { bigger[i] := arr[i]; }
        arr := bigger;
      }
      arr[len] := c;
      len := len + 1;
    }

    /** Takes a channel off the list and leaves the token if the list is then empty. */
    method RemoveSubscriber(c: Chan)
      requires Valid()
      modifies this, arr
      ensures Valid() && closed == old(closed) && arr == old(arr)
      ensures Subscribers() == Without(old(Subscribers()), c)
      ensures token == if Subscribers() == [] then 1 else old(token)
    {
      DeleteMatching(c);
      if len == 0 && token < 1 {
        token := token + 1;
      }
    }

    /**
     Ranges over the slice it found while deleting from it in place.  Because registered channels are distinct,
     the cells behind the deletion hold no second match, and exactly this channel goes.
     */
    method DeleteMatching(c: Chan)
      requires len <= arr.Length && Distinct(Subscribers())
      modifies this`len, arr
      ensures len <= arr.Length && Distinct(Subscribers())
      ensures Subscribers() == Without(old(Subscribers()), c)
      ensures forall x :: x in Subscribers() ==> x in old(Subscribers())
    {
      var n := len;
      ghost var before := Subscribers();
      ghost var at := |before|;
      for i := 0 to n
        invariant 0 <= at <= |before| == n
        invariant if at == |before| then len == n && Subscribers() == before && forall j :: 0 <= j < i ==> before[j] != c
                  else at < i && before[at] == c && len == n - 1 && Subscribers() == before[..at] + before[at + 1..] && arr[n - 1] == before[n - 1]
      {
        assert at < |before| ==> arr[i] == if i == n - 1 then before[i] else before[i + 1];
        if arr[i] == c {
          DeleteAt(i);
          at := i;
        }
      }
      if at == |before| {
        WithoutAbsent(before, c);
      } else {
        WithoutAt(before, at);
        WithoutKeeps(before, at);
      }
    }

    /** `append(s[:i], s[i+1:]...)`. */
    method DeleteAt(i: nat)
      requires i < len <= arr.Length
      modifies this`len, arr
      ensures len == old(len) - 1
      ensures Subscribers() == old(arr[..i] + arr[i + 1..len])
      ensures forall j :: len <= j < arr.Length ==> arr[j] == old(arr[j])
    {
      forall j | i <= j < len - 1 { arr[j] := arr[j + 1]; }
      len := len - 1;
    }

    /** Closes every registered channel, once; a second call does nothing. */
    method Close()
      requires Valid()
      modifies this`closed, Subscribers()
      ensures Valid() && closed && Subscribers() == old(Subscribers())
      ensures forall c :: c in Subscribers() ==> c.buf == old(c.buf)
    {
      if closed {
        return;
      }
      closed := true;
      for i := 0 to len
        invariant closed && forall j :: 0 <= j < len ==> arr[j].buf == old(arr[j].buf) && (arr[j].closed <==> j < i)
      {
        arr[i].Close();
      }
    }

    /**
     Leaves a notification in every channel that has room.  Sending on a closed channel panics, and that happens
     exactly when a channel is still registered after `Close`.
     */
    method NotifyAll(newBytes: int) returns (panicked: bool)
      requires Valid()
      modifies Subscribers()
      ensures Valid() && Subscribers() == old(Subscribers())
      ensures panicked <==> closed && Subscribers() != []
      ensures !panicked ==> forall c :: c in Subscribers() ==> c.buf == if old(c.buf) == [] then [newBytes] else old(c.buf)
    {
      ghost var subs := Subscribers();
      for i := 0 to len
        invariant i == 0 || !closed
        invariant forall j :: 0 <= j < len ==> subs[j].closed == closed
        invariant forall j :: 0 <= j < i ==> subs[j].buf == if old(subs[j].buf) == [] then [newBytes] else old(subs[j].buf)
        invariant forall j :: i <= j < len ==> subs[j].buf == old(subs[j].buf)
      {
        assert arr[i] == subs[i];
        if arr[i].closed {
          return true;
        }
        assert forall j :: 0 <= j < len && j != i ==> subs[j] != subs[i];
        arr[i].TrySend(newBytes);
      }
      return false;
    }
  }

  /** How the panic comes about: a channel is registered, the subscription is closed, and then somebody writes. */
  method WriteAfterClose() returns (panicked: bool)
    ensures panicked
  {
    var subscription := new Subscription();
    var c := subscription.NewSubscriber();
    subscription.Close();
    panicked := subscription.NotifyAll(1);
  }
}
