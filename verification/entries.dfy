/**
 The entry table as values: what one lookup, insertion or removal does to the list of variants kept under a
 key, and the proof that, when the responses of a key share one Vary value, the table is a map from
 (key, variant) to entry.
 */
module Entries {
  import opened Freshness
  import opened Http

  datatype Option<+T> = None | Some(value: T)

  /** Two entries are the same object exactly when they are equal: `id` is the object's identity. */
  datatype Entry = Entry(
    id: nat,
    key: string,
    isPublic: bool,
    expiration: Time,
    request: Request,
    vary: string,
    code: int)

  predicate Matches(req: Request, e: Entry) { Agree(e.vary, req.header, e.request.header) }

  predicate IsFresh(e: Entry, now: Time) { e.expiration > now }

  // ---------- one list ----------

  function FirstMatch(list: seq<Entry>, req: Request, from: nat := 0): (i: nat)
    requires from <= |list|
    ensures from <= i <= |list|
    ensures forall j :: from <= j < i ==> !Matches(req, list[j])
    ensures i < |list| ==> Matches(req, list[i])
    decreases |list| - from
  {
    hide Matches;
    if from == |list| || Matches(req, list[from]) then from else FirstMatch(list, req, from + 1)
  }

  /** `clock(i)` is what the clock shows when position `i` is examined. */
  predicate Served(list: seq<Entry>, i: nat, req: Request, clock: nat -> Time, includeStale: bool)
    requires i < |list|
  {
    (IsFresh(list[i], clock(i)) || includeStale) && Matches(req, list[i])
  }

  function FirstServed(list: seq<Entry>, req: Request, clock: nat -> Time, includeStale: bool, from: nat): (i: nat)
    requires from <= |list|
    ensures from <= i <= |list|
    ensures forall j :: from <= j < i ==> !Served(list, j, req, clock, includeStale)
    ensures i < |list| ==> Served(list, i, req, clock, includeStale)
    decreases |list| - from
  {
    hide Served;
    if from == |list| || Served(list, from, req, clock, includeStale) then from
    else FirstServed(list, req, clock, includeStale, from + 1)
  }

  function Lookup(list: seq<Entry>, req: Request, clock: nat -> Time, includeStale: bool, from: nat := 0): (r: Option<Entry>)
    requires from <= |list|
    ensures r.None? ==> forall j :: from <= j < |list| ==> !Served(list, j, req, clock, includeStale)
    ensures r.Some? ==> exists i :: from <= i < |list| && r.value == list[i] && Served(list, i, req, clock, includeStale)
                                    && forall j :: from <= j < i ==> !Served(list, j, req, clock, includeStale)
  {
    hide Served;
    var i := FirstServed(list, req, clock, includeStale, from);
    if i < |list| then Some(list[i]) else None
  }

  /** A new entry takes the place of the first stored one its request matches, or goes to the end. */
  function PutList(list: seq<Entry>, e: Entry): seq<Entry> {
    var i := FirstMatch(list, e.request);
    if i < |list| then list[i := e] else list + [e]
  }

  function Replaced(list: seq<Entry>, e: Entry): seq<Entry> {
    var i := FirstMatch(list, e.request);
    if i < |list| then [list[i]] else []
  }

  function IndexOf(list: seq<Entry>, e: Entry): (i: nat)
    ensures i <= |list|
    ensures forall j :: 0 <= j < i ==> list[j] != e
    ensures i < |list| <==> e in list
    ensures i < |list| ==> list[i] == e
  {
    if list == [] || list[0] == e then 0 else 1 + IndexOf(list[1..], e)
  }

  function RemoveEntry(list: seq<Entry>, e: Entry): seq<Entry> {
    var i := IndexOf(list, e);
    if i < |list| then list[..i] + list[i + 1..] else list
  }

  ghost predicate NoDup(list: seq<Entry>) { forall i, j :: 0 <= i < j < |list| ==> list[i] != list[j] }

  /** An insertion keeps every entry but the one it displaces. */
  lemma PutConserves(list: seq<Entry>, e: Entry)
    ensures multiset(PutList(list, e)) + multiset(Replaced(list, e)) == multiset(list) + multiset{e}
  {
    hide Matches;
    var i := FirstMatch(list, e.request);
    if i < |list| {
      assert list == list[..i] + [list[i]] + list[i + 1..];
      assert list[i := e] == list[..i] + [e] + list[i + 1..];
    }
  }

  lemma PutKeepsNoDup(list: seq<Entry>, e: Entry)
    requires NoDup(list) && e !in list
    ensures NoDup(PutList(list, e))
    ensures forall x :: x in PutList(list, e) <==> x == e || (x in list && x !in Replaced(list, e))
  {
    hide Matches;
    var i, after := FirstMatch(list, e.request), PutList(list, e);
    assert after[i] == e;
    forall x | x in list && x !in Replaced(list, e) ensures x in after {
      var j :| 0 <= j < |list| && list[j] == x;
      assert after[j] == x;
    }
  }

  lemma RemoveConserves(list: seq<Entry>, e: Entry)
    ensures multiset(RemoveEntry(list, e)) + (if e in list then multiset{e} else multiset{}) == multiset(list)
  {
    if e in list {
      var i := IndexOf(list, e);
      SplitCount(list, i);
      assert RemoveEntry(list, e) == list[..i] + list[i + 1..] && list[i] == e;
      hide RemoveEntry, IndexOf;
    } else {
      RemoveAbsent(list, e);
    }
  }

  lemma SplitCount(list: seq<Entry>, i: nat)
    requires i < |list|
    ensures multiset(list[..i] + list[i + 1..]) + multiset{list[i]} == multiset(list)
  {
    assert list == list[..i] + [list[i]] + list[i + 1..];
  }

  lemma RemoveMembers(list: seq<Entry>, e: Entry)
    ensures forall x :: x in list && x != e ==> x in RemoveEntry(list, e)
    ensures forall x :: x in RemoveEntry(list, e) ==> x in list
  {
    var i, after := IndexOf(list, e), RemoveEntry(list, e);
    if i < |list| {
      forall x | x in list && x != e ensures x in after {
        var j :| 0 <= j < |list| && list[j] == x;
        assert x == if j < i then after[j] else after[j - 1];
      }
    }
  }

  lemma RemoveAbsent(list: seq<Entry>, e: Entry)
    requires e !in list
    ensures RemoveEntry(list, e) == list
  {
  }

  lemma RemoveKeepsNoDup(list: seq<Entry>, e: Entry)
    requires NoDup(list)
    ensures NoDup(RemoveEntry(list, e)) && e !in RemoveEntry(list, e)
  {
    var i, after := IndexOf(list, e), RemoveEntry(list, e);
    if i < |list| {
      assert forall j :: 0 <= j < |after| ==> after[j] == if j < i then list[j] else list[j + 1];
    }
  }

  lemma MatchesItself(e: Entry)
    ensures Matches(e.request, e)
  {
  }

  /** Immediately after an insertion its own request finds the new entry, whatever the other entries' Vary values. */
  lemma ReadYourWrite(list: seq<Entry>, e: Entry, clock: nat -> Time)
    ensures Lookup(PutList(list, e), e.request, clock, true) == Some(e)
    ensures (forall i :: IsFresh(e, clock(i))) ==> Lookup(PutList(list, e), e.request, clock, false) == Some(e)
  {
    var i := FirstMatch(list, e.request);
    var after := PutList(list, e);
    MatchesItself(e);
    forall j | 0 <= j < i ensures !Matches(e.request, after[j]) {
      assert after[j] == list[j];
    }
    assert after[i] == e;
    forall stale | stale || forall k :: IsFresh(e, clock(k))
      ensures Lookup(after, e.request, clock, stale) == Some(e)
    {
      assert Served(after, i, e.request, clock, stale);
      LookupAt(after, e.request, clock, stale, 0, i);
    }
  }

  lemma {:induction false} LookupAt(list: seq<Entry>, req: Request, clock: nat -> Time, includeStale: bool, from: nat, i: nat)
    requires from <= i < |list|
    requires Served(list, i, req, clock, includeStale)
    requires forall j :: from <= j < i ==> !Served(list, j, req, clock, includeStale)
    ensures Lookup(list, req, clock, includeStale, from) == Some(list[i])
    decreases i - from
  {
    hide Served;
    if from < i {
      LookupAt(list, req, clock, includeStale, from + 1, i);
    }
  }

  // ---------- the table ----------

  type Table = map<string, seq<Entry>>

  function ListOf(t: Table, key: string): seq<Entry> { if key in t then t[key] else [] }

  datatype Op = Put(e: Entry) | Clean(e: Entry)

  function ApplyOp(t: Table, op: Op): Table {
    match op
    case Put(e) => t[e.key := PutList(ListOf(t, e.key), e)]
    case Clean(e) => t[e.key := RemoveEntry(ListOf(t, e.key), e)]
  }

  function RunOps(t: Table, ops: seq<Op>): Table {
    if ops == [] then t else ApplyOp(RunOps(t, ops[..|ops| - 1]), Last(ops))
  }

  // ---------- the map it stands for ----------

  type Slot = (string, seq<string>)
  type Variants = map<Slot, Entry>

  function SlotOf(e: Entry): Slot { (e.key, Variant(e.vary, e.request.header)) }

  function ApplyToMap(m: Variants, op: Op): Variants {
    match op
    case Put(e) => m[SlotOf(e) := e]
    case Clean(e) => if SlotOf(e) in m && m[SlotOf(e)] == e then m - {SlotOf(e)} else m
  }

  function RunOnMap(m: Variants, ops: seq<Op>): Variants {
    if ops == [] then m else ApplyToMap(RunOnMap(m, ops[..|ops| - 1]), Last(ops))
  }

  /** Every response stored under a key carries the Vary value that `varyOf` gives that key. */
  ghost predicate Uniform(e: Entry, varyOf: string -> string) { e.vary == varyOf(e.key) }

  ghost predicate UniformOps(ops: seq<Op>, varyOf: string -> string) {
    forall i :: 0 <= i < |ops| && ops[i].Put? ==> Uniform(ops[i].e, varyOf)
  }

  /** A list holds exactly the map's entries for its key, each in its own slot. */
  ghost predicate RepresentsAt(list: seq<Entry>, m: Variants, key: string, varyOf: string -> string) {
    && (forall i :: 0 <= i < |list| ==>
          && list[i].key == key && Uniform(list[i], varyOf)
          && SlotOf(list[i]) in m && m[SlotOf(list[i])] == list[i])
    && (forall i, j :: 0 <= i < j < |list| ==> SlotOf(list[i]) != SlotOf(list[j]))
    && (forall slot :: slot in m && slot.0 == key ==> m[slot] in list && SlotOf(m[slot]) == slot)
  }

  ghost predicate Represents(t: Table, m: Variants, varyOf: string -> string) {
    forall key :: RepresentsAt(ListOf(t, key), m, key, varyOf)
  }

  lemma MatchesIsSameSlot(req: Request, e: Entry)
    ensures Matches(req, e) <==> (e.key, Variant(e.vary, req.header)) == SlotOf(e)
  {
    AgreeIsSameVariant(e.vary, req.header, e.request.header);
  }

  lemma PutListRepresents(list: seq<Entry>, m: Variants, e: Entry, varyOf: string -> string)
    requires RepresentsAt(list, m, e.key, varyOf) && Uniform(e, varyOf)
    ensures RepresentsAt(PutList(list, e), ApplyToMap(m, Put(e)), e.key, varyOf)
  {
    hide Variant, Matches;
    var m', i, after := ApplyToMap(m, Put(e)), FirstMatch(list, e.request), PutList(list, e);
    forall j | 0 <= j < |list| ensures Matches(e.request, list[j]) <==> SlotOf(list[j]) == SlotOf(e) {
      MatchesIsSameSlot(e.request, list[j]);
    }
    assert after[i] == e;
    assert forall j :: 0 <= j < |list| && j != i ==> after[j] == list[j] && SlotOf(after[j]) != SlotOf(e);
    forall slot | slot in m' && slot.0 == e.key ensures m'[slot] in after {
      if slot != SlotOf(e) {
        var j :| 0 <= j < |list| && list[j] == m[slot];
        assert SlotOf(list[j]) == slot by { assert m[slot] in list; }
        assert after[j] == list[j];
      }
    }
  }

  lemma CleanListRepresents(list: seq<Entry>, m: Variants, e: Entry, varyOf: string -> string)
    requires RepresentsAt(list, m, e.key, varyOf)
    ensures RepresentsAt(RemoveEntry(list, e), ApplyToMap(m, Clean(e)), e.key, varyOf)
  {
    hide Variant, Matches;
    assert SlotOf(e).0 == e.key;
    if e in list {
      RemovedRepresents(list, m, IndexOf(list, e), e.key, varyOf);
    } else {
      assert ApplyToMap(m, Clean(e)) == m;
    }
  }

  lemma RemovedRepresents(list: seq<Entry>, m: Variants, i: nat, key: string, varyOf: string -> string)
    requires RepresentsAt(list, m, key, varyOf) && i < |list|
    ensures RepresentsAt(list[..i] + list[i + 1..], m - {SlotOf(list[i])}, key, varyOf)
  {
    hide SlotOf, Uniform;
    var after, m' := list[..i] + list[i + 1..], m - {SlotOf(list[i])};
    assert forall j :: 0 <= j < |after| ==> after[j] == list[if j < i then j else j + 1];
    forall slot | slot in m' && slot.0 == key ensures m'[slot] in after {
      var j :| 0 <= j < |list| && list[j] == m[slot];
      assert after[if j < i then j else j - 1] == m[slot];
    }
  }

  lemma OtherListRepresents(list: seq<Entry>, m: Variants, op: Op, key: string, varyOf: string -> string)
    requires RepresentsAt(list, m, key, varyOf) && key != op.e.key
    ensures RepresentsAt(list, ApplyToMap(m, op), key, varyOf)
  {
    hide Variant, Matches;
  }

  /** One insertion or removal on the table is the corresponding update of the map. */
  lemma OpRepresents(t: Table, m: Variants, op: Op, varyOf: string -> string)
    requires Represents(t, m, varyOf) && (op.Put? ==> Uniform(op.e, varyOf))
    ensures Represents(ApplyOp(t, op), ApplyToMap(m, op), varyOf)
  {
    hide RepresentsAt, Variant, Matches;
    var key := op.e.key;
    assert RepresentsAt(ListOf(t, key), m, key, varyOf);
    match op {
      case Put(e) => PutListRepresents(ListOf(t, key), m, e, varyOf);
      case Clean(e) => CleanListRepresents(ListOf(t, key), m, e, varyOf);
    }
    forall k ensures RepresentsAt(ListOf(ApplyOp(t, op), k), ApplyToMap(m, op), k, varyOf) {
      if k != key {
        assert RepresentsAt(ListOf(t, k), m, k, varyOf);
        OtherListRepresents(ListOf(t, k), m, op, k, varyOf);
      }
    }
  }

  /** Every run of insertions and removals on the table simulates the run on the map. */
  lemma {:induction false} RunRepresents(t: Table, m: Variants, ops: seq<Op>, varyOf: string -> string)
    requires Represents(t, m, varyOf) && UniformOps(ops, varyOf)
    ensures Represents(RunOps(t, ops), RunOnMap(m, ops), varyOf)
  {
    if ops != [] {
      var before := ops[..|ops| - 1];
      RunRepresents(t, m, before, varyOf);
      OpRepresents(RunOps(t, before), RunOnMap(m, before), Last(ops), varyOf);
    }
  }

  /** A lookup in the table is a lookup in the map, filtered by freshness unless stale entries are wanted. */
  lemma GetRepresents(t: Table, m: Variants, varyOf: string -> string, key: string, req: Request, clock: nat -> Time, includeStale: bool)
    requires Represents(t, m, varyOf)
    ensures var slot := (key, Variant(varyOf(key), req.header));
            var r := Lookup(ListOf(t, key), req, clock, includeStale);
            && (r.Some? ==> slot in m && r.value == m[slot])
            && (slot in m && (includeStale || forall i :: IsFresh(m[slot], clock(i))) ==> r == Some(m[slot]))
            && (slot in m && !includeStale && (forall i :: !IsFresh(m[slot], clock(i))) ==> r == None)
  {
    var list := ListOf(t, key);
    var slot := (key, Variant(varyOf(key), req.header));
    assert RepresentsAt(list, m, key, varyOf);
    forall i | 0 <= i < |list| ensures Matches(req, list[i]) <==> SlotOf(list[i]) == slot {
      MatchesIsSameSlot(req, list[i]);
    }
    if slot in m {
      var i :| 0 <= i < |list| && list[i] == m[slot];
      if includeStale || forall i :: IsFresh(m[slot], clock(i)) {
        assert Served(list, i, req, clock, includeStale);
      }
    }
  }

  ghost predicate Untouched(e: Entry, ops: seq<Op>) {
    forall i :: 0 <= i < |ops| ==> ops[i] != Clean(e) && (ops[i].Put? ==> SlotOf(ops[i].e) != SlotOf(e))
  }

  lemma {:induction false} SlotKept(m: Variants, e: Entry, ops: seq<Op>)
    requires SlotOf(e) in m && m[SlotOf(e)] == e && Untouched(e, ops)
    ensures SlotOf(e) in RunOnMap(m, ops) && RunOnMap(m, ops)[SlotOf(e)] == e
  {
    if ops != [] {
      SlotKept(m, e, ops[..|ops| - 1]);
      assert Last(ops) == ops[|ops| - 1];
    }
  }

  /**
   The freshness window: through any later insertions and removals that do not touch it, an inserted entry is
   what every matching lookup before its expiration returns.
   */
  lemma FreshUntilExpiration(t: Table, m: Variants, varyOf: string -> string, e: Entry, ops: seq<Op>, req: Request, clock: nat -> Time)
    requires Represents(t, m, varyOf) && Uniform(e, varyOf) && UniformOps(ops, varyOf) && Untouched(e, ops)
    requires Matches(req, e) && forall i :: clock(i) < e.expiration
    ensures Lookup(ListOf(RunOps(ApplyOp(t, Put(e)), ops), e.key), req, clock, false) == Some(e)
  {
    OpRepresents(t, m, Put(e), varyOf);
    var t1, m1 := ApplyOp(t, Put(e)), ApplyToMap(m, Put(e));
    RunRepresents(t1, m1, ops, varyOf);
    SlotKept(m1, e, ops);
    MatchesIsSameSlot(req, e);
    GetRepresents(RunOps(t1, ops), RunOnMap(m1, ops), varyOf, e.key, req, clock, false);
  }

  /** From its expiration on no lookup that asks for fresh entries returns an entry, in any table at all. */
  lemma NeverAfterExpiration(list: seq<Entry>, e: Entry, req: Request, clock: nat -> Time)
    requires forall i :: clock(i) >= e.expiration
    ensures Lookup(list, req, clock, false) != Some(e)
  {
  }

  // ---------- Vary values that differ ----------

  lemma ReplacedMatches(list: seq<Entry>, e: Entry)
    ensures forall x :: x in Replaced(list, e) ==> x in list && Matches(e.request, x)
  {
    hide Matches;
  }

  /**
   Exactly when a displaced entry is no loss: every request that can be received and that it could answer is one that
   the new entry can answer, if and only if its Vary value covers the new entry's.
   */
  lemma DisplacementLosesNothing(list: seq<Entry>, e: Entry, x: Entry)
    requires x in Replaced(list, e) && Receivable(x.request.header) && Receivable(e.request.header)
    ensures (forall req: Request :: Receivable(req.header) && Matches(req, x) ==> Matches(req, e)) <==> Covers(x.vary, e.vary)
  {
    ReplacedMatches(list, e);
    hide Agree, Covers, Replaced, Receivable;
    if Covers(x.vary, e.vary) {
      forall req: Request | Receivable(req.header) && Matches(req, x) ensures Matches(req, e) {
        AgreeJoins(x.vary, req.header, x.request.header, e.request.header);
        CoversAgree(x.vary, e.vary, req.header, e.request.header);
      }
    } else {
      var h := Distinguish(x.vary, e.vary, x.request.header, e.request.header);
      var req := x.request.(header := h);
      assert Receivable(req.header) && Matches(req, x) && !Matches(req, e);
    }
  }

  lemma AgreeJoins(vary: string, h1: Header, h2: Header, h3: Header)
    requires Agree(vary, h1, h2) && Agree(vary, h3, h2)
    ensures Agree(vary, h1, h3)
  {
  }

  /**
   And for which Vary values, `vary1` of a stored entry and `vary2` of a new one, an insertion can displace an entry
   that its own request is then not answered by: those where the first does not cover the second.
   */
  lemma DisplacementIsPossible(vary1: string, vary2: string)
    ensures (exists list, x, e :: Displaces(list, x, e) && x.vary == vary1 && e.vary == vary2) <==> !Covers(vary1, vary2)
  {
    if !Covers(vary1, vary2) {
      assert Receivable(map[]);
      var h := Distinguish(vary1, vary2, map[], map[]);
      var x := Entry(0, "", true, 0, Request("GET", "/", h), vary1, 200);
      var e := Entry(1, "", true, 0, Request("GET", "/", map[]), vary2, 200);
      assert Matches(e.request, x);
      assert Displaces([x], x, e);
    }
    forall list, x, e | Displaces(list, x, e) && x.vary == vary1 && e.vary == vary2 ensures !Covers(vary1, vary2) {
      if Covers(vary1, vary2) {
        ReplacedMatches(list, e);
        CoversAgree(vary1, vary2, e.request.header, x.request.header);
      }
    }
  }

  /** Inserting `e` puts `x` out, and `x`'s own request is not one that `e` can answer; both came from requests received. */
  predicate Displaces(list: seq<Entry>, x: Entry, e: Entry) {
    && Receivable(x.request.header) && Receivable(e.request.header)
    && x.key == e.key && x in Replaced(list, e) && !Matches(x.request, e)
  }

  /** A value that names no field, or only ones that were named before, is covered: it never makes an entry a loss. */
  lemma NamelessIsCovered(vary: string)
    ensures Covers(vary, "") && Covers(vary, vary)
  {
    assert VaryNames("")[0] == "";
  }

  /** An instance: a response without Vary is displaced by one that varies. */
  lemma MixedVaryDisplaces() returns (first: Entry, second: Entry)
    ensures first.key == second.key && first.vary == "" && second.vary == "A" && !Matches(first.request, second)
    ensures Receivable(first.request.header) && Receivable(second.request.header)
    ensures PutList(PutList([], first), second) == [second]
  {
    var plain := Request("GET", "/", map["A" := ["1"]]);
    var other := Request("GET", "/", map["A" := ["2"]]);
    first := Entry(0, "k", true, 0, plain, "", 200);
    second := Entry(1, "k", true, 0, other, "A", 200);
    assert Matches(other, first) by {
      assert VaryNames("") == [""];
      assert Canonical("") == "";
    }
    assert !Matches(plain, second) by {
      assert "A"[1..] == "";
      assert Split("A", ',') == [['A'] + []] + [];
      assert TrimSpace("A") == "A";
      assert VaryNames("A")[0] == "A";
      assert Capitalize("A", true) == ['A'] + [];
      assert Canonical("A") == "A";
      assert Get(plain.header, VaryNames("A")[0]) != Get(other.header, VaryNames("A")[0]);
    }
  }
}
