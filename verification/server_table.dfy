/**
 The server's table over whole runs: it is what the insertions and removals of the run make of the empty table, and
 when the responses of each key share a Vary value it stands for the map from (key, variant) to entry that the same
 operations build.
 */
module ServerTable {
  import opened Entries
  import opened Http
  import opened Server
  import Freshness

  /** The insertion or removal that an event performs on the table, if any. */
  ghost function OpsOf(cfg: Config, s: State, ev: Server.Event): seq<Op>
    requires Enabled(cfg, s, ev)
  {
    match ev
    case PutEnd(t) => [Put(EntryOf(s.threads[t].pc.f, s.net.fetches[s.threads[t].pc.f]))]
    case Timer(e) => [Clean(e)]
    case Purge(e) => [Clean(e)]
    case _ => []
  }

  /** The insertions and removals of a run, in order. */
  ghost function OpsAlong(cfg: Config, s: State, run: seq<Server.Event>): seq<Op>
    requires Legal(cfg, s, run)
    decreases |run|
  {
    if run == [] then []
    else
      var before := run[..|run| - 1];
      OpsAlong(cfg, s, before) + OpsOf(cfg, After(cfg, s, before), run[|run| - 1])
  }

  lemma RunsNone(t: Table)
    ensures RunOps(t, []) == t
  {
  }

  lemma RunsOne(t: Table, op: Op)
    ensures RunOps(t, [op]) == ApplyOp(t, op)
  {
    assert [op][..0] == [];
    hide ApplyOp;
  }

  lemma TableFollowsOps(cfg: Config, s: State, ev: Server.Event)
    requires Enabled(cfg, s, ev)
    ensures NextCache(cfg, s, ev).table == RunOps(s.cache.table, OpsOf(cfg, s, ev))
  {
    hide PutList, RemoveEntry, Replaced, ListOf, RunOps, Timely;
    var ops := OpsOf(cfg, s, ev);
    RunsNone(s.cache.table);
    if ops != [] {
      RunsOne(s.cache.table, ops[0]);
    }
  }

  /** Doing one more operation, or none. */
  lemma OneMore(t: Table, m: Variants, ops: seq<Op>, last: seq<Op>)
    requires |last| <= 1
    ensures RunOps(t, ops + last) == RunOps(RunOps(t, ops), last)
    ensures RunOnMap(m, ops + last) == RunOnMap(RunOnMap(m, ops), last)
  {
    if last == [] {
      assert ops + last == ops;
    } else {
      assert (ops + last)[..|ops + last| - 1] == ops && last[..0] == [];
    }
    hide ApplyOp, ApplyToMap;
  }

  lemma TableStep(cfg: Config, s: State, ev: Server.Event, ops: seq<Op>)
    requires Enabled(cfg, s, ev) && s.cache.table == RunOps(map[], ops)
    ensures Apply(cfg, s, ev).cache.table == RunOps(map[], ops + OpsOf(cfg, s, ev))
  {
    hide RunOps, OpsOf, NextCache, NextNet, NextThreads, NextDoors, NextLocks, Enabled;
    TableFollowsOps(cfg, s, ev);
    OpsAreFew(cfg, s, ev);
    OneMore(map[], map[], ops, OpsOf(cfg, s, ev));
  }

  lemma OpsAreFew(cfg: Config, s: State, ev: Server.Event)
    requires Enabled(cfg, s, ev)
    ensures |OpsOf(cfg, s, ev)| <= 1
  {
  }

  /** In every reachable state the table is what the run's operations make of the empty one. */
  lemma {:induction false} TableIsRunOps(cfg: Config, now: Freshness.Time, requests: seq<(string, Request)>, run: seq<Server.Event>)
    requires Legal(cfg, Init(now, requests), run)
    ensures After(cfg, Init(now, requests), run).cache.table == RunOps(map[], OpsAlong(cfg, Init(now, requests), run))
    decreases |run|
  {
    if run != [] {
      var before, ev := run[..|run| - 1], run[|run| - 1];
      var s := After(cfg, Init(now, requests), before);
      hide RunOps, OpsOf, Apply, Enabled, Init;
      TableIsRunOps(cfg, now, requests, before);
      TableStep(cfg, s, ev, OpsAlong(cfg, Init(now, requests), before));
    }
  }

  /** Every answer has the Vary value that `varyOf` gives its key. */
  ghost predicate UniformAnswers(fetches: seq<Fetched>, varyOf: string -> string) {
    forall f :: 0 <= f < |fetches| ==> fetches[f].answer.vary == varyOf(fetches[f].key)
  }

  lemma FetchesGrow(cfg: Config, s: State, ev: Server.Event)
    requires Enabled(cfg, s, ev)
    ensures s.net.fetches <= NextNet(cfg, s, ev).fetches
  {
  }

  lemma OpsUniform(cfg: Config, s: State, ev: Server.Event, varyOf: string -> string)
    requires Enabled(cfg, s, ev) && UniformAnswers(s.net.fetches, varyOf)
    ensures UniformOps(OpsOf(cfg, s, ev), varyOf)
  {
  }

  lemma {:induction false} OpsAlongUniform(cfg: Config, s0: State, run: seq<Server.Event>, varyOf: string -> string)
    requires Legal(cfg, s0, run) && UniformAnswers(After(cfg, s0, run).net.fetches, varyOf)
    ensures UniformOps(OpsAlong(cfg, s0, run), varyOf)
    decreases |run|
  {
    if run != [] {
      var before, ev := run[..|run| - 1], run[|run| - 1];
      var s := After(cfg, s0, before);
      FetchesGrow(cfg, s, ev);
      assert UniformAnswers(s.net.fetches, varyOf);
      OpsAlongUniform(cfg, s0, before, varyOf);
      OpsUniform(cfg, s, ev, varyOf);
      hide OpsOf, Enabled, NextNet, NextThreads, NextCache, Uniform;
    }
  }

  /** The map that the run's operations build from the empty one. */
  ghost function MapAlong(cfg: Config, s: State, run: seq<Server.Event>): Variants
    requires Legal(cfg, s, run)
  {
    RunOnMap(map[], OpsAlong(cfg, s, run))
  }

  lemma EmptyRepresents(varyOf: string -> string)
    ensures Represents(map[], map[], varyOf)
  {
  }

  /**
   In every reachable state table and map are what the same operations make of the empty ones, and the table holds
   pairwise distinct variants: exactly the map's entries.
   */
  lemma TableIsMap(cfg: Config, now: Freshness.Time, requests: seq<(string, Request)>, run: seq<Server.Event>, varyOf: string -> string)
    requires Legal(cfg, Init(now, requests), run)
    requires UniformAnswers(After(cfg, Init(now, requests), run).net.fetches, varyOf)
    ensures After(cfg, Init(now, requests), run).cache.table == RunOps(map[], OpsAlong(cfg, Init(now, requests), run))
    ensures Represents(After(cfg, Init(now, requests), run).cache.table, MapAlong(cfg, Init(now, requests), run), varyOf)
  {
    EmptyRepresents(varyOf);
    hide Represents, RunOps, RunOnMap, OpsAlong, UniformOps, Init;
    TableIsRunOps(cfg, now, requests, run);
    OpsAlongUniform(cfg, Init(now, requests), run, varyOf);
    RunRepresents(map[], map[], OpsAlong(cfg, Init(now, requests), run), varyOf);
  }

  /** So what a thread's lookup finds is what that map holds for its variant, if that is fresh whenever it looks. */
  lemma LookupIsMapLookup(cfg: Config, now: Freshness.Time, requests: seq<(string, Request)>, run: seq<Server.Event>,
                          varyOf: string -> string, key: string, req: Request, clock: nat -> Freshness.Time)
    requires Legal(cfg, Init(now, requests), run)
    requires UniformAnswers(After(cfg, Init(now, requests), run).net.fetches, varyOf)
    ensures var m, slot := MapAlong(cfg, Init(now, requests), run), (key, Variant(varyOf(key), req.header));
            var r := Lookup(ListOf(After(cfg, Init(now, requests), run).cache.table, key), req, clock, false);
            && (r.Some? ==> slot in m && r.value == m[slot])
            && (slot in m && (forall i :: IsFresh(m[slot], clock(i))) ==> r == Some(m[slot]))
            && (slot in m && (forall i :: !IsFresh(m[slot], clock(i))) ==> r == None)
            && (slot !in m ==> r == None)
  {
    TableIsMap(cfg, now, requests, run, varyOf);
    GetRepresents(After(cfg, Init(now, requests), run).cache.table, MapAlong(cfg, Init(now, requests), run), varyOf, key, req, clock, false);
  }

  // ---------- the freshness window of a run ----------

  /** From its insertion at position `k` of the run on, `e` is neither removed nor replaced. */
  ghost predicate LeftAlone(cfg: Config, s: State, run: seq<Server.Event>, k: nat, e: Entry)
    requires Legal(cfg, s, run)
    decreases |run|
  {
    k < |run| &&
    var before := run[..|run| - 1];
    if k == |run| - 1 then run[k].PutEnd? && OpsOf(cfg, After(cfg, s, before), run[k]) == [Put(e)]
    else LeftAlone(cfg, s, before, k, e) && Untouched(e, OpsOf(cfg, After(cfg, s, before), run[|run| - 1]))
  }

  lemma {:induction false} SlotHeld(cfg: Config, s0: State, run: seq<Server.Event>, k: nat, e: Entry)
    requires Legal(cfg, s0, run) && LeftAlone(cfg, s0, run, k, e)
    ensures SlotOf(e) in MapAlong(cfg, s0, run) && MapAlong(cfg, s0, run)[SlotOf(e)] == e
    decreases |run|
  {
    var before, ev := run[..|run| - 1], run[|run| - 1];
    var s := After(cfg, s0, before);
    var last := OpsOf(cfg, s, ev);
    OneMore(map[], map[], OpsAlong(cfg, s0, before), last);
    if k == |run| - 1 {
      assert last[..0] == [];
    } else {
      SlotHeld(cfg, s0, before, k, e);
      SlotKept(MapAlong(cfg, s0, before), e, last);
    }
    hide SlotOf, Enabled, OpsOf;
  }

  /**
   The freshness window over runs of the server: an entry that has been inserted and since then neither cleaned by
   a timer or a purge nor replaced is what every matching lookup before its expiration finds; none finds it later.
   */
  lemma FreshUntilExpirationInRuns(cfg: Config, now: Freshness.Time, requests: seq<(string, Request)>, run: seq<Server.Event>,
                                   varyOf: string -> string, k: nat, e: Entry, req: Request, clock: nat -> Freshness.Time)
    requires Legal(cfg, Init(now, requests), run) && LeftAlone(cfg, Init(now, requests), run, k, e)
    requires UniformAnswers(After(cfg, Init(now, requests), run).net.fetches, varyOf)
    requires Matches(req, e)
    ensures var r := Lookup(ListOf(After(cfg, Init(now, requests), run).cache.table, e.key), req, clock, false);
            && ((forall i :: clock(i) < e.expiration) ==> r == Some(e))
            && ((forall i :: clock(i) >= e.expiration) ==> r == None)
  {
    var s0 := Init(now, requests);
    SlotHeld(cfg, s0, run, k, e);
    TableIsMap(cfg, now, requests, run, varyOf);
    var s, m := After(cfg, s0, run), MapAlong(cfg, s0, run);
    assert RepresentsAt(ListOf(s.cache.table, e.key), m, e.key, varyOf);
    assert e in ListOf(s.cache.table, e.key);
    assert Uniform(e, varyOf);
    MatchesIsSameSlot(req, e);
    GetRepresents(s.cache.table, m, varyOf, e.key, req, clock, false);
    hide Represents, RepresentsAt, Legal, After, LeftAlone, MapAlong, Matches, Lookup, Variant;
  }
}
