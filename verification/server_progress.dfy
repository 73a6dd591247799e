/**
 Every request finishes: between two requests and upstreams that do something, the clock, timers, purges and removals
 of files may do anything, but each request and each upstream has only so many steps to take.

 The bound is given in terms of the largest body fetched in the run, `bytes` long, and the largest number of buffers
 that one is written in.
 */
module ServerProgress {
  import opened Entries
  import opened Http
  import opened Server
  import Freshness
  import ResponseSpec

  datatype Caps = Caps(bytes: nat, buffers: nat)

  ghost predicate Capped(fetches: seq<Fetched>, caps: Caps) {
    forall f :: 0 <= f < |fetches| ==>
      |ResponseSpec.Flatten(fetches[f].answer.bufs)| <= caps.bytes && |fetches[f].answer.bufs| <= caps.buffers
  }

  /** Every run has such bounds. */
  lemma {:induction false} CapsExist(fetches: seq<Fetched>) returns (caps: Caps)
    ensures Capped(fetches, caps)
  {
    if fetches == [] {
      return Caps(0, 0);
    }
    var bufs := Last(fetches).answer.bufs;
    var rest := CapsExist(fetches[..|fetches| - 1]);
    caps := Caps(rest.bytes + |ResponseSpec.Flatten(bufs)|, rest.buffers + |bufs|);
    forall f | 0 <= f < |fetches|
      ensures |ResponseSpec.Flatten(fetches[f].answer.bufs)| <= caps.bytes && |fetches[f].answer.bufs| <= caps.buffers
    {
      assert f < |fetches| - 1 ==> fetches[f] == fetches[..|fetches| - 1][f];
    }
  }

  // ---------- what is left to do ----------

  function StageRank(stage: Stage, bytes: nat): int {
    match stage
    case Copying(got) => bytes - |got| + 1
    case OpenFile => bytes + 2
    case AwaitToken => bytes + 3
    case ReadFlag => bytes + 4
    case Begin => bytes + 5
  }

  function FetchRank(caps: Caps): nat { 2 * caps.bytes + caps.buffers + 20 }

  function ModeRank(mode: Mode, caps: Caps): nat {
    match mode
    case Own(_) => 1
    case Stale(_) => caps.bytes + 9
    case Fresh => FetchRank(caps)
  }

  function Rank(pc: Pc, caps: Caps): int {
    match pc
    case Finished(_) => 0
    case Replying(_) => 1
    case PassingThrough(_) => 2
    case Serving(_, mode, stage) => ModeRank(mode, caps) + StageRank(stage, caps.bytes)
    case Inserting(_) => caps.bytes + 7
    case Backed(_) => caps.bytes + 8
    case Deciding(_) => caps.bytes + 9
    case GotHeaders(_) => 2 * caps.bytes + 15
    case AwaitHeaders(_) => 2 * caps.bytes + 16
    case NeedFetch => FetchRank(caps)
    case Locked(_) => FetchRank(caps) + caps.bytes + 6
    case Leaving => FetchRank(caps) + caps.bytes + 7
    case Entering => FetchRank(caps) + caps.bytes + 8
    case Start => FetchRank(caps) + caps.bytes + 9
  }

  function RespRank(r: Resp): nat {
    |r.pending| + match r.phase case Writing => 3 case Complete => 2 case TokenSent => 1 case Closed => 0
  }

  function Sum(s: seq<int>): int {
    if s == [] then 0 else Sum(s[..|s| - 1]) + Last(s)
  }

  function Ranks(threads: seq<Thread>, caps: Caps): seq<int> {
    seq(|threads|, i requires 0 <= i < |threads| => Rank(threads[i].pc, caps))
  }

  function RespRanks(resps: seq<Resp>): seq<int> {
    seq(|resps|, i requires 0 <= i < |resps| => RespRank(resps[i]))
  }

  function Left(s: State, caps: Caps): int { Sum(Ranks(s.threads, caps)) + Sum(RespRanks(s.net.resps)) }

  lemma {:induction false} SumUpdate(s: seq<int>, i: nat, x: int)
    requires i < |s|
    ensures Sum(s[i := x]) == Sum(s) - s[i] + x
  {
    var t := s[i := x];
    if i < |s| - 1 {
      SumUpdate(s[..|s| - 1], i, x);
      assert t[..|s| - 1] == s[..|s| - 1][i := x];
    } else {
      assert t[..|s| - 1] == s[..|s| - 1];
    }
  }

  lemma SumAppend(s: seq<int>, x: int)
    ensures Sum(s + [x]) == Sum(s) + x
  {
    assert (s + [x])[..|s|] == s;
  }

  lemma {:induction false} SumBounds(s: seq<int>, x: int)
    requires forall i :: 0 <= i < |s| ==> 0 <= s[i] <= x
    ensures 0 <= Sum(s) <= |s| * x
  {
    if s != [] {
      SumBounds(s[..|s| - 1], x);
    }
  }

  // ---------- each step takes some of it ----------

  /** A step of a request or of an upstream. */
  predicate Works(ev: Event) { OfThread(ev) || ev.Upstream? }

  /** What a fetch leaves to its upstream is accounted for in the rank of the thread before. */
  function Handed(ev: Event, caps: Caps): nat { if ev.Fetch? then caps.buffers + 3 else 0 }

  lemma ServeDecreases(net: Net, gone: bool, e: Entry, mode: Mode, stage: Stage, ok: bool, n: nat, caps: Caps)
    requires e.id < |net.resps| && ServeReady(net.resps[e.id], stage, ok, n) && |net.resps[e.id].stored| <= caps.bytes
    requires stage.Copying? ==> |stage.got| <= caps.bytes
    ensures Rank(AfterServe(net.resps[e.id], gone, e, mode, stage, ok, n), caps) < Rank(Serving(e, mode, stage), caps)
  {
  }

  lemma MoverDecreases(s: State, th: Thread, free: bool, ev: Event, caps: Caps)
    requires OfThread(ev) && Ready(s.net, th, free, ev)
    requires forall f :: 0 <= f < |s.net.resps| ==> |s.net.resps[f].stored| <= caps.bytes
    requires CopiedCapped(th.pc, caps)
    ensures Rank(NextPc(s, th, free, ev), caps) + Handed(ev, caps) < Rank(th.pc, caps)
  {
    hide Lookup, AfterServe;
    if ev.Serve? {
      ServeDecreases(s.net, th.pc.e in s.cache.removed, th.pc.e, th.pc.mode, th.pc.stage, ev.ok, ev.n, caps);
    }
  }

  predicate CopiedCapped(pc: Pc, caps: Caps) { pc.Serving? && pc.stage.Copying? ==> |pc.stage.got| <= caps.bytes }

  lemma ThreadCapped(net: Net, t: nat, th: Thread, caps: Caps)
    requires NetInv(net) && Capped(net.fetches, caps) && ThreadOk(net, t, th)
    ensures CopiedCapped(th.pc, caps)
  {
    StoredCapped(net, caps);
    hide NetInv, Capped, Known, ModeOk, ReplyOk, Mine;
  }

  lemma StoredCapped(net: Net, caps: Caps)
    requires NetInv(net) && Capped(net.fetches, caps)
    ensures forall f :: 0 <= f < |net.resps| ==> |net.resps[f].stored| <= caps.bytes
  {
    hide ResponseSpec.Flatten;
    forall f | 0 <= f < |net.resps| ensures |net.resps[f].stored| <= caps.bytes {
      var r := net.resps[f];
      assert |r.stored| <= |r.stored + ResponseSpec.Flatten(r.pending)|;
    }
  }

  lemma TouchDecreases(r: Resp, rev: ResponseSpec.Event)
    requires ResponseSpec.Enabled(r, rev)
    ensures RespRank(ResponseSpec.Apply(r, rev)) == RespRank(r) - if rev.SetBody? || rev.TakeToken? then 0 else 1
  {
  }

  lemma NetDecreases(cfg: Config, s: State, ev: Event, caps: Caps)
    requires Enabled(cfg, s, ev) && (ev.Fetch? ==> |ev.answer.bufs| <= caps.buffers)
    ensures Sum(RespRanks(NextNet(cfg, s, ev).resps)) <= Sum(RespRanks(s.net.resps)) + Handed(ev, caps) - if ev.Upstream? then 1 else 0
  {
    var resps, ranks := NextNet(cfg, s, ev).resps, RespRanks(s.net.resps);
    if ev.Fetch? {
      var r := ResponseSpec.NewResp(ev.answer.bufs);
      assert RespRanks(resps) == ranks + [RespRank(r)];
      SumAppend(ranks, RespRank(r));
    } else if Touch(cfg, s, ev) != [] {
      TouchEnabled(cfg, s, ev);
      var f, rev := Touch(cfg, s, ev)[0].0, Touch(cfg, s, ev)[0].1;
      TouchDecreases(s.net.resps[f], rev);
      assert RespRanks(resps) == ranks[f := RespRank(ResponseSpec.Apply(s.net.resps[f], rev))];
      SumUpdate(ranks, f, RespRank(ResponseSpec.Apply(s.net.resps[f], rev)));
    }
  }

  lemma ThreadsDecrease(cfg: Config, s: State, ev: Event, caps: Caps)
    requires NetInv(s.net) && ThreadsOk(s.net, s.threads) && Enabled(cfg, s, ev) && Capped(s.net.fetches, caps)
    ensures Sum(Ranks(NextThreads(cfg, s, ev), caps)) <= Sum(Ranks(s.threads, caps)) - if OfThread(ev) then 1 + Handed(ev, caps) else 0
  {
    if OfThread(ev) {
      var th, free := s.threads[ev.t], Free(cfg, s.cache, s.threads[ev.t].key);
      StoredCapped(s.net, caps);
      ThreadCapped(s.net, ev.t, th, caps);
      MoverDecreases(s, th, free, ev, caps);
      hide Rank, NextPc, Ready, NetInv, Capped, ThreadOk;
      var x := Rank(NextPc(s, th, free, ev), caps);
      assert Ranks(NextThreads(cfg, s, ev), caps) == Ranks(s.threads, caps)[ev.t := x];
      SumUpdate(Ranks(s.threads, caps), ev.t, x);
    }
  }

  /** Every step of a request or of an upstream takes some of what is left to do, and nothing else adds to it. */
  lemma LeftDecreases(cfg: Config, s: State, ev: Event, caps: Caps)
    requires NetInv(s.net) && ThreadsOk(s.net, s.threads) && Enabled(cfg, s, ev) && Capped(NextNet(cfg, s, ev).fetches, caps)
    ensures Left(Apply(cfg, s, ev), caps) <= Left(s, caps) - if Works(ev) then 1 else 0
  {
    var fetches := NextNet(cfg, s, ev).fetches;
    assert s.net.fetches <= fetches by { NetStep(cfg, s, ev); }
    if ev.Fetch? {
      assert fetches[|s.net.fetches|].answer == ev.answer;
    }
    assert Capped(s.net.fetches, caps);
    hide NetInv, ThreadsOk, Capped, Enabled, NextNet, NextThreads, Sum;
    NetDecreases(cfg, s, ev, caps);
    ThreadsDecrease(cfg, s, ev, caps);
  }

  // ---------- whole runs ----------

  ghost function Steps(run: seq<Event>): nat {
    if run == [] then 0 else Steps(run[..|run| - 1]) + if Works(Last(run)) then 1 else 0
  }

  function StepsPerRequest(caps: Caps): nat { 3 * caps.bytes + caps.buffers + 29 }

  lemma LeftInit(now: Freshness.Time, requests: seq<(string, Request)>, caps: Caps)
    ensures Left(Init(now, requests), caps) <= |requests| * StepsPerRequest(caps)
  {
    SumBounds(Ranks(Init(now, requests).threads, caps), StepsPerRequest(caps));
  }

  lemma LeftNatural(s: State, caps: Caps)
    requires NetInv(s.net) && ThreadsOk(s.net, s.threads) && Capped(s.net.fetches, caps)
    ensures Left(s, caps) >= 0
  {
    forall t | 0 <= t < |s.threads| ensures Rank(s.threads[t].pc, caps) >= 0 {
      ThreadCapped(s.net, t, s.threads[t], caps);
    }
    SumNatural(Ranks(s.threads, caps));
    SumNatural(RespRanks(s.net.resps));
  }

  lemma {:induction false} SumNatural(s: seq<int>)
    requires forall i :: 0 <= i < |s| ==> 0 <= s[i]
    ensures 0 <= Sum(s)
  {
    if s != [] {
      SumNatural(s[..|s| - 1]);
    }
  }

  lemma {:induction false} RunWorks(cfg: Config, now: Freshness.Time, requests: seq<(string, Request)>, run: seq<Event>, caps: Caps)
    requires Legal(cfg, Init(now, requests), run) && Capped(After(cfg, Init(now, requests), run).net.fetches, caps)
    ensures Steps(run) + Left(After(cfg, Init(now, requests), run), caps) <= |requests| * StepsPerRequest(caps)
    decreases |run|
  {
    if run == [] {
      LeftInit(now, requests, caps);
    } else {
      var before, ev := run[..|run| - 1], run[|run| - 1];
      var s := After(cfg, Init(now, requests), before);
      InvRun(cfg, now, requests, before);
      NetStep(cfg, s, ev);
      assert Capped(s.net.fetches, caps);
      RunWorks(cfg, now, requests, before, caps);
      LeftDecreases(cfg, s, ev, caps);
    }
  }

  /** No request, no upstream and no Clean that holds a bucket's lock can go on. */
  ghost predicate Stopped(cfg: Config, s: State) { forall ev :: Works(ev) || ev.CleanDone? ==> !Enabled(cfg, s, ev) }

  /** Every such Clean is one step, begun by one event of a timer or a purge. */
  ghost function CleansDone(run: seq<Event>): nat {
    if run == [] then 0 else CleansDone(run[..|run| - 1]) + if Last(run).CleanDone? then 1 else 0
  }

  ghost function CleansBegun(run: seq<Event>): nat {
    if run == [] then 0 else CleansBegun(run[..|run| - 1]) + if Last(run).Timer? || Last(run).Purge? then 1 else 0
  }

  lemma {:induction false} CleansAreBegun(cfg: Config, now: Freshness.Time, requests: seq<(string, Request)>, run: seq<Event>)
    requires Legal(cfg, Init(now, requests), run)
    ensures CleansDone(run) + |After(cfg, Init(now, requests), run).cache.cleaning| <= CleansBegun(run)
    decreases |run|
  {
    if run != [] {
      var before, ev := run[..|run| - 1], run[|run| - 1];
      CleansAreBegun(cfg, now, requests, before);
      CleaningMoves(cfg, After(cfg, Init(now, requests), before), ev);
      hide NextCache, NextNet, NextThreads, NextClients, NextSubscribers, Enabled, Init;
    }
  }

  lemma CleaningMoves(cfg: Config, s: State, ev: Event)
    requires Enabled(cfg, s, ev)
    ensures var n, n' := |s.cache.cleaning|, |NextCache(cfg, s, ev).cleaning|;
            if ev.Timer? || ev.Purge? then n' <= n + 1 else if ev.CleanDone? then n' == n - 1 else n' == n
  {
    if ev.Timer? || ev.Purge? {
      var cleaning, b := s.cache.cleaning, cfg.bucketOf(ev.e.key);
      assert cleaning[b := ev.e].Keys == cleaning.Keys + {b};
    } else if ev.CleanDone? {
      assert (s.cache.cleaning - {ev.b}).Keys == s.cache.cleaning.Keys - {ev.b};
    }
    hide PutList, RemoveEntry, Replaced;
  }

  /** Every request has been answered, and no lock is held: not a key's, not a bucket's of the locks or of the table. */
  ghost predicate AllFinished(s: State) {
    && (forall t :: 0 <= t < |s.threads| ==> s.threads[t].pc.Finished?)
    && s.locks == map[] && s.doors == map[] && s.cache.busy == {} && s.cache.cleaning == map[]
  }

  lemma StoppedIsFinished(cfg: Config, s: State)
    requires Reachable(cfg, s) && Stopped(cfg, s)
    ensures AllFinished(s)
  {
    hide Enabled, Reachable;
    CleanNeverWaits(cfg, s);
    assert s.cache.cleaning == map[] by {
      assert forall b :: b in s.cache.cleaning ==> !Enabled(cfg, s, CleanDone(b, true));
      assert s.cache.cleaning.Keys == {};
    }
    forall t | 0 <= t < |s.threads| ensures s.threads[t].pc.Finished? {
      if !s.threads[t].pc.Finished? {
        var ev := NoDeadlock(cfg, s, t, Answer(200, "", false, 0, []));
      }
    }
    OnlyHoldersLock(cfg, s);
    assert s.locks.Keys == {} && s.doors.Keys == {} && s.cache.busy == {};
  }

  lemma OnlyHoldersLock(cfg: Config, s: State)
    requires Reachable(cfg, s)
    ensures forall k :: k in s.locks ==> s.locks[k] < |s.threads| && !s.threads[s.locks[k]].pc.Finished?
    ensures forall b :: b in s.doors ==> s.doors[b] < |s.threads| && !s.threads[s.doors[b]].pc.Finished?
    ensures forall b :: b in s.cache.busy ==> exists t :: 0 <= t < |s.threads| && !s.threads[t].pc.Finished?
  {
    ReachableInv(cfg, s);
    hide Reachable;
  }

  /**
   Whatever the interleaving, the clock, the timers and the purges, requests and upstreams together take a bounded
   number of steps, each Clean under a bucket's lock is one more, and where none of them can take another, every
   request has been answered and every lock released.
   */
  lemma EveryRequestFinishes(cfg: Config, now: Freshness.Time, requests: seq<(string, Request)>, run: seq<Event>, caps: Caps)
    requires Legal(cfg, Init(now, requests), run) && Capped(After(cfg, Init(now, requests), run).net.fetches, caps)
    ensures Steps(run) <= |requests| * StepsPerRequest(caps) && CleansDone(run) <= CleansBegun(run)
    ensures var s := After(cfg, Init(now, requests), run);
            Stopped(cfg, s) ==> AllFinished(s)
  {
    var s := After(cfg, Init(now, requests), run);
    InvRun(cfg, now, requests, run);
    RunWorks(cfg, now, requests, run, caps);
    LeftNatural(s, caps);
    CleansAreBegun(cfg, now, requests, run);
    assert Reachable(cfg, s);
    hide Reachable, Inv, Capped, Stopped, Left, NetInv, ThreadsOk;
    if Stopped(cfg, s) {
      StoppedIsFinished(cfg, s);
    }
  }
}
