/**
 Where a hit comes from: the moment in the run at which the request's lookup found the entry, what the table held
 then, and the clock reading that showed the entry unexpired.
 */
module Hits {
  import opened Entries
  import opened Http
  import opened Server
  import Freshness

  type Time = Freshness.Time

  ghost predicate UsesAs(pc: Pc, e: Entry, mode: Mode) {
    match pc
    case Serving(x, m, _) => x == e && m == mode
    case Replying(reply) => reply.Hit? && reply.e == e && reply.mode == mode
    case Finished(reply) => reply.Hit? && reply.e == e && reply.mode == mode
    case _ => false
  }

  /** The event is a lookup of thread `t` that finds `e` in the table, and for the reason that `mode` gives. */
  ghost predicate Finds(s: State, ev: Server.Event, start: Time, t: nat, e: Entry, mode: Mode) {
    && t < |s.threads|
    && var list, request := ListOf(s.cache.table, s.threads[t].key), s.threads[t].request;
       match mode
       case Fresh =>
         && ev.Get? && ev.t == t && Lookup(list, request, ev.clock, false) == Some(e)
         && forall i :: start <= ev.clock(i) <= s.now
       case Stale(f) =>
         && ev == StaleGet(t) && Lookup(list, request, _ => s.now, true) == Some(e)
         && s.threads[t].pc == GotHeaders(f) && f < |s.net.fetches| && s.net.fetches[f].answer.code >= 500
       case Own(_) => false
  }

  /** Event `k` of the run is that lookup. */
  ghost predicate FoundAt(cfg: Config, s0: State, run: seq<Server.Event>, k: nat, t: nat, e: Entry, mode: Mode)
    requires Legal(cfg, s0, run)
    decreases |run|
  {
    k < |run| &&
    var before := run[..|run| - 1];
    if k == |run| - 1 then Finds(After(cfg, s0, before), run[k], s0.now, t, e, mode)
    else FoundAt(cfg, s0, before, k, t, e, mode)
  }

  /** A thread goes on serving what it serves, or has just found it. */
  lemma UsesFrom(s: State, th: Thread, free: bool, ev: Server.Event, e: Entry, mode: Mode)
    requires OfThread(ev) && Ready(s.net, th, free, ev) && UsesAs(NextPc(s, th, free, ev), e, mode) && !mode.Own?
    ensures UsesAs(th.pc, e, mode)
      || (ev.Get? && mode.Fresh? && Lookup(ListOf(s.cache.table, th.key), th.request, ev.clock, false) == Some(e))
      || (ev.StaleGet? && mode == Stale(th.pc.f) && s.net.fetches[th.pc.f].answer.code >= 500
          && Lookup(ListOf(s.cache.table, th.key), th.request, _ => s.now, true) == Some(e))
  {
    hide Lookup;
  }

  /** Whatever the threads know of the clock is not before the start of the run. */
  ghost predicate NotBefore(s: State, start: Time) {
    start <= s.now && forall t :: 0 <= t < |s.threads| && s.threads[t].pc.Locked? ==> start <= s.threads[t].pc.since
  }

  lemma NotBeforeStep(cfg: Config, s: State, ev: Server.Event, start: Time)
    requires NotBefore(s, start) && Enabled(cfg, s, ev)
    ensures NotBefore(Apply(cfg, s, ev), start)
  {
    hide Lookup, NextCache, NextNet, NextDoors, NextLocks;
  }

  lemma {:induction false} NotBeforeRun(cfg: Config, s0: State, run: seq<Server.Event>)
    requires Legal(cfg, s0, run) && NotBefore(s0, s0.now)
    ensures NotBefore(After(cfg, s0, run), s0.now)
    decreases |run|
  {
    if run != [] {
      NotBeforeRun(cfg, s0, run[..|run| - 1]);
      NotBeforeStep(cfg, After(cfg, s0, run[..|run| - 1]), run[|run| - 1], s0.now);
    }
  }

  /** Whatever a thread serves or has served as a hit, it found by a lookup of its own earlier in the run. */
  lemma {:induction false} HitWasFound(cfg: Config, now: Time, requests: seq<(string, Request)>, run: seq<Server.Event>, t: nat, e: Entry, mode: Mode)
    returns (k: nat)
    requires Legal(cfg, Init(now, requests), run) && !mode.Own?
    requires t < |After(cfg, Init(now, requests), run).threads| && UsesAs(After(cfg, Init(now, requests), run).threads[t].pc, e, mode)
    ensures FoundAt(cfg, Init(now, requests), run, k, t, e, mode)
    decreases |run|
  {
    var s0, before, ev := Init(now, requests), run[..|run| - 1], run[|run| - 1];
    var s := After(cfg, s0, before);
    hide UsesAs, Finds, Apply, NotBefore;
    NotBeforeRun(cfg, s0, before);
    FoundOrKept(cfg, s, ev, now, t, e, mode);
    if UsesAs(s.threads[t].pc, e, mode) {
      k := HitWasFound(cfg, now, requests, before, t, e, mode);
    } else {
      k := |run| - 1;
    }
  }

  lemma FoundOrKept(cfg: Config, s: State, ev: Server.Event, start: Time, t: nat, e: Entry, mode: Mode)
    requires Enabled(cfg, s, ev) && NotBefore(s, start) && !mode.Own?
    requires t < |Apply(cfg, s, ev).threads| && UsesAs(Apply(cfg, s, ev).threads[t].pc, e, mode)
    ensures t < |s.threads| && (UsesAs(s.threads[t].pc, e, mode) || Finds(s, ev, start, t, e, mode))
  {
    OthersStay(cfg, s, ev);
    hide NextPc, Lookup, NextCache, NextNet, NextDoors, NextLocks, NextThreads;
    if OfThread(ev) && ev.t == t {
      UsesFrom(s, s.threads[t], Free(cfg, s.cache, s.threads[t].key), ev, e, mode);
    }
  }

  lemma FoundBySome(cfg: Config, s0: State, run: seq<Server.Event>, k: nat, t: nat, e: Entry) returns (at: Time)
    requires Legal(cfg, s0, run) && FoundAt(cfg, s0, run, k, t, e, Fresh) && NotBefore(s0, s0.now)
    ensures run[k].Get? && run[k].t == t && exists i :: at == run[k].clock(i)
    ensures s0.now <= at <= After(cfg, s0, run).now && at < e.expiration
    decreases |run|
  {
    var before := run[..|run| - 1];
    var s := After(cfg, s0, before);
    if k == |run| - 1 {
      LookupFinds(ListOf(s.cache.table, s.threads[t].key), s.threads[t].request, run[k].clock, false);
      var i :| run[k].clock(i) < e.expiration;
      at := run[k].clock(i);
    } else {
      at := FoundBySome(cfg, s0, before, k, t, e);
    }
    hide Finds, NextPc, NextThreads, NextCache, NextNet, NextDoors, NextLocks;
  }

  /**
   Whatever threads, timers and purges do, a hit is what `CarriesStored` says, its client has been sent what
   `SentAfterBroken` says, and event `k` of the run is the
   request's own lookup that found its entry in the table: unexpired at `at`, a clock reading of that lookup, or as a
   stale entry after the request's own fetch had been answered with a code of 500 or more.
   */
  lemma HitSoundness(cfg: Config, now: Time, requests: seq<(string, Request)>, run: seq<Server.Event>, t: nat) returns (k: nat, at: Time)
    requires Legal(cfg, Init(now, requests), run) && t < |After(cfg, Init(now, requests), run).threads|
    requires var pc := After(cfg, Init(now, requests), run).threads[t].pc; pc.Finished? && pc.reply.Hit?
    ensures var s := After(cfg, Init(now, requests), run);
            var hit := s.threads[t].pc.reply;
            && CarriesStored(s, t, hit)
            && |s.clients| == |s.threads| && SentAfterBroken(s.clients[t], hit.code, hit.body)
            && FoundAt(cfg, Init(now, requests), run, k, t, hit.e, hit.mode)
            && (hit.mode.Fresh? ==> now <= at <= s.now && at < hit.e.expiration && run[k].Get? && exists i :: at == run[k].clock(i))
  {
    var s := After(cfg, Init(now, requests), run);
    var hit := s.threads[t].pc.reply;
    assert Reachable(cfg, s);
    HitIsWhole(cfg, s, t);
    assert !hit.mode.Own?;
    k := HitWasFound(cfg, now, requests, run, t, hit.e, hit.mode);
    at := now;
    hide CarriesStored, SentAfterBroken, Reachable, FoundAt, Legal, After;
    if hit.mode.Fresh? {
      at := FoundBySome(cfg, Init(now, requests), run, k, t, hit.e);
    }
  }
}
