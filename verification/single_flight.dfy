/**
 Single flight: concurrent requests for one variant of one key make one upstream fetch.

 The premises concern one key, among any traffic for other keys: each of its fetches succeeds with a public response
 below 500 that has the key's Vary value and does not expire before a horizon the clock does not reach; its entries
 are not purged and their files not removed; and answering from the cache meets no error.  Any number of variants of
 the key may be requested.
 */
module SingleFlight {
  import opened Entries
  import opened Http
  import Freshness
  import opened Server
  import opened ServerProgress

  type Time = Freshness.Time

  datatype Premises = Premises(key: string, vary: string, horizon: Time)

  ghost predicate GoodAnswer(answer: Answer, p: Premises) {
    answer.isPublic && answer.code < 500 && answer.expiration >= p.horizon && answer.vary == p.vary
  }

  ghost predicate OnKey(s: State, ev: Event, p: Premises)
    requires OfThread(ev)
  {
    ev.t < |s.threads| && s.threads[ev.t].key == p.key
  }

  ghost predicate Quiet(s: State, ev: Event, p: Premises) {
    match ev
    case Tick(now) => now < p.horizon
    case Serve(_, ok, _) => OnKey(s, ev, p) ==> ok
    case Fetch(_, answer) => OnKey(s, ev, p) ==> GoodAnswer(answer, p)
    case Decide(_, errorSeen, backendMade) => OnKey(s, ev, p) ==> !errorSeen && backendMade
    case Timer(e) => e.key != p.key
    case Purge(e) => e.key != p.key
    case RemoveFile(e) => e.key != p.key
    case _ => true
  }

  ghost predicate QuietRun(cfg: Config, s: State, run: seq<Event>, p: Premises)
    requires Legal(cfg, s, run)
    decreases |run|
  {
    run == [] ||
    (QuietRun(cfg, s, run[..|run| - 1], p) && Quiet(After(cfg, s, run[..|run| - 1]), run[|run| - 1], p))
  }

  // ---------- the invariant ----------

  ghost predicate Has(fetches: seq<Fetched>, f: int, p: Premises) { 0 <= f < |fetches| && fetches[f].key == p.key }

  /** Fetch `f` was for the variant that a request with this header selects. */
  ghost predicate ForVariant(fetches: seq<Fetched>, f: int, header: Header, p: Premises) {
    Has(fetches, f, p) && Agree(p.vary, header, fetches[f].request.header)
  }

  /** The fetches of the key have good answers, and no two are for one variant. */
  ghost predicate FetchesOk(fetches: seq<Fetched>, p: Premises) {
    && (forall f :: Has(fetches, f, p) ==> GoodAnswer(fetches[f].answer, p))
    && (forall f, g :: Has(fetches, f, p) && ForVariant(fetches, g, fetches[f].request.header, p) ==> f == g)
  }

  predicate InFlight(pc: Pc, f: nat) { FetchPc(pc) && !pc.PassingThrough? && pc.f == f }

  /** The entry of fetch `f` is in the list, or the thread that fetched is still on its way to insert it. */
  ghost predicate Landed(list: seq<Entry>, net: Net, threads: seq<Thread>, f: nat)
    requires f < |net.fetches|
  {
    EntryOf(f, net.fetches[f]) in list
    || (net.fetches[f].thread < |threads| && InFlight(threads[net.fetches[f].thread].pc, f))
  }

  ghost predicate Unfetched(fetches: seq<Fetched>, t: nat, p: Premises) {
    forall f :: Has(fetches, f, p) ==> fetches[f].thread != t
  }

  /** A thread serves what the fetch for its variant stored: as its own, or as a hit without having fetched. */
  ghost predicate ServesAs(fetches: seq<Fetched>, t: nat, header: Header, e: Entry, mode: Mode, p: Premises) {
    && ForVariant(fetches, e.id, header, p) && e == EntryOf(e.id, fetches[e.id])
    && (if fetches[e.id].thread == t then mode == Own(e.id) else mode.Fresh? && Unfetched(fetches, t, p))
  }

  ghost predicate SettledReply(fetches: seq<Fetched>, t: nat, header: Header, reply: Reply, p: Premises) {
    match reply
    case Missed(f, _, _) => Has(fetches, f, p) && fetches[f].thread == t
    case Hit(e, mode, _, _) => ServesAs(fetches, t, header, e, mode, p) && mode.Fresh?
    case _ => false
  }

  /** Where a thread of the key can be. */
  ghost predicate Settled(fetches: seq<Fetched>, t: nat, th: Thread, p: Premises) {
    match th.pc
    case Start => Unfetched(fetches, t, p)
    case Entering => Unfetched(fetches, t, p)
    case Leaving => Unfetched(fetches, t, p)
    case Locked(_) => Unfetched(fetches, t, p)
    case NeedFetch => Unfetched(fetches, t, p) && forall f :: !ForVariant(fetches, f, th.request.header, p)
    case PassingThrough(_) => false
    case Serving(e, mode, _) => ServesAs(fetches, t, th.request.header, e, mode, p)
    case Replying(reply) => SettledReply(fetches, t, th.request.header, reply, p)
    case Finished(reply) => SettledReply(fetches, t, th.request.header, reply, p)
    case _ => Has(fetches, th.pc.f, p)
  }

  ghost predicate AllLanded(list: seq<Entry>, net: Net, threads: seq<Thread>, p: Premises) {
    forall f :: Has(net.fetches, f, p) ==> Landed(list, net, threads, f)
  }

  ghost predicate AllSettled(fetches: seq<Fetched>, threads: seq<Thread>, p: Premises) {
    forall t :: 0 <= t < |threads| && threads[t].key == p.key ==> Settled(fetches, t, threads[t], p)
  }

  /** No entry of the key is being cleaned, and no file of one has been removed. */
  ghost predicate KeyUncleaned(c: Cache, p: Premises) {
    && (forall e :: e in c.removed ==> e.key != p.key)
    && (forall b :: b in c.cleaning ==> c.cleaning[b].key != p.key)
  }

  ghost predicate FlightInv(s: State, p: Premises) {
    && s.now < p.horizon
    && KeyUncleaned(s.cache, p)
    && FetchesOk(s.net.fetches, p)
    && AllLanded(ListOf(s.cache.table, p.key), s.net, s.threads, p)
    && AllSettled(s.net.fetches, s.threads, p)
  }

  lemma FlightInit(now: Time, requests: seq<(string, Request)>, p: Premises)
    requires now < p.horizon
    ensures FlightInv(Init(now, requests), p)
  {
  }

  // ---------- what a step leaves alone ----------

  /** Only the key's own insertions change its list. */
  lemma ListStays(cfg: Config, s: State, ev: Event, p: Premises)
    requires ThreadsOk(s.net, s.threads) && Enabled(cfg, s, ev) && Quiet(s, ev, p)
    ensures !(ev.PutEnd? && OnKey(s, ev, p)) ==> ListOf(NextCache(cfg, s, ev).table, p.key) == ListOf(s.cache.table, p.key)
    ensures KeyUncleaned(s.cache, p) ==> KeyUncleaned(NextCache(cfg, s, ev), p)
  {
    hide PutList, RemoveEntry, Replaced, Known, ModeOk, StageOk, ReplyOk, Timely;
    if ev.PutEnd? {
      assert ThreadOk(s.net, ev.t, s.threads[ev.t]);
      hide ThreadOk;
    } else {
      hide ThreadsOk;
    }
  }

  /** The fetch that an event begins, if any. */
  ghost function Begun(cfg: Config, s: State, ev: Event): seq<Fetched>
    requires Enabled(cfg, s, ev)
  {
    if ev.Fetch? then [Fetched(s.threads[ev.t].key, s.threads[ev.t].request, ev.t, ev.answer)] else []
  }

  lemma FetchesMove(cfg: Config, s: State, ev: Event)
    requires Enabled(cfg, s, ev)
    ensures NextNet(cfg, s, ev).fetches == s.net.fetches + Begun(cfg, s, ev)
  {
    assert s.net.fetches + [] == s.net.fetches;
  }

  lemma SameFetches(fetches: seq<Fetched>, more: seq<Fetched>, p: Premises)
    requires forall i :: 0 <= i < |more| ==> more[i].key != p.key
    ensures forall f :: Has(fetches + more, f, p) <==> Has(fetches, f, p)
    ensures forall f :: Has(fetches + more, f, p) ==> (fetches + more)[f] == fetches[f]
  {
    assert forall f :: |fetches| <= f < |fetches + more| ==> (fetches + more)[f] == more[f - |fetches|];
  }

  /** A fetch for another key changes nothing for this one. */
  lemma SettledStays(fetches: seq<Fetched>, more: seq<Fetched>, t: nat, th: Thread, p: Premises)
    requires Settled(fetches, t, th, p) && (forall i :: 0 <= i < |more| ==> more[i].key != p.key)
    ensures Settled(fetches + more, t, th, p)
  {
    hide Agree, FetchPc;
    SameFetches(fetches, more, p);
    assert forall f :: ForVariant(fetches + more, f, th.request.header, p) ==> ForVariant(fetches, f, th.request.header, p);
    assert Unfetched(fetches, t, p) ==> Unfetched(fetches + more, t, p);
    assert forall e, mode :: ServesAs(fetches, t, th.request.header, e, mode, p) ==>
      ServesAs(fetches + more, t, th.request.header, e, mode, p) by {
      assert forall f :: Has(fetches, f, p) ==> Has(fetches + more, f, p);
    }
  }

  // ---------- the thread that moves ----------

  /** Every entry of the list is that of a fetch for the key with a good answer. */
  lemma ListedIsGood(s: State, p: Premises)
    requires Filed(s.cache) && Accounted(s.cache) && PutsInv(s.net, s.cache) && FetchesOk(s.net.fetches, p)
    ensures forall e :: e in ListOf(s.cache.table, p.key) ==>
              Has(s.net.fetches, e.id, p) && e == EntryOf(e.id, s.net.fetches[e.id]) && GoodAnswer(s.net.fetches[e.id].answer, p)
  {
    ListedWasPut(s.net, s.cache, p.key);
    hide Filed, Accounted, PutsInv, ListOf;
  }

  /** Whoever holds the key's lock and is in no fetch finds every fetch for the key landed in the list. */
  lemma HolderSeesAll(s: State, t: nat, f: nat, p: Premises)
    requires LockInv(s.threads, s.locks) && ThreadsOk(s.net, s.threads) && FlightInv(s, p)
    requires t < |s.threads| && s.threads[t].key == p.key && Holding(s.threads[t].pc) && !FetchPc(s.threads[t].pc)
    requires Has(s.net.fetches, f, p)
    ensures EntryOf(f, s.net.fetches[f]) in ListOf(s.cache.table, p.key)
  {
    hide FetchesOk, AllSettled, Known, ModeOk, StageOk, ReplyOk;
    assert Landed(ListOf(s.cache.table, p.key), s.net, s.threads, f);
    var u := s.net.fetches[f].thread;
    if u < |s.threads| {
      assert ThreadOk(s.net, u, s.threads[u]);
    }
  }

  /** If there has been a fetch for its variant, its lookup finds an entry. */
  lemma VariantIsServed(s: State, t: nat, f: nat, clock: nat -> Time, p: Premises)
    requires LockInv(s.threads, s.locks) && ThreadsOk(s.net, s.threads) && FlightInv(s, p)
    requires t < |s.threads| && s.threads[t].key == p.key && s.threads[t].pc.Locked? && forall i :: clock(i) <= s.now
    requires ForVariant(s.net.fetches, f, s.threads[t].request.header, p)
    ensures Lookup(ListOf(s.cache.table, p.key), s.threads[t].request, clock, false).Some?
  {
    var list, fetches := ListOf(s.cache.table, p.key), s.net.fetches;
    HolderSeesAll(s, t, f, p);
    var j :| 0 <= j < |list| && list[j] == EntryOf(f, fetches[f]);
    assert GoodAnswer(fetches[f].answer, p);
    assert Served(list, j, s.threads[t].request, clock, false);
    hide LockInv, ThreadsOk, AllLanded, AllSettled, Agree, ListOf;
  }

  lemma LookupSettles(s: State, t: nat, clock: nat -> Time, p: Premises)
    requires LockInv(s.threads, s.locks) && ThreadsOk(s.net, s.threads) && FlightInv(s, p)
    requires Filed(s.cache) && Accounted(s.cache) && PutsInv(s.net, s.cache)
    requires t < |s.threads| && s.threads[t].key == p.key && s.threads[t].pc.Locked? && forall i :: clock(i) <= s.now
    ensures var th := s.threads[t];
            Settled(s.net.fetches, t, th.(pc := Found(Lookup(ListOf(s.cache.table, p.key), th.request, clock, false), Fresh)), p)
  {
    var th, list, fetches := s.threads[t], ListOf(s.cache.table, p.key), s.net.fetches;
    ListedIsGood(s, p);
    assert Settled(fetches, t, th, p);
    var r := Lookup(list, th.request, clock, false);
    if r.None? {
      forall f ensures !ForVariant(fetches, f, th.request.header, p) {
        if ForVariant(fetches, f, th.request.header, p) {
          VariantIsServed(s, t, f, clock, p);
        }
      }
    } else {
      LookupFinds(list, th.request, clock, false);
    }
    hide Lookup, LockInv, ThreadsOk, Filed, Accounted, PutsInv, FetchesOk, AllLanded, AllSettled, Agree, ListOf;
  }

  /** Serving goes on without error to a reply. */
  lemma ServeSettles(s: State, t: nat, th: Thread, free: bool, ev: Event, p: Premises)
    requires ev.Serve? && ev.ok && Ready(s.net, th, free, ev) && Settled(s.net.fetches, t, th, p)
    requires forall e :: e in s.cache.removed ==> e.key != p.key
    ensures Settled(s.net.fetches, t, th.(pc := NextPc(s, th, free, ev)), p)
  {
    hide Unfetched, Agree;
  }

  /** The steps of a fetch with a good answer. */
  lemma FetchGoesOn(s: State, t: nat, th: Thread, free: bool, ev: Event, p: Premises)
    requires ev.Headers? || ev.StaleGet? || ev.Decide? || ev.PutBegin?
    requires Ready(s.net, th, free, ev) && Settled(s.net.fetches, t, th, p) && FetchesOk(s.net.fetches, p)
    requires ev.Decide? ==> !ev.errorSeen && ev.backendMade
    ensures InFlight(th.pc, th.pc.f) && InFlight(NextPc(s, th, free, ev), th.pc.f)
    ensures Settled(s.net.fetches, t, th.(pc := NextPc(s, th, free, ev)), p)
  {
    hide Lookup, Agree, Unfetched, ListOf;
    assert GoodAnswer(s.net.fetches[th.pc.f].answer, p);
  }

  /** The steps that have nothing to decide. */
  lemma SimpleSettles(s: State, t: nat, th: Thread, free: bool, ev: Event, p: Premises)
    requires ev.Enter? || ev.Acquire? || ev.Leave? || ev.PassDone? || ev.Release?
    requires Ready(s.net, th, free, ev) && Settled(s.net.fetches, t, th, p)
    ensures !FetchPc(th.pc) && Settled(s.net.fetches, t, th.(pc := NextPc(s, th, free, ev)), p)
  {
    hide Agree, Unfetched, SettledReply;
  }

  lemma MoverSettles(cfg: Config, s: State, ev: Event, p: Premises)
    requires Inv(cfg, s) && FlightInv(s, p) && OfThread(ev) && Enabled(cfg, s, ev) && OnKey(s, ev, p) && Quiet(s, ev, p)
    requires !ev.Fetch? && !ev.PutEnd?
    ensures Settled(s.net.fetches, ev.t, NextThreads(cfg, s, ev)[ev.t], p)
    ensures forall f :: InFlight(s.threads[ev.t].pc, f) ==> InFlight(NextThreads(cfg, s, ev)[ev.t].pc, f)
  {
    var t, th, free := ev.t, s.threads[ev.t], Free(cfg, s.cache, s.threads[ev.t].key);
    assert Settled(s.net.fetches, t, th, p) && FetchesOk(s.net.fetches, p);
    OthersStay(cfg, s, ev);
    hide Inv, FlightInv, AllSettled, AllLanded, FetchesOk, ListOf, Lookup, Agree, Unfetched, Settled, NextPc, NextThreads, NextNet, Found, Timely,
      AfterServe, ServeReady;
    if ev.Get? {
      LookupMoves(cfg, s, t, ev.clock, p);
    } else if ev.Serve? {
      ServeSettles(s, t, th, free, ev, p);
    } else if ev.Headers? || ev.StaleGet? || ev.Decide? || ev.PutBegin? {
      FetchGoesOn(s, t, th, free, ev, p);
    } else {
      SimpleSettles(s, t, th, free, ev, p);
    }
  }

  lemma LookupMoves(cfg: Config, s: State, t: nat, clock: nat -> Time, p: Premises)
    requires Inv(cfg, s) && FlightInv(s, p) && t < |s.threads| && s.threads[t].key == p.key && Enabled(cfg, s, Get(t, clock))
    ensures var th, free := s.threads[t], Free(cfg, s.cache, s.threads[t].key);
            Settled(s.net.fetches, t, th.(pc := NextPc(s, th, free, Get(t, clock))), p)
  {
    LookupSettles(s, t, clock, p);
    hide Inv, FlightInv, Settled, Found, Lookup;
  }

  // ---------- steps ----------

  lemma BegunElsewhere(cfg: Config, s: State, ev: Event, p: Premises)
    requires Enabled(cfg, s, ev) && (ev.Fetch? ==> !OnKey(s, ev, p))
    ensures forall i :: 0 <= i < |Begun(cfg, s, ev)| ==> Begun(cfg, s, ev)[i].key != p.key
  {
  }

  lemma AllStaySettled(cfg: Config, s: State, ev: Event, p: Premises)
    requires Enabled(cfg, s, ev) && AllSettled(s.net.fetches, s.threads, p) && (ev.Fetch? ==> !OnKey(s, ev, p))
    requires OfThread(ev) && OnKey(s, ev, p) ==> Settled(s.net.fetches, ev.t, NextThreads(cfg, s, ev)[ev.t], p)
    ensures AllSettled(NextNet(cfg, s, ev).fetches, NextThreads(cfg, s, ev), p)
  {
    OthersStay(cfg, s, ev);
    FetchesMove(cfg, s, ev);
    BegunElsewhere(cfg, s, ev, p);
    hide Enabled, NextThreads, NextNet, NextPc, Settled, Begun;
    var threads, more := NextThreads(cfg, s, ev), Begun(cfg, s, ev);
    forall t | 0 <= t < |threads| && threads[t].key == p.key ensures Settled(s.net.fetches + more, t, threads[t], p) {
      SettledStays(s.net.fetches, more, t, threads[t], p);
    }
  }

  lemma AllStayLanded(cfg: Config, s: State, ev: Event, p: Premises)
    requires Enabled(cfg, s, ev) && AllLanded(ListOf(s.cache.table, p.key), s.net, s.threads, p) && (ev.Fetch? ==> !OnKey(s, ev, p))
    requires OfThread(ev) && OnKey(s, ev, p) ==> forall f :: InFlight(s.threads[ev.t].pc, f) ==> InFlight(NextThreads(cfg, s, ev)[ev.t].pc, f)
    requires ThreadsOk(s.net, s.threads)
    ensures AllLanded(ListOf(s.cache.table, p.key), NextNet(cfg, s, ev), NextThreads(cfg, s, ev), p)
  {
    var list, net, threads, more := ListOf(s.cache.table, p.key), NextNet(cfg, s, ev), NextThreads(cfg, s, ev), Begun(cfg, s, ev);
    OthersStay(cfg, s, ev);
    FetchesMove(cfg, s, ev);
    BegunElsewhere(cfg, s, ev, p);
    SameFetches(s.net.fetches, more, p);
    hide Enabled, NextThreads, NextNet, NextPc, Begun, ListOf, ThreadsOk, InFlight, Landed;
    forall f | Has(net.fetches, f, p) ensures Landed(list, net, threads, f) {
      FlightIsOnKey(s, ev, f, p);
      StillLanded(s, ev, list, net, threads, f, p);
    }
  }

  /** The thread of a fetch in flight for the key is one of the key. */
  lemma FlightIsOnKey(s: State, ev: Event, f: nat, p: Premises)
    requires ThreadsOk(s.net, s.threads) && Has(s.net.fetches, f, p)
    ensures OfThread(ev) && ev.t < |s.threads| && InFlight(s.threads[ev.t].pc, f) ==> OnKey(s, ev, p)
  {
    if OfThread(ev) && ev.t < |s.threads| {
      assert ThreadOk(s.net, ev.t, s.threads[ev.t]);
    }
  }

  /** A step that is neither a fetch nor an insertion for the key. */
  lemma OrdinaryStep(cfg: Config, s: State, ev: Event, p: Premises)
    requires Inv(cfg, s) && FlightInv(s, p) && Enabled(cfg, s, ev) && Quiet(s, ev, p)
    requires (ev.Fetch? || ev.PutEnd?) ==> !OnKey(s, ev, p)
    ensures FlightInv(Apply(cfg, s, ev), p)
  {
    hide Enabled, NextThreads, NextNet, NextCache, NextDoors, NextLocks, NextPc, ListOf, Settled, InFlight, FetchesOk, AllSettled,
      AllLanded, Begun, Has;
    if OfThread(ev) && OnKey(s, ev, p) {
      MoverSettles(cfg, s, ev, p);
    }
    ListStays(cfg, s, ev, p);
    OthersStay(cfg, s, ev);
    FetchesMove(cfg, s, ev);
    BegunElsewhere(cfg, s, ev, p);
    FetchesStayOk(s.net.fetches, Begun(cfg, s, ev), p);
    AllStaySettled(cfg, s, ev, p);
    AllStayLanded(cfg, s, ev, p);
    hide Inv;
  }

  lemma FetchesStayOk(fetches: seq<Fetched>, more: seq<Fetched>, p: Premises)
    requires FetchesOk(fetches, p) && forall i :: 0 <= i < |more| ==> more[i].key != p.key
    ensures FetchesOk(fetches + more, p) && forall f :: Has(fetches + more, f, p) ==> Has(fetches, f, p) && (fetches + more)[f] == fetches[f]
  {
    hide Agree, GoodAnswer;
    SameFetches(fetches, more, p);
    forall f, g | Has(fetches + more, f, p) && ForVariant(fetches + more, g, (fetches + more)[f].request.header, p) ensures f == g {
      assert Has(fetches + more, g, p);
      assert ForVariant(fetches, g, fetches[f].request.header, p);
    }
  }

  lemma StillLanded(s: State, ev: Event, list: seq<Entry>, net: Net, threads: seq<Thread>, f: nat, p: Premises)
    requires Has(s.net.fetches, f, p) && f < |net.fetches| && net.fetches[f] == s.net.fetches[f]
    requires Landed(list, s.net, s.threads, f) && |threads| == |s.threads|
    requires forall u :: 0 <= u < |threads| && (OfThread(ev) ==> u != ev.t) ==> threads[u] == s.threads[u]
    requires OfThread(ev) && ev.t < |threads| ==> (InFlight(s.threads[ev.t].pc, f) ==> InFlight(threads[ev.t].pc, f))
    ensures Landed(list, net, threads, f)
  {
  }

  /** A thread about to fetch holds the key's lock, so no other is. */
  lemma OneFetcher(s: State, t: nat, u: nat, p: Premises)
    requires LockInv(s.threads, s.locks) && t < |s.threads| && u < |s.threads|
    requires s.threads[t].key == s.threads[u].key && s.threads[t].pc.NeedFetch? && s.threads[u].pc.NeedFetch?
    ensures t == u
  {
  }

  lemma FetcherSettles(cfg: Config, s: State, ev: Event, p: Premises)
    requires Enabled(cfg, s, ev) && ev.Fetch? && OnKey(s, ev, p)
    ensures var f := |s.net.fetches|;
            && Begun(cfg, s, ev) == [Fetched(p.key, s.threads[ev.t].request, ev.t, ev.answer)]
            && s.threads[ev.t].pc.NeedFetch? && NextThreads(cfg, s, ev)[ev.t].pc == AwaitHeaders(f)
            && Settled(s.net.fetches + Begun(cfg, s, ev), ev.t, NextThreads(cfg, s, ev)[ev.t], p)
  {
  }

  lemma FetchSettles(cfg: Config, s: State, ev: Event, p: Premises)
    requires LockInv(s.threads, s.locks) && AllSettled(s.net.fetches, s.threads, p)
    requires Enabled(cfg, s, ev) && ev.Fetch? && OnKey(s, ev, p)
    ensures AllSettled(s.net.fetches + Begun(cfg, s, ev), NextThreads(cfg, s, ev), p)
  {
    OthersStay(cfg, s, ev);
    FetchesMove(cfg, s, ev);
    FetcherSettles(cfg, s, ev, p);
    hide Enabled, NextThreads, NextNet, NextPc, Settled, Begun;
    var threads, x := NextThreads(cfg, s, ev), Begun(cfg, s, ev)[0];
    forall u | 0 <= u < |threads| && threads[u].key == p.key ensures Settled(s.net.fetches + [x], u, threads[u], p) {
      if u != ev.t {
        if s.threads[u].pc.NeedFetch? {
          OneFetcher(s, ev.t, u, p);
        }
        SettledBeside(s.net.fetches, x, u, threads[u], p);
      }
    }
  }

  lemma FetchLands(cfg: Config, s: State, ev: Event, p: Premises)
    requires AllLanded(ListOf(s.cache.table, p.key), s.net, s.threads, p) && Enabled(cfg, s, ev) && ev.Fetch? && OnKey(s, ev, p)
    ensures AllLanded(ListOf(s.cache.table, p.key), NextNet(cfg, s, ev), NextThreads(cfg, s, ev), p)
  {
    var list, net, threads := ListOf(s.cache.table, p.key), NextNet(cfg, s, ev), NextThreads(cfg, s, ev);
    OthersStay(cfg, s, ev);
    FetchesMove(cfg, s, ev);
    FetcherSettles(cfg, s, ev, p);
    hide Enabled, NextThreads, NextNet, NextPc, Begun, ListOf, Settled;
    forall f | Has(net.fetches, f, p) ensures Landed(list, net, threads, f) {
      if f < |s.net.fetches| {
        assert Has(s.net.fetches, f, p);
        StillLanded(s, ev, list, net, threads, f, p);
      }
    }
  }

  lemma FetchStep(cfg: Config, s: State, ev: Event, p: Premises)
    requires Inv(cfg, s) && FlightInv(s, p) && Enabled(cfg, s, ev) && Quiet(s, ev, p) && ev.Fetch? && OnKey(s, ev, p)
    ensures FlightInv(Apply(cfg, s, ev), p)
  {
    assert Settled(s.net.fetches, ev.t, s.threads[ev.t], p);
    FetcherSettles(cfg, s, ev, p);
    ListStays(cfg, s, ev, p);
    OthersStay(cfg, s, ev);
    FetchesMove(cfg, s, ev);
    NewFetchOk(s.net.fetches, Begun(cfg, s, ev)[0], p);
    hide NextThreads, NextNet, NextCache, NextDoors, NextLocks, ListOf, Settled, FetchesOk, AllSettled, AllLanded, Begun, Enabled;
    FetchSettles(cfg, s, ev, p);
    FetchLands(cfg, s, ev, p);
    hide Inv;
  }

  lemma NewFetchOk(fetches: seq<Fetched>, x: Fetched, p: Premises)
    requires FetchesOk(fetches, p) && x.key == p.key && GoodAnswer(x.answer, p)
    requires forall f :: !ForVariant(fetches, f, x.request.header, p)
    ensures FetchesOk(fetches + [x], p)
  {
    hide GoodAnswer, Agree;
    var all := fetches + [x];
    forall f, g | Has(all, f, p) && ForVariant(all, g, all[f].request.header, p) ensures f == g {
      assert !ForVariant(fetches, f, x.request.header, p) && !ForVariant(fetches, g, x.request.header, p);
      if f < |fetches| && g < |fetches| {
        assert Has(fetches, f, p) && ForVariant(fetches, g, fetches[f].request.header, p);
      } else if f < |fetches| {
        AgreeFlips(p.vary, fetches[f].request.header, x.request.header);
      }
    }
    forall f | Has(all, f, p) ensures GoodAnswer(all[f].answer, p) {
      assert f < |fetches| ==> Has(fetches, f, p);
    }
  }

  lemma AgreeFlips(vary: string, h1: Header, h2: Header)
    requires Agree(vary, h1, h2)
    ensures Agree(vary, h2, h1)
  {
  }

  /** A fetch of another thread for the key, made while this one is not about to fetch. */
  lemma SettledBeside(fetches: seq<Fetched>, x: Fetched, t: nat, th: Thread, p: Premises)
    requires Settled(fetches, t, th, p) && x.thread != t && !th.pc.NeedFetch?
    ensures Settled(fetches + [x], t, th, p)
  {
    hide Agree;
    assert forall f :: Has(fetches, f, p) ==> Has(fetches + [x], f, p) && (fetches + [x])[f] == fetches[f];
    assert forall f :: Has(fetches + [x], f, p) ==> Has(fetches, f, p) || (fetches + [x])[f] == x;
  }

  /** No stored entry is for the variant being inserted, so it goes to the end of the list. */
  lemma InsertsAtEnd(cfg: Config, s: State, t: nat, p: Premises)
    requires Inv(cfg, s) && FlightInv(s, p) && Enabled(cfg, s, PutEnd(t)) && s.threads[t].key == p.key
    ensures var f, list := s.threads[t].pc.f, ListOf(s.cache.table, p.key);
            && Has(s.net.fetches, f, p) && s.net.fetches[f].thread == t && s.net.fetches[f].request == s.threads[t].request
            && PutList(list, EntryOf(f, s.net.fetches[f])) == list + [EntryOf(f, s.net.fetches[f])]
  {
    var f, list, fetches := s.threads[t].pc.f, ListOf(s.cache.table, p.key), s.net.fetches;
    var e := EntryOf(f, fetches[f]);
    ListedIsGood(s, p);
    assert ThreadOk(s.net, t, s.threads[t]);
    assert NotPut(s.threads[t].pc) && FetchOf(s.threads[t].pc) == f;
    forall x | x in list ensures !Matches(e.request, x) {
      assert Resident(s.cache, x) && x in s.cache.puts;
      assert Has(fetches, f, p) && x.id != f;
      assert !ForVariant(fetches, x.id, fetches[f].request.header, p);
    }
    hide Inv, Agree, AllLanded, AllSettled, FetchesOk, ListOf;
  }

  lemma ListGrows(cfg: Config, s: State, t: nat, p: Premises)
    requires Inv(cfg, s) && FlightInv(s, p) && Enabled(cfg, s, PutEnd(t)) && s.threads[t].key == p.key
    ensures var f := s.threads[t].pc.f;
            && Has(s.net.fetches, f, p) && s.net.fetches[f].thread == t && s.net.fetches[f].request == s.threads[t].request
            && ListOf(NextCache(cfg, s, PutEnd(t)).table, p.key) == ListOf(s.cache.table, p.key) + [EntryOf(f, s.net.fetches[f])]
  {
    InsertsAtEnd(cfg, s, t, p);
    hide Inv, FlightInv, PutList, Replaced;
  }

  lemma InserterSettles(cfg: Config, s: State, t: nat, p: Premises)
    requires Enabled(cfg, s, PutEnd(t)) && s.threads[t].key == p.key
    requires var f := s.threads[t].pc.f; Has(s.net.fetches, f, p) && s.net.fetches[f].thread == t && s.net.fetches[f].request == s.threads[t].request
    ensures Settled(s.net.fetches, t, NextThreads(cfg, s, PutEnd(t))[t], p)
  {
    AgreeWithSelf(p.vary, s.threads[t].request.header);
    hide Agree;
  }

  lemma InsertionLands(cfg: Config, s: State, t: nat, list: seq<Entry>, p: Premises)
    requires AllLanded(list, s.net, s.threads, p) && Enabled(cfg, s, PutEnd(t)) && s.threads[t].pc.f < |s.net.fetches|
    ensures AllLanded(list + [EntryOf(s.threads[t].pc.f, s.net.fetches[s.threads[t].pc.f])],
                      NextNet(cfg, s, PutEnd(t)), NextThreads(cfg, s, PutEnd(t)), p)
  {
    OthersStay(cfg, s, PutEnd(t));
    FetchesMove(cfg, s, PutEnd(t));
    assert Begun(cfg, s, PutEnd(t)) == [] && s.net.fetches + [] == s.net.fetches;
    hide Enabled, NextThreads, NextNet, NextPc, Begun;
    var net, threads, f := NextNet(cfg, s, PutEnd(t)), NextThreads(cfg, s, PutEnd(t)), s.threads[t].pc.f;
    forall g | Has(net.fetches, g, p) ensures Landed(list + [EntryOf(f, s.net.fetches[f])], net, threads, g) {
      assert Has(s.net.fetches, g, p) && Landed(list, s.net, s.threads, g);
    }
  }

  lemma InsertionSettles(cfg: Config, s: State, t: nat, p: Premises)
    requires Inv(cfg, s) && FlightInv(s, p) && Enabled(cfg, s, PutEnd(t)) && s.threads[t].key == p.key
    ensures AllSettled(NextNet(cfg, s, PutEnd(t)).fetches, NextThreads(cfg, s, PutEnd(t)), p)
  {
    ListGrows(cfg, s, t, p);
    InserterSettles(cfg, s, t, p);
    AllStaySettled(cfg, s, PutEnd(t), p);
    hide *;
  }

  lemma InsertionLandsInList(cfg: Config, s: State, t: nat, p: Premises)
    requires Inv(cfg, s) && FlightInv(s, p) && Enabled(cfg, s, PutEnd(t)) && s.threads[t].key == p.key
    ensures AllLanded(ListOf(NextCache(cfg, s, PutEnd(t)).table, p.key), NextNet(cfg, s, PutEnd(t)), NextThreads(cfg, s, PutEnd(t)), p)
  {
    ListGrows(cfg, s, t, p);
    InsertionLands(cfg, s, t, ListOf(s.cache.table, p.key), p);
    hide *;
  }

  lemma InsertionStep(cfg: Config, s: State, t: nat, p: Premises)
    requires Inv(cfg, s) && FlightInv(s, p) && Enabled(cfg, s, PutEnd(t)) && s.threads[t].key == p.key
    ensures FlightInv(Apply(cfg, s, PutEnd(t)), p)
  {
    var ev := PutEnd(t);
    assert Begun(cfg, s, ev) == [] && s.net.fetches + [] == s.net.fetches;
    InsertionSettles(cfg, s, t, p);
    InsertionLandsInList(cfg, s, t, p);
    hide NextThreads, NextNet, NextCache, NextDoors, NextLocks, ListOf, FetchesOk, AllSettled, AllLanded, Begun, Enabled;
    ListStays(cfg, s, ev, p);
    FetchesMove(cfg, s, ev);
    hide Inv;
  }

  lemma AgreeWithSelf(vary: string, h: Header)
    ensures Agree(vary, h, h)
  {
  }

  lemma FlightStep(cfg: Config, s: State, ev: Event, p: Premises)
    requires Inv(cfg, s) && FlightInv(s, p) && Enabled(cfg, s, ev) && Quiet(s, ev, p)
    ensures FlightInv(Apply(cfg, s, ev), p)
  {
    hide Inv, FlightInv, Apply, Quiet, Enabled;
    if ev.Fetch? && OnKey(s, ev, p) {
      FetchStep(cfg, s, ev, p);
    } else if ev.PutEnd? && OnKey(s, ev, p) {
      InsertionStep(cfg, s, ev.t, p);
    } else {
      OrdinaryStep(cfg, s, ev, p);
    }
  }

  lemma {:induction false} FlightRun(cfg: Config, now: Time, requests: seq<(string, Request)>, run: seq<Event>, p: Premises)
    requires now < p.horizon && Legal(cfg, Init(now, requests), run) && QuietRun(cfg, Init(now, requests), run, p)
    ensures FlightInv(After(cfg, Init(now, requests), run), p)
    decreases |run|
  {
    if run == [] {
      FlightInit(now, requests, p);
    } else {
      var before := run[..|run| - 1];
      FlightRun(cfg, now, requests, before, p);
      InvRun(cfg, now, requests, before);
      FlightStep(cfg, After(cfg, Init(now, requests), before), run[|run| - 1], p);
      hide FlightInv, Inv, Apply, Quiet, Enabled, Init;
    }
  }

  // ---------- single flight ----------

  /** Thread `t` is answered from fetch `f`, the only one for its variant: by a miss if it is its own, else by a hit. */
  ghost predicate AnsweredFrom(s: State, t: nat, f: nat, p: Premises)
    requires t < |s.threads|
  {
    var th, fetches := s.threads[t], s.net.fetches;
    && ForVariant(fetches, f, th.request.header, p)
    && (forall g :: ForVariant(fetches, g, th.request.header, p) ==> g == f)
    && th.pc.Finished?
    && (if fetches[f].thread == t then th.pc.reply.Missed? && th.pc.reply.f == f
        else th.pc.reply.Hit? && th.pc.reply.mode.Fresh? && th.pc.reply.e == EntryOf(f, fetches[f]))
  }

  lemma FinishedIsAnswered(cfg: Config, s: State, t: nat, p: Premises) returns (f: nat)
    requires Inv(cfg, s) && FlightInv(s, p) && t < |s.threads| && s.threads[t].key == p.key && s.threads[t].pc.Finished?
    ensures AnsweredFrom(s, t, f, p)
  {
    var th, fetches := s.threads[t], s.net.fetches;
    assert Settled(fetches, t, th, p) && ThreadOk(s.net, t, th);
    f := if th.pc.reply.Missed? then th.pc.reply.f else th.pc.reply.e.id;
    AgreeWithSelf(p.vary, th.request.header);
    assert ForVariant(fetches, f, th.request.header, p);
    forall g | ForVariant(fetches, g, th.request.header, p) ensures g == f {
      AgreeFlips(p.vary, th.request.header, fetches[f].request.header);
      AgreeChains(p.vary, fetches[f].request.header, th.request.header, fetches[g].request.header);
      assert ForVariant(fetches, g, fetches[f].request.header, p);
    }
    hide Inv, Agree, AllLanded, AllSettled, FetchesOk;
  }

  lemma AgreeChains(vary: string, h1: Header, h2: Header, h3: Header)
    requires Agree(vary, h1, h2) && Agree(vary, h2, h3)
    ensures Agree(vary, h1, h3)
  {
  }

  /**
   At any point of a quiet run no two fetches for the key were for one variant, and every request for the key that is
   finished was answered from the one fetch for its variant.
   */
  lemma SingleFlight(cfg: Config, now: Time, requests: seq<(string, Request)>, run: seq<Event>, p: Premises)
    requires now < p.horizon && Legal(cfg, Init(now, requests), run) && QuietRun(cfg, Init(now, requests), run, p)
    ensures var s := After(cfg, Init(now, requests), run);
            && (forall f, g :: Has(s.net.fetches, f, p) && ForVariant(s.net.fetches, g, s.net.fetches[f].request.header, p) ==> f == g)
            && forall t :: 0 <= t < |s.threads| && s.threads[t].key == p.key && s.threads[t].pc.Finished? ==>
                 exists f :: AnsweredFrom(s, t, f, p)
  {
    var s := After(cfg, Init(now, requests), run);
    FlightRun(cfg, now, requests, run, p);
    InvRun(cfg, now, requests, run);
    forall t | 0 <= t < |s.threads| && s.threads[t].key == p.key && s.threads[t].pc.Finished? ensures exists f :: AnsweredFrom(s, t, f, p) {
      var f := FinishedIsAnswered(cfg, s, t, p);
    }
    hide Inv, AllLanded, AllSettled, AnsweredFrom, ForVariant;
  }

  lemma WithoutErrorIsQuiet(s: State, ev: Event, answer: Answer, p: Premises)
    requires WithoutError(ev, answer) && GoodAnswer(answer, p)
    ensures Quiet(s, ev, p) && (Works(ev) || ev.CleanDone?)
  {
  }

  /** A quiet run in which some request is not finished can go on quietly. */
  lemma QuietProgress(cfg: Config, now: Time, requests: seq<(string, Request)>, run: seq<Event>, p: Premises, t: nat, answer: Answer)
    returns (ev: Event)
    requires Legal(cfg, Init(now, requests), run) && QuietRun(cfg, Init(now, requests), run, p) && GoodAnswer(answer, p)
    requires t < |After(cfg, Init(now, requests), run).threads| && !After(cfg, Init(now, requests), run).threads[t].pc.Finished?
    ensures var longer := run + [ev]; (Works(ev) || ev.CleanDone?) && Legal(cfg, Init(now, requests), longer) && QuietRun(cfg, Init(now, requests), longer, p)
  {
    var s := After(cfg, Init(now, requests), run);
    assert Reachable(cfg, s);
    ev := NoDeadlock(cfg, s, t, answer);
    WithoutErrorIsQuiet(s, ev, answer, p);
    assert (run + [ev])[..|run + [ev]| - 1] == run;
    hide Reachable, Enabled, Quiet;
  }

  /** No request, no upstream and no Clean that holds a bucket's lock can go on quietly. */
  ghost predicate QuietlyStopped(cfg: Config, s: State, p: Premises) {
    forall ev :: (Works(ev) || ev.CleanDone?) && Quiet(s, ev, p) ==> !Enabled(cfg, s, ev)
  }

  /**
   So when a quiet run stops, and `EveryRequestFinishes` bounds how long that can take, every request for the key has
   been answered from exactly one fetch for its variant: the one that fetched has a miss and all the others have a hit
   on what it stored.
   */
  lemma ExactlyOneFetch(cfg: Config, now: Time, requests: seq<(string, Request)>, run: seq<Event>, p: Premises)
    requires now < p.horizon && Legal(cfg, Init(now, requests), run) && QuietRun(cfg, Init(now, requests), run, p)
    requires QuietlyStopped(cfg, After(cfg, Init(now, requests), run), p)
    ensures var s := After(cfg, Init(now, requests), run);
            forall t :: 0 <= t < |s.threads| && s.threads[t].key == p.key ==> exists f :: AnsweredFrom(s, t, f, p)
  {
    var s := After(cfg, Init(now, requests), run);
    SingleFlight(cfg, now, requests, run, p);
    var answer := Answer(200, p.vary, true, p.horizon, []);
    assert Reachable(cfg, s);
    hide Reachable, Enabled, AnsweredFrom, ForVariant, Legal, After, Quiet;
    forall t | 0 <= t < |s.threads| ensures s.threads[t].pc.Finished? {
      if !s.threads[t].pc.Finished? {
        var ev := NoDeadlock(cfg, s, t, answer);
        WithoutErrorIsQuiet(s, ev, answer, p);
      }
    }
  }
}
