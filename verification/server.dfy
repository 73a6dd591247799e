/**
 `ServeHTTP` over everything else: any number of requests, the per-key lock, the entry table with its bucket locks
 and timers, the responses being written, purges, and time.

 The parts are the ones proved elsewhere: the table changes by the list functions that `HttpCache.HTTPCache`
 computes, a response changes by the events that the handover refines, and the key locks are taken and given back by
 the events of `LockSpec`, with the bucket's mutex held while a thread waits for its key.  `Del` and `Purge` appear as
 what they are made of: a `cleanEntry` of some entry that was in the table, at any moment.  What runs under a bucket's
 lock of the table is one event, at its end, but for insertions, which start a timer first, and removals, which keep
 the lock until the entry's Clean is done; a lookup has a clock reading of its own for each entry it looks at.
 */
module Server {
  import opened Entries
  import opened Freshness
  import opened Http
  import LockSpec
  import ResponseSpec

  type Bytes = ResponseSpec.Bytes
  type Resp = ResponseSpec.Resp

  /** What the upstream answers to one fetch, and what `getCacheStatus` makes of it. */
  datatype Answer = Answer(code: int, vary: string, isPublic: bool, expiration: Time, bufs: seq<Bytes>)

  datatype Fetched = Fetched(key: string, request: Request, thread: nat, answer: Answer)

  function EntryOf(f: nat, x: Fetched): Entry {
    Entry(f, x.key, x.answer.isPublic, x.answer.expiration, x.request, x.answer.vary, x.answer.code)
  }

  /** Why an entry is being served: found fresh, found stale after fetch `f` got a 5xx, or just stored by fetch `f`. */
  datatype Mode = Fresh | Stale(f: nat) | Own(f: nat)

  /** `writePublicResponse`: read bodyComplete, wait for the token, open the file, copy it. */
  datatype Stage = Begin | ReadFlag | AwaitToken | OpenFile | Copying(got: Bytes)

  datatype Reply =
    | Hit(e: Entry, mode: Mode, code: int, body: Bytes)
    | Missed(f: nat, code: int, body: Bytes)
    | Skipped(f: nat, code: int, body: Bytes)
    | Failed

  datatype Pc =
    | Start
    | Entering              // in Acquire, holding the mutex of the key's bucket
    | Leaving               // about to return from Acquire, holding that mutex and the key's
    | Locked(since: Time)
    | Serving(e: Entry, mode: Mode, stage: Stage)
    | NeedFetch
    | AwaitHeaders(f: nat)
    | GotHeaders(f: nat)
    | Deciding(f: nat)
    | Backed(f: nat)
    | Inserting(f: nat)     // in Put, holding the bucket's lock, timer started
    | PassingThrough(f: nat)
    | Replying(reply: Reply)
    | Finished(reply: Reply)

  datatype Thread = Thread(key: string, request: Request, pc: Pc)

  datatype Config = Config(bucketOf: string -> nat, staleMaxAge: Duration)

  /** The table, its bucket locks, and what becomes of entries. */
  datatype Cache = Cache(
    table: Table,
    busy: set<nat>,             // buckets locked by an insertion
    cleaning: map<nat, Entry>,  // buckets locked by `cleanEntry`, and whose Clean each is waiting for
    timers: set<Entry>,
    puts: set<Entry>,           // every entry ever inserted
    cleaned: multiset<Entry>,   // every Clean ever requested
    dropped: set<Entry>,        // replaced entries: their Clean holds no lock
    removed: set<Entry>)        // entries whose file is gone

  predicate Free(cfg: Config, c: Cache, key: string) {
    cfg.bucketOf(key) !in c.busy && cfg.bucketOf(key) !in c.cleaning
  }

  /** Every fetch ever begun and its response. */
  datatype Net = Net(fetches: seq<Fetched>, resps: seq<Resp>)

  /** What a response writer has been given: the first status counts, and bytes are appended. */
  datatype Sent = Sent(code: Option<int>, bytes: Bytes)

  const NOTHING: Sent := Sent(None, [])

  function Answering(before: Sent, code: int, bytes: Bytes): Sent {
    Sent(if before.code.Some? then before.code else Some(code), before.bytes + bytes)
  }

  /** What a request's client has been sent, and what of it belongs to answers that broke off. */
  datatype Client = Client(sent: Sent, broken: Sent)

  /**
   `clients` says what each thread has sent; `doors` which thread holds which bucket mutex of the key locks, `locks`
   which one holds which key; `subscribers` which thread is registered as a subscriber of which entry's file.
   */
  datatype State = State(
    now: Time,
    threads: seq<Thread>,
    clients: seq<Client>,
    doors: map<nat, nat>,
    locks: LockSpec.Locks,
    cache: Cache,
    net: Net,
    subscribers: set<(nat, nat)>)

  function Init(now: Time, requests: seq<(string, Request)>): State {
    State(now, seq(|requests|, i requires 0 <= i < |requests| => Thread(requests[i].0, requests[i].1, Start)),
          seq(|requests|, _ => Client(NOTHING, NOTHING)),
          map[], map[], Cache(map[], {}, map[], {}, {}, multiset{}, {}, {}), Net([], []), {})
  }

  datatype Event =
    // steps of the request thread t
    | Enter(t: nat)
    | Acquire(t: nat)
    | Leave(t: nat)
    | Get(t: nat, clock: nat -> Time)   // clock(i): the reading at position i
    | Serve(t: nat, ok: bool, n: nat)   // ok: opening or copying meets no error; n: bytes copied, 0 for none
    | Fetch(t: nat, answer: Answer)
    | Headers(t: nat)
    | StaleGet(t: nat)
    | Decide(t: nat, errorSeen: bool, backendMade: bool)
    | PutBegin(t: nat)
    | PutEnd(t: nat)
    | PassDone(t: nat)
    | Release(t: nat)
    // everything else
    | Tick(now: Time)
    | Upstream(f: nat, rev: ResponseSpec.Event)
    | Timer(e: Entry)
    | Purge(e: Entry)
    | CleanDone(b: nat, ok: bool)       // the Clean that `cleanEntry` waits for with bucket b locked
    | RemoveFile(e: Entry)              // the Clean of a replaced entry

  predicate OfThread(ev: Event) {
    !(ev.Tick? || ev.Upstream? || ev.Timer? || ev.Purge? || ev.CleanDone? || ev.RemoveFile?)
  }

  predicate IsHead(e: Entry) { e.request.reqMethod == "HEAD" }

  predicate FetchPc(pc: Pc) {
    pc.AwaitHeaders? || pc.GotHeaders? || pc.Deciding? || pc.Backed? || pc.Inserting? || pc.PassingThrough?
  }

  predicate ServeReady(resp: Resp, stage: Stage, ok: bool, n: nat) {
    match stage
    case AwaitToken => resp.token
    case Copying(got) => if n > 0 then |got| + n <= |resp.stored| else ok ==> |got| == |resp.stored|
    case _ => true
  }

  /** Whether a thread can take a step; `free` says that its key's bucket is not locked for writing. */
  predicate Ready(net: Net, th: Thread, free: bool, ev: Event)
    requires OfThread(ev)
  {
    match ev
    case Enter(_) => th.pc.Start?
    case Acquire(_) => th.pc.Entering?
    case Leave(_) => th.pc.Leaving?
    case Get(_, _) => th.pc.Locked? && free
    case Serve(_, ok, n) => th.pc.Serving? && th.pc.e.id < |net.resps| && ServeReady(net.resps[th.pc.e.id], th.pc.stage, ok, n)
    case Fetch(_, _) => th.pc.NeedFetch?
    case Headers(_) => th.pc.AwaitHeaders?
    case StaleGet(_) => th.pc.GotHeaders? && th.pc.f < |net.fetches| && (net.fetches[th.pc.f].answer.code >= 500 ==> free)
    case Decide(_, _, _) => th.pc.Deciding? && th.pc.f < |net.fetches| && th.pc.f < |net.resps| && !net.resps[th.pc.f].open
    case PutBegin(_) => th.pc.Backed? && th.pc.f < |net.fetches| && free
    case PutEnd(_) => th.pc.Inserting? && th.pc.f < |net.fetches|
    case PassDone(_) => th.pc.PassingThrough? && th.pc.f < |net.fetches| && th.pc.f < |net.resps| && net.resps[th.pc.f].phase.Closed?
    case Release(_) => th.pc.Replying?
  }

  /** A lookup reads the clock between the acquisition of the key's lock and now. */
  ghost predicate Readings(clock: nat -> Time, since: Time, now: Time) { forall i :: since <= clock(i) <= now }

  ghost predicate Timely(th: Thread, ev: Event, now: Time) {
    match ev
    case Get(_, clock) => th.pc.Locked? && Readings(clock, th.pc.since, now)
    case _ => true
  }

  /** The Clean of an entry waits until its file has no subscriber. */
  ghost predicate Unsubscribed(s: State, e: Entry) { forall t :: (e.id, t) !in s.subscribers }

  ghost predicate Enabled(cfg: Config, s: State, ev: Event) {
    match ev
    case Tick(now) => now >= s.now
    case Upstream(f, rev) =>
      && f < |s.net.resps| && (rev.Store? || rev.MarkComplete? || rev.SendToken? || rev.SignalClosed?)
      && ResponseSpec.Enabled(s.net.resps[f], rev)
    case Timer(e) => e in s.cache.timers && s.now >= e.expiration + cfg.staleMaxAge && Free(cfg, s.cache, e.key)
    case Purge(e) => e in s.cache.puts && Free(cfg, s.cache, e.key)
    case CleanDone(b, _) => b in s.cache.cleaning && Unsubscribed(s, s.cache.cleaning[b])
    case RemoveFile(e) => e in s.cache.dropped && Unsubscribed(s, e)
    case _ =>
      && ev.t < |s.threads|
      && Ready(s.net, s.threads[ev.t], Free(cfg, s.cache, s.threads[ev.t].key), ev)
      && (ev.Enter? ==> cfg.bucketOf(s.threads[ev.t].key) !in s.doors)
      && Timely(s.threads[ev.t], ev, s.now)
      && (ev.Acquire? ==> LockSpec.Enabled(s.locks, LockSpec.Take(s.threads[ev.t].key, ev.t)))
      && (ev.Release? ==> LockSpec.Enabled(s.locks, LockSpec.Release(s.threads[ev.t].key, ev.t)))
  }

  // ---------- the control flow of ServeHTTP ----------

  function Answered(e: Entry, mode: Mode, body: Bytes): Pc {
    match mode
    case Own(f) => Replying(Missed(f, e.code, body))
    case _ => Replying(Hit(e, mode, e.code, body))
  }

  function NotAnswered(mode: Mode): Pc {
    match mode
    case Fresh => NeedFetch
    case Stale(f) => Deciding(f)
    case Own(_) => Replying(Failed)
  }

  function AfterServe(resp: Resp, gone: bool, e: Entry, mode: Mode, stage: Stage, ok: bool, n: nat): Pc
    requires ServeReady(resp, stage, ok, n)
  {
    match stage
    case Begin => if IsHead(e) then Answered(e, mode, []) else Serving(e, mode, ReadFlag)
    case ReadFlag => Serving(e, mode, if resp.phase.Writing? then AwaitToken else OpenFile)
    case AwaitToken => Serving(e, mode, OpenFile)
    case OpenFile => if ok && !gone then Serving(e, mode, Copying([])) else NotAnswered(mode)
    case Copying(got) =>
      if n > 0 then Serving(e, mode, Copying(got + resp.stored[|got|..|got| + n]))
      else if ok then Answered(e, mode, got)
      else NotAnswered(mode)
  }

  /** A found entry is served if it is public. */
  function Found(r: Option<Entry>, mode: Mode): Pc {
    if r.Some? && r.value.isPublic then Serving(r.value, mode, Begin) else NotAnswered(mode)
  }

  function AfterDecide(f: nat, e: Entry, errorSeen: bool, backendMade: bool): Pc {
    if errorSeen || (e.isPublic && !backendMade) then Replying(Failed)
    else if e.isPublic then Backed(f)
    else if IsHead(e) then Replying(Skipped(f, e.code, []))
    else PassingThrough(f)
  }

  function NextPc(s: State, th: Thread, free: bool, ev: Event): Pc
    requires OfThread(ev) && Ready(s.net, th, free, ev)
  {
    match ev
    case Enter(_) => Entering
    case Acquire(_) => Leaving
    case Leave(_) => Locked(s.now)
    case Get(_, clock) => Found(Lookup(ListOf(s.cache.table, th.key), th.request, clock, false), Fresh)
    case Serve(_, ok, n) => AfterServe(s.net.resps[th.pc.e.id], th.pc.e in s.cache.removed, th.pc.e, th.pc.mode, th.pc.stage, ok, n)
    case Fetch(_, _) => AwaitHeaders(|s.net.fetches|)
    case Headers(_) => GotHeaders(th.pc.f)
    case StaleGet(_) =>
      if s.net.fetches[th.pc.f].answer.code < 500 then Deciding(th.pc.f)
      else Found(Lookup(ListOf(s.cache.table, th.key), th.request, _ => s.now, true), Stale(th.pc.f))
    case Decide(_, errorSeen, backendMade) =>
      AfterDecide(th.pc.f, EntryOf(th.pc.f, s.net.fetches[th.pc.f]), errorSeen, backendMade)
    case PutBegin(_) => Inserting(th.pc.f)
    case PutEnd(_) => Serving(EntryOf(th.pc.f, s.net.fetches[th.pc.f]), Own(th.pc.f), Begin)
    case PassDone(_) => Replying(Skipped(th.pc.f, s.net.fetches[th.pc.f].answer.code, s.net.resps[th.pc.f].stored))
    case Release(_) => Finished(th.pc.reply)
  }

  // ---------- the rest of the state ----------

  function NextDoors(cfg: Config, s: State, ev: Event): map<nat, nat> {
    match ev
    case Enter(t) => if t < |s.threads| then s.doors[cfg.bucketOf(s.threads[t].key) := t] else s.doors
    case Leave(t) => if t < |s.threads| then s.doors - {cfg.bucketOf(s.threads[t].key)} else s.doors
    case _ => s.doors
  }

  function NextLocks(s: State, ev: Event): LockSpec.Locks {
    match ev
    case Acquire(t) => if t < |s.threads| then s.locks[s.threads[t].key := t] else s.locks
    case Release(t) => if t < |s.threads| then s.locks - {s.threads[t].key} else s.locks
    case _ => s.locks
  }

  /** `cleanEntry`: the entry leaves its list, if it is there, and its Clean is requested. */
  function CleanEntry(c: Cache, e: Entry): Cache {
    var list := ListOf(c.table, e.key);
    c.(table := c.table[e.key := RemoveEntry(list, e)], cleaned := c.cleaned + if e in list then multiset{e} else multiset{})
  }

  /** If the entry was there, the bucket stays locked until its Clean is done. */
  function BeginClean(c: Cache, bucket: nat, e: Entry): Cache {
    CleanEntry(c, e).(cleaning := if e in ListOf(c.table, e.key) then c.cleaning[bucket := e] else c.cleaning)
  }

  function BeginPut(c: Cache, bucket: nat, e: Entry): Cache {
    c.(timers := c.timers + {e}, busy := c.busy + {bucket})
  }

  function EndPut(c: Cache, bucket: nat, e: Entry): Cache {
    var list := ListOf(c.table, e.key);
    c.(table := c.table[e.key := PutList(list, e)],
       cleaned := c.cleaned + multiset(Replaced(list, e)),
       puts := c.puts + {e},
       dropped := c.dropped + (set x | x in Replaced(list, e)),
       busy := c.busy - {bucket})
  }

  ghost function NextCache(cfg: Config, s: State, ev: Event): Cache
    requires Enabled(cfg, s, ev)
  {
    match ev
    case PutBegin(t) => BeginPut(s.cache, cfg.bucketOf(s.threads[t].key), EntryOf(s.threads[t].pc.f, s.net.fetches[s.threads[t].pc.f]))
    case PutEnd(t) => EndPut(s.cache, cfg.bucketOf(s.threads[t].key), EntryOf(s.threads[t].pc.f, s.net.fetches[s.threads[t].pc.f]))
    case Timer(e) => BeginClean(s.cache, cfg.bucketOf(e.key), e).(timers := s.cache.timers - {e})
    case Purge(e) => BeginClean(s.cache, cfg.bucketOf(e.key), e)
    case CleanDone(b, ok) =>
      s.cache.(cleaning := s.cache.cleaning - {b}, removed := s.cache.removed + if ok then {s.cache.cleaning[b]} else {})
    case RemoveFile(e) => s.cache.(removed := s.cache.removed + {e})
    case _ => s.cache
  }

  /** Which response a step touches, and how. */
  ghost function Touch(cfg: Config, s: State, ev: Event): seq<(nat, ResponseSpec.Event)>
    requires Enabled(cfg, s, ev)
  {
    match ev
    case Serve(t, _, _) => if s.threads[t].pc.stage.AwaitToken? then [(s.threads[t].pc.e.id, ResponseSpec.TakeToken)] else []
    case Decide(t, errorSeen, backendMade) =>
      var f := s.threads[t].pc.f;
      var next := AfterDecide(f, EntryOf(f, s.net.fetches[f]), errorSeen, backendMade);
      if next.Backed? || next.PassingThrough? then [(f, ResponseSpec.SetBody)] else []
    case Upstream(f, rev) => [(f, rev)]
    case _ => []
  }

  ghost function NextNet(cfg: Config, s: State, ev: Event): Net
    requires Enabled(cfg, s, ev)
  {
    if ev.Fetch? then
      var th := s.threads[ev.t];
      Net(s.net.fetches + [Fetched(th.key, th.request, ev.t, ev.answer)], s.net.resps + [ResponseSpec.NewResp(ev.answer.bufs)])
    else
      var touch := Touch(cfg, s, ev);
      if touch == [] then s.net
      else s.net.(resps := s.net.resps[touch[0].0 := ResponseSpec.Apply(s.net.resps[touch[0].0], touch[0].1)])
  }

  ghost function NextThreads(cfg: Config, s: State, ev: Event): seq<Thread>
    requires Enabled(cfg, s, ev)
  {
    if !OfThread(ev) then s.threads
    else
      var th := s.threads[ev.t];
      s.threads[ev.t := th.(pc := NextPc(s, th, Free(cfg, s.cache, th.key), ev))]
  }

  /** What a step of a thread sends to its client. */
  function NextClient(s: State, th: Thread, c: Client, ev: Event): Client
    requires OfThread(ev) && Ready(s.net, th, true, ev)
  {
    match ev
    case Serve(_, ok, n) => ClientServed(s.net.resps[th.pc.e.id], th.pc.e in s.cache.removed, th.pc.e, th.pc.stage, c, ok, n)
    case Decide(_, errorSeen, backendMade) =>
      var e := EntryOf(th.pc.f, s.net.fetches[th.pc.f]);
      var next := AfterDecide(th.pc.f, e, errorSeen, backendMade);
      if next.PassingThrough? || (next.Replying? && !next.reply.Failed?) then c.(sent := Answering(c.sent, e.code, [])) else c
    case PassDone(_) => c.(sent := c.sent.(bytes := c.sent.bytes + s.net.resps[th.pc.f].stored))
    case _ => c
  }

  /** The status goes out before the copy, so a copy that fails leaves it, and what was copied, with the client. */
  function ClientServed(resp: Resp, gone: bool, e: Entry, stage: Stage, c: Client, ok: bool, n: nat): Client
    requires ServeReady(resp, stage, ok, n)
  {
    match stage
    case Begin => if IsHead(e) then c.(sent := Answering(c.sent, e.code, [])) else c
    case OpenFile => if ok && !gone then c.(sent := Answering(c.sent, e.code, [])) else c
    case Copying(got) =>
      if n > 0 then c.(sent := c.sent.(bytes := c.sent.bytes + resp.stored[|got|..|got| + n]))
      else if ok then c
      else c.(broken := c.sent)
    case _ => c
  }

  ghost function NextClients(cfg: Config, s: State, ev: Event): seq<Client>
    requires Enabled(cfg, s, ev)
  {
    if OfThread(ev) && ev.t < |s.clients| then s.clients[ev.t := NextClient(s, s.threads[ev.t], s.clients[ev.t], ev)]
    else s.clients
  }

  /** A reader subscribes to a file that is still being written, and unsubscribes when it is closed. */
  ghost function NextSubscribers(cfg: Config, s: State, ev: Event): set<(nat, nat)>
    requires Enabled(cfg, s, ev)
  {
    match ev
    case Serve(t, ok, n) =>
      var e, stage := s.threads[t].pc.e, s.threads[t].pc.stage;
      if stage.OpenFile? && ok && e !in s.cache.removed && s.net.resps[e.id].phase.Writing? then s.subscribers + {(e.id, t)}
      else if stage.Copying? && n == 0 then s.subscribers - {(e.id, t)}
      else s.subscribers
    case _ => s.subscribers
  }

  ghost function Apply(cfg: Config, s: State, ev: Event): State
    requires Enabled(cfg, s, ev)
  {
    State(if ev.Tick? then ev.now else s.now, NextThreads(cfg, s, ev), NextClients(cfg, s, ev), NextDoors(cfg, s, ev), NextLocks(s, ev),
          NextCache(cfg, s, ev), NextNet(cfg, s, ev), NextSubscribers(cfg, s, ev))
  }

  ghost predicate Legal(cfg: Config, s: State, run: seq<Event>)
    decreases |run|, 0
  {
    run == [] || (Legal(cfg, s, run[..|run| - 1]) && Enabled(cfg, After(cfg, s, run[..|run| - 1]), run[|run| - 1]))
  }

  ghost function After(cfg: Config, s: State, run: seq<Event>): State
    requires Legal(cfg, s, run)
    decreases |run|, 1
  {
    if run == [] then s else Apply(cfg, After(cfg, s, run[..|run| - 1]), run[|run| - 1])
  }

  // ---------- the key lock and the bucket locks ----------

  predicate InDoor(pc: Pc) { pc.Entering? || pc.Leaving? }

  /** The holder of a bucket's mutex is the one thread inside Acquire for a key of that bucket. */
  ghost predicate DoorInv(cfg: Config, threads: seq<Thread>, doors: map<nat, nat>) {
    && (forall t :: 0 <= t < |threads| && InDoor(threads[t].pc) ==>
          cfg.bucketOf(threads[t].key) in doors && doors[cfg.bucketOf(threads[t].key)] == t)
    && (forall b :: b in doors ==>
          doors[b] < |threads| && InDoor(threads[doors[b]].pc) && cfg.bucketOf(threads[doors[b]].key) == b)
  }

  predicate Holding(pc: Pc) { !pc.Start? && !pc.Entering? && !pc.Finished? }

  /** A thread from the moment it has locked its key's mutex until Unlock holds its key, and only such a thread does. */
  ghost predicate LockInv(threads: seq<Thread>, locks: LockSpec.Locks) {
    && (forall t :: 0 <= t < |threads| && Holding(threads[t].pc) ==> threads[t].key in locks && locks[threads[t].key] == t)
    && (forall k :: k in locks ==> locks[k] < |threads| && threads[locks[k]].key == k && Holding(threads[locks[k]].pc))
  }

  predicate InsertsInto(cfg: Config, th: Thread, b: nat) { th.pc.Inserting? && cfg.bucketOf(th.key) == b }

  /** A bucket is locked for writing by the one thread that is inserting into it. */
  ghost predicate BusyInv(cfg: Config, threads: seq<Thread>, busy: set<nat>) {
    && (forall t, b :: 0 <= t < |threads| && InsertsInto(cfg, threads[t], b) ==> b in busy)
    && (forall t, u, b :: 0 <= t < u < |threads| && InsertsInto(cfg, threads[t], b) ==> !InsertsInto(cfg, threads[u], b))
    && (forall b :: b in busy ==> exists t :: 0 <= t < |threads| && InsertsInto(cfg, threads[t], b))
  }

  /** Where control can go. */
  lemma PcMoves(s: State, th: Thread, free: bool, ev: Event)
    requires OfThread(ev) && Ready(s.net, th, free, ev)
    ensures var pc := NextPc(s, th, free, ev);
            && (Holding(th.pc) <==> !ev.Enter? && !ev.Acquire?) && (Holding(pc) <==> !ev.Enter? && !ev.Release?)
            && (InDoor(th.pc) <==> ev.Acquire? || ev.Leave?) && (InDoor(pc) <==> ev.Enter? || ev.Acquire?)
            && (th.pc.Inserting? <==> ev.PutEnd?) && (pc.Inserting? <==> ev.PutBegin?)
  {
    hide Lookup;
  }

  /** Only the thread of the event moves, and only its control. */
  lemma OthersStay(cfg: Config, s: State, ev: Event)
    requires Enabled(cfg, s, ev)
    ensures var threads := NextThreads(cfg, s, ev);
            && |threads| == |s.threads|
            && (forall u :: 0 <= u < |threads| ==> threads[u].key == s.threads[u].key && threads[u].request == s.threads[u].request)
            && (forall u :: 0 <= u < |threads| && (OfThread(ev) ==> u != ev.t) ==> threads[u] == s.threads[u])
            && (OfThread(ev) ==> threads[ev.t].pc == NextPc(s, s.threads[ev.t], Free(cfg, s.cache, s.threads[ev.t].key), ev))
  {
    hide NextPc;
  }

  /** A thread that comes into Acquire takes the bucket's mutex, when it is free, or gives it back. */
  lemma DoorsFollow(cfg: Config, threads: seq<Thread>, threads': seq<Thread>, doors: map<nat, nat>, doors': map<nat, nat>, t: nat)
    requires DoorInv(cfg, threads, doors) && t < |threads| == |threads'|
    requires (forall u :: 0 <= u < |threads| && u != t ==> threads'[u] == threads[u]) && threads'[t].key == threads[t].key
    requires (InDoor(threads[t].pc) <==> InDoor(threads'[t].pc)) ==> doors' == doors
    requires !InDoor(threads[t].pc) && InDoor(threads'[t].pc) ==>
      cfg.bucketOf(threads[t].key) !in doors && doors' == doors[cfg.bucketOf(threads[t].key) := t]
    requires InDoor(threads[t].pc) && !InDoor(threads'[t].pc) ==> doors' == doors - {cfg.bucketOf(threads[t].key)}
    ensures DoorInv(cfg, threads', doors')
  {
    hide InDoor;
  }

  lemma DoorStep(cfg: Config, s: State, ev: Event)
    requires DoorInv(cfg, s.threads, s.doors) && Enabled(cfg, s, ev)
    ensures DoorInv(cfg, NextThreads(cfg, s, ev), NextDoors(cfg, s, ev))
  {
    hide NextPc, Ready, Timely, InDoor, DoorInv;
    OthersStay(cfg, s, ev);
    if OfThread(ev) {
      PcMoves(s, s.threads[ev.t], Free(cfg, s.cache, s.threads[ev.t].key), ev);
      hide NextThreads;
      DoorsFollow(cfg, s.threads, NextThreads(cfg, s, ev), s.doors, NextDoors(cfg, s, ev), ev.t);
    }
  }

  /** A thread that begins or ceases to hold its key takes it, when it is free, or gives it back. */
  lemma LocksFollow(threads: seq<Thread>, threads': seq<Thread>, locks: LockSpec.Locks, locks': LockSpec.Locks, t: nat)
    requires LockInv(threads, locks) && t < |threads| == |threads'|
    requires (forall u :: 0 <= u < |threads| && u != t ==> threads'[u] == threads[u]) && threads'[t].key == threads[t].key
    requires Holding(threads[t].pc) && Holding(threads'[t].pc) ==> locks' == locks
    requires !Holding(threads[t].pc) && !Holding(threads'[t].pc) ==> locks' == locks
    requires !Holding(threads[t].pc) && Holding(threads'[t].pc) ==> threads[t].key !in locks && locks' == locks[threads[t].key := t]
    requires Holding(threads[t].pc) && !Holding(threads'[t].pc) ==> locks' == locks - {threads[t].key}
    ensures LockInv(threads', locks')
  {
    hide Holding;
  }

  lemma LockStep(cfg: Config, s: State, ev: Event)
    requires LockInv(s.threads, s.locks) && Enabled(cfg, s, ev)
    ensures LockInv(NextThreads(cfg, s, ev), NextLocks(s, ev))
  {
    hide NextPc, Ready, Timely, Holding, LockInv;
    OthersStay(cfg, s, ev);
    if OfThread(ev) {
      PcMoves(s, s.threads[ev.t], Free(cfg, s.cache, s.threads[ev.t].key), ev);
      hide NextThreads;
      LocksFollow(s.threads, NextThreads(cfg, s, ev), s.locks, NextLocks(s, ev), ev.t);
    }
  }

  lemma BusyMoves(cfg: Config, s: State, ev: Event)
    requires Enabled(cfg, s, ev)
    ensures var busy := NextCache(cfg, s, ev).busy;
            && (ev.PutBegin? ==> BucketOfMover(cfg, s, ev) !in s.cache.busy && busy == s.cache.busy + {BucketOfMover(cfg, s, ev)})
            && (ev.PutEnd? ==> busy == s.cache.busy - {BucketOfMover(cfg, s, ev)})
            && (!ev.PutBegin? && !ev.PutEnd? ==> busy == s.cache.busy)
  {
  }

  ghost function BucketOfMover(cfg: Config, s: State, ev: Event): nat
    requires OfThread(ev) && Enabled(cfg, s, ev)
  {
    cfg.bucketOf(s.threads[ev.t].key)
  }

  /** A thread that begins to insert locks its bucket, when it is free, and unlocks it when it is done. */
  lemma BusyFollow(cfg: Config, threads: seq<Thread>, threads': seq<Thread>, busy: set<nat>, busy': set<nat>, t: nat)
    requires BusyInv(cfg, threads, busy) && t < |threads| == |threads'|
    requires (forall u :: 0 <= u < |threads| && u != t ==> threads'[u] == threads[u]) && threads'[t].key == threads[t].key
    requires (threads[t].pc.Inserting? <==> threads'[t].pc.Inserting?) ==> busy' == busy
    requires !threads[t].pc.Inserting? && threads'[t].pc.Inserting? ==>
      cfg.bucketOf(threads[t].key) !in busy && busy' == busy + {cfg.bucketOf(threads[t].key)}
    requires threads[t].pc.Inserting? && !threads'[t].pc.Inserting? ==> busy' == busy - {cfg.bucketOf(threads[t].key)}
    ensures BusyInv(cfg, threads', busy')
  {
    forall b | b in busy' ensures exists u :: 0 <= u < |threads'| && InsertsInto(cfg, threads'[u], b) {
      if b in busy {
        var u :| 0 <= u < |threads| && InsertsInto(cfg, threads[u], b);
        assert InsertsInto(cfg, threads'[u], b);
      } else {
        assert InsertsInto(cfg, threads'[t], b);
      }
    }
  }

  lemma BusyStep(cfg: Config, s: State, ev: Event)
    requires BusyInv(cfg, s.threads, s.cache.busy) && Enabled(cfg, s, ev)
    ensures BusyInv(cfg, NextThreads(cfg, s, ev), NextCache(cfg, s, ev).busy)
  {
    hide NextPc, Ready, Timely, BusyInv;
    OthersStay(cfg, s, ev);
    BusyMoves(cfg, s, ev);
    if OfThread(ev) {
      PcMoves(s, s.threads[ev.t], Free(cfg, s.cache, s.threads[ev.t].key), ev);
      hide NextThreads, NextCache;
      BusyFollow(cfg, s.threads, NextThreads(cfg, s, ev), s.cache.busy, NextCache(cfg, s, ev).busy, ev.t);
    }
  }

  // ---------- responses ----------

  ghost predicate NetInv(net: Net) {
    && |net.resps| == |net.fetches|
    && forall f :: 0 <= f < |net.resps| ==> ResponseSpec.Inv(net.resps[f], net.fetches[f].answer.bufs)
  }

  /** A response only ever gets further: what is open stays open, and what is complete stays as it is. */
  ghost predicate Further(r: Resp, r': Resp) {
    && (r.open ==> r'.open)
    && r.stored <= r'.stored
    && (!r.phase.Writing? ==> !r'.phase.Writing? && r'.stored == r.stored)
  }

  ghost predicate Extends(net: Net, net': Net) {
    && net.fetches <= net'.fetches
    && |net.resps| == |net.fetches| && |net'.resps| == |net'.fetches|
    && forall f :: 0 <= f < |net.resps| ==> Further(net.resps[f], net'.resps[f])
  }

  lemma TouchEnabled(cfg: Config, s: State, ev: Event)
    requires Enabled(cfg, s, ev) && !ev.Fetch? && Touch(cfg, s, ev) != []
    ensures var f, rev := Touch(cfg, s, ev)[0].0, Touch(cfg, s, ev)[0].1;
            f < |s.net.resps| && ResponseSpec.Enabled(s.net.resps[f], rev)
  {
  }

  lemma NetStep(cfg: Config, s: State, ev: Event)
    requires NetInv(s.net) && Enabled(cfg, s, ev)
    ensures NetInv(NextNet(cfg, s, ev)) && Extends(s.net, NextNet(cfg, s, ev))
  {
    hide ResponseSpec.Inv, Touch, ResponseSpec.Enabled, ResponseSpec.Apply;
    if ev.Fetch? {
      ResponseSpec.InvNew(ev.answer.bufs);
    } else if Touch(cfg, s, ev) != [] {
      TouchEnabled(cfg, s, ev);
      var f, rev := Touch(cfg, s, ev)[0].0, Touch(cfg, s, ev)[0].1;
      ResponseSpec.InvStep(s.net.resps[f], s.net.fetches[f].answer.bufs, rev);
      GetsFurther(s.net.resps[f], rev);
    }
  }

  lemma GetsFurther(r: Resp, rev: ResponseSpec.Event)
    requires ResponseSpec.Enabled(r, rev)
    ensures Further(r, ResponseSpec.Apply(r, rev))
  {
  }

  // ---------- what each thread knows ----------

  ghost predicate Mine(net: Net, t: nat, th: Thread, f: nat) {
    f < |net.fetches| && net.fetches[f].key == th.key && net.fetches[f].request == th.request && net.fetches[f].thread == t
  }

  /** The entry of a fetch whose body has been set. */
  ghost predicate Known(net: Net, e: Entry) {
    e.id < |net.fetches| && e.id < |net.resps| && e == EntryOf(e.id, net.fetches[e.id]) && net.resps[e.id].open
  }

  ghost predicate ModeOk(net: Net, t: nat, th: Thread, e: Entry, mode: Mode) {
    match mode
    case Fresh => Matches(th.request, e)
    case Stale(f) => Matches(th.request, e) && Mine(net, t, th, f) && net.fetches[f].answer.code >= 500
    case Own(f) => f == e.id && Mine(net, t, th, f)
  }

  ghost predicate StageOk(net: Net, e: Entry, stage: Stage)
    requires e.id < |net.resps|
  {
    match stage
    case Begin => true
    case ReadFlag => !IsHead(e)
    case AwaitToken => !IsHead(e)
    case OpenFile => !IsHead(e) && !net.resps[e.id].phase.Writing?
    case Copying(got) => !IsHead(e) && !net.resps[e.id].phase.Writing? && got <= net.resps[e.id].stored
  }

  ghost function WholeBody(net: Net, f: nat): Bytes
    requires f < |net.fetches|
  {
    if IsHead(EntryOf(f, net.fetches[f])) then [] else ResponseSpec.Flatten(net.fetches[f].answer.bufs)
  }

  ghost predicate ReplyOk(net: Net, t: nat, th: Thread, reply: Reply) {
    match reply
    case Hit(e, mode, code, body) =>
      && Known(net, e) && e.key == th.key && !mode.Own? && ModeOk(net, t, th, e, mode)
      && code == e.code && body == WholeBody(net, e.id)
    case Missed(f, code, body) => Mine(net, t, th, f) && code == net.fetches[f].answer.code && body == WholeBody(net, f)
    case Skipped(f, code, body) => Mine(net, t, th, f) && code == net.fetches[f].answer.code && body == WholeBody(net, f)
    case Failed => true
  }

  ghost predicate ThreadOk(net: Net, t: nat, th: Thread) {
    && (FetchPc(th.pc) ==> Mine(net, t, th, th.pc.f) && th.pc.f < |net.resps|)
    && (th.pc.Backed? || th.pc.Inserting? ==> net.resps[th.pc.f].open && net.fetches[th.pc.f].answer.isPublic)
    && (th.pc.PassingThrough? ==> net.resps[th.pc.f].open && !IsHead(EntryOf(th.pc.f, net.fetches[th.pc.f])))
    && (th.pc.Serving? ==>
          && Known(net, th.pc.e) && th.pc.e.key == th.key
          && ModeOk(net, t, th, th.pc.e, th.pc.mode) && StageOk(net, th.pc.e, th.pc.stage))
    && (th.pc.Replying? || th.pc.Finished? ==> ReplyOk(net, t, th, th.pc.reply))
  }

  lemma ThreadStable(net: Net, net': Net, t: nat, th: Thread)
    requires ThreadOk(net, t, th) && Extends(net, net')
    ensures ThreadOk(net', t, th)
  {
    hide Matches, ResponseSpec.Flatten;
  }

  ghost predicate Resident(c: Cache, e: Entry) { e in ListOf(c.table, e.key) }

  /** Each list holds distinct entries of its key. */
  ghost predicate Filed(c: Cache) {
    forall k :: NoDup(ListOf(c.table, k)) && forall e :: e in ListOf(c.table, k) ==> e.key == k
  }

  /** Every entry ever inserted comes from a fetch. */
  ghost predicate PutsInv(net: Net, c: Cache) {
    forall e :: e in c.puts ==> Known(net, e) && e.isPublic
  }

  /** Every entry ever inserted is in its list, with a timer pending, or has had Clean requested once, never both. */
  ghost predicate Accounted(c: Cache) {
    && (forall e :: Resident(c, e) ==> e in c.puts && e in c.timers)
    && (forall e :: e in c.puts ==> c.cleaned[e] == if Resident(c, e) then 0 else 1)
    && (forall e :: e in c.cleaned ==> e in c.puts)
  }

  lemma ListedWasPut(net: Net, c: Cache, key: string)
    requires Filed(c) && Accounted(c) && PutsInv(net, c)
    ensures forall e :: e in ListOf(c.table, key) ==> e.key == key && Known(net, e)
  {
    hide Known, NoDup;
    forall e | e in ListOf(c.table, key) ensures e.key == key && Known(net, e) {
      assert Resident(c, e);
    }
  }

  lemma LookupFinds(list: seq<Entry>, req: Request, clock: nat -> Time, includeStale: bool)
    ensures var r := Lookup(list, req, clock, includeStale);
            r.Some? ==> r.value in list && Matches(req, r.value) && (includeStale || exists i :: clock(i) < r.value.expiration)
  {
    hide Matches;
  }

  lemma ServeOk(net: Net, gone: bool, t: nat, th: Thread, ok: bool, n: nat)
    requires NetInv(net) && ThreadOk(net, t, th) && th.pc.Serving? && ServeReady(net.resps[th.pc.e.id], th.pc.stage, ok, n)
    ensures ThreadOk(net, t, th.(pc := AfterServe(net.resps[th.pc.e.id], gone, th.pc.e, th.pc.mode, th.pc.stage, ok, n)))
  {
    assert ResponseSpec.Inv(net.resps[th.pc.e.id], net.fetches[th.pc.e.id].answer.bufs);
    if th.pc.stage.Copying? {
      CopyOk(net, gone, t, th, ok, n);
    } else {
      BeforeCopyOk(net, gone, t, th, ok, n);
    }
    hide ThreadOk, AfterServe, NetInv;
  }

  lemma BeforeCopyOk(net: Net, gone: bool, t: nat, th: Thread, ok: bool, n: nat)
    requires ThreadOk(net, t, th) && th.pc.Serving? && !th.pc.stage.Copying? && ServeReady(net.resps[th.pc.e.id], th.pc.stage, ok, n)
    requires |net.resps| == |net.fetches| && ResponseSpec.Inv(net.resps[th.pc.e.id], net.fetches[th.pc.e.id].answer.bufs)
    ensures ThreadOk(net, t, th.(pc := AfterServe(net.resps[th.pc.e.id], gone, th.pc.e, th.pc.mode, th.pc.stage, ok, n)))
  {
    hide Matches, ResponseSpec.Flatten;
  }

  lemma CopyOk(net: Net, gone: bool, t: nat, th: Thread, ok: bool, n: nat)
    requires ThreadOk(net, t, th) && th.pc.Serving? && th.pc.stage.Copying? && ServeReady(net.resps[th.pc.e.id], th.pc.stage, ok, n)
    requires |net.resps| == |net.fetches| && ResponseSpec.Inv(net.resps[th.pc.e.id], net.fetches[th.pc.e.id].answer.bufs)
    ensures ThreadOk(net, t, th.(pc := AfterServe(net.resps[th.pc.e.id], gone, th.pc.e, th.pc.mode, th.pc.stage, ok, n)))
  {
    hide Matches, ResponseSpec.Flatten;
    var e, got, resp := th.pc.e, th.pc.stage.got, net.resps[th.pc.e.id];
    ResponseSpec.CompleteIsWhole(resp, net.fetches[e.id].answer.bufs);
    assert |got| + n <= |resp.stored| ==> got + resp.stored[|got|..|got| + n] == resp.stored[..|got| + n];
    assert resp.stored[..|resp.stored|] == resp.stored;
  }

  lemma GetOk(s: State, t: nat, th: Thread, clock: nat -> Time, includeStale: bool, mode: Mode)
    requires Filed(s.cache) && Accounted(s.cache) && PutsInv(s.net, s.cache) && !mode.Own?
    requires mode.Stale? ==> Mine(s.net, t, th, mode.f) && mode.f < |s.net.resps| && s.net.fetches[mode.f].answer.code >= 500
    ensures ThreadOk(s.net, t, th.(pc := Found(Lookup(ListOf(s.cache.table, th.key), th.request, clock, includeStale), mode)))
  {
    hide Matches, Lookup;
    ListedWasPut(s.net, s.cache, th.key);
    hide ListOf, Filed, Accounted, PutsInv;
    LookupFinds(ListOf(s.cache.table, th.key), th.request, clock, includeStale);
  }

  lemma FetchOk(cfg: Config, s: State, t: nat, answer: Answer)
    requires NetInv(s.net) && Enabled(cfg, s, Fetch(t, answer))
    ensures ThreadOk(NextNet(cfg, s, Fetch(t, answer)), t, s.threads[t].(pc := AwaitHeaders(|s.net.fetches|)))
  {
  }

  lemma DecideOk(cfg: Config, s: State, t: nat, errorSeen: bool, backendMade: bool)
    requires NetInv(s.net) && Enabled(cfg, s, Decide(t, errorSeen, backendMade)) && ThreadOk(s.net, t, s.threads[t])
    ensures var f := s.threads[t].pc.f;
            ThreadOk(NextNet(cfg, s, Decide(t, errorSeen, backendMade)), t,
                     s.threads[t].(pc := AfterDecide(f, EntryOf(f, s.net.fetches[f]), errorSeen, backendMade)))
  {
  }

  lemma PassOk(s: State, t: nat, th: Thread)
    requires NetInv(s.net) && Ready(s.net, th, true, PassDone(t)) && ThreadOk(s.net, t, th)
    ensures var f := th.pc.f; ThreadOk(s.net, t, th.(pc := Replying(Skipped(f, s.net.fetches[f].answer.code, s.net.resps[f].stored))))
  {
    ResponseSpec.CompleteIsWhole(s.net.resps[th.pc.f], s.net.fetches[th.pc.f].answer.bufs);
  }

  lemma SimpleOk(s: State, t: nat, th: Thread, free: bool, ev: Event)
    requires NetInv(s.net) && OfThread(ev) && Ready(s.net, th, free, ev) && ThreadOk(s.net, t, th)
    requires ev.Enter? || ev.Acquire? || ev.Leave? || ev.Headers? || ev.PutBegin? || ev.PutEnd? || ev.Release? || (ev.StaleGet? && s.net.fetches[th.pc.f].answer.code < 500)
    ensures ThreadOk(s.net, t, th.(pc := NextPc(s, th, free, ev)))
  {
    hide Lookup;
  }

  /** The thread that moves keeps what it knows: here the whole control flow of `ServeHTTP` is followed. */
  lemma MoverOk(cfg: Config, s: State, ev: Event)
    requires NetInv(s.net) && Filed(s.cache) && Accounted(s.cache) && PutsInv(s.net, s.cache) && OfThread(ev) && Enabled(cfg, s, ev)
    requires ThreadOk(s.net, ev.t, s.threads[ev.t])
    ensures ThreadOk(NextNet(cfg, s, ev), ev.t, NextThreads(cfg, s, ev)[ev.t])
  {
    var t, th, net := ev.t, s.threads[ev.t], s.net;
    var free := Free(cfg, s.cache, th.key);
    if ev.Fetch? {
      FetchOk(cfg, s, t, ev.answer);
    } else if ev.Decide? {
      DecideOk(cfg, s, t, ev.errorSeen, ev.backendMade);
    } else {
      MoverOkBefore(s, t, th, free, ev);
      NetStep(cfg, s, ev);
      ThreadStable(net, NextNet(cfg, s, ev), t, th.(pc := NextPc(s, th, free, ev)));
    }
    hide ThreadOk, Filed, Accounted, PutsInv, NetInv;
  }

  lemma MoverOkBefore(s: State, t: nat, th: Thread, free: bool, ev: Event)
    requires NetInv(s.net) && Filed(s.cache) && Accounted(s.cache) && PutsInv(s.net, s.cache)
    requires OfThread(ev) && !ev.Fetch? && !ev.Decide? && Ready(s.net, th, free, ev) && ThreadOk(s.net, t, th)
    ensures ThreadOk(s.net, t, th.(pc := NextPc(s, th, free, ev)))
  {
    hide Filed, Accounted, PutsInv, Lookup, AfterServe;
    match ev {
      case Serve(_, ok, n) =>
        ServeOk(s.net, th.pc.e in s.cache.removed, t, th, ok, n);
      case Get(_, clock) =>
        GetOk(s, t, th, clock, false, Fresh);
      case StaleGet(_) =>
        if s.net.fetches[th.pc.f].answer.code >= 500 {
          GetOk(s, t, th, _ => s.now, true, Stale(th.pc.f));
        } else {
          SimpleOk(s, t, th, free, ev);
        }
      case PassDone(_) =>
        PassOk(s, t, th);
      case _ =>
        SimpleOk(s, t, th, free, ev);
    }
  }

  lemma KnownStable(net: Net, net': Net, e: Entry)
    requires Known(net, e) && Extends(net, net')
    ensures Known(net', e)
  {
  }

  /** An insertion puts in a public entry of the thread's own fetch, whose body is set. */
  lemma InsertedKnown(net: Net, t: nat, th: Thread)
    requires ThreadOk(net, t, th) && th.pc.Inserting?
    ensures Known(net, EntryOf(th.pc.f, net.fetches[th.pc.f])) && EntryOf(th.pc.f, net.fetches[th.pc.f]).isPublic
  {
  }

  lemma PutsStep(cfg: Config, s: State, ev: Event)
    requires NetInv(s.net) && PutsInv(s.net, s.cache) && Enabled(cfg, s, ev)
    requires OfThread(ev) ==> ThreadOk(s.net, ev.t, s.threads[ev.t])
    ensures PutsInv(NextNet(cfg, s, ev), NextCache(cfg, s, ev))
  {
    NetStep(cfg, s, ev);
    var net := NextNet(cfg, s, ev);
    forall e | e in s.cache.puts ensures Known(net, e) {
      KnownStable(s.net, net, e);
    }
    if ev.PutEnd? {
      var t := ev.t;
      InsertedKnown(s.net, t, s.threads[t]);
      KnownStable(s.net, net, EntryOf(s.threads[t].pc.f, s.net.fetches[s.threads[t].pc.f]));
    }
    hide NextNet, Known, PutList, RemoveEntry, Replaced, ThreadOk, NetInv, Extends;
  }

  // ---------- conservation ----------

  lemma CleanLists(c: Cache, e: Entry)
    requires Filed(c)
    ensures Filed(CleanEntry(c, e))
    ensures forall x :: Resident(CleanEntry(c, e), x) <==> Resident(c, x) && x != e
  {
    var list, c' := ListOf(c.table, e.key), CleanEntry(c, e);
    assert NoDup(list);
    RemoveMembers(list, e);
    RemoveKeepsNoDup(list, e);
    hide RemoveEntry, NoDup;
    assert forall k :: k != e.key ==> ListOf(c'.table, k) == ListOf(c.table, k);
  }

  lemma InsertLists(c: Cache, bucket: nat, e: Entry)
    requires Filed(c) && !Resident(c, e)
    ensures Filed(EndPut(c, bucket, e))
    ensures forall x :: Resident(EndPut(c, bucket, e), x) <==> x == e || (Resident(c, x) && x !in Replaced(ListOf(c.table, e.key), e))
    ensures var r := Replaced(ListOf(c.table, e.key), e); r == [] || (exists x :: Resident(c, x) && r == [x])
  {
    var list, c' := ListOf(c.table, e.key), EndPut(c, bucket, e);
    assert NoDup(list);
    PutKeepsNoDup(list, e);
    ReplacedMembers(list, e);
    hide PutList, Replaced, NoDup;
    assert forall k :: k != e.key ==> ListOf(c'.table, k) == ListOf(c.table, k);
  }

  lemma ReplacedMembers(list: seq<Entry>, e: Entry)
    ensures Replaced(list, e) == [] || (exists x :: x in list && Replaced(list, e) == [x])
    ensures forall x :: x in Replaced(list, e) ==> x in list
  {
    hide Matches;
    var i := FirstMatch(list, e.request);
    if i < |list| {
      assert list[i] in list;
    }
  }

  lemma AccountedClean(c: Cache, e: Entry)
    requires Filed(c) && Accounted(c) && e in c.puts
    ensures Accounted(CleanEntry(c, e)) && Accounted(CleanEntry(c, e).(timers := c.timers - {e}))
  {
    CleanLists(c, e);
    assert Resident(c, e) <==> e in ListOf(c.table, e.key);
    SameResidents(CleanEntry(c, e), c.timers - {e});
    hide Resident, Filed, RemoveEntry, ListOf;
  }

  lemma SameResidents(c: Cache, timers: set<Entry>)
    ensures forall x :: Resident(c.(timers := timers), x) <==> Resident(c, x)
  {
  }

  lemma AccountedEnd(c: Cache, bucket: nat, e: Entry)
    requires Filed(c) && Accounted(c) && e !in c.puts && e in c.timers
    ensures Accounted(EndPut(c, bucket, e))
  {
    InsertLists(c, bucket, e);
    hide Resident, Filed, PutList, Replaced, ListOf;
  }

  /** A thread that has not inserted the entry of its fetch. */
  predicate NotPut(pc: Pc) { FetchPc(pc) || (pc.Serving? && pc.mode.Stale?) }

  function FetchOf(pc: Pc): nat
    requires NotPut(pc)
  {
    if pc.Serving? then pc.mode.f else pc.f
  }

  ghost predicate UnputInv(threads: seq<Thread>, c: Cache) {
    forall t, e :: 0 <= t < |threads| && NotPut(threads[t].pc) && e in c.puts ==> e.id != FetchOf(threads[t].pc)
  }

  ghost predicate InsertsEntry(net: Net, th: Thread, e: Entry) {
    th.pc.Inserting? && th.pc.f < |net.fetches| && e == EntryOf(th.pc.f, net.fetches[th.pc.f])
  }

  /** A pending timer is of an inserted entry, or of one whose insertion holds the bucket's lock. */
  ghost predicate TimerInv(s: State) {
    && (forall t, e :: 0 <= t < |s.threads| && InsertsEntry(s.net, s.threads[t], e) ==> e in s.cache.timers)
    && (forall e :: e in s.cache.timers ==> e in s.cache.puts || exists t :: 0 <= t < |s.threads| && InsertsEntry(s.net, s.threads[t], e))
  }

  ghost predicate ThreadsOk(net: Net, threads: seq<Thread>) {
    forall t :: 0 <= t < |threads| ==> ThreadOk(net, t, threads[t])
  }

  /** A due timer of an entry that is still being inserted finds the bucket locked. */
  lemma TimerAfterInsertion(cfg: Config, s: State, e: Entry)
    requires BusyInv(cfg, s.threads, s.cache.busy) && TimerInv(s) && ThreadsOk(s.net, s.threads)
    requires Enabled(cfg, s, Timer(e))
    ensures e in s.cache.puts
  {
    forall t | 0 <= t < |s.threads| && InsertsEntry(s.net, s.threads[t], e) ensures cfg.bucketOf(e.key) in s.cache.busy {
      InserterLocksBucket(cfg, s, t, e);
    }
  }

  lemma InserterLocksBucket(cfg: Config, s: State, t: nat, e: Entry)
    requires BusyInv(cfg, s.threads, s.cache.busy) && ThreadsOk(s.net, s.threads)
    requires t < |s.threads| && InsertsEntry(s.net, s.threads[t], e)
    ensures cfg.bucketOf(e.key) in s.cache.busy
  {
    hide Known, ModeOk, StageOk, ReplyOk;
    assert ThreadOk(s.net, t, s.threads[t]);
    assert InsertsInto(cfg, s.threads[t], cfg.bucketOf(e.key));
  }

  lemma AccountedStep(cfg: Config, s: State, ev: Event)
    requires BusyInv(cfg, s.threads, s.cache.busy) && ThreadsOk(s.net, s.threads) && TimerInv(s) && UnputInv(s.threads, s.cache)
    requires Filed(s.cache) && Accounted(s.cache) && Enabled(cfg, s, ev)
    ensures Filed(NextCache(cfg, s, ev)) && Accounted(NextCache(cfg, s, ev))
  {
    hide Accounted, Filed, BusyInv, ThreadsOk, TimerInv, UnputInv, NoDup, BeginClean, EndPut, Timely;
    match ev {
      case PutEnd(t) => InsertionAccounted(cfg, s, t);
      case Timer(e) => TimerAfterInsertion(cfg, s, e); CleaningAccounted(s.cache, cfg.bucketOf(e.key), e);
      case Purge(e) => CleaningAccounted(s.cache, cfg.bucketOf(e.key), e);
      case CleanDone(_, _) => SameBooks(s.cache, NextCache(cfg, s, ev));
      case PutBegin(t) => BeginAccounted(s.cache, cfg.bucketOf(s.threads[t].key), EntryOf(s.threads[t].pc.f, s.net.fetches[s.threads[t].pc.f]));
      case RemoveFile(_) => SameBooks(s.cache, NextCache(cfg, s, ev));
      case _ =>
    }
  }

  lemma CleaningAccounted(c: Cache, bucket: nat, e: Entry)
    requires Filed(c) && Accounted(c) && e in c.puts
    ensures Filed(BeginClean(c, bucket, e)) && Accounted(BeginClean(c, bucket, e))
    ensures var c' := BeginClean(c, bucket, e).(timers := c.timers - {e}); Filed(c') && Accounted(c')
  {
    CleanLists(c, e);
    AccountedClean(c, e);
    hide Accounted, Filed, NoDup, CleanEntry;
    SameTable(CleanEntry(c, e), c.timers - {e});
    SameBooks(CleanEntry(c, e), BeginClean(c, bucket, e));
    SameBooks(CleanEntry(c, e).(timers := c.timers - {e}), BeginClean(c, bucket, e).(timers := c.timers - {e}));
  }

  lemma SameTable(c: Cache, timers: set<Entry>)
    ensures Filed(c.(timers := timers)) <==> Filed(c)
  {
  }

  /** What is accounted for are the lists, the timers, the insertions and the Clean requests. */
  lemma SameBooks(c: Cache, c': Cache)
    requires c'.table == c.table && c'.timers == c.timers && c'.puts == c.puts && c'.cleaned == c.cleaned
    ensures (Filed(c') <==> Filed(c)) && (Accounted(c') <==> Accounted(c))
  {
    hide NoDup;
    assert forall x :: Resident(c', x) <==> Resident(c, x);
  }

  lemma BeginAccounted(c: Cache, bucket: nat, e: Entry)
    requires Filed(c) && Accounted(c)
    ensures Filed(BeginPut(c, bucket, e)) && Accounted(BeginPut(c, bucket, e))
  {
    hide NoDup;
    assert forall x :: Resident(BeginPut(c, bucket, e), x) <==> Resident(c, x);
  }

  lemma InsertionAccounted(cfg: Config, s: State, t: nat)
    requires TimerInv(s) && UnputInv(s.threads, s.cache) && Filed(s.cache) && Accounted(s.cache) && Enabled(cfg, s, PutEnd(t))
    ensures Filed(NextCache(cfg, s, PutEnd(t))) && Accounted(NextCache(cfg, s, PutEnd(t)))
  {
    var e := EntryOf(s.threads[t].pc.f, s.net.fetches[s.threads[t].pc.f]);
    assert InsertsEntry(s.net, s.threads[t], e);
    assert NotPut(s.threads[t].pc);
    InsertLists(s.cache, cfg.bucketOf(s.threads[t].key), e);
    AccountedEnd(s.cache, cfg.bucketOf(s.threads[t].key), e);
  }

  lemma ThreadsStep(cfg: Config, s: State, ev: Event)
    requires NetInv(s.net) && Filed(s.cache) && Accounted(s.cache) && PutsInv(s.net, s.cache) && Enabled(cfg, s, ev)
    requires ThreadsOk(s.net, s.threads)
    ensures ThreadsOk(NextNet(cfg, s, ev), NextThreads(cfg, s, ev))
  {
    NetStep(cfg, s, ev);
    var net, threads := NextNet(cfg, s, ev), NextThreads(cfg, s, ev);
    forall t | 0 <= t < |s.threads| && !(OfThread(ev) && t == ev.t) ensures ThreadOk(net, t, threads[t]) {
      ThreadStable(s.net, net, t, s.threads[t]);
    }
    if OfThread(ev) {
      MoverOk(cfg, s, ev);
    }
    hide ThreadOk, NextNet, NextPc, NextCache;
  }

  /** A thread keeps the fetch it has not inserted, or begins a new one. */
  lemma NotPutMoves(s: State, th: Thread, free: bool, ev: Event)
    requires OfThread(ev) && Ready(s.net, th, free, ev)
    ensures var pc := NextPc(s, th, free, ev);
            NotPut(pc) ==> if ev.Fetch? then FetchOf(pc) == |s.net.fetches| else NotPut(th.pc) && FetchOf(pc) == FetchOf(th.pc)
    ensures ev.PutEnd? ==> !NotPut(NextPc(s, th, free, ev))
  {
    hide Lookup;
  }

  lemma FetchIsMine(net: Net, t: nat, th: Thread)
    requires ThreadOk(net, t, th) && NotPut(th.pc)
    ensures Mine(net, t, th, FetchOf(th.pc))
  {
  }

  lemma PutsMove(cfg: Config, s: State, ev: Event)
    requires Enabled(cfg, s, ev)
    ensures var puts := NextCache(cfg, s, ev).puts;
            if ev.PutEnd? then s.threads[ev.t].pc.Inserting? && s.threads[ev.t].pc.f < |s.net.fetches|
                               && puts == s.cache.puts + {EntryOf(s.threads[ev.t].pc.f, s.net.fetches[s.threads[ev.t].pc.f])}
            else puts == s.cache.puts
  {
    hide PutList, Replaced, RemoveEntry;
  }

  lemma UnputStep(cfg: Config, s: State, ev: Event)
    requires ThreadsOk(s.net, s.threads) && PutsInv(s.net, s.cache) && UnputInv(s.threads, s.cache) && Enabled(cfg, s, ev)
    ensures UnputInv(NextThreads(cfg, s, ev), NextCache(cfg, s, ev))
  {
    var threads, c := NextThreads(cfg, s, ev), NextCache(cfg, s, ev);
    OthersStay(cfg, s, ev);
    PutsMove(cfg, s, ev);
    if OfThread(ev) {
      NotPutMoves(s, s.threads[ev.t], Free(cfg, s.cache, s.threads[ev.t].key), ev);
    }
    hide NextThreads, NextCache, NextPc, Timely, ThreadOk;
    forall t, e | 0 <= t < |threads| && NotPut(threads[t].pc) && e in c.puts ensures e.id != FetchOf(threads[t].pc) {
      if e in s.cache.puts {
        assert Known(s.net, e);
      } else {
        FetchIsMine(s.net, t, s.threads[t]);
        FetchIsMine(s.net, ev.t, s.threads[ev.t]);
      }
    }
  }

  lemma InsertersMove(cfg: Config, s: State, ev: Event, t: nat, e: Entry)
    requires NetInv(s.net) && ThreadsOk(s.net, s.threads) && Enabled(cfg, s, ev) && t < |s.threads|
    ensures InsertsEntry(NextNet(cfg, s, ev), NextThreads(cfg, s, ev)[t], e) <==>
              if OfThread(ev) && t == ev.t then ev.PutBegin? && e == EntryOf(s.threads[t].pc.f, s.net.fetches[s.threads[t].pc.f])
              else InsertsEntry(s.net, s.threads[t], e)
  {
    NetStep(cfg, s, ev);
    if OfThread(ev) {
      PcMoves(s, s.threads[ev.t], Free(cfg, s.cache, s.threads[ev.t].key), ev);
    }
    FetchKnown(s.net, t, s.threads[t]);
    hide ThreadsOk, NextNet;
    if !(OfThread(ev) && !ev.PutBegin?) {
      hide Lookup;
    }
  }

  lemma FetchKnown(net: Net, t: nat, th: Thread)
    ensures ThreadOk(net, t, th) && FetchPc(th.pc) ==> th.pc.f < |net.fetches|
  {
  }

  lemma TimersMove(cfg: Config, s: State, ev: Event)
    requires Enabled(cfg, s, ev)
    ensures var c := NextCache(cfg, s, ev);
            && (ev.PutBegin? ==> c.timers == s.cache.timers + {EntryOf(s.threads[ev.t].pc.f, s.net.fetches[s.threads[ev.t].pc.f])})
            && (ev.Timer? ==> c.timers == s.cache.timers - {ev.e})
            && (!ev.PutBegin? && !ev.Timer? ==> c.timers == s.cache.timers)
            && (ev.PutEnd? ==> InsertsEntry(s.net, s.threads[ev.t], EntryOf(s.threads[ev.t].pc.f, s.net.fetches[s.threads[ev.t].pc.f])))
            && (ev.PutEnd? ==> forall e :: InsertsEntry(s.net, s.threads[ev.t], e) ==> e in c.puts)
            && s.cache.puts <= c.puts && |NextThreads(cfg, s, ev)| == |s.threads|
  {
    hide NextPc, Replaced, PutList, RemoveEntry;
  }

  /** Whoever is inserting has its timer started. */
  lemma TimersStarted(cfg: Config, s: State, ev: Event, t: nat, e: Entry)
    requires NetInv(s.net) && BusyInv(cfg, s.threads, s.cache.busy) && ThreadsOk(s.net, s.threads) && TimerInv(s) && Enabled(cfg, s, ev)
    requires t < |s.threads| && InsertsEntry(NextNet(cfg, s, ev), NextThreads(cfg, s, ev)[t], e)
    ensures e in NextCache(cfg, s, ev).timers
  {
    hide NextNet, NextCache, NextThreads, InsertsEntry, ThreadsOk, BusyInv, NetInv, Ready, Timely;
    TimersMove(cfg, s, ev);
    InsertersMove(cfg, s, ev, t, e);
    if !ev.PutBegin? || t != ev.t {
      InserterLocksBucket(cfg, s, t, e);
    }
  }

  /** A pending timer of an entry not inserted yet has its inserter. */
  lemma TimersHaveInserters(cfg: Config, s: State, ev: Event, e: Entry) returns (t: nat)
    requires NetInv(s.net) && ThreadsOk(s.net, s.threads) && TimerInv(s) && Enabled(cfg, s, ev)
    requires e in NextCache(cfg, s, ev).timers && e !in NextCache(cfg, s, ev).puts
    ensures t < |s.threads| && InsertsEntry(NextNet(cfg, s, ev), NextThreads(cfg, s, ev)[t], e)
  {
    hide NextNet, NextCache, NextThreads, InsertsEntry, ThreadsOk, NetInv, Ready, Timely;
    TimersMove(cfg, s, ev);
    if e in s.cache.timers {
      t :| 0 <= t < |s.threads| && InsertsEntry(s.net, s.threads[t], e);
      InsertersMove(cfg, s, ev, t, e);
      if OfThread(ev) && ev.t == t {
        StillInserting(cfg, s, ev, t, e);
      }
    } else {
      t := ev.t;
      InsertersMove(cfg, s, ev, t, e);
    }
  }

  lemma TimerStep(cfg: Config, s: State, ev: Event)
    requires NetInv(s.net) && BusyInv(cfg, s.threads, s.cache.busy) && ThreadsOk(s.net, s.threads) && TimerInv(s) && Enabled(cfg, s, ev)
    ensures TimerInv(Apply(cfg, s, ev))
  {
    hide NextNet, NextCache, NextThreads, InsertsEntry, ThreadsOk, BusyInv, NetInv, Enabled;
    var s' := Apply(cfg, s, ev);
    TimersMove(cfg, s, ev);
    forall t, e | 0 <= t < |s.threads| && InsertsEntry(s'.net, s'.threads[t], e) ensures e in s'.cache.timers {
      TimersStarted(cfg, s, ev, t, e);
    }
    forall e | e in s'.cache.timers && e !in s'.cache.puts
      ensures exists t :: 0 <= t < |s'.threads| && InsertsEntry(s'.net, s'.threads[t], e)
    {
      var t := TimersHaveInserters(cfg, s, ev, e);
    }
  }

  lemma StillInserting(cfg: Config, s: State, ev: Event, t: nat, e: Entry)
    requires Enabled(cfg, s, ev) && t < |s.threads| && InsertsEntry(s.net, s.threads[t], e) && OfThread(ev) && ev.t == t
    ensures ev.PutEnd?
  {
  }

  // ---------- waiting for the end of a body ----------

  predicate Awaits(th: Thread) { th.pc.Serving? && th.pc.stage.AwaitToken? }

  /** If a reader waits for a body whose token has been sent, the token is still there. */
  ghost predicate TokenInv(net: Net, threads: seq<Thread>) {
    forall t :: 0 <= t < |threads| && Awaits(threads[t]) ==>
      && threads[t].pc.e.id < |net.resps|
      && (net.resps[threads[t].pc.e.id].phase.TokenSent? || net.resps[threads[t].pc.e.id].phase.Closed? ==>
            net.resps[threads[t].pc.e.id].token)
  }

  /** Two readers never wait for one body: an entry is served under its key's lock. */
  lemma OneReader(s: State, t: nat, u: nat)
    requires LockInv(s.threads, s.locks) && ThreadsOk(s.net, s.threads)
    requires t < |s.threads| && u < |s.threads| && s.threads[t].pc.Serving? && s.threads[u].pc.Serving?
    requires s.threads[t].pc.e.id == s.threads[u].pc.e.id
    ensures t == u
  {
    hide ModeOk, StageOk;
    assert ThreadOk(s.net, t, s.threads[t]) && ThreadOk(s.net, u, s.threads[u]);
  }

  lemma AwaitMoves(s: State, th: Thread, free: bool, ev: Event)
    requires OfThread(ev) && Ready(s.net, th, free, ev)
    ensures var pc := NextPc(s, th, free, ev);
            Awaits(th.(pc := pc)) ==> ev.Serve? && th.pc.stage.ReadFlag? && pc.e == th.pc.e && s.net.resps[pc.e.id].phase.Writing?
    ensures Awaits(th) ==> ev.Serve? && !Awaits(th.(pc := NextPc(s, th, free, ev)))
  {
    hide Lookup;
  }

  predicate TokenOut(r: Resp) { r.phase.TokenSent? || r.phase.Closed? ==> r.token }

  /** A token that has been sent goes only to a reader that waits for it. */
  lemma TokensMove(cfg: Config, s: State, ev: Event, f: nat)
    requires NetInv(s.net) && Enabled(cfg, s, ev) && f < |s.net.resps|
    requires TokenOut(s.net.resps[f])
    requires ev.Serve? && Awaits(s.threads[ev.t]) ==> s.threads[ev.t].pc.e.id != f
    ensures f < |NextNet(cfg, s, ev).resps| && TokenOut(NextNet(cfg, s, ev).resps[f])
  {
    hide ResponseSpec.Inv;
  }

  lemma TokenStep(cfg: Config, s: State, ev: Event)
    requires NetInv(s.net) && LockInv(s.threads, s.locks) && ThreadsOk(s.net, s.threads) && TokenInv(s.net, s.threads) && Enabled(cfg, s, ev)
    ensures TokenInv(NextNet(cfg, s, ev), NextThreads(cfg, s, ev))
  {
    var net, threads := NextNet(cfg, s, ev), NextThreads(cfg, s, ev);
    OthersStay(cfg, s, ev);
    hide NextNet, NextThreads, NextPc, LockInv, ThreadsOk, NetInv, Timely;
    if OfThread(ev) {
      AwaitMoves(s, s.threads[ev.t], Free(cfg, s.cache, s.threads[ev.t].key), ev);
    }
    forall u | 0 <= u < |threads| && Awaits(threads[u])
      ensures threads[u].pc.e.id < |net.resps| && TokenOut(net.resps[threads[u].pc.e.id])
    {
      if !(OfThread(ev) && u == ev.t) {
        OtherReaderOf(s, ev, u);
      }
      TokensMove(cfg, s, ev, threads[u].pc.e.id);
    }
  }

  /** A reader that takes a token takes none from another thread's body. */
  lemma OtherReaderOf(s: State, ev: Event, u: nat)
    requires LockInv(s.threads, s.locks) && ThreadsOk(s.net, s.threads) && u < |s.threads| && Awaits(s.threads[u])
    requires ev.Serve? ==> ev.t < |s.threads| && ev.t != u
    ensures ev.Serve? && Awaits(s.threads[ev.t]) ==> s.threads[ev.t].pc.e.id != s.threads[u].pc.e.id
  {
    hide LockInv, ThreadsOk;
    if ev.Serve? && Awaits(s.threads[ev.t]) && s.threads[ev.t].pc.e.id == s.threads[u].pc.e.id {
      OneReader(s, u, ev.t);
    }
  }

  /** A fetch whose thread has not decided what to do with it has no body yet. */
  predicate Undecided(pc: Pc) { pc.AwaitHeaders? || pc.GotHeaders? || pc.Deciding? || (pc.Serving? && pc.mode.Stale?) }

  ghost predicate UndecidedInv(net: Net, threads: seq<Thread>) {
    forall t :: 0 <= t < |threads| && Undecided(threads[t].pc) ==>
      FetchOf(threads[t].pc) < |net.resps| && !net.resps[FetchOf(threads[t].pc)].open
  }

  lemma UndecidedMoves(s: State, th: Thread, free: bool, ev: Event)
    requires OfThread(ev) && Ready(s.net, th, free, ev)
    ensures var pc := NextPc(s, th, free, ev);
            Undecided(pc) ==> if ev.Fetch? then FetchOf(pc) == |s.net.fetches| else Undecided(th.pc) && FetchOf(pc) == FetchOf(th.pc)
    ensures ev.Decide? ==> Undecided(th.pc) && !Undecided(NextPc(s, th, free, ev))
  {
    hide Lookup;
  }

  /** Only the decision of its own thread gives a response a body. */
  lemma BodiesMove(cfg: Config, s: State, ev: Event, f: nat)
    requires NetInv(s.net) && Enabled(cfg, s, ev) && f < |s.net.resps| && !s.net.resps[f].open
    requires ev.Decide? ==> s.threads[ev.t].pc.f != f
    ensures f < |NextNet(cfg, s, ev).resps| && !NextNet(cfg, s, ev).resps[f].open
  {
    hide ResponseSpec.Inv;
  }

  lemma NewBody(cfg: Config, s: State, ev: Event)
    requires NetInv(s.net) && Enabled(cfg, s, ev) && ev.Fetch?
    ensures var f := |s.net.fetches|; f < |NextNet(cfg, s, ev).resps| && !NextNet(cfg, s, ev).resps[f].open
  {
    hide ResponseSpec.Inv;
  }

  lemma UndecidedStep(cfg: Config, s: State, ev: Event)
    requires NetInv(s.net) && ThreadsOk(s.net, s.threads) && UndecidedInv(s.net, s.threads) && Enabled(cfg, s, ev)
    ensures UndecidedInv(NextNet(cfg, s, ev), NextThreads(cfg, s, ev))
  {
    var net, threads := NextNet(cfg, s, ev), NextThreads(cfg, s, ev);
    OthersStay(cfg, s, ev);
    hide NextNet, NextThreads, NextPc, NetInv, Timely, ThreadOk;
    if OfThread(ev) {
      UndecidedMoves(s, s.threads[ev.t], Free(cfg, s.cache, s.threads[ev.t].key), ev);
    }
    forall u | 0 <= u < |threads| && Undecided(threads[u].pc)
      ensures FetchOf(threads[u].pc) < |net.resps| && !net.resps[FetchOf(threads[u].pc)].open
    {
      if ev.Fetch? && u == ev.t {
        NewBody(cfg, s, ev);
      } else {
        if ev.Decide? {
          FetchIsMine(s.net, u, s.threads[u]);
          FetchIsMine(s.net, ev.t, s.threads[ev.t]);
        }
        BodiesMove(cfg, s, ev, FetchOf(threads[u].pc));
      }
    }
  }

  // ---------- what is served was inserted ----------

  predicate Uses(pc: Pc, e: Entry) {
    match pc
    case Serving(x, _, _) => x == e
    case Replying(reply) => reply.Hit? && reply.e == e
    case Finished(reply) => reply.Hit? && reply.e == e
    case _ => false
  }

  ghost predicate ServedInv(threads: seq<Thread>, c: Cache) {
    forall t, e :: 0 <= t < |threads| && Uses(threads[t].pc, e) ==> e in c.puts
  }

  lemma FoundWasPut(s: State, th: Thread, clock: nat -> Time, includeStale: bool, mode: Mode)
    requires Filed(s.cache) && Accounted(s.cache)
    ensures forall e :: Uses(Found(Lookup(ListOf(s.cache.table, th.key), th.request, clock, includeStale), mode), e) ==> e in s.cache.puts
  {
    hide Matches, NoDup;
    var r := Lookup(ListOf(s.cache.table, th.key), th.request, clock, includeStale);
    LookupFinds(ListOf(s.cache.table, th.key), th.request, clock, includeStale);
    assert r.Some? ==> Resident(s.cache, r.value);
  }

  lemma UsesMoves(s: State, th: Thread, free: bool, ev: Event, e: Entry)
    requires Filed(s.cache) && Accounted(s.cache) && OfThread(ev) && Ready(s.net, th, free, ev)
    requires Uses(NextPc(s, th, free, ev), e)
    ensures Uses(th.pc, e) || e in s.cache.puts || (ev.PutEnd? && e == EntryOf(th.pc.f, s.net.fetches[th.pc.f]))
  {
    if ev.Get? {
      FoundWasPut(s, th, ev.clock, false, Fresh);
    } else if ev.StaleGet? {
      FoundWasPut(s, th, _ => s.now, true, Stale(th.pc.f));
    }
    hide Lookup, Filed, Accounted;
  }

  lemma ServedStep(cfg: Config, s: State, ev: Event)
    requires Filed(s.cache) && Accounted(s.cache) && ServedInv(s.threads, s.cache) && Enabled(cfg, s, ev)
    ensures ServedInv(NextThreads(cfg, s, ev), NextCache(cfg, s, ev))
  {
    var threads, c := NextThreads(cfg, s, ev), NextCache(cfg, s, ev);
    assert s.cache.puts <= c.puts;
    forall t, e | 0 <= t < |threads| && Uses(threads[t].pc, e) ensures e in c.puts {
      if OfThread(ev) && t == ev.t {
        UsesMoves(s, s.threads[t], Free(cfg, s.cache, s.threads[t].key), ev, e);
      }
    }
  }

  /** A thread acquired its lock at some time in the past. */
  ghost predicate SinceInv(threads: seq<Thread>, now: Time) {
    forall t :: 0 <= t < |threads| && threads[t].pc.Locked? ==> threads[t].pc.since <= now
  }

  lemma SinceStep(cfg: Config, s: State, ev: Event)
    requires SinceInv(s.threads, s.now) && Enabled(cfg, s, ev)
    ensures SinceInv(Apply(cfg, s, ev).threads, Apply(cfg, s, ev).now)
  {
    hide Lookup, NextCache, NextNet, NextDoors, NextLocks;
  }

  // ---------- what has been sent ----------

  /** What a client has been sent is what earlier answers that broke off sent, and then what the present one has sent. */
  ghost predicate ClientOk(net: Net, pc: Pc, c: Client) {
    && (c.broken.code.None? ==> c.broken == NOTHING)
    && match pc
       case Serving(e, _, stage) => c.sent == if stage.Copying? then Answering(c.broken, e.code, stage.got) else c.broken
       case PassingThrough(f) => f < |net.fetches| && c.sent == Answering(c.broken, net.fetches[f].answer.code, [])
       case Replying(reply) => c.sent == SentWith(c.broken, reply)
       case Finished(reply) => c.sent == SentWith(c.broken, reply)
       case _ => c.sent == c.broken
  }

  function SentWith(before: Sent, reply: Reply): Sent {
    if reply.Failed? then before else Answering(before, reply.code, reply.body)
  }

  ghost predicate ClientsInv(net: Net, threads: seq<Thread>, clients: seq<Client>) {
    |clients| == |threads| && forall t :: 0 <= t < |threads| ==> ClientOk(net, threads[t].pc, clients[t])
  }

  lemma ServedClient(net: Net, resp: Resp, gone: bool, e: Entry, mode: Mode, stage: Stage, c: Client, ok: bool, n: nat)
    requires ServeReady(resp, stage, ok, n) && ClientOk(net, Serving(e, mode, stage), c) && (mode.Own? ==> mode.f == e.id)
    ensures ClientOk(net, AfterServe(resp, gone, e, mode, stage, ok, n), ClientServed(resp, gone, e, stage, c, ok, n))
  {
    assert c.broken.bytes + [] == c.broken.bytes;
    if stage.Copying? {
      var chunk := if n > 0 then resp.stored[|stage.got|..|stage.got| + n] else [];
      assert (c.broken.bytes + stage.got) + chunk == c.broken.bytes + (stage.got + chunk);
    }
  }

  lemma ClientMoves(s: State, th: Thread, c: Client, free: bool, ev: Event)
    requires OfThread(ev) && Ready(s.net, th, free, ev) && Ready(s.net, th, true, ev) && ClientOk(s.net, th.pc, c)
    requires th.pc.Serving? && th.pc.mode.Own? ==> th.pc.mode.f == th.pc.e.id
    ensures ClientOk(s.net, NextPc(s, th, free, ev), NextClient(s, th, c, ev))
  {
    hide Lookup, AfterServe, ClientServed;
    assert c.broken.bytes + [] == c.broken.bytes;
    if ev.Serve? {
      ServedClient(s.net, s.net.resps[th.pc.e.id], th.pc.e in s.cache.removed, th.pc.e, th.pc.mode, th.pc.stage, c, ev.ok, ev.n);
    } else if ev.PassDone? {
      var stored := s.net.resps[th.pc.f].stored;
      assert (c.broken.bytes + []) + stored == c.broken.bytes + stored;
    }
  }

  lemma ClientStable(net: Net, net': Net, pc: Pc, c: Client)
    requires ClientOk(net, pc, c) && net.fetches <= net'.fetches
    ensures ClientOk(net', pc, c)
  {
  }

  lemma FreeOrNot(net: Net, th: Thread, free: bool, ev: Event)
    requires OfThread(ev) && Ready(net, th, free, ev)
    ensures Ready(net, th, true, ev)
  {
  }

  lemma ClientsStep(cfg: Config, s: State, ev: Event)
    requires NetInv(s.net) && ThreadsOk(s.net, s.threads) && ClientsInv(s.net, s.threads, s.clients) && Enabled(cfg, s, ev)
    ensures ClientsInv(NextNet(cfg, s, ev), NextThreads(cfg, s, ev), NextClients(cfg, s, ev))
  {
    var net, threads, clients := NextNet(cfg, s, ev), NextThreads(cfg, s, ev), NextClients(cfg, s, ev);
    NetStep(cfg, s, ev);
    OthersStay(cfg, s, ev);
    hide NextNet, NextThreads, NextPc, NextClient, NetInv, Timely, ClientOk;
    if OfThread(ev) {
      var th, free := s.threads[ev.t], Free(cfg, s.cache, s.threads[ev.t].key);
      OwnServesOwn(s.net, ev.t, th);
      ClientMoves(s, th, s.clients[ev.t], free, ev);
    }
    forall t | 0 <= t < |threads| ensures ClientOk(net, threads[t].pc, clients[t]) {
      ClientStable(s.net, net, threads[t].pc, clients[t]);
    }
  }

  lemma OwnServesOwn(net: Net, t: nat, th: Thread)
    requires ThreadOk(net, t, th)
    ensures th.pc.Serving? && th.pc.mode.Own? ==> th.pc.mode.f == th.pc.e.id
  {
  }

  /** A file is opened when nobody subscribes to it any more, so no file ever has a subscriber and no Clean waits. */
  lemma SubscribersStep(cfg: Config, s: State, ev: Event)
    requires ThreadsOk(s.net, s.threads) && s.subscribers == {} && Enabled(cfg, s, ev)
    ensures NextSubscribers(cfg, s, ev) == {}
  {
    if ev.Serve? {
      assert ThreadOk(s.net, ev.t, s.threads[ev.t]);
    }
    hide ModeOk, ReplyOk;
  }

  // ---------- all together ----------

  ghost predicate Inv(cfg: Config, s: State) {
    && DoorInv(cfg, s.threads, s.doors) && LockInv(s.threads, s.locks) && BusyInv(cfg, s.threads, s.cache.busy)
    && NetInv(s.net) && ThreadsOk(s.net, s.threads)
    && Filed(s.cache) && Accounted(s.cache) && PutsInv(s.net, s.cache)
    && UnputInv(s.threads, s.cache) && TimerInv(s)
    && TokenInv(s.net, s.threads) && UndecidedInv(s.net, s.threads) && ServedInv(s.threads, s.cache)
    && SinceInv(s.threads, s.now) && ClientsInv(s.net, s.threads, s.clients) && s.subscribers == {}
  }

  lemma InvInit(cfg: Config, now: Time, requests: seq<(string, Request)>)
    ensures Inv(cfg, Init(now, requests))
  {
  }

  lemma InvStep(cfg: Config, s: State, ev: Event)
    requires Inv(cfg, s) && Enabled(cfg, s, ev)
    ensures Inv(cfg, Apply(cfg, s, ev))
  {
    DoorStep(cfg, s, ev);
    LockStep(cfg, s, ev);
    BusyStep(cfg, s, ev);
    NetStep(cfg, s, ev);
    ThreadsStep(cfg, s, ev);
    AccountedStep(cfg, s, ev);
    PutsStep(cfg, s, ev);
    UnputStep(cfg, s, ev);
    TimerStep(cfg, s, ev);
    TokenStep(cfg, s, ev);
    UndecidedStep(cfg, s, ev);
    ServedStep(cfg, s, ev);
    SinceStep(cfg, s, ev);
    ClientsStep(cfg, s, ev);
    SubscribersStep(cfg, s, ev);
    hide ClientsInv, NextClients, NextSubscribers, SinceInv, DoorInv, LockInv, BusyInv, NetInv, ThreadsOk, Filed, Accounted, PutsInv, UnputInv, TimerInv, TokenInv, UndecidedInv, ServedInv,
      NextThreads, NextDoors, NextLocks, NextCache, NextNet, Enabled;
  }

  lemma {:induction false} InvRun(cfg: Config, now: Time, requests: seq<(string, Request)>, run: seq<Event>)
    requires Legal(cfg, Init(now, requests), run)
    ensures Inv(cfg, After(cfg, Init(now, requests), run))
    decreases |run|
  {
    if run == [] {
      InvInit(cfg, now, requests);
    } else {
      InvRun(cfg, now, requests, run[..|run| - 1]);
      InvStep(cfg, After(cfg, Init(now, requests), run[..|run| - 1]), run[|run| - 1]);
    }
  }

  /** What some run, from some requests at some time, leads to. */
  ghost predicate Reachable(cfg: Config, s: State) {
    exists now, requests, run :: Legal(cfg, Init(now, requests), run) && After(cfg, Init(now, requests), run) == s
  }

  lemma ReachableInv(cfg: Config, s: State)
    requires Reachable(cfg, s)
    ensures Inv(cfg, s)
  {
    var now, requests, run :| Legal(cfg, Init(now, requests), run) && After(cfg, Init(now, requests), run) == s;
    InvRun(cfg, now, requests, run);
  }

  // ---------- theorems about every reachable state ----------

  /**
   The thread's reply carries the status and, unless the stored request was HEAD, the whole body of a response that
   was fetched and inserted for the same key, for a request that agrees with this one on every field the response's
   Vary names; and it is no stale one unless this thread's own fetch had been answered with a code of 500 or more.
   */
  ghost predicate CarriesStored(s: State, t: nat, hit: Reply)
    requires t < |s.threads| && hit.Hit?
  {
    var th := s.threads[t];
    hit.e.id < |s.net.fetches| &&
    var origin := s.net.fetches[hit.e.id];
    && hit.e == EntryOf(hit.e.id, origin) && hit.e in s.cache.puts && origin.key == th.key && hit.code == origin.answer.code
    && Agree(origin.answer.vary, th.request.header, origin.request.header)
    && hit.body == (if origin.request.reqMethod == "HEAD" then [] else ResponseSpec.Flatten(origin.answer.bufs))
    && match hit.mode
       case Fresh => true
       case Stale(f) => Mine(s.net, t, th, f) && s.net.fetches[f].answer.code >= 500
       case Own(_) => false
  }

  /**
   The client was sent what earlier answers to it that broke off had sent, and then this status, unless one was sent
   before, and this body; so it was sent exactly this status and body if and only if those had sent nothing but
   this status.
   */
  ghost predicate SentAfterBroken(c: Client, code: int, body: Bytes) {
    && c.sent == Answering(c.broken, code, body)
    && (c.sent == Sent(Some(code), body) <==> c.broken in {NOTHING, Sent(Some(code), [])})
  }

  lemma SentExactly(c: Client, code: int, body: Bytes)
    requires c.sent == Answering(c.broken, code, body) && (c.broken.code.None? ==> c.broken == NOTHING)
    ensures SentAfterBroken(c, code, body)
  {
    assert [] + body == body;
    assert |c.sent.bytes| == |c.broken.bytes| + |body|;
  }

  lemma RepliesAreSent(cfg: Config, s: State, t: nat)
    requires Inv(cfg, s) && t < |s.threads| && s.threads[t].pc.Finished? && !s.threads[t].pc.reply.Failed?
    ensures |s.clients| == |s.threads| && SentAfterBroken(s.clients[t], s.threads[t].pc.reply.code, s.threads[t].pc.reply.body)
  {
    assert ClientsInv(s.net, s.threads, s.clients);
    assert ClientOk(s.net, s.threads[t].pc, s.clients[t]);
    hide Inv, SentAfterBroken;
    SentExactly(s.clients[t], s.threads[t].pc.reply.code, s.threads[t].pc.reply.body);
  }

  /** Whatever threads, timers and purges do, that is what a hit is and what its client was sent. */
  lemma HitIsWhole(cfg: Config, s: State, t: nat)
    requires Reachable(cfg, s) && t < |s.threads| && s.threads[t].pc.Finished? && s.threads[t].pc.reply.Hit?
    ensures CarriesStored(s, t, s.threads[t].pc.reply)
    ensures |s.clients| == |s.threads| && SentAfterBroken(s.clients[t], s.threads[t].pc.reply.code, s.threads[t].pc.reply.body)
  {
    ReachableInv(cfg, s);
    RepliesAreSent(cfg, s, t);
    assert ThreadOk(s.net, t, s.threads[t]);
    assert Uses(s.threads[t].pc, s.threads[t].pc.reply.e);
    hide ResponseSpec.Flatten, Agree, DoorInv, LockInv, BusyInv, Accounted, Filed, TimerInv, TokenInv, UndecidedInv, UnputInv, ClientsInv,
      SentAfterBroken, Reachable;
  }

  /** A miss and a pass-through carry the whole response of the thread's own fetch, and that is what the client was sent. */
  lemma OwnSoundness(cfg: Config, s: State, t: nat)
    requires Reachable(cfg, s) && t < |s.threads| && s.threads[t].pc.Finished?
    ensures |s.clients| == |s.threads|
    ensures var th, reply := s.threads[t], s.threads[t].pc.reply;
            reply.Missed? || reply.Skipped? ==>
              && reply.f < |s.net.fetches| && s.net.fetches[reply.f].thread == t && s.net.fetches[reply.f].request == th.request
              && reply.code == s.net.fetches[reply.f].answer.code
              && reply.body == (if th.request.reqMethod == "HEAD" then [] else ResponseSpec.Flatten(s.net.fetches[reply.f].answer.bufs))
              && SentAfterBroken(s.clients[t], reply.code, reply.body)
  {
    ReachableInv(cfg, s);
    if !s.threads[t].pc.reply.Failed? {
      RepliesAreSent(cfg, s, t);
    }
    assert ThreadOk(s.net, t, s.threads[t]);
    hide ResponseSpec.Flatten, DoorInv, LockInv, BusyInv, Accounted, Filed, TimerInv, TokenInv, UndecidedInv, UnputInv, ServedInv,
      SentAfterBroken, Reachable;
  }

  lemma AccountedMeansConserved(c: Cache)
    requires Filed(c) && Accounted(c)
    ensures forall e :: e in c.puts ==> c.cleaned[e] + multiset(ListOf(c.table, e.key))[e] == 1
    ensures forall e :: e in c.puts && c.cleaned[e] == 0 ==> e in c.timers
    ensures forall k, e :: e in ListOf(c.table, k) ==> e.key == k && e in c.puts && e in c.timers
  {
    hide NoDup, ListOf;
    forall e | e in c.puts ensures c.cleaned[e] + multiset(ListOf(c.table, e.key))[e] == 1 {
      NoDupCount(ListOf(c.table, e.key), e);
    }
    forall k, e | e in ListOf(c.table, k) ensures e.key == k && e in c.puts && e in c.timers {
      assert Resident(c, e);
    }
  }

  /**
   Conservation: every entry ever inserted is in its list, exactly once and with its timer pending, or has had Clean
   requested exactly once; nothing else has.  So once no timer is pending the table is empty.
   */
  lemma Conservation(cfg: Config, s: State)
    requires Reachable(cfg, s)
    ensures var c := s.cache;
            && (forall e :: e in c.puts ==> c.cleaned[e] + multiset(ListOf(c.table, e.key))[e] == 1)
            && (forall e :: e in c.puts && c.cleaned[e] == 0 ==> e in c.timers)
            && (forall e :: e in c.cleaned ==> e in c.puts)
            && (forall k, e :: e in ListOf(c.table, k) ==> e.key == k && e in c.puts)
            && (c.timers == {} ==> forall k :: ListOf(c.table, k) == [])
  {
    var c := s.cache;
    ReachableInv(cfg, s);
    assert Accounted(c) && Filed(c);
    hide Inv, Filed, Reachable, ListOf;
    AccountedMeansConserved(c);
    assert forall k :: ListOf(c.table, k) == [] || ListOf(c.table, k)[0] in ListOf(c.table, k);
  }

  lemma {:induction false} NoDupCount(list: seq<Entry>, e: Entry)
    requires NoDup(list)
    ensures multiset(list)[e] == if e in list then 1 else 0
  {
    if list != [] {
      var rest := list[1..];
      assert list == [list[0]] + rest;
      assert list[0] !in rest by {
        assert forall i :: 0 <= i < |rest| ==> rest[i] == list[i + 1];
      }
      assert NoDup(rest);
      NoDupCount(rest, e);
    }
  }

  /** At most one thread at a time has a fetch for a key in progress. */
  lemma OneFetchPerKey(cfg: Config, s: State, t: nat, u: nat)
    requires Reachable(cfg, s) && t < |s.threads| && u < |s.threads|
    requires FetchPc(s.threads[t].pc) && FetchPc(s.threads[u].pc) && s.threads[t].key == s.threads[u].key
    ensures t == u
  {
    ReachableInv(cfg, s);
  }

  lemma ReaderCanGoOn(cfg: Config, s: State, t: nat)
    requires ThreadsOk(s.net, s.threads) && TokenInv(s.net, s.threads) && t < |s.threads| && s.threads[t].pc.Serving?
    ensures var e, stage := s.threads[t].pc.e, s.threads[t].pc.stage;
            && e.id < |s.net.resps|
            && (s.net.resps[e.id].phase.Closed? && stage.AwaitToken? ==> Enabled(cfg, s, Serve(t, true, 0)))
            && (s.net.resps[e.id].phase.Closed? && stage.ReadFlag? ==>
                  Enabled(cfg, s, Serve(t, true, 0)) && NextThreads(cfg, s, Serve(t, true, 0))[t].pc.stage.OpenFile?)
  {
    assert ThreadOk(s.net, t, s.threads[t]);
    assert Awaits(s.threads[t]) <==> s.threads[t].pc.stage.AwaitToken?;
    hide ModeOk;
  }

  /**
   The single token of bodyCompleteChan is enough: an entry never has two readers at a time, and once the upstream
   has closed the response a waiting reader can go on and a later one does not wait.
   */
  lemma BodyReaderProgress(cfg: Config, s: State, t: nat)
    requires Reachable(cfg, s) && t < |s.threads| && s.threads[t].pc.Serving?
    ensures var e, stage := s.threads[t].pc.e, s.threads[t].pc.stage;
            && e.id < |s.net.resps|
            && (forall u :: 0 <= u < |s.threads| && s.threads[u].pc.Serving? && s.threads[u].pc.e == e ==> u == t)
            && (s.net.resps[e.id].phase.Closed? && stage.AwaitToken? ==> Enabled(cfg, s, Serve(t, true, 0)))
            && (s.net.resps[e.id].phase.Closed? && stage.ReadFlag? ==>
                  Enabled(cfg, s, Serve(t, true, 0)) && NextThreads(cfg, s, Serve(t, true, 0))[t].pc.stage.OpenFile?)
  {
    ReachableInv(cfg, s);
    ReaderCanGoOn(cfg, s, t);
    hide NextThreads, Enabled, TokenInv, DoorInv, BusyInv, Filed, Accounted, PutsInv, TimerInv, UndecidedInv, UnputInv, ServedInv,
      SinceInv, NetInv, Reachable;
    forall u | 0 <= u < |s.threads| && s.threads[u].pc.Serving? && s.threads[u].pc.e == s.threads[t].pc.e ensures u == t {
      OneReader(s, t, u);
    }
  }

  /** A file is opened only after its upstream has closed it, when it holds the whole body: so it has no subscribers. */
  lemma OpenedFilesAreWhole(cfg: Config, s: State, t: nat)
    requires Reachable(cfg, s) && t < |s.threads| && s.threads[t].pc.Serving?
    requires s.threads[t].pc.stage.OpenFile? || s.threads[t].pc.stage.Copying?
    ensures var id := s.threads[t].pc.e.id;
            && id < |s.net.resps| == |s.net.fetches| && !s.net.resps[id].phase.Writing?
            && s.net.resps[id].stored == ResponseSpec.Flatten(s.net.fetches[id].answer.bufs)
  {
    ReachableInv(cfg, s);
    assert ThreadOk(s.net, t, s.threads[t]);
    hide BusyInv, Filed, Accounted, PutsInv, TimerInv, UndecidedInv, UnputInv, ServedInv, LockInv, TokenInv, ModeOk, Reachable;
    var id := s.threads[t].pc.e.id;
    ResponseSpec.CompleteIsWhole(s.net.resps[id], s.net.fetches[id].answer.bufs);
  }

  /**
   No file ever has a subscriber, because files are opened only after their upstream has closed them.  So the Clean
   that `cleanEntry` waits for while it holds a bucket's lock can always be done, and so can that of a replaced entry.
   */
  lemma CleanNeverWaits(cfg: Config, s: State)
    requires Reachable(cfg, s)
    ensures s.subscribers == {}
    ensures forall b :: b in s.cache.cleaning ==> Enabled(cfg, s, CleanDone(b, true))
    ensures forall e :: e in s.cache.dropped ==> Enabled(cfg, s, RemoveFile(e))
  {
    ReachableInv(cfg, s);
    assert s.subscribers == {};
    hide Inv, Reachable;
    UnsubscribedCleans(cfg, s);
  }

  lemma UnsubscribedCleans(cfg: Config, s: State)
    requires s.subscribers == {}
    ensures forall b :: b in s.cache.cleaning ==> Enabled(cfg, s, CleanDone(b, true))
    ensures forall e :: e in s.cache.dropped ==> Enabled(cfg, s, RemoveFile(e))
  {
  }

  // ---------- progress ----------

  /** A step of the upstream of an open, unfinished response. */
  function UpstreamStep(r: Resp): ResponseSpec.Event {
    match r.phase
    case Writing => if r.pending != [] then ResponseSpec.Store else ResponseSpec.MarkComplete
    case Complete => ResponseSpec.SendToken
    case _ => ResponseSpec.SignalClosed
  }

  lemma UpstreamCanStep(cfg: Config, s: State, f: nat)
    requires f < |s.net.resps| && s.net.resps[f].open && !s.net.resps[f].phase.Closed?
    ensures Enabled(cfg, s, Upstream(f, UpstreamStep(s.net.resps[f])))
  {
  }

  /** A step of a request or of an upstream that meets no error; a fetch gets this answer. */
  predicate WithoutError(ev: Event, answer: Answer) {
    match ev
    case Serve(_, ok, _) => ok
    case Fetch(_, a) => a == answer
    case Decide(_, errorSeen, backendMade) => !errorSeen && backendMade
    case CleanDone(_, ok) => ok
    case _ => OfThread(ev) || ev.Upstream?
  }

  lemma ServerCanStep(cfg: Config, s: State, t: nat) returns (ev: Event)
    requires ThreadsOk(s.net, s.threads) && TokenInv(s.net, s.threads) && t < |s.threads| && s.threads[t].pc.Serving?
    ensures Enabled(cfg, s, ev) && ((ev.Serve? && ev.ok) || ev.Upstream?)
  {
    var th := s.threads[t];
    assert ThreadOk(s.net, t, th);
    hide ModeOk, ReplyOk, ThreadsOk;
    var resp := s.net.resps[th.pc.e.id];
    match th.pc.stage {
      case AwaitToken =>
        assert Awaits(th);
        if resp.token {
          ev := Serve(t, true, 0);
        } else {
          UpstreamCanStep(cfg, s, th.pc.e.id);
          ev := Upstream(th.pc.e.id, UpstreamStep(resp));
        }
      case Copying(got) =>
        ev := if |got| < |resp.stored| then Serve(t, true, 1) else Serve(t, true, 0);
      case _ => ev := Serve(t, true, 0);
    }
  }

  /** A step that needs the bucket's lock, or the step of whoever has it. */
  lemma BucketUserCanStep(cfg: Config, s: State, t: nat) returns (ev: Event)
    requires SinceInv(s.threads, s.now) && BusyInv(cfg, s.threads, s.cache.busy) && ThreadsOk(s.net, s.threads)
    requires t < |s.threads| && (s.threads[t].pc.Locked? || s.threads[t].pc.GotHeaders? || s.threads[t].pc.Backed?)
    requires s.subscribers == {}
    ensures Enabled(cfg, s, ev) && (ev.Get? || ev.StaleGet? || ev.PutBegin? || ev.PutEnd? || (ev.CleanDone? && ev.ok))
  {
    var th := s.threads[t];
    assert ThreadOk(s.net, t, th);
    if cfg.bucketOf(th.key) in s.cache.cleaning {
      ev := CleanDone(cfg.bucketOf(th.key), true);
    } else if cfg.bucketOf(th.key) in s.cache.busy {
      var u :| 0 <= u < |s.threads| && InsertsInto(cfg, s.threads[u], cfg.bucketOf(th.key));
      assert ThreadOk(s.net, u, s.threads[u]);
      ev := PutEnd(u);
    } else {
      ev := if th.pc.Locked? then Get(t, _ => s.now) else if th.pc.GotHeaders? then StaleGet(t) else PutBegin(t);
    }
  }

  lemma FetcherCanStep(cfg: Config, s: State, t: nat, answer: Answer) returns (ev: Event)
    requires t < |s.threads| && ThreadOk(s.net, t, s.threads[t]) && UndecidedInv(s.net, s.threads)
    requires var pc := s.threads[t].pc; pc.NeedFetch? || pc.AwaitHeaders? || pc.Deciding? || pc.Inserting? || pc.PassingThrough?
    ensures Enabled(cfg, s, ev) && WithoutError(ev, answer)
  {
    hide ModeOk, ReplyOk, Known, StageOk;
    match s.threads[t].pc {
      case NeedFetch => ev := Fetch(t, answer);
      case AwaitHeaders(_) => ev := Headers(t);
      case Deciding(_) => ev := Decide(t, false, true);
      case Inserting(_) => ev := PutEnd(t);
      case PassingThrough(f) =>
        if s.net.resps[f].phase.Closed? {
          ev := PassDone(t);
        } else {
          UpstreamCanStep(cfg, s, f);
          ev := Upstream(f, UpstreamStep(s.net.resps[f]));
        }
    }
  }

  lemma ReleaseCanStep(cfg: Config, s: State, t: nat)
    requires LockInv(s.threads, s.locks) && t < |s.threads| && s.threads[t].pc.Replying?
    ensures Enabled(cfg, s, Release(t))
  {
  }

  /** What a thread that holds its key's lock can do, or what must happen before. */
  lemma HolderCanStep(cfg: Config, s: State, t: nat, answer: Answer) returns (ev: Event)
    requires LockInv(s.threads, s.locks) && BusyInv(cfg, s.threads, s.cache.busy) && ThreadsOk(s.net, s.threads)
    requires TokenInv(s.net, s.threads) && UndecidedInv(s.net, s.threads) && SinceInv(s.threads, s.now) && s.subscribers == {}
    requires t < |s.threads| && Holding(s.threads[t].pc)
    ensures Enabled(cfg, s, ev) && WithoutError(ev, answer)
  {
    var th := s.threads[t];
    assert ThreadOk(s.net, t, th);
    if th.pc.Serving? {
      ev := ServerCanStep(cfg, s, t);
    } else if th.pc.Locked? || th.pc.GotHeaders? || th.pc.Backed? {
      ev := BucketUserCanStep(cfg, s, t);
    } else if th.pc.Replying? {
      ev := Release(t);
      ReleaseCanStep(cfg, s, t);
    } else if th.pc.Leaving? {
      ev := Leave(t);
    } else {
      ev := FetcherCanStep(cfg, s, t, answer);
    }
    hide Enabled, LockInv, ThreadOk;
  }

  /** Whoever is inside Acquire can go on, or the holder of the key it waits for can. */
  lemma AcquirerCanStep(cfg: Config, s: State, t: nat, answer: Answer) returns (ev: Event)
    requires Inv(cfg, s) && t < |s.threads| && InDoor(s.threads[t].pc)
    ensures Enabled(cfg, s, ev) && WithoutError(ev, answer)
  {
    if s.threads[t].pc.Leaving? {
      ev := Leave(t);
    } else if s.threads[t].key in s.locks {
      ev := HolderCanStep(cfg, s, s.locks[s.threads[t].key], answer);
    } else {
      ev := Acquire(t);
    }
    hide Inv;
  }

  /**
   The bucket mutexes, the key locks, the tokens and the channels together never deadlock: while a request is
   unfinished, some thread or upstream can step, and can do so without an error.
   */
  lemma NoDeadlock(cfg: Config, s: State, t: nat, answer: Answer) returns (ev: Event)
    requires Reachable(cfg, s) && t < |s.threads| && !s.threads[t].pc.Finished?
    ensures Enabled(cfg, s, ev) && WithoutError(ev, answer)
  {
    ReachableInv(cfg, s);
    var b := cfg.bucketOf(s.threads[t].key);
    if Holding(s.threads[t].pc) {
      ev := HolderCanStep(cfg, s, t, answer);
    } else if s.threads[t].pc.Entering? {
      ev := AcquirerCanStep(cfg, s, t, answer);
    } else if b in s.doors {
      ev := AcquirerCanStep(cfg, s, s.doors[b], answer);
    } else {
      ev := Enter(t);
    }
    hide Inv, Reachable, Enabled;
  }
}
