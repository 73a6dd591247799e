/**
 What a client has been sent when an answer from the cache broke off.

 The status goes out before the copy of a stored body.  When the copy fails, the request is answered again, with a
 stale entry or from the upstream, through the same response writer: the client keeps the first status, and the bytes
 copied so far come before the new body.
 */
module BrokenHits {
  import opened Entries
  import opened Http
  import opened Server
  import Freshness
  import ResponseSpec

  type Time = Freshness.Time

  /** The event is a failure of thread `t` to copy a file it has opened. */
  ghost predicate BreaksOff(s: State, ev: Server.Event, t: nat) {
    && ev.Serve? && ev.t == t && ev.n == 0 && !ev.ok
    && t < |s.threads| && s.threads[t].pc.Serving? && s.threads[t].pc.stage.Copying?
  }

  /** That has happened in the run. */
  ghost predicate BrokeOff(cfg: Config, s0: State, run: seq<Server.Event>, t: nat)
    requires Legal(cfg, s0, run)
    decreases |run|
  {
    run != [] &&
    var before := run[..|run| - 1];
    BrokeOff(cfg, s0, before, t) || BreaksOff(After(cfg, s0, before), run[|run| - 1], t)
  }

  lemma BrokenMoves(cfg: Config, s: State, ev: Server.Event, t: nat)
    requires Enabled(cfg, s, ev) && ClientsInv(s.net, s.threads, s.clients) && t < |s.threads|
    ensures |NextClients(cfg, s, ev)| == |s.clients|
    ensures NextClients(cfg, s, ev)[t].broken == if BreaksOff(s, ev, t) then s.clients[t].sent else s.clients[t].broken
    ensures BreaksOff(s, ev, t) ==> s.clients[t].sent.code.Some?
  {
    assert ClientOk(s.net, s.threads[t].pc, s.clients[t]);
    hide AfterServe, Lookup;
  }

  /** An answer has broken off exactly when something has been sent that belongs to no later answer. */
  lemma {:induction false} BrokenIffBrokeOff(cfg: Config, now: Time, requests: seq<(string, Request)>, run: seq<Server.Event>, t: nat)
    requires Legal(cfg, Init(now, requests), run) && t < |requests|
    ensures var s := After(cfg, Init(now, requests), run);
            && |s.threads| == |s.clients| == |requests|
            && (s.clients[t].broken != NOTHING <==> BrokeOff(cfg, Init(now, requests), run, t))
            && (s.clients[t].broken != NOTHING ==> s.clients[t].broken.code.Some?)
    decreases |run|
  {
    if run != [] {
      var before, ev := run[..|run| - 1], run[|run| - 1];
      var s := After(cfg, Init(now, requests), before);
      InvRun(cfg, now, requests, before);
      assert ClientsInv(s.net, s.threads, s.clients);
      hide Inv, ClientsInv, NextClients, NextThreads, NextNet, NextCache, NextSubscribers, BreaksOff, Enabled;
      BrokenIffBrokeOff(cfg, now, requests, before, t);
      OthersStay(cfg, s, ev);
      BrokenMoves(cfg, s, ev, t);
    }
  }

  /**
   The status and body of a reply are exactly what its client was sent if and only if no answer to the same request
   broke off before, or those that did had sent this very status and no byte of a body.
   */
  lemma SentExactlyIff(cfg: Config, now: Time, requests: seq<(string, Request)>, run: seq<Server.Event>, t: nat)
    requires Legal(cfg, Init(now, requests), run) && t < |requests| == |After(cfg, Init(now, requests), run).threads|
    requires var pc := After(cfg, Init(now, requests), run).threads[t].pc; pc.Finished? && !pc.reply.Failed?
    ensures |After(cfg, Init(now, requests), run).clients| == |requests|
    ensures var s := After(cfg, Init(now, requests), run);
            var c, reply := s.clients[t], s.threads[t].pc.reply;
            && c.sent == Answering(c.broken, reply.code, reply.body)
            && (c.sent == Sent(Some(reply.code), reply.body) <==>
                  !BrokeOff(cfg, Init(now, requests), run, t) || c.broken == Sent(Some(reply.code), []))
  {
    var s := After(cfg, Init(now, requests), run);
    InvRun(cfg, now, requests, run);
    RepliesAreSent(cfg, s, t);
    BrokenIffBrokeOff(cfg, now, requests, run, t);
    hide Inv, BrokeOff, Legal, After;
  }

  // ---------- a run in which it happens ----------

  const CONFIG: Config := Config(_ => 0, 0)
  const REQUEST: Request := Request("GET", "/", map[])
  const STORED: Answer := Answer(200, "", true, 100, [[1, 2]])
  const LATER: Answer := Answer(404, "", false, 0, [])
  const FETCHED: Fetched := Fetched("k", REQUEST, 0, STORED)
  const REFETCHED: Fetched := Fetched("k", REQUEST, 1, LATER)
  const ENTRY: Entry := EntryOf(0, FETCHED)
  const UNSENT: Client := Client(NOTHING, NOTHING)
  const HALF: Sent := Sent(Some(200), [1])

  const START: State := Init(0, [("k", REQUEST), ("k", REQUEST)])

  /** Two requests for one key: where they are, what the second has been sent, who holds the key, and the rest. */
  function At(first: Pc, second: Pc, client: Client, locks: map<string, nat>, cache: Cache, net: Net): State {
    State(0, [Thread("k", REQUEST, first), Thread("k", REQUEST, second)], [UNSENT, client], map[], locks, cache, net, {})
  }

  function Empty(): Cache { Cache(map[], {}, map[], {}, {}, multiset{}, {}, {}) }

  function Filled(): Cache { Cache(map["k" := [ENTRY]], {}, map[], {ENTRY}, {ENTRY}, multiset{}, {}, {}) }

  function Opened(): Resp { ResponseSpec.NewResp([[1, 2]]).(open := true) }

  function Once(): Net { Net([FETCHED], [Complete()]) }

  function Silent(phase: ResponseSpec.Phase, token: bool): Resp { ResponseSpec.Resp(true, [], [], phase, token) }

  function Twice(resp: Resp): Net { Net([FETCHED, REFETCHED], [Complete(), resp]) }

  /** The second request at work, when the first has left its entry in the table. */
  function Second(pc: Pc, client: Client, net: Net): State {
    At(Finished(Failed), pc, client, map["k" := 1], Filled(), net)
  }

  function Complete(): Resp { ResponseSpec.Resp(true, [], [1, 2], ResponseSpec.Complete, false) }

  ghost predicate Leads(run: seq<Server.Event>, s: State) { Legal(CONFIG, START, run) && After(CONFIG, START, run) == s }

  lemma Do(run: seq<Server.Event>, s: State, ev: Server.Event) returns (longer: seq<Server.Event>, t: State)
    requires Leads(run, s) && Enabled(CONFIG, s, ev)
    ensures Leads(longer, t) && t == Apply(CONFIG, s, ev)
  {
    longer, t := run + [ev], Apply(CONFIG, s, ev);
    assert longer[..|longer| - 1] == run;
    hide Enabled, Apply;
  }

  lemma FindsEntry()
    ensures Lookup([ENTRY], REQUEST, _ => 0, false) == Some(ENTRY)
  {
    assert Matches(REQUEST, ENTRY);
    assert Served([ENTRY], 0, REQUEST, _ => 0, false);
    hide Matches;
  }

  /** The first request acquires the lock. */
  lemma FirstAcquires(run: seq<Server.Event>, s0: State) returns (longer: seq<Server.Event>, s: State)
    requires Leads(run, s0) && s0 == START
    ensures Leads(longer, s) && s == At(Locked(0), Start, UNSENT, map["k" := 0], Empty(), Net([], []))
  {
    hide Leads, Lookup, RemoveEntry, FirstMatch;
    longer, s := run, s0;
    longer, s := Do(longer, s, Enter(0));
    longer, s := Do(longer, s, Acquire(0));
    longer, s := Do(longer, s, Leave(0));
  }

  /** It finds nothing and fetches. */
  lemma FirstFetches(run: seq<Server.Event>, s0: State) returns (longer: seq<Server.Event>, s: State)
    requires Leads(run, s0) && s0 == At(Locked(0), Start, UNSENT, map["k" := 0], Empty(), Net([], []))
    ensures Leads(longer, s) && s == At(AwaitHeaders(0), Start, UNSENT, map["k" := 0], Empty(), Net([FETCHED], [ResponseSpec.NewResp([[1, 2]])]))
  {
    hide Leads, Lookup, RemoveEntry, FirstMatch;
    longer, s := run, s0;
    longer, s := Do(longer, s, Get(0, _ => 0));
    longer, s := Do(longer, s, Fetch(0, STORED));
  }

  /** The response is public. */
  lemma FirstDecides(run: seq<Server.Event>, s0: State) returns (longer: seq<Server.Event>, s: State)
    requires Leads(run, s0) && s0 == At(AwaitHeaders(0), Start, UNSENT, map["k" := 0], Empty(), Net([FETCHED], [ResponseSpec.NewResp([[1, 2]])]))
    ensures Leads(longer, s) && s == At(Backed(0), Start, UNSENT, map["k" := 0], Empty(), Net([FETCHED], [Opened()]))
  {
    hide Leads, Lookup, RemoveEntry, FirstMatch;
    longer, s := run, s0;
    longer, s := Do(longer, s, Headers(0));
    longer, s := Do(longer, s, StaleGet(0));
    longer, s := Do(longer, s, Decide(0, false, true));
  }

  /** The upstream writes two bytes and closes the file. */
  lemma UpstreamWrites(run: seq<Server.Event>, s0: State) returns (longer: seq<Server.Event>, s: State)
    requires Leads(run, s0) && s0 == At(Backed(0), Start, UNSENT, map["k" := 0], Empty(), Net([FETCHED], [Opened()]))
    ensures Leads(longer, s) && s == At(Backed(0), Start, UNSENT, map["k" := 0], Empty(), Once())
  {
    hide Leads, Lookup, RemoveEntry, FirstMatch;
    var body: Bytes := [1, 2];
    assert [] + body == body && [body][1..] == [];
    longer, s := run, s0;
    longer, s := Do(longer, s, Upstream(0, ResponseSpec.Store));
    longer, s := Do(longer, s, Upstream(0, ResponseSpec.MarkComplete));
  }

  /** The entry is inserted. */
  lemma FirstInserts(run: seq<Server.Event>, s0: State) returns (longer: seq<Server.Event>, s: State)
    requires Leads(run, s0) && s0 == At(Backed(0), Start, UNSENT, map["k" := 0], Empty(), Once())
    ensures Leads(longer, s) && s == At(Serving(ENTRY, Own(0), Begin), Start, UNSENT, map["k" := 0], Filled(), Once())
  {
    hide Leads, Lookup, RemoveEntry, FirstMatch;
    assert PutList([], ENTRY) == [ENTRY] && Replaced([], ENTRY) == [];
    longer, s := run, s0;
    longer, s := Do(longer, s, PutBegin(0));
    longer, s := Do(longer, s, PutEnd(0));
  }

  /** The first request cannot open the file, and is done. */
  lemma FirstGivesUp(run: seq<Server.Event>, s0: State) returns (longer: seq<Server.Event>, s: State)
    requires Leads(run, s0) && s0 == At(Serving(ENTRY, Own(0), Begin), Start, UNSENT, map["k" := 0], Filled(), Once())
    ensures Leads(longer, s) && s == At(Finished(Failed), Start, UNSENT, map[], Filled(), Once())
  {
    hide Leads, Lookup, RemoveEntry, FirstMatch;
    longer, s := run, s0;
    longer, s := Do(longer, s, Serve(0, true, 0));
    longer, s := Do(longer, s, Serve(0, true, 0));
    longer, s := Do(longer, s, Serve(0, false, 0));
    longer, s := Do(longer, s, Release(0));
  }

  /** The second request acquires the lock. */
  lemma SecondAcquires(run: seq<Server.Event>, s0: State) returns (longer: seq<Server.Event>, s: State)
    requires Leads(run, s0) && s0 == At(Finished(Failed), Start, UNSENT, map[], Filled(), Once())
    ensures Leads(longer, s) && s == Second(Locked(0), UNSENT, Once())
  {
    hide Leads, Lookup, RemoveEntry, FirstMatch;
    longer, s := run, s0;
    longer, s := Do(longer, s, Enter(1));
    longer, s := Do(longer, s, Acquire(1));
    longer, s := Do(longer, s, Leave(1));
  }

  /** It finds the entry. */
  lemma SecondFinds(run: seq<Server.Event>, s0: State) returns (longer: seq<Server.Event>, s: State)
    requires Leads(run, s0) && s0 == Second(Locked(0), UNSENT, Once())
    ensures Leads(longer, s) && s == Second(Serving(ENTRY, Fresh, Begin), UNSENT, Once())
  {
    hide Leads, Lookup, RemoveEntry, FirstMatch;
    FindsEntry();
    longer, s := Do(run, s0, Get(1, _ => 0));
  }

  /** Its body is complete. */
  lemma SecondHits(run: seq<Server.Event>, s0: State) returns (longer: seq<Server.Event>, s: State)
    requires Leads(run, s0) && s0 == Second(Serving(ENTRY, Fresh, Begin), UNSENT, Once())
    ensures Leads(longer, s) && s == Second(Serving(ENTRY, Fresh, OpenFile), UNSENT, Once())
  {
    hide Leads, Lookup, RemoveEntry, FirstMatch;
    longer, s := run, s0;
    longer, s := Do(longer, s, Serve(1, true, 0));
    longer, s := Do(longer, s, Serve(1, true, 0));
  }

  /** The file is opened and the status goes out. */
  lemma SecondOpens(run: seq<Server.Event>, s0: State) returns (longer: seq<Server.Event>, s: State)
    requires Leads(run, s0) && s0 == Second(Serving(ENTRY, Fresh, OpenFile), UNSENT, Once())
    ensures Leads(longer, s) && s == Second(Serving(ENTRY, Fresh, Copying([])), Client(Sent(Some(200), []), NOTHING), Once())
  {
    hide Leads, Lookup, RemoveEntry, FirstMatch;
    assert NOTHING.bytes + [] == [];
    longer, s := run, s0;
    longer, s := Do(longer, s, Serve(1, true, 0));
  }

  /** One of the two bytes is copied. */
  lemma SecondCopies(run: seq<Server.Event>, s0: State) returns (longer: seq<Server.Event>, s: State)
    requires Leads(run, s0) && s0 == Second(Serving(ENTRY, Fresh, Copying([])), Client(Sent(Some(200), []), NOTHING), Once())
    ensures Leads(longer, s) && s == Second(Serving(ENTRY, Fresh, Copying([1])), Client(HALF, NOTHING), Once())
  {
    hide Leads, Lookup, RemoveEntry, FirstMatch;
    var body: Bytes := [1, 2];
    assert body[0..1] == [1] && [] + body[0..1] == [1];
    longer, s := run, s0;
    longer, s := Do(longer, s, Serve(1, true, 1));
  }

  /** There the copy breaks off. */
  lemma SecondBreaksOff(run: seq<Server.Event>, s0: State) returns (longer: seq<Server.Event>, s: State)
    requires Leads(run, s0) && s0 == Second(Serving(ENTRY, Fresh, Copying([1])), Client(HALF, NOTHING), Once())
    ensures Leads(longer, s) && s == Second(NeedFetch, Client(HALF, HALF), Once())
  {
    hide Leads, Lookup, RemoveEntry, FirstMatch;
    longer, s := run, s0;
    longer, s := Do(longer, s, Serve(1, false, 0));
  }

  /** The request is sent upstream. */
  lemma SecondFetches(run: seq<Server.Event>, s0: State) returns (longer: seq<Server.Event>, s: State)
    requires Leads(run, s0) && s0 == Second(NeedFetch, Client(HALF, HALF), Once())
    ensures Leads(longer, s) && s == Second(Deciding(1), Client(HALF, HALF), Twice(ResponseSpec.NewResp([])))
  {
    hide Leads, Lookup, RemoveEntry, FirstMatch;
    longer, s := run, s0;
    longer, s := Do(longer, s, Fetch(1, LATER));
    longer, s := Do(longer, s, Headers(1));
    longer, s := Do(longer, s, StaleGet(1));
  }

  /** The response is private and passed through. */
  lemma SecondPasses(run: seq<Server.Event>, s0: State) returns (longer: seq<Server.Event>, s: State)
    requires Leads(run, s0) && s0 == Second(Deciding(1), Client(HALF, HALF), Twice(ResponseSpec.NewResp([])))
    ensures Leads(longer, s) && s == Second(PassingThrough(1), Client(HALF, HALF), Twice(Silent(ResponseSpec.Writing, false)))
  {
    hide Leads, Lookup, RemoveEntry, FirstMatch;
    assert [1] + [] == HALF.bytes;
    longer, s := Do(run, s0, Decide(1, false, true));
  }

  /** It has no body. */
  lemma UpstreamCompletes(run: seq<Server.Event>, s0: State) returns (longer: seq<Server.Event>, s: State)
    requires Leads(run, s0) && s0 == Second(PassingThrough(1), Client(HALF, HALF), Twice(Silent(ResponseSpec.Writing, false)))
    ensures Leads(longer, s) && s == Second(PassingThrough(1), Client(HALF, HALF), Twice(Silent(ResponseSpec.Complete, false)))
  {
    hide Leads, Lookup, RemoveEntry, FirstMatch;
    longer, s := Do(run, s0, Upstream(1, ResponseSpec.MarkComplete));
  }

  /** It is closed. */
  lemma UpstreamCloses(run: seq<Server.Event>, s0: State) returns (longer: seq<Server.Event>, s: State)
    requires Leads(run, s0) && s0 == Second(PassingThrough(1), Client(HALF, HALF), Twice(Silent(ResponseSpec.Complete, false)))
    ensures Leads(longer, s) && s == Second(PassingThrough(1), Client(HALF, HALF), Twice(Silent(ResponseSpec.Closed, true)))
  {
    hide Leads, Lookup, RemoveEntry, FirstMatch;
    longer, s := run, s0;
    longer, s := Do(longer, s, Upstream(1, ResponseSpec.SendToken));
    longer, s := Do(longer, s, Upstream(1, ResponseSpec.SignalClosed));
  }

  /** Its body, which is empty, has gone out. */
  lemma SecondReplies(run: seq<Server.Event>, s0: State) returns (longer: seq<Server.Event>, s: State)
    requires Leads(run, s0) && s0 == Second(PassingThrough(1), Client(HALF, HALF), Twice(Silent(ResponseSpec.Closed, true)))
    ensures Leads(longer, s) && s == Second(Replying(Skipped(1, 404, [])), Client(HALF, HALF), Twice(Silent(ResponseSpec.Closed, true)))
  {
    hide Leads, Lookup, RemoveEntry, FirstMatch;
    assert [1] + [] == HALF.bytes;
    longer, s := run, s0;
    longer, s := Do(longer, s, PassDone(1));
  }

  /** The second request is done. */
  lemma SecondFinishes(run: seq<Server.Event>, s0: State) returns (longer: seq<Server.Event>, s: State)
    requires Leads(run, s0) && s0 == Second(Replying(Skipped(1, 404, [])), Client(HALF, HALF), Twice(Silent(ResponseSpec.Closed, true)))
    ensures Leads(longer, s) && s == At(Finished(Failed), Finished(Skipped(1, 404, [])), Client(HALF, HALF), map[], Filled(), Twice(Silent(ResponseSpec.Closed, true)))
  {
    hide Leads, Lookup, RemoveEntry, FirstMatch;
    longer, s := run, s0;
    longer, s := Do(longer, s, Release(1));
  }

  /**
   A request is answered with 404 and no body, and its client has been sent 200 and one byte of another response: the
   hit before it broke off.
   */
  lemma AnswerBehindBrokenHit() returns (run: seq<Server.Event>, s: State)
    ensures Legal(CONFIG, START, run) && After(CONFIG, START, run) == s
    ensures |s.threads| == |s.clients| == 2
    ensures s.threads[1].pc == Finished(Skipped(1, 404, [])) && s.clients[1].sent == Sent(Some(200), [1])
    ensures s.clients[1].sent != Sent(Some(404), [])
  {
    run, s := [], START;
    run, s := FirstAcquires(run, s);
    run, s := FirstFetches(run, s);
    run, s := FirstDecides(run, s);
    run, s := UpstreamWrites(run, s);
    run, s := FirstInserts(run, s);
    run, s := FirstGivesUp(run, s);
    run, s := SecondAcquires(run, s);
    run, s := SecondFinds(run, s);
    run, s := SecondHits(run, s);
    run, s := SecondOpens(run, s);
    run, s := SecondCopies(run, s);
    run, s := SecondBreaksOff(run, s);
    run, s := SecondFetches(run, s);
    run, s := SecondPasses(run, s);
    run, s := UpstreamCompletes(run, s);
    run, s := UpstreamCloses(run, s);
    run, s := SecondReplies(run, s);
    run, s := SecondFinishes(run, s);
  }
}
