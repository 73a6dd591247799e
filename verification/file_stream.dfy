/**
 Readers that follow a file while it is written.

 One producer writes buffers and notifies, and at the end closes; any number of readers open the file at any time
 and read it with buffers of any non-zero size.  A notification is left in a one-slot channel and lost when the slot
 is full.  Writing and notifying are two events.  A notification round, and the closing of the channels, is one
 event each: the list of channels is locked meanwhile, and operations on different channels commute.
 */
module FileStream {
  import ResponseSpec

  type Bytes = ResponseSpec.Bytes

  datatype FileOp = Write(buf: Bytes) | Flush

  datatype Producer = Writing(todo: seq<FileOp>) | Notifying(todo: seq<FileOp>) | Closed

  datatype Pc =
    | Idle             // between calls of Read
    | Receiving(n: nat)    // in Read with a buffer of n bytes: ranging over the channel
    | Trying(n: nat)       // a notification was received: read, and go on waiting at the end of the file
    | LastTry(n: nat)      // the channel is closed and drained: just read
    | Eof                  // Read has returned io.EOF

  /** `slot` is the notification waiting in the reader's channel, if any. */
  datatype Reader = Reader(off: nat, out: Bytes, slot: bool, chanClosed: bool, pc: Pc)

  datatype State = State(content: Bytes, producer: Producer, readers: seq<Reader>)

  function Init(prog: seq<FileOp>): State { State([], Writing(prog), []) }

  datatype Event =
    | Produce           // write or sync
    | NotifyAll
    | Close
    | Open
    | Call(r: nat, n: nat)
    | Receive(r: nat)
    | Try(r: nat, k: nat)   // k bytes are read; 0 stands for the end of the file

  predicate CanRead(s: State, rd: Reader, n: nat, k: nat) {
    if rd.off >= |s.content| then k == 0 else 0 < k <= n && rd.off + k <= |s.content|
  }

  predicate Enabled(s: State, ev: Event) {
    match ev
    case Produce => s.producer.Writing? && s.producer.todo != []
    case NotifyAll => s.producer.Notifying?
    case Close => s.producer.Writing? && s.producer.todo == []
    case Open => true
    case Call(r, n) => r < |s.readers| && s.readers[r].pc.Idle? && n > 0
    case Receive(r) => r < |s.readers| && s.readers[r].pc.Receiving? && (s.readers[r].slot || s.readers[r].chanClosed)
    case Try(r, k) =>
      && r < |s.readers| && (s.readers[r].pc.Trying? || s.readers[r].pc.LastTry?)
      && CanRead(s, s.readers[r], s.readers[r].pc.n, k)
  }

  function Took(s: State, rd: Reader, k: nat): Reader
    requires rd.off + k <= |s.content|
  {
    rd.(off := rd.off + k, out := rd.out + s.content[rd.off..rd.off + k], pc := Idle)
  }

  function StepReader(s: State, rd: Reader, ev: Event): Reader
    requires ev.Call? || ev.Receive? || ev.Try?
    requires ev.Receive? ==> rd.pc.Receiving?
    requires ev.Try? ==> (rd.pc.Trying? || rd.pc.LastTry?) && CanRead(s, rd, rd.pc.n, ev.k)
  {
    match ev
    case Call(_, n) => rd.(pc := Receiving(n))
    case Receive(_) => if rd.slot then rd.(slot := false, pc := Trying(rd.pc.n)) else rd.(pc := LastTry(rd.pc.n))
    case Try(_, k) =>
      if rd.off >= |s.content| then rd.(pc := if rd.pc.Trying? then Receiving(rd.pc.n) else Eof) else Took(s, rd, k)
  }

  function Each(readers: seq<Reader>, f: Reader -> Reader): seq<Reader> {
    seq(|readers|, i requires 0 <= i < |readers| => f(readers[i]))
  }

  /** Registered channels are those not closed: after `Close` a reader gets a closed channel of its own. */
  function Notified(rd: Reader): Reader { rd.(slot := true) }

  function Ended(rd: Reader): Reader { rd.(chanClosed := true) }

  function Apply(s: State, ev: Event): State
    requires Enabled(s, ev)
  {
    match ev
    case Produce =>
      var op := s.producer.todo[0];
      s.(content := s.content + (if op.Write? then op.buf else []), producer := Notifying(s.producer.todo[1..]))
    case NotifyAll => s.(producer := Writing(s.producer.todo), readers := Each(s.readers, Notified))
    case Close => s.(producer := Closed, readers := Each(s.readers, Ended))
    case Open => s.(readers := s.readers + [Reader(0, [], false, s.producer.Closed?, Idle)])
    case _ => s.(readers := s.readers[ev.r := StepReader(s, s.readers[ev.r], ev)])
  }

  ghost predicate Legal(s: State, run: seq<Event>)
    decreases |run|, 0
  {
    run == [] || (Legal(s, run[..|run| - 1]) && Enabled(After(s, run[..|run| - 1]), run[|run| - 1]))
  }

  ghost function After(s: State, run: seq<Event>): State
    requires Legal(s, run)
    decreases |run|, 1
  {
    if run == [] then s else Apply(After(s, run[..|run| - 1]), run[|run| - 1])
  }

  function Written(prog: seq<FileOp>): Bytes {
    if prog == [] then [] else (if prog[0].Write? then prog[0].buf else []) + Written(prog[1..])
  }

  function Todo(p: Producer): seq<FileOp> { if p.Closed? then [] else p.todo }

  ghost predicate ReaderInv(s: State, rd: Reader) {
    && rd.off <= |s.content| && rd.out == s.content[..rd.off]
    && (rd.chanClosed <==> s.producer.Closed?)
    && (rd.pc.LastTry? || rd.pc.Eof? ==> rd.chanClosed && !rd.slot)
    && (rd.pc.Eof? ==> rd.off == |s.content|)
    && (rd.pc.Receiving? || rd.pc.Trying? || rd.pc.LastTry? ==> rd.pc.n > 0)
  }

  ghost predicate Inv(prog: seq<FileOp>, s: State) {
    && s.content + Written(Todo(s.producer)) == Written(prog)
    && forall r :: 0 <= r < |s.readers| ==> ReaderInv(s, s.readers[r])
  }

  lemma InvInit(prog: seq<FileOp>)
    ensures Inv(prog, Init(prog))
  {
    assert [] + Written(prog) == Written(prog);
  }

  lemma TookInv(s: State, rd: Reader, k: nat)
    requires ReaderInv(s, rd) && rd.off + k <= |s.content|
    requires rd.pc.Trying? || rd.pc.LastTry?
    ensures ReaderInv(s, Took(s, rd, k))
  {
    assert s.content[..rd.off] + s.content[rd.off..rd.off + k] == s.content[..rd.off + k];
  }

  lemma GrowInv(s: State, t: State, rd: Reader, more: Bytes)
    requires ReaderInv(s, rd) && t.content == s.content + more && !s.producer.Closed? && !t.producer.Closed?
    ensures ReaderInv(t, rd)
  {
    assert t.content[..rd.off] == s.content[..rd.off];
  }

  lemma ProduceInv(prog: seq<FileOp>, s: State)
    requires Inv(prog, s) && Enabled(s, Produce)
    ensures Inv(prog, Apply(s, Produce))
  {
    var t, op := Apply(s, Produce), s.producer.todo[0];
    var more := if op.Write? then op.buf else [];
    assert (s.content + more) + Written(s.producer.todo[1..]) == s.content + (more + Written(s.producer.todo[1..]));
    hide ReaderInv;
    forall r | 0 <= r < |t.readers| ensures ReaderInv(t, t.readers[r]) {
      GrowInv(s, t, s.readers[r], more);
    }
  }

  /** A step of the producer that writes nothing, or the opening of a reader. */
  lemma RoundInv(prog: seq<FileOp>, s: State, ev: Event)
    requires Inv(prog, s) && Enabled(s, ev) && (ev.NotifyAll? || ev.Close? || ev.Open?)
    ensures Inv(prog, Apply(s, ev))
  {
    var t := Apply(s, ev);
    forall r | 0 <= r < |t.readers| ensures ReaderInv(t, t.readers[r]) {
      if r < |s.readers| {
        assert ReaderInv(s, s.readers[r]);
        assert t.readers[r] == if ev.NotifyAll? then Notified(s.readers[r]) else if ev.Close? then Ended(s.readers[r]) else s.readers[r];
      } else {
        assert t.content[..0] == [];
      }
    }
    hide Written;
  }

  lemma ReaderStepInv(s: State, rd: Reader, ev: Event)
    requires ReaderInv(s, rd) && (ev.Call? || ev.Receive? || ev.Try?)
    requires ev.Call? ==> rd.pc.Idle? && ev.n > 0
    requires ev.Receive? ==> rd.pc.Receiving? && (rd.slot || rd.chanClosed)
    requires ev.Try? ==> (rd.pc.Trying? || rd.pc.LastTry?) && CanRead(s, rd, rd.pc.n, ev.k)
    ensures ReaderInv(s, StepReader(s, rd, ev))
  {
    if ev.Try? && rd.off < |s.content| {
      TookInv(s, rd, ev.k);
    }
  }

  lemma InvStep(prog: seq<FileOp>, s: State, ev: Event)
    requires Inv(prog, s) && Enabled(s, ev)
    ensures Inv(prog, Apply(s, ev))
  {
    hide ReaderInv, StepReader, CanRead, Written;
    match ev {
      case Produce => ProduceInv(prog, s);
      case NotifyAll => RoundInv(prog, s, ev);
      case Close => RoundInv(prog, s, ev);
      case Open => RoundInv(prog, s, ev);
      case _ =>
        ReaderStepInv(s, s.readers[ev.r], ev);
        forall r | 0 <= r < |s.readers| ensures ReaderInv(Apply(s, ev), Apply(s, ev).readers[r]) {
          SameForOthers(s, Apply(s, ev), Apply(s, ev).readers[r]);
        }
    }
  }

  /** What a reader is to satisfy depends on the content and on whether the producer has closed. */
  lemma SameForOthers(s: State, t: State, rd: Reader)
    requires ReaderInv(s, rd) && t.content == s.content && t.producer == s.producer
    ensures ReaderInv(t, rd)
  {
  }

  lemma {:induction false} InvRun(prog: seq<FileOp>, run: seq<Event>)
    requires Legal(Init(prog), run)
    ensures Inv(prog, After(Init(prog), run))
    decreases |run|
  {
    if run == [] {
      InvInit(prog);
    } else {
      InvRun(prog, run[..|run| - 1]);
      InvStep(prog, After(Init(prog), run[..|run| - 1]), run[|run| - 1]);
    }
  }

  /**
   Whatever is interleaved and whichever notifications are lost, what a reader has been given is a prefix of what
   was written; it is told of the end only once its channel is closed and drained, and then it has everything.
   */
  lemma ReadsAreTheFile(prog: seq<FileOp>, run: seq<Event>, r: nat)
    requires Legal(Init(prog), run) && r < |After(Init(prog), run).readers|
    ensures var s := After(Init(prog), run);
            var rd := s.readers[r];
            && rd.out <= s.content <= Written(prog)
            && (rd.pc.Eof? ==> rd.chanClosed && !rd.slot && rd.out == Written(prog))
  {
    InvRun(prog, run);
    var s := After(Init(prog), run);
    assert s.content + [] == s.content;
  }

  // ---------- progress after Close ----------

  function Left(s: State, rd: Reader): int {
    5 * (|s.content| - rd.off) + (if rd.slot then 3 else 0)
    + match rd.pc case Idle => 4 case Receiving(_) => 3 case Trying(_) => 4 case LastTry(_) => 2 case Eof => 0
  }

  /** The next event of a reader whose caller goes on reading with buffers of n bytes. */
  function Next(s: State, r: nat, n: nat): Event
    requires r < |s.readers|
  {
    var rd := s.readers[r];
    match rd.pc
    case Idle => Call(r, n)
    case Receiving(_) => Receive(r)
    case Trying(_) => Try(r, if rd.off < |s.content| then 1 else 0)
    case LastTry(_) => Try(r, if rd.off < |s.content| then 1 else 0)
    case Eof => Call(r, n)
  }

  /** Once the producer has closed, a reader never waits, and each of its events brings it nearer to the end. */
  lemma ReaderAdvances(prog: seq<FileOp>, s: State, r: nat, n: nat)
    requires Inv(prog, s) && s.producer.Closed? && r < |s.readers| && n > 0 && !s.readers[r].pc.Eof?
    ensures Enabled(s, Next(s, r, n))
    ensures forall ev :: Enabled(s, ev) && (ev.Call? || ev.Receive? || ev.Try?) && ev.r == r ==>
              0 <= Left(Apply(s, ev), Apply(s, ev).readers[r]) < Left(s, s.readers[r])
  {
    assert ReaderInv(s, s.readers[r]);
  }

  /** No event of the others sets it back. */
  lemma OthersDoNotDisturb(prog: seq<FileOp>, s: State, r: nat, ev: Event)
    requires Inv(prog, s) && s.producer.Closed? && r < |s.readers| && Enabled(s, ev)
    requires (ev.Call? || ev.Receive? || ev.Try?) ==> ev.r != r
    ensures Apply(s, ev).producer.Closed? && Apply(s, ev).content == s.content && Apply(s, ev).readers[r] == s.readers[r]
  {
  }

  /** So a caller that goes on reading gets everything: from any state after `Close` the end is reached. */
  lemma {:induction false} ReaderFinishes(prog: seq<FileOp>, before: seq<Event>, r: nat, n: nat) returns (more: seq<Event>)
    requires Legal(Init(prog), before) && n > 0
    requires After(Init(prog), before).producer.Closed? && r < |After(Init(prog), before).readers|
    ensures Legal(Init(prog), before + more)
    ensures |more| <= Left(After(Init(prog), before), After(Init(prog), before).readers[r])
    ensures r < |After(Init(prog), before + more).readers|
    ensures var rd := After(Init(prog), before + more).readers[r]; rd.pc.Eof? && rd.out == Written(prog)
    decreases Left(After(Init(prog), before), After(Init(prog), before).readers[r])
  {
    var s := After(Init(prog), before);
    InvRun(prog, before);
    if s.readers[r].pc.Eof? {
      more := [];
      assert before + more == before;
      ReadsAreTheFile(prog, before, r);
    } else {
      ReaderAdvances(prog, s, r, n);
      var ev := Next(s, r, n);
      var longer := before + [ev];
      assert longer[..|longer| - 1] == before;
      var rest := ReaderFinishes(prog, longer, r, n);
      more := [ev] + rest;
      assert before + more == longer + rest;
    }
  }
}

/**
 `WaitAll`: a caller that finds subscribers waits for the token that is left when the list becomes empty.  Each
 event runs under the list's lock or is one receive.
 */
module WaitAll {

  datatype Waiter = Starting | Waiting | Returned(subscribersLeft: bool)

  datatype State = State(subscribers: set<nat>, token: bool, waiters: seq<Waiter>)

  datatype Event =
    | Register(id: nat)
    | Remove(id: nat)   // also of a channel that is not registered
    | Check(w: nat)
    | Receive(w: nat)

  predicate Enabled(s: State, ev: Event) {
    match ev
    case Register(id) => id !in s.subscribers
    case Remove(_) => true
    case Check(w) => w < |s.waiters| && s.waiters[w].Starting?
    case Receive(w) => w < |s.waiters| && s.waiters[w].Waiting? && s.token
  }

  function Apply(s: State, ev: Event): State
    requires Enabled(s, ev)
  {
    match ev
    case Register(id) => s.(subscribers := s.subscribers + {id})
    case Remove(id) => s.(subscribers := s.subscribers - {id}, token := s.token || s.subscribers - {id} == {})
    case Check(w) => s.(waiters := s.waiters[w := if s.subscribers == {} then Returned(false) else Waiting])
    case Receive(w) => s.(token := false, waiters := s.waiters[w := Returned(s.subscribers != {})])
  }

  ghost predicate Legal(s: State, run: seq<Event>)
    decreases |run|, 0
  {
    run == [] || (Legal(s, run[..|run| - 1]) && Enabled(After(s, run[..|run| - 1]), run[|run| - 1]))
  }

  ghost function After(s: State, run: seq<Event>): State
    requires Legal(s, run)
    decreases |run|, 1
  {
    if run == [] then s else Apply(After(s, run[..|run| - 1]), run[|run| - 1])
  }

  function Init(waiters: nat): State { State({}, false, seq(waiters, _ => Starting)) }

  /** No subscriber is registered while the token of an earlier emptying lies there. */
  ghost predicate NeverRefills(s: State, run: seq<Event>)
    requires Legal(s, run)
    decreases |run|
  {
    run == [] || (NeverRefills(s, run[..|run| - 1]) && !(run[|run| - 1].Register? && After(s, run[..|run| - 1]).token))
  }

  ghost predicate TokenMeansEmpty(s: State) {
    && (s.token ==> s.subscribers == {})
    && forall w :: 0 <= w < |s.waiters| ==> s.waiters[w] != Returned(true)
  }

  /** Then every caller returns with no subscriber left. */
  lemma {:induction false} ReturnsWhenEmpty(waiters: nat, run: seq<Event>)
    requires Legal(Init(waiters), run) && NeverRefills(Init(waiters), run)
    ensures TokenMeansEmpty(After(Init(waiters), run))
    decreases |run|
  {
    if run != [] {
      ReturnsWhenEmpty(waiters, run[..|run| - 1]);
    }
  }

  // ---------- when a caller can return too early ----------

  predicate Unreturned(s: State, w: nat) { w < |s.waiters| && !s.waiters[w].Returned? }

  predicate Misled(s: State, w: nat) { w < |s.waiters| && s.waiters[w] == Returned(true) }

  /** Nobody comes or goes. */
  predicate Calm(run: seq<Event>) { forall i :: 0 <= i < |run| ==> run[i].Check? || run[i].Receive? }

  /** Meanwhile a token can only be taken, and no caller that had not returned returns early without one. */
  lemma {:induction false} CalmRun(s: State, run: seq<Event>, w: nat)
    requires Legal(s, run) && Calm(run) && Unreturned(s, w)
    ensures var t := After(s, run);
            && t.subscribers == s.subscribers && |t.waiters| == |s.waiters| && (t.token ==> s.token)
            && (Misled(t, w) ==> s.token && s.subscribers != {})
    decreases |run|
  {
    if run != [] {
      CalmRun(s, run[..|run| - 1], w);
    }
  }

  /** Looking and receiving, or for a caller that has looked just receiving, is enough to be misled. */
  lemma MisledNow(s: State, w: nat) returns (run: seq<Event>)
    requires Unreturned(s, w) && s.token && s.subscribers != {}
    ensures Legal(s, run) && Calm(run) && |run| <= 2 && Misled(After(s, run), w)
  {
    run := [];
    if s.waiters[w].Starting? {
      run := Extend(s, run, Check(w));
    }
    run := Extend(s, run, Receive(w));
  }

  /**
   Exactly when a caller that has not returned, whether it has looked yet or not, can return too early although
   nobody comes or goes any more: there are subscribers, and the token of an earlier emptying is still there.
   */
  lemma PrematureReturn(s: State, w: nat)
    requires Unreturned(s, w)
    ensures (exists run :: Legal(s, run) && Calm(run) && Misled(After(s, run), w)) <==> s.token && s.subscribers != {}
  {
    if s.token && s.subscribers != {} {
      var run := MisledNow(s, w);
      assert Legal(s, run) && Calm(run) && Misled(After(s, run), w);
    }
    forall run | Legal(s, run) && Calm(run) && Misled(After(s, run), w)
      ensures s.token && s.subscribers != {}
    {
      CalmRun(s, run, w);
    }
  }

  lemma {:induction false} Continue(s: State, run: seq<Event>, more: seq<Event>)
    requires Legal(s, run) && Legal(After(s, run), more)
    ensures Legal(s, run + more) && After(s, run + more) == After(After(s, run), more)
    decreases |more|
  {
    if more == [] {
      assert run + more == run;
    } else {
      Continue(s, run, more[..|more| - 1]);
      assert (run + more)[..|run + more| - 1] == run + more[..|more| - 1];
    }
  }

  /**
   The converse of `ReturnsWhenEmpty`: a run that leaves a token beside a subscriber can go on, with at most two more
   events, to an early return of any caller that has not returned.
   */
  lemma RefillCanMislead(waiters: nat, run: seq<Event>, w: nat) returns (longer: seq<Event>)
    requires Legal(Init(waiters), run) && Unreturned(After(Init(waiters), run), w)
    requires After(Init(waiters), run).token && After(Init(waiters), run).subscribers != {}
    ensures run <= longer && |longer| <= |run| + 2
    ensures Legal(Init(waiters), longer) && Misled(After(Init(waiters), longer), w)
  {
    var more := MisledNow(After(Init(waiters), run), w);
    Continue(Init(waiters), run, more);
    longer := run + more;
  }

  /**
   The list does refill, before the caller looks or while it waits: one subscriber comes and goes, another comes,
   and the caller returns while it is there.
   */
  lemma RefillMisleads() returns (run: seq<Event>, blocked: seq<Event>)
    ensures Legal(Init(1), run) && Misled(After(Init(1), run), 0)
    ensures Legal(Init(1), blocked) && Misled(After(Init(1), blocked), 0)
    ensures run == [Register(0), Remove(0), Register(1), Check(0), Receive(0)]
    ensures blocked == [Register(0), Check(0), Remove(0), Register(1), Receive(0)]
  {
    run := Extend(Init(1), [], Register(0));
    blocked := Extend(Init(1), run, Check(0));
    blocked := Extend(Init(1), blocked, Remove(0));
    blocked := Extend(Init(1), blocked, Register(1));
    blocked := Extend(Init(1), blocked, Receive(0));
    run := Extend(Init(1), run, Remove(0));
    run := Extend(Init(1), run, Register(1));
    run := Extend(Init(1), run, Check(0));
    run := Extend(Init(1), run, Receive(0));
  }

  lemma Extend(s: State, run: seq<Event>, ev: Event) returns (longer: seq<Event>)
    requires Legal(s, run) && Enabled(After(s, run), ev)
    ensures longer == run + [ev] && Legal(s, longer) && After(s, longer) == Apply(After(s, run), ev)
  {
    longer := run + [ev];
    assert longer[..|longer| - 1] == run;
  }

  ghost predicate OneServed(s: State) {
    |s.waiters| == 1 && (s.waiters[0].Waiting? ==> s.subscribers != {} || s.token)
  }

  /** A single caller is never left behind: whenever it waits and the list is empty, the token is there for it. */
  lemma {:induction false} SingleCallerReturns(run: seq<Event>)
    requires Legal(Init(1), run)
    ensures OneServed(After(Init(1), run))
    decreases |run|
  {
    if run != [] {
      SingleCallerReturns(run[..|run| - 1]);
    }
  }
}
