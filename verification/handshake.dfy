/**
 The handover of one upstream response from the goroutine that runs the upstream handler to the goroutine that
 serves the client (`Response`, `fetchUpstream`, `respond`).

 Each event is one read or write of a shared field, or one channel operation, of one of the two goroutines; runs
 are all their interleavings.  The four channels hold one token each.  `Code` and `snapHeader` are set in one
 event: the handler cannot read either before it has received from `headersChan`.
 */
module Handshake {
  import opened ResponseSpec

  datatype UpstreamOp = WriteHeader(code: int) | Write(buf: Bytes) | Flush

  /** What the handler does with the response once it has seen its headers. */
  datatype Path =
    | Miss(head: bool)  // public: store it, then answer from the store, or with the status alone for HEAD
    | Skip              // private: pass it through
    | SkipHead          // private, for HEAD: pass the status on and return without setting a body
    | Abandon           // return without setting a body: stale entry served, upstream error seen
    | NilBackend        // public, but the backend could not be made: set a nil body and return an error

  datatype UpstreamPc =
    | Ready
    | Publishing(op: UpstreamOp)
    | Announcing(op: UpstreamOp)
    | WriteCheck(buf: Bytes)
    | WriteWait(buf: Bytes)
    | WriteRecheck(buf: Bytes)
    | Storing(buf: Bytes)
    | FlushCheck
    | Flushing
    | CloseCheck
    | CloseWait
    | Closing
    | Completing
    | SendingToken
    | Signalling
    | Finished
    | Panicked

  datatype HandlerPc =
    | WaitHeaders
    | Judge
    | PutBody
    | SignalBody
    | CheckComplete
    | WaitComplete
    | SendStatus
    | Copy(off: nat)
    | WaitClosed
    | Done

  datatype Body = NoBody | Backend | Client

  datatype Out = StatusLine(code: int) | Data(bytes: Bytes)

  datatype State = State(
    todo: seq<UpstreamOp>,
    up: UpstreamPc,
    hp: HandlerPc,
    code: int,
    wroteHeader: bool,
    body: Body,
    bodyComplete: bool,
    headersChan: nat,
    bodyChan: nat,
    bodyCompleteChan: nat,
    closedChan: nat,
    store: Bytes,      // every byte handed to the body
    client: seq<Out>)

  function Init(prog: seq<UpstreamOp>): State {
    State(prog, Ready, WaitHeaders, 200, false, NoBody, false, 0, 0, 0, 0, [], [])
  }

  datatype Event = Upstream | Handler | Chunk(n: nat)

  const CAPACITY: nat := 1

  predicate Enabled(s: State, ev: Event) {
    match ev
    case Upstream => (
      match s.up
      case Announcing(_) => s.headersChan < CAPACITY
      case WriteWait(_) => s.bodyChan > 0
      case CloseWait => s.bodyChan > 0
      case SendingToken => s.bodyCompleteChan < CAPACITY
      case Signalling => s.closedChan < CAPACITY
      case Finished => false
      case Panicked => false
      case _ => true)
    case Handler => (
      match s.hp
      case WaitHeaders => s.headersChan > 0
      case SignalBody => s.bodyChan < CAPACITY
      case WaitComplete => s.bodyCompleteChan > 0
      case WaitClosed => s.closedChan > 0
      case Copy(off) => off >= |s.store|
      case Done => false
      case _ => true)
    case Chunk(n) => s.hp.Copy? && n > 0 && s.hp.off + n <= |s.store|
  }

  /** Where an operation goes on once the header is out. */
  function AfterHeader(op: UpstreamOp): UpstreamPc {
    match op
    case WriteHeader(_) => Ready
    case Write(buf) => WriteCheck(buf)
    case Flush => FlushCheck
  }

  function HeaderCode(op: UpstreamOp, code: int): int {
    match op
    case WriteHeader(c) => c
    case Write(_) => code
    case Flush => 200
  }

  function StepUpstream(s: State): State
    requires Enabled(s, Upstream)
  {
    match s.up
    case Ready =>
      if s.todo == [] then s.(up := CloseCheck)
      else if !s.wroteHeader then s.(up := Publishing(s.todo[0]), todo := s.todo[1..])
      else s.(up := AfterHeader(s.todo[0]), todo := s.todo[1..])
    case Publishing(op) => s.(up := Announcing(op), code := HeaderCode(op, s.code), wroteHeader := true)
    case Announcing(op) => s.(up := AfterHeader(op), headersChan := s.headersChan + 1)
    case WriteCheck(buf) => s.(up := if s.body == NoBody then WriteWait(buf) else WriteRecheck(buf))
    case WriteWait(buf) => s.(up := WriteRecheck(buf), bodyChan := s.bodyChan - 1)
    case WriteRecheck(buf) => s.(up := if s.body == NoBody then Ready else Storing(buf))
    case Storing(buf) =>
      s.(up := Ready, store := s.store + buf, client := if s.body == Client then s.client + [Data(buf)] else s.client)
    case FlushCheck => s.(up := if s.body == NoBody then Ready else Flushing)
    case Flushing => s.(up := Ready)
    case CloseCheck => s.(up := if s.body == NoBody then CloseWait else Closing)
    case CloseWait => s.(up := Closing, bodyChan := s.bodyChan - 1)
    case Closing => s.(up := if s.body == NoBody then Panicked else Completing)
    case Completing => s.(up := SendingToken, bodyComplete := true)
    case SendingToken => s.(up := Signalling, bodyCompleteChan := s.bodyCompleteChan + 1)
    case Signalling => s.(up := Finished, closedChan := s.closedChan + 1)
  }

  function StepHandler(path: Path, s: State): State
    requires Enabled(s, Handler)
  {
    match s.hp
    case WaitHeaders => s.(hp := Judge, headersChan := s.headersChan - 1)
    case Judge => s.(hp := match path case Abandon => Done case Skip => SendStatus case SkipHead => SendStatus case _ => PutBody)
    case PutBody => s.(hp := SignalBody, body := match path case Miss(_) => Backend case Skip => Client case _ => NoBody)
    case SignalBody =>
      s.(bodyChan := s.bodyChan + 1,
         hp := match path
               case Miss(head) => if head then SendStatus else CheckComplete
               case Skip => WaitClosed
               case _ => Done)
    case CheckComplete => s.(hp := if s.bodyComplete then SendStatus else WaitComplete)
    case WaitComplete => s.(hp := SendStatus, bodyCompleteChan := s.bodyCompleteChan - 1)
    case SendStatus =>
      s.(client := s.client + [StatusLine(s.code)],
         hp := match path case Miss(head) => if head then Done else Copy(0) case SkipHead => Done case _ => PutBody)
    case Copy(_) => s.(hp := Done)
    case WaitClosed => s.(hp := Done, closedChan := s.closedChan - 1)
  }

  function Apply(path: Path, s: State, ev: Event): State
    requires Enabled(s, ev)
  {
    match ev
    case Upstream => StepUpstream(s)
    case Handler => StepHandler(path, s)
    case Chunk(n) =>
      var off := s.hp.off;
      s.(hp := Copy(off + n), client := s.client + [Data(s.store[off..off + n])])
  }

  ghost predicate Legal(path: Path, s: State, run: seq<Event>)
    decreases |run|, 0
  {
    run == [] || (Legal(path, s, run[..|run| - 1]) && Enabled(After(path, s, run[..|run| - 1]), run[|run| - 1]))
  }

  ghost function After(path: Path, s: State, run: seq<Event>): State
    requires Legal(path, s, run)
    decreases |run|, 1
  {
    if run == [] then s else Apply(path, After(path, s, run[..|run| - 1]), run[|run| - 1])
  }

  // ---------- what the program writes ----------

  function Bufs(ops: seq<UpstreamOp>): seq<Bytes> {
    if ops == [] then [] else (if ops[0].Write? then [ops[0].buf] else []) + Bufs(ops[1..])
  }

  function Payload(prog: seq<UpstreamOp>): Bytes { Flatten(Bufs(prog)) }

  function OpBufs(op: UpstreamOp): seq<Bytes> { if op.Write? then [op.buf] else [] }

  /** The buffer of an operation that has begun and not yet handed it over. */
  function InHand(up: UpstreamPc): seq<Bytes> {
    match up
    case Publishing(op) => OpBufs(op)
    case Announcing(op) => OpBufs(op)
    case WriteCheck(buf) => [buf]
    case WriteWait(buf) => [buf]
    case WriteRecheck(buf) => [buf]
    case Storing(buf) => [buf]
    case _ => []
  }

  /** The status the client is to see: that of the first operation. */
  function FirstCode(prog: seq<UpstreamOp>): int
    requires prog != []
  {
    HeaderCode(prog[0], 200)
  }

  function DataOf(client: seq<Out>): Bytes {
    if client == [] then []
    else
      var last := client[|client| - 1];
      DataOf(client[..|client| - 1]) + if last.Data? then last.bytes else []
  }

  // ---------- refinement of the response seen from outside ----------

  function PhaseOf(up: UpstreamPc): Phase {
    match up
    case SendingToken => Complete
    case Signalling => TokenSent
    case Finished => Closed
    case _ => Writing
  }

  function Abs(s: State): Resp {
    Resp(s.body != NoBody, InHand(s.up) + Bufs(s.todo), s.store, PhaseOf(s.up), s.bodyCompleteChan > 0)
  }

  // ---------- invariants ----------

  /** Header: published by the first operation, announced once, read only afterwards. */
  ghost predicate HeaderInv(prog: seq<UpstreamOp>, s: State) {
    && (s.wroteHeader ==> prog != [] && s.code == FirstCode(prog) && !s.up.Publishing?)
    && (!s.wroteHeader ==> Unwritten(prog, s))
    && (s.up.Announcing? ==> s.wroteHeader && s.headersChan == 0 && s.hp.WaitHeaders?)
    && s.headersChan <= 1
    && (!s.hp.WaitHeaders? ==> s.headersChan == 0)
    && (s.wroteHeader && !s.up.Announcing? && s.hp.WaitHeaders? ==> s.headersChan == 1)
  }

  ghost predicate Unwritten(prog: seq<UpstreamOp>, s: State) {
    && s.code == 200 && s.headersChan == 0 && s.hp.WaitHeaders?
    && (s.up.Ready? || s.up.Publishing? || s.up.CloseCheck? || s.up.CloseWait?)
    && (s.up.Ready? ==> s.todo == prog)
    && (s.up.Publishing? ==> prog != [] && s.up.op == prog[0])
    && (s.up.CloseCheck? || s.up.CloseWait? ==> prog == [])
  }

  ghost predicate BodyUsed(up: UpstreamPc) {
    up.Storing? || up.Flushing? || up.Completing? || up.SendingToken? || up.Signalling? || up.Finished?
  }

  ghost predicate BeforeBody(hp: HandlerPc) { hp.WaitHeaders? || hp.Judge? || hp.PutBody? }

  /** Body: one token for the body that is set, and it is there for whoever saw no body. */
  ghost predicate BodyInv(path: Path, s: State) {
    && s.bodyChan <= 1
    && (BodyUsed(s.up) ==> s.body != NoBody)
    && (BeforeBody(s.hp) ==> s.body == NoBody && s.bodyChan == 0)
    && (s.hp.SignalBody? ==> s.bodyChan == 0)
    && match path
       case Miss(head) => MissInv(head, s)
       case Skip => SkipInv(s)
       case SkipHead => s.body == NoBody && s.bodyChan == 0 && (s.hp.WaitHeaders? || s.hp.Judge? || s.hp.SendStatus? || s.hp.Done?)
       case Abandon => s.body == NoBody && s.bodyChan == 0 && (s.hp.WaitHeaders? || s.hp.Judge? || s.hp.Done?)
       case NilBackend => s.body == NoBody && (BeforeBody(s.hp) || s.hp.SignalBody? || s.hp.Done?)
  }

  ghost predicate MissInv(head: bool, s: State) {
    && !s.hp.WaitClosed?
    && (head ==> !(s.hp.CheckComplete? || s.hp.WaitComplete? || s.hp.Copy?))
    && (!BeforeBody(s.hp) ==> s.body == Backend)
    && (!BeforeBody(s.hp) && !s.hp.SignalBody? && (s.up.WriteWait? || s.up.CloseWait?) ==> s.bodyChan == 1)
    && (s.up.WriteRecheck? || s.up.Closing? ==> s.body != NoBody)
    && !s.up.Panicked?
  }

  ghost predicate SkipInv(s: State) {
    && !(s.hp.CheckComplete? || s.hp.WaitComplete? || s.hp.Copy?)
    && (s.hp.SendStatus? ==> s.body == NoBody && s.bodyChan == 0)
    && (s.hp.SignalBody? || s.hp.WaitClosed? || s.hp.Done? ==> s.body == Client)
    && ((s.hp.WaitClosed? || s.hp.Done?) && (s.up.WriteWait? || s.up.CloseWait?) ==> s.bodyChan == 1)
    && (s.up.WriteRecheck? || s.up.Closing? ==> s.body != NoBody)
    && !s.up.Panicked?
  }

  ghost predicate PastStatus(hp: HandlerPc) { hp.SendStatus? || hp.Copy? || hp.Done? }

  /** Completion: everything is written before the body is complete, and each closing token is sent once. */
  ghost predicate CloseInv(path: Path, s: State) {
    && (s.bodyComplete <==> s.up.SendingToken? || s.up.Signalling? || s.up.Finished?)
    && (s.bodyComplete || s.up.CloseCheck? || s.up.CloseWait? || s.up.Closing? || s.up.Completing? || s.up.Panicked? ==> s.todo == [])
    && s.bodyCompleteChan <= 1 && s.closedChan <= 1
    && (!s.up.Signalling? && !s.up.Finished? ==> s.bodyCompleteChan == 0)
    && (!s.up.Finished? ==> s.closedChan == 0)
    && (s.up.Signalling? || s.up.Finished? ==> s.bodyCompleteChan == 1 || (path == Miss(false) && PastStatus(s.hp)))
    && (s.up.Finished? ==> s.closedChan == 1 || (path.Skip? && s.hp.Done?))
    && (path == Miss(false) && PastStatus(s.hp) ==> s.bodyComplete)
    && (path.Skip? && s.hp.Done? ==> s.up.Finished?)
  }

  /** What the client has got. */
  ghost predicate ClientInv(path: Path, s: State) {
    && (s.body == NoBody ==> s.store == [])
    && match path
       case Miss(head) =>
         && (!PastStatus(s.hp) || s.hp.SendStatus? ==> s.client == [])
         && (head && s.hp.Done? ==> s.client == [StatusLine(s.code)])
         && (!head && s.hp.Copy? ==> s.hp.off <= |s.store| && Answered(s.client, s.code, s.store[..s.hp.off]))
         && (!head && s.hp.Done? ==> Answered(s.client, s.code, s.store))
       case Skip =>
         && (s.hp.WaitHeaders? || s.hp.Judge? || s.hp.SendStatus? ==> s.client == [])
         && (s.hp.PutBody? || s.hp.SignalBody? || s.hp.WaitClosed? || s.hp.Done? ==> Answered(s.client, s.code, s.store))
       case SkipHead => s.client == if s.hp.Done? then [StatusLine(s.code)] else []
       case _ => s.client == []
  }

  /** One status line, first, and then exactly these bytes. */
  ghost predicate Answered(client: seq<Out>, code: int, bytes: Bytes) {
    && client != [] && client[0] == StatusLine(code)
    && (forall i :: 1 <= i < |client| ==> client[i].Data?)
    && DataOf(client) == bytes
  }

  predicate HandsOver(path: Path) { path.Miss? || path.Skip? }

  ghost predicate Inv(prog: seq<UpstreamOp>, path: Path, s: State) {
    && HeaderInv(prog, s) && BodyInv(path, s) && CloseInv(path, s) && ClientInv(path, s)
    && (HandsOver(path) ==> ResponseSpec.Inv(Abs(s), Bufs(prog)))
  }

  lemma InvInit(prog: seq<UpstreamOp>, path: Path)
    ensures Inv(prog, path, Init(prog))
  {
    assert [] + Bufs(prog) == Bufs(prog);
    InvNew(Bufs(prog));
    assert Abs(Init(prog)) == NewResp(Bufs(prog));
  }

  lemma HeaderUpstream(prog: seq<UpstreamOp>, path: Path, s: State)
    requires HeaderInv(prog, s) && BodyInv(path, s) && Enabled(s, Upstream)
    ensures HeaderInv(prog, StepUpstream(s))
  {
    hide MissInv, SkipInv;
  }

  lemma HeaderHandler(prog: seq<UpstreamOp>, path: Path, s: State)
    requires HeaderInv(prog, s) && Enabled(s, Handler)
    ensures HeaderInv(prog, StepHandler(path, s))
  {
  }

  lemma MissUpstream(head: bool, s: State)
    requires BodyInv(Miss(head), s) && Enabled(s, Upstream)
    ensures BodyInv(Miss(head), StepUpstream(s))
  {
  }

  lemma SkipUpstream(s: State)
    requires BodyInv(Skip, s) && Enabled(s, Upstream)
    ensures BodyInv(Skip, StepUpstream(s))
  {
  }

  lemma OtherUpstream(path: Path, s: State)
    requires BodyInv(path, s) && !HandsOver(path) && Enabled(s, Upstream)
    ensures BodyInv(path, StepUpstream(s))
  {
  }

  lemma BodyHandler(path: Path, s: State)
    requires BodyInv(path, s) && Enabled(s, Handler)
    ensures BodyInv(path, StepHandler(path, s))
  {
  }

  lemma CloseUpstream(path: Path, s: State)
    requires CloseInv(path, s) && Enabled(s, Upstream)
    ensures CloseInv(path, StepUpstream(s))
  {
  }

  lemma CloseHandler(path: Path, s: State)
    requires CloseInv(path, s) && BodyInv(path, s) && Enabled(s, Handler)
    ensures CloseInv(path, StepHandler(path, s))
  {
  }

  lemma AnsweredMore(client: seq<Out>, code: int, bytes: Bytes, more: Bytes)
    requires Answered(client, code, bytes)
    ensures Answered(client + [Data(more)], code, bytes + more)
  {
    assert (client + [Data(more)])[..|client|] == client;
  }

  lemma AnsweredFirst(code: int)
    ensures Answered([StatusLine(code)], code, [])
  {
  }

  lemma ClientUpstream(prog: seq<UpstreamOp>, path: Path, s: State)
    requires HeaderInv(prog, s) && BodyInv(path, s) && CloseInv(path, s) && ClientInv(path, s) && Enabled(s, Upstream)
    ensures ClientInv(path, StepUpstream(s))
  {
    hide Answered;
    if s.up.Storing? && path.Skip? && s.body == Client {
      AnsweredMore(s.client, s.code, s.store, s.up.buf);
    }
  }

  lemma ClientMiss(head: bool, s: State)
    requires MissInv(head, s) && ClientInv(Miss(head), s) && Enabled(s, Handler)
    ensures ClientInv(Miss(head), StepHandler(Miss(head), s))
  {
    hide Answered;
    if s.hp.Copy? {
      assert s.store[..|s.store|] == s.store;
    } else if s.hp.SendStatus? {
      AnsweredFirst(s.code);
      assert s.client + [StatusLine(s.code)] == [StatusLine(s.code)];
      assert s.store[..0] == [];
    }
  }

  lemma ClientSkip(s: State)
    requires SkipInv(s) && ClientInv(Skip, s) && Enabled(s, Handler)
    ensures ClientInv(Skip, StepHandler(Skip, s))
  {
    hide Answered;
    if s.hp.SendStatus? {
      AnsweredFirst(s.code);
      assert s.client + [StatusLine(s.code)] == [StatusLine(s.code)];
    }
  }

  lemma ClientOther(path: Path, s: State)
    requires BodyInv(path, s) && !HandsOver(path) && ClientInv(path, s) && Enabled(s, Handler)
    ensures ClientInv(path, StepHandler(path, s))
  {
    assert s.client == [] ==> s.client + [StatusLine(s.code)] == [StatusLine(s.code)];
  }

  lemma ChunkStep(prog: seq<UpstreamOp>, path: Path, s: State, n: nat)
    requires HeaderInv(prog, s) && BodyInv(path, s) && CloseInv(path, s) && ClientInv(path, s) && Enabled(s, Chunk(n))
    ensures var t := Apply(path, s, Chunk(n)); HeaderInv(prog, t) && BodyInv(path, t) && CloseInv(path, t) && ClientInv(path, t)
  {
    hide Answered;
    var off := s.hp.off;
    if path.Miss? {
      AnsweredMore(s.client, s.code, s.store[..off], s.store[off..off + n]);
      assert s.store[..off] + s.store[off..off + n] == s.store[..off + n];
    }
  }

  /** The event of the response, seen from outside, that an event of the handover performs, if any. */
  function Shadow(path: Path, s: State, ev: Event): seq<ResponseSpec.Event> {
    match ev
    case Upstream => (
      match s.up
      case Storing(_) => [Store]
      case Completing => [MarkComplete]
      case SendingToken => [SendToken]
      case Signalling => [SignalClosed]
      case _ => [])
    case Handler => (
      match s.hp
      case PutBody => if HandsOver(path) then [SetBody] else []
      case WaitComplete => [TakeToken]
      case _ => [])
    case Chunk(_) => []
  }

  /** Every event of the handover is an event of the response seen from outside, or leaves that view as it is. */
  lemma Refines(prog: seq<UpstreamOp>, path: Path, s: State, ev: Event)
    requires BodyInv(path, s) && CloseInv(path, s) && HandsOver(path) && Enabled(s, ev)
    ensures var shadow := Shadow(path, s, ev);
            if shadow == [] then Abs(Apply(path, s, ev)) == Abs(s)
            else ResponseSpec.Enabled(Abs(s), shadow[0]) && Abs(Apply(path, s, ev)) == ResponseSpec.Apply(Abs(s), shadow[0])
  {
    if ev == Upstream {
      RefinesUpstream(path, s);
    } else {
      RefinesHandler(path, s, ev);
    }
    hide *;
  }

  lemma RefinesHandler(path: Path, s: State, ev: Event)
    requires BodyInv(path, s) && CloseInv(path, s) && HandsOver(path) && Enabled(s, ev) && ev != Upstream
    ensures var shadow := Shadow(path, s, ev);
            if shadow == [] then Abs(Apply(path, s, ev)) == Abs(s)
            else ResponseSpec.Enabled(Abs(s), shadow[0]) && Abs(Apply(path, s, ev)) == ResponseSpec.Apply(Abs(s), shadow[0])
  {
    hide InHand, Bufs, StepUpstream;
  }

  lemma RefinesUpstream(path: Path, s: State)
    requires Enabled(s, Upstream)
    requires BodyUsed(s.up) || s.up.WriteRecheck? ==> s.body != NoBody
    requires s.up.Closing? || s.up.Completing? || s.up.SendingToken? ==> s.todo == [] && s.body != NoBody
    ensures var shadow, t := Shadow(path, s, Upstream), StepUpstream(s);
            if shadow == [] then Abs(t) == Abs(s)
            else ResponseSpec.Enabled(Abs(s), shadow[0]) && Abs(t) == ResponseSpec.Apply(Abs(s), shadow[0])
  {
    hide InHand, Bufs, StepUpstream;
    BuffersMove(s);
    OtherFieldsMove(s);
  }

  lemma OtherFieldsMove(s: State)
    requires Enabled(s, Upstream)
    requires s.up.Closing? ==> s.body != NoBody
    ensures var t := StepUpstream(s);
            && t.body == s.body
            && t.store == s.store + (if s.up.Storing? then s.up.buf else [])
            && PhaseOf(t.up) == (if s.up.Completing? then Complete else if s.up.SendingToken? then TokenSent
                                 else if s.up.Signalling? then Closed else PhaseOf(s.up))
            && (t.bodyCompleteChan > 0 <==> s.bodyCompleteChan > 0 || s.up.SendingToken?)
  {
    assert s.store + [] == s.store;
  }

  /** An upstream event takes at most one buffer, the one it stores, off what is still to be written. */
  lemma BuffersMove(s: State)
    requires Enabled(s, Upstream) && (s.up.WriteRecheck? ==> s.body != NoBody)
    ensures var t := StepUpstream(s);
            InHand(s.up) + Bufs(s.todo) == (if s.up.Storing? then [s.up.buf] else []) + (InHand(t.up) + Bufs(t.todo))
    ensures s.up.Completing? && s.todo == [] ==> InHand(s.up) + Bufs(s.todo) == []
  {
    if s.up.Ready? {
      BeginMoves(s);
    } else {
      HandMoves(s);
      assert Bufs([]) == [];
    }
    hide StepUpstream, Bufs;
  }

  /** Beginning an operation takes its buffer in hand. */
  lemma BeginMoves(s: State)
    requires s.up.Ready?
    ensures var t := StepUpstream(s); InHand(s.up) + Bufs(s.todo) == [] + (InHand(t.up) + Bufs(t.todo))
  {
    if s.todo != [] {
      assert Bufs(s.todo) == OpBufs(s.todo[0]) + Bufs(s.todo[1..]);
    }
  }

  lemma HandMoves(s: State)
    requires Enabled(s, Upstream) && !s.up.Ready? && (s.up.WriteRecheck? ==> s.body != NoBody)
    ensures var t := StepUpstream(s);
            t.todo == s.todo && InHand(s.up) == (if s.up.Storing? then [s.up.buf] else []) + InHand(t.up)
    ensures s.up.Completing? ==> InHand(s.up) == []
  {
  }

  lemma InvStep(prog: seq<UpstreamOp>, path: Path, s: State, ev: Event)
    requires Inv(prog, path, s) && Enabled(s, ev)
    ensures Inv(prog, path, Apply(path, s, ev))
  {
    hide HeaderInv, CloseInv, ClientInv, MissInv, SkipInv, ResponseSpec.Inv, Abs, StepUpstream, StepHandler, Enabled;
    if HandsOver(path) {
      Refines(prog, path, s, ev);
      if Shadow(path, s, ev) != [] {
        ResponseSpec.InvStep(Abs(s), Bufs(prog), Shadow(path, s, ev)[0]);
      }
    }
    match ev {
      case Upstream =>
        HeaderUpstream(prog, path, s);
        match path {
          case Miss(head) => MissUpstream(head, s);
          case Skip => SkipUpstream(s);
          case _ => OtherUpstream(path, s);
        }
        CloseUpstream(path, s);
        ClientUpstream(prog, path, s);
      case Handler =>
        HeaderHandler(prog, path, s);
        BodyHandler(path, s);
        CloseHandler(path, s);
        match path {
          case Miss(head) => ClientMiss(head, s);
          case Skip => ClientSkip(s);
          case _ => ClientOther(path, s);
        }
      case Chunk(n) =>
        ChunkStep(prog, path, s, n);
    }
  }

  lemma {:induction false} InvRun(prog: seq<UpstreamOp>, path: Path, run: seq<Event>)
    requires Legal(path, Init(prog), run)
    ensures Inv(prog, path, After(path, Init(prog), run))
    decreases |run|
  {
    if run == [] {
      InvInit(prog, path);
    } else {
      InvRun(prog, path, run[..|run| - 1]);
      InvStep(prog, path, After(path, Init(prog), run[..|run| - 1]), run[|run| - 1]);
    }
  }

  // ---------- what the client receives ----------

  /**
   In every interleaving the client has, at any time, nothing or the status of the first operation followed by a
   prefix of what the upstream has written; and when the handler is done it has all of it, once and in order, or
   for a HEAD request the status alone.  It gets nothing of a response that is abandoned.
   */
  lemma Transparency(prog: seq<UpstreamOp>, path: Path, run: seq<Event>)
    requires Legal(path, Init(prog), run)
    ensures var s := After(path, Init(prog), run);
            && (s.hp.Done? ==> prog != [])
            && (s.client == [] || (prog != [] && Answered(s.client, FirstCode(prog), DataOf(s.client))))
            && DataOf(s.client) <= s.store <= Payload(prog)
            && (s.hp.Done? && (path == Miss(false) || path.Skip?) ==> Answered(s.client, FirstCode(prog), Payload(prog)))
            && (s.hp.Done? && (path == Miss(true) || path.SkipHead?) ==> s.client == [StatusLine(FirstCode(prog))])
            && (path.Abandon? || path.NilBackend? ==> s.client == [])
            && (path.Miss? && s.up.Finished? ==> s.store == Payload(prog))
  {
    InvRun(prog, path, run);
    var s := After(path, Init(prog), run);
    assert s.store <= Flatten(Bufs(prog));
    if s.bodyComplete {
      CompleteIsWhole(Abs(s), Bufs(prog));
    }
  }

  // ---------- progress ----------

  /** No send ever finds its channel full. */
  lemma SendsNeverBlock(prog: seq<UpstreamOp>, path: Path, run: seq<Event>)
    requires Legal(path, Init(prog), run)
    ensures var s := After(path, Init(prog), run);
            && (s.up.Announcing? ==> s.headersChan < CAPACITY)
            && (s.up.SendingToken? ==> s.bodyCompleteChan < CAPACITY)
            && (s.up.Signalling? ==> s.closedChan < CAPACITY)
            && (s.hp.SignalBody? ==> s.bodyChan < CAPACITY)
  {
    InvRun(prog, path, run);
  }

  ghost predicate BothDone(s: State) { s.up.Finished? && s.hp.Done? }

  ghost predicate Stopped(s: State) { forall ev :: !Enabled(s, ev) }

  /** Whenever a goroutine of a handover is not done, one of the two can go on. */
  lemma Progress(prog: seq<UpstreamOp>, path: Path, s: State)
    requires Inv(prog, path, s) && HandsOver(path) && prog != [] && !BothDone(s)
    ensures Enabled(s, Upstream) || Enabled(s, Handler) || Enabled(s, Chunk(1))
  {
    hide Answered, ResponseSpec.Inv;
  }

  /** Otherwise the two are never both done. */
  lemma NeverBothDone(prog: seq<UpstreamOp>, path: Path, s: State)
    requires Inv(prog, path, s) && (!HandsOver(path) || prog == [])
    ensures !BothDone(s)
  {
  }

  function UpstreamRank(up: UpstreamPc): nat {
    match up
    case Publishing(_) => 14
    case Announcing(_) => 13
    case WriteCheck(_) => 12
    case WriteWait(_) => 11
    case WriteRecheck(_) => 10
    case Storing(_) => 9
    case FlushCheck => 10
    case Flushing => 9
    case Ready => 8
    case CloseCheck => 7
    case CloseWait => 6
    case Closing => 5
    case Completing => 4
    case SendingToken => 3
    case Signalling => 2
    case Finished => 0
    case Panicked => 0
  }

  function HandlerRank(path: Path, hp: HandlerPc): nat {
    match hp
    case WaitHeaders => 10
    case Judge => 9
    case PutBody => if path.Skip? then 4 else 8
    case SignalBody => if path.Skip? then 3 else 7
    case CheckComplete => 6
    case WaitComplete => 5
    case SendStatus => if path.Skip? then 5 else 4
    case Copy(_) => 1
    case WaitClosed => 2
    case Done => 0
  }

  /** What is still to be done; copying is measured by the bytes left. */
  function Remaining(path: Path, prog: seq<UpstreamOp>, s: State): int {
    var left := if s.hp.Copy? then |Payload(prog)| - s.hp.off else if s.hp.Done? then 0 else |Payload(prog)|;
    10 * |s.todo| + UpstreamRank(s.up) + HandlerRank(path, s.hp) + left
  }

  lemma UpstreamDecreases(s: State)
    requires Enabled(s, Upstream)
    ensures 10 * |StepUpstream(s).todo| + UpstreamRank(StepUpstream(s).up) < 10 * |s.todo| + UpstreamRank(s.up)
    ensures StepUpstream(s).hp == s.hp
  {
  }

  lemma HandlerDecreases(path: Path, s: State)
    requires BodyInv(path, s) && Enabled(s, Handler)
    ensures HandlerRank(path, StepHandler(path, s).hp) < HandlerRank(path, s.hp)
    ensures StepHandler(path, s).up == s.up && StepHandler(path, s).todo == s.todo
    ensures StepHandler(path, s).hp.Copy? ==> StepHandler(path, s).hp.off == 0 && !s.hp.Copy?
    ensures s.hp.Copy? ==> StepHandler(path, s).hp.Done?
  {
  }

  lemma CopyWithinPayload(prog: seq<UpstreamOp>, path: Path, s: State)
    requires Inv(prog, path, s) && s.hp.Copy?
    ensures s.hp.off <= |s.store| <= |Payload(prog)|
  {
    hide Answered, HeaderInv, CloseInv;
    assert |s.store| <= |s.store + Flatten(Abs(s).pending)|;
  }

  lemma RemainingDecreases(prog: seq<UpstreamOp>, path: Path, s: State, ev: Event)
    requires Inv(prog, path, s) && Enabled(s, ev)
    ensures 0 <= Remaining(path, prog, Apply(path, s, ev)) < Remaining(path, prog, s)
  {
    hide HeaderInv, BodyInv, CloseInv, ClientInv, ResponseSpec.Inv, StepUpstream, StepHandler;
    if s.hp.Copy? {
      CopyWithinPayload(prog, path, s);
    }
    match ev
    case Upstream => UpstreamDecreases(s);
    case Handler => HandlerDecreases(path, s);
    case Chunk(_) =>
  }

  /** Every run ends: its length is bounded from the start. */
  lemma {:induction false} RunsAreFinite(prog: seq<UpstreamOp>, path: Path, run: seq<Event>)
    requires Legal(path, Init(prog), run)
    ensures |run| + Remaining(path, prog, After(path, Init(prog), run)) <= 10 * |prog| + 18 + |Payload(prog)|
    ensures run != [] ==> Remaining(path, prog, After(path, Init(prog), run)) >= 0
    decreases |run|
  {
    if run != [] {
      var before := run[..|run| - 1];
      RunsAreFinite(prog, path, before);
      InvRun(prog, path, before);
      RemainingDecreases(prog, path, After(path, Init(prog), before), run[|run| - 1]);
    }
  }

  /**
   Every run is finite, and where it can go no further both goroutines are done if and only if the upstream
   performed some operation and the handler took the response over.
   */
  lemma Termination(prog: seq<UpstreamOp>, path: Path, run: seq<Event>)
    requires Legal(path, Init(prog), run)
    ensures |run| <= 10 * |prog| + 18 + |Payload(prog)|
    ensures Stopped(After(path, Init(prog), run)) ==>
      (BothDone(After(path, Init(prog), run)) <==> prog != [] && HandsOver(path))
  {
    var s := After(path, Init(prog), run);
    InvRun(prog, path, run);
    RunsAreFinite(prog, path, run);
    if prog != [] && HandsOver(path) {
      if !BothDone(s) {
        Progress(prog, path, s);
      }
    } else {
      NeverBothDone(prog, path, s);
    }
  }
}
