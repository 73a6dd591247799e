/**
 What one fetched response does, as seen by everyone but the two goroutines that hand it over: buffers go from
 the upstream into the body in order, then the body is marked complete, one token is left for one waiting reader,
 and the response is closed.
 */
module ResponseSpec {

  type Bytes = seq<bv8>

  function Flatten(bufs: seq<Bytes>): Bytes {
    if bufs == [] then [] else bufs[0] + Flatten(bufs[1..])
  }

  datatype Phase = Writing | Complete | TokenSent | Closed

  datatype Resp = Resp(open: bool, pending: seq<Bytes>, stored: Bytes, phase: Phase, token: bool)

  function NewResp(bufs: seq<Bytes>): Resp { Resp(false, bufs, [], Writing, false) }

  datatype Event = SetBody | Store | MarkComplete | SendToken | SignalClosed | TakeToken

  predicate Enabled(r: Resp, ev: Event) {
    match ev
    case SetBody => !r.open
    case Store => r.open && r.phase == Writing && r.pending != []
    case MarkComplete => r.open && r.phase == Writing && r.pending == []
    case SendToken => r.phase == Complete
    case SignalClosed => r.phase == TokenSent
    case TakeToken => r.token
  }

  function Apply(r: Resp, ev: Event): Resp
    requires Enabled(r, ev)
  {
    match ev
    case SetBody => r.(open := true)
    case Store => r.(stored := r.stored + r.pending[0], pending := r.pending[1..])
    case MarkComplete => r.(phase := Complete)
    case SendToken => r.(phase := TokenSent, token := true)
    case SignalClosed => r.(phase := Closed)
    case TakeToken => r.(token := false)
  }

  /** The body is always what has been written so far of `bufs`, and all of it once it is complete. */
  ghost predicate Inv(r: Resp, bufs: seq<Bytes>) {
    && r.stored + Flatten(r.pending) == Flatten(bufs)
    && (r.phase != Writing ==> r.pending == [] && r.open)
    && (r.token ==> r.phase in {TokenSent, Closed})
  }

  lemma InvNew(bufs: seq<Bytes>)
    ensures Inv(NewResp(bufs), bufs)
  {
    assert [] + Flatten(bufs) == Flatten(bufs);
  }

  lemma InvStep(r: Resp, bufs: seq<Bytes>, ev: Event)
    requires Inv(r, bufs) && Enabled(r, ev)
    ensures Inv(Apply(r, ev), bufs)
    ensures r.phase != Writing ==> Apply(r, ev).stored == r.stored && Apply(r, ev).phase != Writing
  {
    if ev == Store {
      assert (r.stored + r.pending[0]) + Flatten(r.pending[1..]) == r.stored + (r.pending[0] + Flatten(r.pending[1..]));
    }
  }

  lemma CompleteIsWhole(r: Resp, bufs: seq<Bytes>)
    requires Inv(r, bufs) && r.phase != Writing
    ensures r.stored == Flatten(bufs)
  {
    assert r.stored + [] == r.stored;
  }
}
