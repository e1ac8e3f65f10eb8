/** One connection on its way through what the transport layer does: which pieces of chains it takes, and that it stays
 *  active. */
module ConnectionMoves {
  import opened Common
  import opened Transport
  import opened TransportSafety
  import opened Sessions
  import opened Delivery
  import opened Reassembly
  import opened RunDelivery

  /* ---- One action ---- */

  /** Connection `c` of slot `s` is active and as the state invariant says. */
  ghost predicate Upright(t: Tl, s: byte, c: byte) {
    && WellFormed(t) && s < |t.net.slots| && c < t.maxConns
    && t.At(s, c).state == Active && GoodConn(t.At(s, c), c)
  }

  /** From `t` to `u` the connection stays active and takes the pieces `ps`, and no connection of its number ends. */
  ghost predicate Moves(t: Tl, u: Tl, s: byte, c: byte, ps: seq<Piece>) {
    && SameShape(t, u) && Upright(u, s, c) && t.net.acts <= u.net.acts
    && Pieces(u.net.acts[|t.net.acts|..], s, c) == ps
    && forall a <- u.net.acts[|t.net.acts|..] :: Harmless(a, s, c)
  }

  /** Noting an error moves nothing. */
  lemma Errors(t: Tl, u: Tl, s: byte, c: byte, ps: seq<Piece>)
    requires Moves(t, u, s, c, ps)
    ensures forall k: int, code: int :: Moves(t, u.FailOn(k, code), s, c, ps)
    ensures forall code: int :: Moves(t, u.Fail(code), s, c, ps)
  {
  }

  lemma Stays(t: Tl, s: byte, c: byte)
    requires Upright(t, s, c)
    ensures Moves(t, t, s, c, [])
    ensures forall k: int, code: int :: Moves(t, t.FailOn(k, code), s, c, [])
    ensures forall code: int :: Moves(t, t.Fail(code), s, c, [])
  {
    assert t.net.acts[|t.net.acts|..] == [];
    Errors(t, t, s, c, []);
  }

  lemma MovedUpright(t: Tl, u: Tl, s: byte, c: byte, ps: seq<Piece>)
    requires Moves(t, u, s, c, ps)
    ensures SameShape(t, u) && Upright(u, s, c)
  {
  }

  lemma MovesOn(t: Tl, u: Tl, v: Tl, s: byte, c: byte, ps: seq<Piece>, qs: seq<Piece>)
    requires Moves(t, u, s, c, ps) && Moves(u, v, s, c, qs)
    ensures Moves(t, v, s, c, ps + qs)
    ensures (ps == [] ==> Moves(t, v, s, c, qs)) && (qs == [] ==> Moves(t, v, s, c, ps))
  {
    assert (ps == [] ==> ps + qs == qs) && (qs == [] ==> ps + qs == ps);
    hide Upright, Harmless, WellFormed;
    var xs, ys := u.net.acts[|t.net.acts|..], v.net.acts[|u.net.acts|..];
    assert v.net.acts[|t.net.acts|..] == xs + ys;
    PiecesAppend(xs, ys, s, c);
  }

  /** Actions that leave the connection active: the host does not delete it or destroy its slot, and the module does
   *  not end it. */
  predicate Sparing(a: Act, s: byte, c: byte) {
    a != Destroyed(s) && a != QueuedDelete(s, c) && !(a.CamDeleted? && a.c == c)
  }

  lemma ActiveStays(k: Conn, s: byte, c: byte, a: Act)
    requires k.state == Active && GoodConn(k, c) && LegalAt(k, s, c, a) && Sparing(a, s, c)
    ensures a.s == s ==> TouchConn(k, c, a).state == Active && GoodConn(TouchConn(k, c, a), c)
    ensures (a.GotMore? || a.GotLast? ==> (a.s, a.c) != (s, c)) ==> PieceOf(a, s, c) == []
  {
    if a.s == s { GoodConnKept(k, c, a); }
  }

  lemma PiecesOne(a: Act, s: byte, c: byte)
    ensures Pieces([a], s, c) == PieceOf(a, s, c)
  {
    assert [a][..0] == [] && [] + PieceOf(a, s, c) == PieceOf(a, s, c);
  }

  lemma ActLogged(acts: seq<Act>, a: Act, s: byte, c: byte)
    requires Sparing(a, s, c)
    ensures Pieces((acts + [a])[|acts|..], s, c) == PieceOf(a, s, c)
    ensures forall b <- (acts + [a])[|acts|..] :: Harmless(b, s, c)
  {
    assert (acts + [a])[|acts|..] == [a];
    PiecesOne(a, s, c);
  }

  lemma ActMoves(t: Tl, a: Act, s: byte, c: byte)
    requires Upright(t, s, c) && LegalAt(t.At(s, c), s, c, a) && Sparing(a, s, c)
    ensures Moves(t, t.Do(a), s, c, PieceOf(a, s, c))
    ensures forall k: int, code: int :: Moves(t, t.Do(a).FailOn(k, code), s, c, PieceOf(a, s, c))
    ensures (a.GotMore? || a.GotLast? ==> (a.s, a.c) != (s, c)) ==> PieceOf(a, s, c) == []
  {
    hide TouchSlot, TouchConn, GoodConn, LegalOwn, PieceOf, Pieces, Harmless;
    ApplyAt(t.net, a, s, c);
    ActiveStays(t.At(s, c), s, c, a);
    ActLogged(t.net.acts, a, s, c);
    Errors(t, t.Do(a), s, c, PieceOf(a, s, c));
  }

  /* ---- Receiving ---- */

  /** The piece of a chain a TPDU is. */
  function PieceIn(tag: byte, data: seq<byte>): seq<Piece> {
    if tag == T_DATA_MORE then [More(data)] else if tag == T_DATA_LAST then [Last(data)] else []
  }

  /** The pieces on connection `c`. */
  function PiecesIn(ts: seq<Pdu>, c: byte): seq<Piece> {
    if ts == [] then [] else (if ts[0].c == c then PieceIn(ts[0].tag, ts[0].data) else []) + PiecesIn(ts[1..], c)
  }

  lemma TpduMoves(t: Tl, w: nat -> bool, k: byte, tag: byte, d: byte, data: seq<byte>, s: byte, c: byte)
    requires Upright(t, s, c) && k < |t.net.slots| && d < t.maxConns && (tag == T_DELETE_T_C ==> d != c)
    ensures Moves(t, HandleTpdu(t, w, k, tag, d, data).t, s, c, if (k, d) == (s, c) then PieceIn(tag, data) else [])
  {
    hide Apply, Moves;
    var r := HandleTpdu(t, w, k, tag, d, data);
    if tag == T_REQUEST_T_C {
      RequestMoves(t, w, k, d, s, c);
    } else {
      var a :=
        if tag == T_C_T_C_REPLY then Opened(k, d)
        else if tag == T_DELETE_T_C then CamDeleted(k, d, t.Next(w))
        else if tag == T_D_T_C_REPLY then DeleteAcked(k, d)
        else if tag == T_DATA_MORE then GotMore(k, d, data)
        else if tag == T_DATA_LAST then GotLast(k, d, data)
        else if |data| == 1 && data[0] >= 0x80 then SentReceive(k, d, t.Next(w))
        else Quiet(k, d);
      if LegalOwn(t.At(k, d), a) { ActMoves(t, a, s, c); }
      Stays(t, s, c);
    }
  }

  lemma RequestMoves(t: Tl, w: nat -> bool, k: byte, d: byte, s: byte, c: byte)
    requires Upright(t, s, c) && k < |t.net.slots| && d < t.maxConns
    ensures Moves(t, HandleRequest(t, w, k, d).t, s, c, [])
  {
    hide Apply, Moves;
    var e, ok := FirstIdle(t.net.slots[k].conns, 1), t.Next(w);
    if e >= t.maxConns {
      ActMoves(t, Refused(k, d, ok), s, c);
    } else {
      var a := Offered(k, d, e, ok);
      ActMoves(t, a, s, c);
      if ok { CreateMoves(t, a, k, e, w, s, c); }
    }
  }

  /** Behind an offer the connection offered is still idle. */
  lemma CreateMoves(t: Tl, a: Act, k: byte, e: byte, w: nat -> bool, s: byte, c: byte)
    requires Upright(t, s, c) && a.Offered? && a.s == k && a.d == e && k < |t.net.slots| && 1 <= e < t.maxConns
    requires t.At(k, e).state == Idle && Moves(t, t.Do(a), s, c, [])
    ensures var t1 := t.Do(a);
      var b := Created(k, e, t1.Next(w));
      Moves(t, t1.Do(b), s, c, []) && forall j: int, code: int :: Moves(t, t1.Do(b).FailOn(j, code), s, c, [])
  {
    var t1 := t.Do(a);
    var b := Created(k, e, t1.Next(w));
    ApplyAt(t.net, a, k, e);
    hide Apply;
    ActMoves(t1, b, s, c);
    MovesOn(t, t1, t1.Do(b), s, c, [], []);
    Errors(t, t1.Do(b), s, c, []);
  }

  lemma SendMoves(t: Tl, k: nat, d: byte, data: seq<byte>, s: byte, c: byte)
    requires Upright(t, s, c)
    ensures Moves(t, SendData(t, k, d, data).t, s, c, [])
  {
    hide Apply, Moves;
    Stays(t, s, c);
    if SendData(t, k, d, data).code == 0 { ActMoves(t, QueuedData(k, d, data), s, c); }
  }

  lemma CallbackMoves(x: Stack, a: App, u: Upcall, s: byte, c: byte)
    requires Upright(x.tl, s, c)
    ensures Moves(x.tl, Callback(x, a, u).tl, s, c, [])
  {
    hide SendData, Moves;
    Stays(x.tl, s, c);
    forall k: byte, d: byte, spdu: seq<byte> ensures Moves(x.tl, SendData(x.tl, k, d, spdu).t, s, c, []) {
      SendMoves(x.tl, k, d, spdu, s, c);
    }
  }

  lemma {:induction false} CallbacksMove(x: Stack, app: nat -> App, told: seq<Upcall>, i: nat, s: byte, c: byte)
    requires Upright(x.tl, s, c) && i <= |told|
    ensures Moves(x.tl, Callbacks(x, app, told, i).tl, s, c, [])
    decreases |told| - i
  {
    hide Callback;
    if i == |told| {
      Stays(x.tl, s, c);
    } else {
      CallbackMoves(x, app(i), told[i], s, c);
      var y := Callback(x, app(i), told[i]);
      CallbacksMove(y, app, told, i + 1, s, c);
      MovesOn(x.tl, y.tl, Callbacks(y, app, told, i + 1).tl, s, c, [], []);
    }
  }

  lemma ReceiveMoves(x: Stack, w: nat -> bool, app: nat -> App, k: byte, tag: byte, d: byte, data: seq<byte>,
                     s: byte, c: byte)
    requires Upright(x.tl, s, c) && k < |x.tl.net.slots| && d < x.tl.maxConns && (tag == T_DELETE_T_C ==> d != c)
    ensures Moves(x.tl, Receive(x, w, app, k, tag, d, data).x.tl, s, c, if (k, d) == (s, c) then PieceIn(tag, data) else [])
  {
    hide HandleTpdu, Callbacks, PieceIn;
    TpduMoves(x.tl, w, k, tag, d, data, s, c);
    TpduTells(x.tl, w, k, tag, d, data);
    var r := HandleTpdu(x.tl, w, k, tag, d, data);
    var ps := if (k, d) == (s, c) then PieceIn(tag, data) else [];
    if r.code >= 0 {
      var y := x.(tl := r.t);
      CallbacksMove(y, app, r.t.net.told, |x.tl.net.told|, s, c);
      MovesOn(x.tl, y.tl, Callbacks(y, app, r.t.net.told, |x.tl.net.told|).tl, s, c, ps, []);
      assert ps + [] == ps;
    }
  }

  predicate Fitting(ts: seq<Pdu>, maxConns: nat) {
    forall i :: 0 <= i < |ts| ==> |ts[i].data| + 1 < 0x10000 && ts[i].c < maxConns
  }

  /** No connection with this number is ended. */
  predicate Unending(ts: seq<Pdu>, c: byte) { forall i :: 0 <= i < |ts| && ts[i].tag == T_DELETE_T_C ==> ts[i].c != c }

  /** Processing starts with the first TPDU of the packet. */
  lemma ProcessFirst(x: Stack, w: nat -> bool, app: nat -> App, k: nat, ts: seq<Pdu>)
    requires Sound(x) && k < |x.tl.net.slots| && ts != [] && Fitting(ts, x.tl.maxConns)
    ensures var r := Receive(x, w, app, k, ts[0].tag, ts[0].c, ts[0].data);
      && Fits(x, r.x) && Fitting(ts[1..], r.x.tl.maxConns)
      && ProcessData(x, w, app, k, Wire(ts)) == if r.code < 0 then r else ProcessData(r.x, w, app, k, Wire(ts[1..]))
  {
    ParseFrame(ts[0].tag, ts[0].c, ts[0].data, Wire(ts[1..]));
  }

  /** The pieces for connection `c` of slot `s` in a packet that is for slot `k`. */
  function Mine(k: nat, ts: seq<Pdu>, s: byte, c: byte): seq<Piece> { if k == s then PiecesIn(ts, c) else [] }

  lemma MineFirst(k: nat, t: Pdu, ts: seq<Pdu>, s: byte, c: byte)
    ensures Mine(k, [t] + ts, s, c) == Mine(k, [t], s, c) + Mine(k, ts, s, c)
    ensures Mine(k, [t], s, c) == if k == s && t.c == c then PieceIn(t.tag, t.data) else []
    ensures Mine(k, [], s, c) == []
  {
    var p := if t.c == c then PieceIn(t.tag, t.data) else [];
    var all := [t] + ts;
    assert all[0] == t && all[1..] == ts && [t][1..] == [] && p + [] == p;
    UnfoldPieces(all, c);
    UnfoldPieces([t], c);
  }

  lemma UnfoldPieces(ts: seq<Pdu>, c: byte)
    requires ts != []
    ensures PiecesIn(ts, c) == (if ts[0].c == c then PieceIn(ts[0].tag, ts[0].data) else []) + PiecesIn(ts[1..], c)
  {
  }

  lemma FirstMoves(x: Stack, w: nat -> bool, app: nat -> App, k: byte, t: Pdu, more: seq<Pdu>, s: byte, c: byte)
    returns (r: Outcome)
    requires Upright(x.tl, s, c) && k < |x.tl.net.slots| && Fitting([t] + more, x.tl.maxConns) && Unending([t] + more, c)
    ensures Fits(x, r.x) && Upright(r.x.tl, s, c) && Fitting(more, r.x.tl.maxConns) && Unending(more, c)
    ensures Moves(x.tl, r.x.tl, s, c, Mine(k, [t], s, c))
    ensures ProcessData(x, w, app, k, Wire([t] + more)) == if r.code < 0 then r else ProcessData(r.x, w, app, k, Wire(more))
  {
    var ts := [t] + more;
    assert ts[0] == t && ts[1..] == more;
    assert t.tag == T_DELETE_T_C ==> t.c != c;
    forall i | 0 <= i < |more| && more[i].tag == T_DELETE_T_C ensures more[i].c != c { assert more[i] == ts[i + 1]; }
    hide Receive, ProcessData, PieceIn, Wire, Mine;
    ProcessFirst(x, w, app, k, ts);
    ReceiveMoves(x, w, app, k, t.tag, t.c, t.data, s, c);
    MineFirst(k, t, more, s, c);
    r := Receive(x, w, app, k, t.tag, t.c, t.data);
  }

  /** A packet moves the connection by its pieces, up to the first TPDU that is refused. */
  lemma {:induction false} ProcessMoves(x: Stack, w: nat -> bool, app: nat -> App, k: byte, ts: seq<Pdu>, s: byte,
                                        c: byte)
    returns (taken: seq<Pdu>)
    requires Upright(x.tl, s, c) && k < |x.tl.net.slots| && Fitting(ts, x.tl.maxConns) && Unending(ts, c)
    ensures taken <= ts && var r := ProcessData(x, w, app, k, Wire(ts));
      Moves(x.tl, r.x.tl, s, c, Mine(k, taken, s, c)) && (r.code == 0 ==> taken == ts)
    decreases |ts|
  {
    if ts == [] {
      Stays(x.tl, s, c);
      taken := [];
    } else {
      var t, more := ts[0], ts[1..];
      assert ts == [t] + more;
      hide Upright, Fitting, Unending, Moves, ProcessData, Mine, Wire, WellFormed;
      var r := FirstMoves(x, w, app, k, t, more, s, c);
      if r.code < 0 {
        taken := [t];
      } else {
        var taken' := ProcessMoves(r.x, w, app, k, more, s, c);
        taken := [t] + taken';
        MineFirst(k, t, taken', s, c);
        MovesOn(x.tl, r.x.tl, ProcessData(r.x, w, app, k, Wire(more)).x.tl, s, c, Mine(k, [t], s, c), Mine(k, taken', s, c));
      }
    }
  }

  /* ---- Polling ---- */

  lemma PollQueueMoves(t: Tl, w: nat -> bool, k: byte, j: byte, s: byte, c: byte)
    requires Upright(t, s, c) && k < |t.net.slots| && j < t.maxConns
    ensures Moves(t, PollQueue(t, w, k, j).t, s, c, [])
  {
    hide Moves, Apply;
    var q := t.At(k, j);
    Stays(t, s, c);
    if (q.state == InCreation || q.state == Active || q.state == DeleteQueued) && q.queue != [] && !q.waiting {
      ActMoves(t, SentQueued(k, j, q.queue[0], t.Next(w)), s, c);
    }
  }

  lemma PollAskMoves(t: Tl, w: nat -> bool, tick: Tick, k: byte, j: byte, s: byte, c: byte)
    requires Upright(t, s, c) && k < |t.net.slots| && j < t.maxConns
    requires t.At(k, j).waiting || t.At(k, j).state != Active || t.At(k, j).queue == []
    ensures Moves(t, PollAsk(t, w, tick, k, j).t, s, c, [])
  {
    hide Moves, Apply;
    var q := t.At(k, j);
    Stays(t, s, c);
    if q.state == Active && !q.waiting && tick.pollDue { ActMoves(t, SentPoll(k, j, t.Next(w)), s, c); }
  }

  lemma PollTimeoutMoves(t: Tl, tick: Tick, k: byte, j: byte, s: byte, c: byte)
    requires Upright(t, s, c) && k < |t.net.slots| && j < t.maxConns
    ensures Moves(t, PollTimeout(t, tick, k, j).t, s, c, [])
  {
    hide Moves, Apply;
    var q := t.At(k, j);
    Stays(t, s, c);
    if q.waiting && (q.state == InCreation || q.state == InDeletion) { ActMoves(t, TimedOut(k, j), s, c); }
  }

  lemma PollConnMoves(t: Tl, w: nat -> bool, tick: Tick, k: byte, j: byte, s: byte, c: byte)
    requires Upright(t, s, c) && k < |t.net.slots| && j < t.maxConns
    ensures Moves(t, PollConn(t, w, tick, k, j).t, s, c, [])
  {
    hide Moves, PollQueue, PollAsk, PollTimeout;
    Stays(t, s, c);
    PollQueueMoves(t, w, k, j, s, c);
    var r1 := PollQueue(t, w, k, j);
    if t.At(k, j).state != Idle && r1.code >= 0 {
      MovedUpright(t, r1.t, s, c, []);
      QueueDone(t, w, k, j);
      PollAskMoves(r1.t, w, tick, k, j, s, c);
      var r2 := PollAsk(r1.t, w, tick, k, j);
      MovesOn(t, r1.t, r2.t, s, c, [], []);
      if r2.code >= 0 {
        MovedUpright(t, r2.t, s, c, []);
        PollTimeoutMoves(r2.t, tick, k, j, s, c);
        MovesOn(t, r2.t, PollTimeout(r2.t, tick, k, j).t, s, c, [], []);
      }
    }
  }

  lemma {:induction false} PollConnsMove(t: Tl, w: nat -> bool, tick: nat -> Tick, k: byte, j: nat, s: byte, c: byte)
    requires Upright(t, s, c) && k < |t.net.slots| && j <= t.maxConns
    ensures Moves(t, PollConns(t, w, tick, k, j).t, s, c, [])
    decreases t.maxConns - j
  {
    hide PollConn;
    if j == t.maxConns {
      Stays(t, s, c);
    } else {
      PollConnMoves(t, w, tick(j), k, j, s, c);
      var r := PollConn(t, w, tick(j), k, j);
      if r.code >= 0 {
        PollConnsMove(r.t, w, tick, k, j + 1, s, c);
        MovesOn(t, r.t, PollConns(r.t, w, tick, k, j + 1).t, s, c, [], []);
      }
    }
  }

  lemma PollsMove(t: Tl, u: Tl, w: nat -> bool, tick: nat -> Tick, k: byte, s: byte, c: byte, ps: seq<Piece>)
    requires Moves(t, u, s, c, ps) && k < |u.net.slots|
    ensures Moves(t, PollConns(u, w, tick, k, 0).t, s, c, ps)
  {
    PollConnsMove(u, w, tick, k, 0, s, c);
    MovesOn(t, u, PollConns(u, w, tick, k, 0).t, s, c, ps, []);
  }

  /* ---- Calls of the host ---- */

  lemma CallMoves(x: Stack, w: nat -> bool, app: nat -> App, e: Event, s: byte, c: byte)
    requires Upright(x.tl, s, c) && !e.DoPoll? && e != DoDestroy(s) && e != DoDelTc(s, c)
    ensures Moves(x.tl, Step(x, w, app, e).tl, s, c, [])
  {
    hide Moves, SendData, Callbacks, Apply, Destroy, Broadcast, Poll;
    Stays(x.tl, s, c);
    forall k: nat, d: byte, spdu: seq<byte> ensures Moves(x.tl, SendData(x.tl, k, d, spdu).t, s, c, []) {
      SendMoves(x.tl, k, d, spdu, s, c);
    }
    match e
    case DoRegister(handle, number) =>
      var k := FreeSlot(x.tl.net.slots, 0);
      if k < |x.tl.net.slots| { ActMoves(x.tl, Registered(k, handle, number), s, c); }
    case DoDestroy(k) => DestroyMoves(x, app, k, s, c);
    case DoNewTc(k) =>
      var r := NewTc(x.tl, k);
      if r.code != -1 { ActMoves(x.tl, QueuedCreate(k, r.code), s, c); }
    case DoDelTc(k, d) =>
      if DelTc(x.tl, k, d).code == 0 { ActMoves(x.tl, QueuedDelete(k, d), s, c); }
    case DoBroadcast(slot, resource, data) => BroadcastMoves(x, slot, resource, data, 0, s, c);
    case _ =>
  }

  lemma DestroyMoves(x: Stack, app: nat -> App, k: byte, s: byte, c: byte)
    requires Upright(x.tl, s, c) && k != s
    ensures Moves(x.tl, Destroy(x, app, k).tl, s, c, [])
  {
    hide Moves, Callbacks, Apply;
    Stays(x.tl, s, c);
    if k < |x.tl.net.slots| { ActMoves(x.tl, Destroyed(k), s, c); }
    var t := DestroySlot(x.tl, k);
    MovedUpright(x.tl, t, s, c, []);
    DestroyTells(x.tl, k);
    CallbacksMove(x.(tl := t), app, t.net.told, |x.tl.net.told|, s, c);
    MovesOn(x.tl, t, Destroy(x, app, k).tl, s, c, [], []);
  }

  lemma DestroyTells(t: Tl, k: byte)
    ensures |t.net.told| <= |DestroySlot(t, k).net.told|
  {
  }

  lemma {:induction false} BroadcastMoves(x: Stack, slot: int, resource: nat, data: seq<byte>, i: nat, s: byte, c: byte)
    requires Upright(x.tl, s, c) && i <= |x.sessions|
    ensures Moves(x.tl, Broadcast(x, slot, resource, data, i).tl, s, c, [])
    decreases |x.sessions| - i
  {
    hide Moves, SendData;
    Stays(x.tl, s, c);
    if i < |x.sessions| {
      var e := x.sessions[i];
      SendMoves(x.tl, e.slot, e.conn, DataSpdu(i, data), s, c);
      var y := if e.state == Open && (slot == -1 || slot == e.slot) && e.resource == resource
               then SendSession(x, i, data).x else x;
      assert Moves(x.tl, y.tl, s, c, []) by { Errors(x.tl, SendData(x.tl, e.slot, e.conn, DataSpdu(i, data)).t, s, c, []); }
      MovedUpright(x.tl, y.tl, s, c, []);
      BroadcastMoves(y, slot, resource, data, i + 1, s, c);
      MovesOn(x.tl, y.tl, Broadcast(y, slot, resource, data, i + 1).tl, s, c, [], []);
    }
  }
}
