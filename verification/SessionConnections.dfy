/** Sessions and the connections they use: which actions leave a session in use without a connection. */
module SessionConnections {
  import opened Common
  import opened Transport
  import opened TransportSafety
  import opened Sessions
  import opened SessionSafety
  import RunDelivery

  /* ---- One action ---- */

  /** The connection has been opened, and neither side has ended it. */
  ghost predicate Standing(t: Tl, s: byte, c: byte) {
    && s < |t.net.slots| && c < |t.net.slots[s].conns|
    && var k := t.net.slots[s].conns[c].state; k == Active || k == DeleteQueued || k == InDeletion
  }

  /** Every session in use is on such a connection. */
  ghost predicate OnConnections(x: Stack) {
    forall i :: 0 <= i < |x.sessions| && x.sessions[i].state != Free ==> Standing(x.tl, x.sessions[i].slot, x.sessions[i].conn)
  }

  /** The connection ends and the session layer is not told: the module confirms a deletion, a deletion times out, or
   *  the module deletes the connection and the answer cannot be written. */
  predicate Orphans(a: Act, s: byte, c: byte) {
    a == DeleteAcked(s, c) || a == TimedOut(s, c) || a == CamDeleted(s, c, false)
  }

  /** An action of the transport layer, with what it tells handed on. */
  function Acted(x: Stack, app: nat -> App, a: Act): (y: Stack)
    requires Sound(x)
  {
    var t := x.tl.Do(a);
    Callbacks(x.(tl := t), app, t.net.told, |x.tl.net.told|)
  }

  lemma ActedTells(x: Stack, app: nat -> App, a: Act)
    requires Sound(x)
    ensures |Told(x.tl.net, a)| <= 1
    ensures var x1 := x.(tl := x.tl.Do(a)); var told := Told(x.tl.net, a);
      Acted(x, app, a) == if told == [] then x1 else Callback(x1, app(|x.tl.net.told|), told[0])
  {
    var x1, n := x.(tl := x.tl.Do(a)), |x.tl.net.told|;
    assert x1.tl.net.told == x.tl.net.told + Told(x.tl.net, a);
    if Told(x.tl.net, a) != [] {
      var y := Callback(x1, app(n), x1.tl.net.told[n]);
      assert Callbacks(y, app, x1.tl.net.told, n + 1) == y;
    }
  }

  /** What an action makes of a connection that stands. */
  lemma StandingMoves(t: Tl, a: Act, s: byte, c: byte)
    requires WellFormed(t) && Standing(t, s, c) && LegalAt(t.net.slots[s].conns[c], s, c, a)
    ensures Standing(t.Do(a), s, c) <==> a != Destroyed(s) && a != CamDeleted(s, c, true) && !Orphans(a, s, c)
  {
    ApplyAt(t.net, a, s, c);
  }

  lemma SendStands(x: Stack, k: nat, d: byte, spdu: seq<byte>)
    requires Sound(x)
    ensures forall s: byte, c: byte :: Standing(x.tl, s, c) ==> Standing(Send(x, k, d, spdu).x.tl, s, c)
  {
    var r := SendData(x.tl, k, d, spdu);
    if r.code == 0 {
      forall s: byte, c: byte | Standing(x.tl, s, c) ensures Standing(r.t, s, c) {
        StandingMoves(x.tl, QueuedData(k, d, spdu), s, c);
      }
    }
  }

  /** An SPDU leaves a session only where there was one or on its own connection. */
  lemma SpduStands(x: Stack, a: App, p: seq<byte>, s: byte, c: byte)
    requires Sound(x) && OnConnections(x) && Standing(x.tl, s, c)
    ensures OnConnections(Spdu(x, a, p, s, c))
  {
    hide Standing, SendData, AfterLookup;
    forall spdu: seq<byte>
      ensures forall k: byte, d: byte :: Standing(x.tl, k, d) ==> Standing(SendData(x.tl, s, c, spdu).t, k, d)
    {
      SendStands(x, s, c, spdu);
    }
    forall z: Stack | z.tl == x.tl && z.sessions == x.sessions ensures OnConnections(AfterLookup(z, a, s, c)) {
      AfterLookupStands(z, a, s, c);
    }
  }

  lemma AfterLookupStands(x: Stack, a: App, s: byte, c: byte)
    requires Sound(x) && OnConnections(x) && Standing(x.tl, s, c)
    ensures OnConnections(AfterLookup(x, a, s, c))
  {
    hide Standing, SendData;
    forall spdu: seq<byte>
      ensures forall k: byte, d: byte :: Standing(x.tl, k, d) ==> Standing(SendData(x.tl, s, c, spdu).t, k, d)
    {
      SendStands(x, s, c, spdu);
    }
    FailStands(x, s, c);
  }

  lemma FailStands(x: Stack, s: byte, c: byte)
    requires Sound(x)
    ensures forall spdu: seq<byte>, code: int, k: byte, d: byte ::
      Standing(x.tl, k, d) ==> Standing(Send(x.Fail(code), s, c, spdu).x.tl, k, d)
  {
    forall spdu: seq<byte>, code: int, k: byte, d: byte | Standing(x.tl, k, d)
      ensures Standing(Send(x.Fail(code), s, c, spdu).x.tl, k, d)
    {
      SendStands(x, s, c, spdu);
    }
  }

  lemma SessionsStand(x: Stack, a: Act)
    requires Sound(x) && OnConnections(x) && Legal(x.tl.net, a)
    ensures forall i :: 0 <= i < |x.sessions| && x.sessions[i].state != Free ==>
      var s, c := x.sessions[i].slot, x.sessions[i].conn;
      Standing(x.tl.Do(a), s, c) <==> a != Destroyed(s) && a != CamDeleted(s, c, true) && !Orphans(a, s, c)
  {
    forall i | 0 <= i < |x.sessions| && x.sessions[i].state != Free
      ensures var s, c := x.sessions[i].slot, x.sessions[i].conn;
        Standing(x.tl.Do(a), s, c) <==> a != Destroyed(s) && a != CamDeleted(s, c, true) && !Orphans(a, s, c)
    {
      StandingMoves(x.tl, a, x.sessions[i].slot, x.sessions[i].conn);
    }
  }

  /** An action that is told leaves every session in use on a connection. */
  lemma ToldKeepsConnections(x: Stack, app: nat -> App, a: Act)
    requires Sound(x) && OnConnections(x) && Legal(x.tl.net, a) && Told(x.tl.net, a) != []
    ensures OnConnections(Acted(x, app, a))
  {
    var x1, told, n := x.(tl := x.tl.Do(a)), Told(x.tl.net, a), |x.tl.net.told|;
    ActedTells(x, app, a);
    SessionsStand(x, a);
    if a.GotLast? { StandingMoves(x.tl, a, a.s, a.c); assert OnConnections(x1); }
    if !a.GotLast? && !a.CamDeleted? && !a.Destroyed? { assert OnConnections(x1); }
    hide Standing, Apply, Spdu, Acted, CloseAll, OnConnections;
    match a
    case GotLast(s, c, data) => SpduStands(x1, app(n), told[0].data, s, c);
    case CamDeleted(s, c, ok) => ClosingKeepsConnections(x1, app(n).callback, false, c);
    case Destroyed(s) => ClosingKeepsConnections(x1, app(n).callback, true, s);
    case _ =>
  }

  lemma ClosingKeepsConnections(x: Stack, callback: bool, slot: bool, id: byte)
    requires forall i :: 0 <= i < |x.sessions| && x.sessions[i].state != Free && !Goes(x.sessions[i], slot, id) ==>
      Standing(x.tl, x.sessions[i].slot, x.sessions[i].conn)
    ensures OnConnections(CloseAll(x, callback, slot, id, 0))
  {
    hide Standing;
    CloseAllSessions(x, callback, slot, id, 0);
  }

  /** The actions after which a session in use is on no connection, where all were on connections before, are exactly
   *  those three, on a connection with a session in use. */
  lemma OrphansExactly(x: Stack, app: nat -> App, a: Act)
    requires Sound(x) && OnConnections(x) && Legal(x.tl.net, a)
    ensures OnConnections(Acted(x, app, a)) <==>
      forall i :: 0 <= i < |x.sessions| && x.sessions[i].state != Free ==> !Orphans(a, x.sessions[i].slot, x.sessions[i].conn)
  {
    ActedTells(x, app, a);
    SessionsStand(x, a);
    hide Standing, Apply, Acted;
    if Told(x.tl.net, a) != [] { ToldKeepsConnections(x, app, a); }
  }

  /** A deletion that the module confirms leaves its session in use on an idle connection. */
  lemma ConfirmedDeletionOrphans(x: Stack, w: nat -> bool, app: nat -> App, s: byte, c: byte, n: nat, data: seq<byte>)
    requires Sound(x) && s < |x.tl.net.slots| && c < x.tl.maxConns && x.tl.At(s, c).state == InDeletion
    requires n < |x.sessions| && x.sessions[n].state == Open && x.sessions[n].slot == s && x.sessions[n].conn == c
    ensures var y := Receive(x, w, app, s, T_D_T_C_REPLY, c, data).x;
      y.sessions == x.sessions && y.tl.At(s, c).state == Idle
  {
    ActedTells(x, app, DeleteAcked(s, c));
    ApplyAt(x.tl.net, DeleteAcked(s, c), s, c);
  }

  /* ---- Every run ---- */

  /** The connection stands, or one of the three actions has ended it at some time. */
  ghost predicate TiedTo(t: Tl, s: byte, c: byte) {
    Standing(t, s, c) || exists a :: a in t.net.acts && Orphans(a, s, c)
  }

  ghost predicate Tied(x: Stack) {
    forall i :: 0 <= i < |x.sessions| && x.sessions[i].state != Free ==> TiedTo(x.tl, x.sessions[i].slot, x.sessions[i].conn)
  }

  /** What was tied to a connection still is. */
  ghost predicate Ties(t: Tl, u: Tl) {
    WellFormed(u) && forall s: byte, c: byte :: TiedTo(t, s, c) ==> TiedTo(u, s, c)
  }

  lemma TiesOn(t: Tl, u: Tl, v: Tl)
    requires Ties(t, u) && Ties(u, v)
    ensures Ties(t, v)
  {
  }

  lemma ErrorsTie(t: Tl, u: Tl)
    requires WellFormed(t) && u.net == t.net && u.maxConns == t.maxConns
    ensures Ties(t, u)
  {
    forall s: byte, c: byte | TiedTo(t, s, c) ensures TiedTo(u, s, c) {
      if !Standing(t, s, c) {
        var a :| a in t.net.acts && Orphans(a, s, c);
        assert a in u.net.acts;
      }
    }
  }

  /** An action leaves tied what it does not end in a way that is told. */
  lemma ActTies(t: Tl, a: Act, s: byte, c: byte)
    requires WellFormed(t) && TiedTo(t, s, c) && a != Destroyed(s) && a != CamDeleted(s, c, true)
    requires Standing(t, s, c) ==> LegalAt(t.net.slots[s].conns[c], s, c, a)
    ensures TiedTo(t.Do(a), s, c)
  {
    assert t.Do(a).net.acts == t.net.acts + [a];
    if Standing(t, s, c) {
      StandingMoves(t, a, s, c);
      if Orphans(a, s, c) { assert a in t.Do(a).net.acts; }
    } else {
      var b :| b in t.net.acts && Orphans(b, s, c);
      assert b in t.Do(a).net.acts;
    }
  }

  /** An action of one connection, taken where the code takes it. */
  lemma OwnActTies(t: Tl, a: Act)
    requires WellFormed(t) && !a.Registered? && !a.Destroyed? && !a.Offered? && !(a.CamDeleted? && a.ok)
    requires a.s < |t.net.slots| && a.c < t.maxConns && LegalOwn(t.At(a.s, a.c), a)
    ensures Ties(t, t.Do(a)) && forall k: int, code: int :: Ties(t, t.Do(a).FailOn(k, code))
  {
    forall s: byte, c: byte | TiedTo(t, s, c) ensures TiedTo(t.Do(a), s, c) { ActTies(t, a, s, c); }
    forall k: int, code: int ensures Ties(t, t.Do(a).FailOn(k, code)) {
      ErrorsTie(t.Do(a), t.Do(a).FailOn(k, code));
      TiesOn(t, t.Do(a), t.Do(a).FailOn(k, code));
    }
  }

  lemma SendTies(t: Tl, k: nat, d: byte, data: seq<byte>)
    requires WellFormed(t)
    ensures var r := SendData(t, k, d, data);
      Ties(t, r.t) && (r.code == 0 ==> k < |t.net.slots| && TiedTo(r.t, k, d))
  {
    hide Apply, TiedTo, LegalOwn;
    var r := SendData(t, k, d, data);
    if r.code == 0 {
      assert LegalOwn(t.At(k, d), QueuedData(k, d, data)) by { ActiveQueues(t.At(k, d), k, d, data); }
      OwnActTies(t, QueuedData(k, d, data));
      assert TiedTo(t, k, d) by { ActiveTied(t, k, d); }
    } else {
      ErrorsTie(t, r.t);
    }
  }

  lemma ActiveQueues(q: Conn, k: byte, d: byte, data: seq<byte>)
    requires q.state == Active
    ensures LegalOwn(q, QueuedData(k, d, data))
  {
  }

  lemma ActiveTied(t: Tl, k: byte, d: byte)
    requires WellFormed(t) && k < |t.net.slots| && d < t.maxConns && t.At(k, d).state == Active
    ensures TiedTo(t, k, d)
  {
  }

  lemma TiedMoves(x: Stack, t: Tl)
    requires Tied(x) && Ties(x.tl, t)
    ensures Tied(x.(tl := t))
  {
  }

  lemma SpduTied(x: Stack, a: App, p: seq<byte>, s: byte, c: byte)
    requires Sound(x) && Tied(x)
    ensures Tied(Spdu(x, a, p, s, c))
  {
    hide SendData, TiedTo, AfterLookup;
    forall spdu: seq<byte> ensures Ties(x.tl, SendData(x.tl, s, c, spdu).t) { SendTies(x.tl, s, c, spdu); }
    forall z: Stack | z.tl == x.tl && z.sessions == x.sessions ensures Tied(AfterLookup(z, a, s, c)) {
      AfterLookupTied(z, a, s, c);
    }
  }

  lemma AfterLookupTied(x: Stack, a: App, s: byte, c: byte)
    requires Sound(x) && Tied(x)
    ensures Tied(AfterLookup(x, a, s, c))
  {
    hide SendData, TiedTo;
    forall spdu: seq<byte>
      ensures var r := SendData(x.tl, s, c, spdu); Ties(x.tl, r.t) && (r.code == 0 ==> TiedTo(r.t, s, c))
    {
      SendTies(x.tl, s, c, spdu);
    }
  }

  /** Every session in use is tied to its connection, but for those that `u` ends. */
  ghost predicate TiedBut(x: Stack, u: Upcall) {
    forall i :: 0 <= i < |x.sessions| && x.sessions[i].state != Free ==>
      var e := x.sessions[i];
      (u.ConnectionClose? && e.conn == u.c) || (u.SlotClose? && e.slot == u.s) || TiedTo(x.tl, e.slot, e.conn)
  }

  lemma CallbackTied(x: Stack, a: App, u: Upcall)
    requires Sound(x) && TiedBut(x, u)
    ensures Tied(Callback(x, a, u))
  {
    hide TiedTo, Spdu;
    match u
    case ConnectionClose(s, c) => CloseAllSessions(x, a.callback, false, c, 0);
    case SlotClose(s) => CloseAllSessions(x, a.callback, true, s, 0);
    case Data(s, c, data) => SpduTied(x, a, data, s, c);
    case _ =>
  }

  lemma {:induction false} CallbacksTied(x: Stack, app: nat -> App, told: seq<Upcall>, i: nat)
    requires Sound(x) && i <= |told| && Tied(x)
    ensures Tied(Callbacks(x, app, told, i))
    decreases |told| - i
  {
    hide TiedTo, Callback;
    if i < |told| {
      CallbackTied(x, app(i), told[i]);
      CallbacksTied(Callback(x, app(i), told[i]), app, told, i + 1);
    }
  }

  lemma RequestTies(t: Tl, w: nat -> bool, k: byte, d: byte)
    requires WellFormed(t) && k < |t.net.slots| && d < t.maxConns
    ensures Ties(t, HandleRequest(t, w, k, d).t)
  {
    hide Apply, TiedTo;
    var e, ok := FirstIdle(t.net.slots[k].conns, 1), t.Next(w);
    if e >= t.maxConns {
      OwnActTies(t, Refused(k, d, ok));
    } else {
      var a := Offered(k, d, e, ok);
      var t1 := t.Do(a);
      OfferTies(t, a);
      if ok {
        var b := Created(k, e, t1.Next(w));
        OwnActTies(t1, b);
        TiesOn(t, t1, t1.Do(b));
        ErrorsTie(t1.Do(b), HandleRequest(t, w, k, d).t);
        TiesOn(t, t1.Do(b), HandleRequest(t, w, k, d).t);
      } else {
        ErrorsTie(t1, HandleRequest(t, w, k, d).t);
        TiesOn(t, t1, HandleRequest(t, w, k, d).t);
      }
    }
  }

  lemma OfferTies(t: Tl, a: Act)
    requires WellFormed(t) && a.Offered? && a.s < |t.net.slots| && 1 <= a.d < t.maxConns && t.At(a.s, a.d).state == Idle
    ensures Ties(t, t.Do(a)) && t.Do(a).At(a.s, a.d).state == Idle
  {
    ApplyAt(t.net, a, a.s, a.d);
    forall s: byte, c: byte | TiedTo(t, s, c) ensures TiedTo(t.Do(a), s, c) { ActTies(t, a, s, c); }
  }

  /** The module deletes the connection and the answer is written. */
  predicate Deletes(t: Tl, w: nat -> bool, k: byte, tag: byte, d: byte)
    requires WellFormed(t) && k < |t.net.slots| && d < t.maxConns
  {
    tag == T_DELETE_T_C && (t.At(k, d).state == Active || t.At(k, d).state == InDeletion) && t.Next(w)
  }

  lemma TpduTies(t: Tl, w: nat -> bool, k: byte, tag: byte, d: byte, data: seq<byte>)
    requires WellFormed(t) && k < |t.net.slots| && d < t.maxConns && !Deletes(t, w, k, tag, d)
    ensures Ties(t, HandleTpdu(t, w, k, tag, d, data).t)
  {
    hide Apply, TiedTo;
    if tag == T_REQUEST_T_C {
      RequestTies(t, w, k, d);
    } else {
      var a :=
        if tag == T_C_T_C_REPLY then Opened(k, d)
        else if tag == T_DELETE_T_C then CamDeleted(k, d, t.Next(w))
        else if tag == T_D_T_C_REPLY then DeleteAcked(k, d)
        else if tag == T_DATA_MORE then GotMore(k, d, data)
        else if tag == T_DATA_LAST then GotLast(k, d, data)
        else if |data| == 1 && data[0] >= 0x80 then SentReceive(k, d, t.Next(w))
        else Quiet(k, d);
      if LegalOwn(t.At(k, d), a) && !(a.CamDeleted? && a.ok) { OwnActTies(t, a); }
      ErrorsTie(t, t);
      ErrorsTie(t, t.FailOn(k, ERR_BADCAMDATA));
    }
  }

  lemma ReceiveTied(x: Stack, w: nat -> bool, app: nat -> App, k: byte, tag: byte, d: byte, data: seq<byte>)
    requires Sound(x) && k < |x.tl.net.slots| && d < x.tl.maxConns && Tied(x)
    ensures Tied(Receive(x, w, app, k, tag, d, data).x)
  {
    hide TiedTo, Apply, Callbacks, Callback;
    if Deletes(x.tl, w, k, tag, d) {
      var a := CamDeleted(k, d, true);
      ActedTells(x, app, a);
      DeletedBut(x, a);
      CallbackTied(x.(tl := x.tl.Do(a)), app(|x.tl.net.told|), ConnectionClose(k, d));
      assert Receive(x, w, app, k, tag, d, data).x == Acted(x, app, a);
    } else {
      TpduTies(x.tl, w, k, tag, d, data);
      RunDelivery.TpduTells(x.tl, w, k, tag, d, data);
      var r := HandleTpdu(x.tl, w, k, tag, d, data);
      TiedMoves(x, r.t);
      if r.code >= 0 { CallbacksTied(x.(tl := r.t), app, r.t.net.told, |x.tl.net.told|); }
    }
  }

  lemma DeletedBut(x: Stack, a: Act)
    requires Sound(x) && Tied(x) && a.CamDeleted? && a.ok && a.s < |x.tl.net.slots| && a.c < x.tl.maxConns
    requires LegalOwn(x.tl.At(a.s, a.c), a)
    ensures TiedBut(x.(tl := x.tl.Do(a)), ConnectionClose(a.s, a.c))
  {
    forall i | 0 <= i < |x.sessions| && x.sessions[i].state != Free && x.sessions[i].conn != a.c
      ensures TiedTo(x.tl.Do(a), x.sessions[i].slot, x.sessions[i].conn)
    {
      ActTies(x.tl, a, x.sessions[i].slot, x.sessions[i].conn);
    }
  }

  lemma {:induction false} ProcessTied(x: Stack, w: nat -> bool, app: nat -> App, k: byte, p: seq<byte>)
    requires Sound(x) && k < |x.tl.net.slots| && Tied(x)
    ensures Tied(ProcessData(x, w, app, k, p).x)
    decreases |p|
  {
    hide TiedTo, Receive;
    if p != [] {
      var y := ParseTpdu(p);
      if y.Tpdu? && y.c < x.tl.maxConns {
        ReceiveTied(x, w, app, k, y.tag, y.c, y.data);
        var r := Receive(x, w, app, k, y.tag, y.c, y.data);
        if r.code >= 0 { ProcessTied(r.x, w, app, k, p[y.size..]); }
      } else {
        ErrorsTie(x.tl, ProcessData(x, w, app, k, p).x.tl);
        TiedMoves(x, ProcessData(x, w, app, k, p).x.tl);
      }
    }
  }

  lemma PollConnTies(t: Tl, w: nat -> bool, tick: Tick, k: byte, j: byte)
    requires WellFormed(t) && k < |t.net.slots| && j < t.maxConns
    ensures Ties(t, PollConn(t, w, tick, k, j).t)
  {
    hide Apply, TiedTo, Ties;
    var q := t.At(k, j);
    ErrorsTie(t, t);
    if q.state != Idle {
      var r1 := PollQueue(t, w, k, j);
      if (q.state == InCreation || q.state == Active || q.state == DeleteQueued) && q.queue != [] && !q.waiting {
        OwnActTies(t, SentQueued(k, j, q.queue[0], t.Next(w)));
      }
      if r1.code >= 0 {
        QueueDone(t, w, k, j);
        AskAndTimeoutTie(r1.t, w, tick, k, j);
        var r2 := PollAsk(r1.t, w, tick, k, j);
        TiesOn(t, r1.t, r2.t);
        if r2.code >= 0 { TiesOn(t, r2.t, PollTimeout(r2.t, tick, k, j).t); }
      }
    }
  }

  lemma AskAndTimeoutTie(t: Tl, w: nat -> bool, tick: Tick, k: byte, j: byte)
    requires WellFormed(t) && k < |t.net.slots| && j < t.maxConns
    requires t.At(k, j).waiting || t.At(k, j).state != Active || t.At(k, j).queue == []
    ensures var r := PollAsk(t, w, tick, k, j); Ties(t, r.t) && Ties(r.t, PollTimeout(r.t, tick, k, j).t)
  {
    hide Apply, TiedTo, Ties;
    var q := t.At(k, j);
    ErrorsTie(t, t);
    if q.state == Active && !q.waiting && tick.pollDue { OwnActTies(t, SentPoll(k, j, t.Next(w))); }
    var u := PollAsk(t, w, tick, k, j).t;
    ErrorsTie(u, u);
    ErrorsTie(u, u.FailOn(k, ERR_TIMEOUT));
    if u.At(k, j).waiting && (u.At(k, j).state == InCreation || u.At(k, j).state == InDeletion) { OwnActTies(u, TimedOut(k, j)); }
  }

  lemma {:induction false} PollConnsTie(t: Tl, w: nat -> bool, tick: nat -> Tick, k: byte, j: nat)
    requires WellFormed(t) && k < |t.net.slots| && j <= t.maxConns
    ensures Ties(t, PollConns(t, w, tick, k, j).t)
    decreases t.maxConns - j
  {
    hide PollConn, TiedTo, Ties;
    if j == t.maxConns {
      ErrorsTie(t, t);
    } else {
      PollConnTies(t, w, tick(j), k, j);
      var r := PollConn(t, w, tick(j), k, j);
      if r.code >= 0 {
        PollConnsTie(r.t, w, tick, k, j + 1);
        TiesOn(t, r.t, PollConns(r.t, w, tick, k, j + 1).t);
      }
    }
  }

  lemma PollSlotTied(x: Stack, w: nat -> bool, app: nat -> App, rx: Rx, tick: nat -> Tick, k: byte)
    requires Sound(x) && k < |x.tl.net.slots| && Tied(x)
    ensures Tied(PollSlot(x, w, app, rx, tick, k).x)
  {
    hide Tied, ProcessData, PollConns;
    var slots := x.tl.net.slots;
    if slots[k].handle != -1 {
      ReadTied(x, w, app, rx, k);
      var r := ReadSlot(x, w, app, rx, k);
      if r.code >= 0 {
        PollConnsTie(r.x.tl, w, tick, k, 0);
        TiedMoves(r.x, PollConns(r.x.tl, w, tick, k, 0).t);
      }
    }
  }

  lemma ReadTied(x: Stack, w: nat -> bool, app: nat -> App, rx: Rx, k: byte)
    requires Sound(x) && k < |x.tl.net.slots| && Tied(x)
    ensures Tied(ReadSlot(x, w, app, rx, k).x)
  {
    hide Tied, ProcessData;
    var slots := x.tl.net.slots;
    var y := ReadSlot(x, w, app, rx, k).x;
    if rx.Readable? && rx.data != [] {
      var d := if slots[k].number == rx.number then k as nat else Route(slots, slots[k].handle, rx.number, 0);
      if d < |slots| { ProcessTied(x, w, app, d, rx.data); }
    }
    if y.tl.net == x.tl.net && y == x.(tl := y.tl) {
      ErrorsTie(x.tl, y.tl);
      TiedMoves(x, y.tl);
    }
  }

  lemma {:induction false} PollSlotsTied(x: Stack, w: nat -> bool, app: nat -> App, rx: nat -> Rx,
                                         tick: nat -> nat -> Tick, k: nat)
    requires Sound(x) && k <= |x.tl.net.slots| && Tied(x)
    ensures Tied(PollSlots(x, w, app, rx, tick, k).x)
    decreases |x.tl.net.slots| - k
  {
    hide Tied, PollSlot;
    if k < |x.tl.net.slots| {
      PollSlotTied(x, w, app, rx(k), tick(k), k);
      var r := PollSlot(x, w, app, rx(k), tick(k), k);
      if r.code >= 0 { PollSlotsTied(r.x, w, app, rx, tick, k + 1); }
    }
  }

  lemma CreateSessionTied(x: Stack, slot: int, c: byte, resource: nat, callback: bool)
    requires Sound(x) && Tied(x)
    ensures Tied(CreateSession(x, slot, c, resource, callback).x)
  {
    hide TiedTo, SendData;
    var n := FreeSession(x.sessions, 1);
    SendTies(x.tl, slot % 256, c, [ST_CREATE_SESSION, 6] + Be32(resource) + [Hi(n), Lo(n)]);
  }

  lemma DestroySessionTied(x: Stack, n: nat)
    requires Sound(x) && Tied(x)
    ensures Tied(DestroySession(x, n).x)
  {
    hide TiedTo, SendData;
    if n < |x.sessions| {
      SendTies(x.tl, x.sessions[n].slot, x.sessions[n].conn, [ST_CLOSE_SESSION_REQ, 2, Hi(n), Lo(n)]);
    }
  }

  lemma SendSessionTied(x: Stack, n: nat, data: seq<byte>)
    requires Sound(x) && Tied(x)
    ensures Tied(SendSession(x, n, data).x)
  {
    hide TiedTo, SendData;
    if n < |x.sessions| { SendTies(x.tl, x.sessions[n].slot, x.sessions[n].conn, DataSpdu(n, data)); }
  }

  lemma {:induction false} BroadcastTied(x: Stack, slot: int, resource: nat, data: seq<byte>, i: nat)
    requires Sound(x) && i <= |x.sessions| && Tied(x)
    ensures Tied(Broadcast(x, slot, resource, data, i))
    decreases |x.sessions| - i
  {
    hide Tied;
    if i < |x.sessions| {
      SendSessionTied(x, i, data);
      var e := x.sessions[i];
      var y := if e.state == Open && (slot == -1 || slot == e.slot) && e.resource == resource
               then SendSession(x, i, data).x else x;
      BroadcastTied(y, slot, resource, data, i + 1);
    }
  }

  lemma DestroyTied(x: Stack, app: nat -> App, k: byte)
    requires Sound(x) && Tied(x)
    ensures Tied(Destroy(x, app, k))
  {
    if k < |x.tl.net.slots| {
      var a := Destroyed(k);
      hide Callback, CloseAll, Apply;
      ActedTells(x, app, a);
      DestroyedBut(x, a);
      CallbackTied(x.(tl := x.tl.Do(a)), app(|x.tl.net.told|), SlotClose(k));
    } else {
      assert Destroy(x, app, k) == x;
    }
  }

  lemma DestroyedBut(x: Stack, a: Act)
    requires Sound(x) && Tied(x) && a.Destroyed? && a.s < |x.tl.net.slots|
    ensures TiedBut(x.(tl := x.tl.Do(a)), SlotClose(a.s))
  {
    forall i | 0 <= i < |x.sessions| && x.sessions[i].state != Free && x.sessions[i].slot != a.s
      ensures TiedTo(x.tl.Do(a), x.sessions[i].slot, x.sessions[i].conn)
    {
      ActTies(x.tl, a, x.sessions[i].slot, x.sessions[i].conn);
    }
  }

  lemma RegisterTies(t: Tl, handle: int, number: byte)
    requires WellFormed(t)
    ensures Ties(t, RegisterSlot(t, handle, number).t)
  {
    var k := FreeSlot(t.net.slots, 0);
    if k < |t.net.slots| {
      var a := Registered(k, handle, number);
      forall s: byte, c: byte | TiedTo(t, s, c) ensures TiedTo(t.Do(a), s, c) { ActTies(t, a, s, c); }
    } else {
      ErrorsTie(t, RegisterSlot(t, handle, number).t);
    }
  }

  lemma NewTcTies(t: Tl, k: nat)
    requires WellFormed(t)
    ensures Ties(t, NewTc(t, k).t)
  {
    hide Apply, TiedTo;
    var r := NewTc(t, k);
    if r.code != -1 { OwnActTies(t, QueuedCreate(k, r.code)); } else { ErrorsTie(t, r.t); }
  }

  lemma DelTcTies(t: Tl, k: nat, c: byte)
    requires WellFormed(t)
    ensures Ties(t, DelTc(t, k, c).t)
  {
    hide Apply, TiedTo;
    var r := DelTc(t, k, c);
    if r.code == 0 { OwnActTies(t, QueuedDelete(k, c)); } else { ErrorsTie(t, r.t); }
  }

  lemma StepTied(x: Stack, w: nat -> bool, app: nat -> App, e: Event)
    requires Sound(x) && Tied(x)
    ensures Tied(Step(x, w, app, e))
  {
    hide Tied, TiedTo, RegisterSlot, NewTc, DelTc, SendData, Destroy, CreateSession, DestroySession, SendSession, Broadcast, PollSlots;
    match e
    case DoRegister(handle, number) => RegisterTies(x.tl, handle, number); TiedMoves(x, RegisterSlot(x.tl, handle, number).t);
    case DoDestroy(k) => DestroyTied(x, app, k);
    case DoTlSend(k, d, data) => SendTies(x.tl, k, d, data); TiedMoves(x, SendData(x.tl, k, d, data).t);
    case DoNewTc(k) => NewTcTies(x.tl, k); TiedMoves(x, NewTc(x.tl, k).t);
    case DoDelTc(k, d) => DelTcTies(x.tl, k, d); TiedMoves(x, DelTc(x.tl, k, d).t);
    case DoPoll(polled, rx, tick) =>
      if polled { PollSlotsTied(x, w, app, rx, tick, 0); }
      else { FailTied(x, -1, ERR_CAREAD); }
    case DoCreateSession(slot, c, resource, callback) => CreateSessionTied(x, slot, c, resource, callback);
    case DoDestroySession(n) => DestroySessionTied(x, n);
    case DoSend(n, vector) => SendSessionTied(x, n, Flatten(vector)); FailTied(x, -1, ERR_IOVLIMIT);
    case DoBroadcast(slot, resource, data) => BroadcastTied(x, slot, resource, data, 0);
  }

  lemma FailTied(x: Stack, k: int, code: int)
    requires Sound(x) && Tied(x)
    ensures Tied(x.(tl := x.tl.FailOn(k, code))) && Tied(x.Fail(code))
  {
    ErrorsTie(x.tl, x.tl.FailOn(k, code));
    TiedMoves(x, x.tl.FailOn(k, code));
  }

  lemma {:induction false} RunTied(x: Stack, w: nat -> bool, app: nat -> App, es: seq<Event>)
    requires Sound(x) && Tied(x)
    ensures Tied(Run(x, w, app, es))
    decreases |es|
  {
    hide Tied;
    if es != [] {
      StepTied(x, w, app, es[0]);
      RunTied(Step(x, w, app, es[0]), w, app, es[1..]);
    }
  }

  /** In every run of new layers a session in use is on a connection that stands, or one of the three actions has at
   *  some time ended its connection without the session layer being told. */
  lemma SessionsTied(maxSlots: nat, maxConns: nat, junk: seq<Session>, w: nat -> bool, app: nat -> App,
                     es: seq<Event>, i: nat)
    requires maxSlots < 256 && maxConns < 256
    ensures var y := Run(CreateStack(maxSlots, maxConns, junk), w, app, es);
      i < |y.sessions| && y.sessions[i].state != Free ==>
        Standing(y.tl, y.sessions[i].slot, y.sessions[i].conn)
        || exists a :: a in y.tl.net.acts && Orphans(a, y.sessions[i].slot, y.sessions[i].conn)
  {
    RunTied(CreateStack(maxSlots, maxConns, junk), w, app, es);
  }
}
