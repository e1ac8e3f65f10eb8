/** The session table in every run: which sessions are in use, and what closing a slot or a connection does. */
module SessionSafety {
  import opened Common
  import opened Transport
  import opened TransportKeeps
  import opened Sessions
  import StackRuns

  /** A session in use belongs to an existing connection of a registered slot. */
  ghost predicate Bound(e: Session, t: Tl) {
    e.state != Free ==>
      e.slot < |t.net.slots| && t.net.slots[e.slot].handle != -1 && e.conn < t.maxConns
  }

  /** Sessions in use are bound, and session 0 is never used. */
  ghost predicate Agree(x: Stack) {
    && (forall i :: 0 <= i < |x.sessions| ==> Bound(x.sessions[i], x.tl))
    && (x.sessions != [] ==> x.sessions[0].state == Free)
  }

  /* ---- Closing ---- */

  /** The number of times the end of session `n` is announced. */
  function Farewells(calls: seq<Call>, n: nat): nat {
    if calls == [] then 0
    else (if calls[|calls| - 1].Close? && calls[|calls| - 1].session == n then 1 else 0)
         + Farewells(calls[..|calls| - 1], n)
  }

  lemma FarewellsSay(calls: seq<Call>, call: Call, n: nat)
    ensures Farewells(calls + [call], n) == Farewells(calls, n) + (if call.Close? && call.session == n then 1 else 0)
  {
    assert (calls + [call])[..|calls|] == calls;
  }

  lemma {:induction false} CloseAllSessions(x: Stack, callback: bool, slot: bool, id: byte, i: nat)
    requires i <= |x.sessions|
    ensures forall k :: 0 <= k < |x.sessions| ==>
      CloseAll(x, callback, slot, id, i).sessions[k] ==
        if k >= i && Goes(x.sessions[k], slot, id) then x.sessions[k].(state := Free) else x.sessions[k]
    decreases |x.sessions| - i
  {
    if i < |x.sessions| { CloseAllSessions(CloseOne(x, callback, slot, id, i), callback, slot, id, i + 1); }
  }

  lemma {:induction false} CloseAllFarewells(x: Stack, callback: bool, slot: bool, id: byte, i: nat, n: nat)
    requires i <= |x.sessions|
    ensures Farewells(CloseAll(x, callback, slot, id, i).calls, n) == Farewells(x.calls, n)
      + if callback && i <= n < |x.sessions| && Goes(x.sessions[n], slot, id) then 1 else 0
    decreases |x.sessions| - i
  {
    if i < |x.sessions| {
      var e := x.sessions[i];
      FarewellsSay(x.calls, Close(e.slot, i, e.resource), n);
      CloseAllFarewells(CloseOne(x, callback, slot, id, i), callback, slot, id, i + 1, n);
    }
  }

  /** The new calls announce sessions of the table, each with its own slot and resource. */
  ghost predicate OnlyFarewells(x: Stack, calls: seq<Call>, slot: bool, id: byte) {
    && x.calls <= calls
    && forall m :: |x.calls| <= m < |calls| ==>
         && calls[m].Close? && calls[m].session < |x.sessions|
         && var e := x.sessions[calls[m].session];
            Goes(e, slot, id) && calls[m].slot == e.slot && calls[m].resource == e.resource
  }

  lemma {:induction false} CloseAllCalls(x: Stack, callback: bool, slot: bool, id: byte, i: nat)
    requires i <= |x.sessions|
    ensures OnlyFarewells(x, CloseAll(x, callback, slot, id, i).calls, slot, id)
    decreases |x.sessions| - i
  {
    if i < |x.sessions| {
      var z := CloseOne(x, callback, slot, id, i);
      CloseAllCalls(z, callback, slot, id, i + 1);
    }
  }

  /** Destroying a slot frees every session of the slot and no other, and announces each end exactly once. */
  lemma DestroyClosesItsSessions(x: Stack, app: nat -> App, s: byte)
    requires Sound(x) && s < |x.tl.net.slots|
    ensures var y := Destroy(x, app, s);
      && y.tl == DestroySlot(x.tl, s) && y.tl.net.slots[s].handle == -1
      && (forall k :: 0 <= k < |x.sessions| ==>
            y.sessions[k] == if Goes(x.sessions[k], true, s) then x.sessions[k].(state := Free) else x.sessions[k])
      && (forall k: nat :: Farewells(y.calls, k) == Farewells(x.calls, k)
            + if app(|x.tl.net.told|).callback && k < |x.sessions| && Goes(x.sessions[k], true, s) then 1 else 0)
      && OnlyFarewells(x, y.calls, true, s)
  {
    var x1 := x.(tl := DestroySlot(x.tl, s));
    var n := |x.tl.net.told|;
    var told := x1.tl.net.told;
    assert |told| == n + 1 && told[n] == SlotClose(s);
    var y := CloseAll(x1, app(n).callback, true, s, 0);
    assert Callback(x1, app(n), told[n]) == y;
    assert Callbacks(y, app, told, n + 1) == y;
    assert Destroy(x, app, s) == y;
    CloseAllSessions(x1, app(n).callback, true, s, 0);
    CloseAllCalls(x1, app(n).callback, true, s, 0);
    forall k: nat { CloseAllFarewells(x1, app(n).callback, true, s, 0, k); }
  }

  /** The end of a connection frees every session in use on a connection of that number and no other, and announces
   *  each end exactly once, when there is a session callback; nothing is queued. */
  lemma ConnectionCloseExactly(x: Stack, a: App, s: byte, c: byte)
    requires Sound(x)
    ensures var y := Callback(x, a, ConnectionClose(s, c));
      && y.tl == x.tl && |y.sessions| == |x.sessions|
      && (forall k :: 0 <= k < |x.sessions| ==>
            y.sessions[k] == if x.sessions[k].state != Free && x.sessions[k].conn == c then x.sessions[k].(state := Free)
                             else x.sessions[k])
      && (forall k: nat :: Farewells(y.calls, k) == Farewells(x.calls, k)
            + if a.callback && k < |x.sessions| && x.sessions[k].state != Free && x.sessions[k].conn == c then 1 else 0)
      && OnlyFarewells(x, y.calls, false, c)
  {
    CloseAllSessions(x, a.callback, false, c, 0);
    CloseAllCalls(x, a.callback, false, c, 0);
    forall k: nat { CloseAllFarewells(x, a.callback, false, c, 0, k); }
  }

  /** A connection that opens is announced, when there is a session callback, and changes nothing. */
  lemma OpeningAnnounced(x: Stack, a: App, s: byte, c: byte)
    requires Sound(x)
    ensures Callback(x, a, ConnectionOpen(s, c)) == x.(calls := x.calls + if a.callback then [TcConnect(s, c)] else [])
    ensures Callback(x, a, CamConnectionOpen(s, c)) == x.(calls := x.calls + if a.callback then [TcCamConnect(s, c)] else [])
  {
    assert x.calls + [] == x.calls;
  }

  /** The end of a connection frees a session of another slot exactly when one with the same connection id is
   *  in use there: the code compares connection ids only. */
  lemma ConnectionCloseSparesOthers(x: Stack, a: App, s: byte, c: byte)
    requires Sound(x)
    ensures var y := Callback(x, a, ConnectionClose(s, c));
      (forall k :: 0 <= k < |x.sessions| && x.sessions[k].slot != s ==> y.sessions[k] == x.sessions[k])
      <==> (forall k :: 0 <= k < |x.sessions| && x.sessions[k].slot != s ==>
              x.sessions[k].state == Free || x.sessions[k].conn != c)
  {
    CloseAllSessions(x, a.callback, false, c, 0);
  }

  /** Two modules, each with a session on connection 1: when the first closes its connection, the session of the
   *  second is lost too. */
  lemma ConnectionCloseReachesOtherSlots(x: Stack, a: App)
    requires Sound(x) && x.sessions == [Session(Free, 0, 0, 0, false), Session(Open, 7, 0, 1, true), Session(Open, 7, 1, 1, true)]
    ensures Callback(x, a, ConnectionClose(0, 1)).sessions[2].state == Free
  {
    CloseAllSessions(x, a.callback, false, 1, 0);
  }

  /* ---- The invariant ---- */

  /** Registered slots and table sizes are as before, as far as sessions can tell. */
  ghost predicate SameGround(t: Tl, u: Tl) { SameShape(t, u) && SameHandles(t, u) }

  const ANY: Net -> bool := (n: Net) => true

  lemma AnyKept()
    ensures Kept(ANY)
  {
  }

  lemma AgreeMoves(x: Stack, t: Tl)
    requires Agree(x) && SameGround(x.tl, t)
    ensures Agree(x.(tl := t))
  {
    forall i | 0 <= i < |x.sessions| ensures Bound(x.sessions[i], t) {
      assert Bound(x.sessions[i], x.tl);
    }
  }

  /** A message can only be queued on an existing connection of a registered slot, and queueing changes no slot. */
  lemma SendBinds(x: Stack, s: nat, c: byte, spdu: seq<byte>)
    requires Sound(x)
    ensures var r := Send(x, s, c, spdu);
      && SameGround(x.tl, r.x.tl)
      && (r.code == 0 ==> s < |x.tl.net.slots| && x.tl.net.slots[s].handle != -1 && c < x.tl.maxConns)
  {
    AnyKept();
    SendKeeps(ANY, x.tl, s, c, spdu);
  }

  lemma SetAgrees(x: Stack, n: nat, e: Session)
    requires n < |x.sessions| && (Bound(e, x.tl) && (n == 0 ==> e.state == Free))
    requires forall i :: 0 <= i < |x.sessions| && i != n ==> Bound(x.sessions[i], x.tl)
    requires n != 0 ==> x.sessions[0].state == Free
    ensures Agree(x.(sessions := x.sessions[n := e]))
  {
  }

  lemma OpenRequestAgrees(x: Stack, a: App, d: seq<byte>, s: byte, c: byte)
    requires Sound(x) && Agree(x)
    ensures Agree(OpenRequest(x, a, d, s, c))
  {
    if |d| >= 5 && d[0] == 4 {
      var n := FreeSession(x.sessions, 1);
      if LookupStatus(a) != S_STATUS_OPEN {
        var spdu := OpenResponse(LookupStatus(a), a.resource, 0xFFFF);
        SendBinds(x, s, c, spdu);
        AgreeMoves(x, Send(x, s, c, spdu).x.tl);
      } else if n >= |x.sessions| {
        var y, spdu := x.Fail(ERR_OUTOFSESSIONS), OpenResponse(S_STATUS_CLOSE_NO_RES, a.resource, 0xFFFF);
        SendBinds(y, s, c, spdu);
        AgreeMoves(y, Send(y, s, c, spdu).x.tl);
      } else {
        AcceptAgrees(x, a, n, s, c);
      }
    }
  }

  lemma AcceptAgrees(x: Stack, a: App, n: nat, s: byte, c: byte)
    requires Sound(x) && Agree(x) && 1 <= n < |x.sessions|
    ensures Agree(Accept(x, a, n, s, c))
  {
    var x1 := x.(sessions := x.sessions[n := Session(Opening, a.resource, s, c, a.handler)]);
    var x2 := if a.callback then x1.Say(CamConnecting(s, n, a.resource)) else x1;
    var status := if !a.callback then S_STATUS_CLOSE_RES_UNAVAILABLE
                  else if a.busy then S_STATUS_CLOSE_RES_BUSY else S_STATUS_OPEN;
    var r := Send(x2, s, c, OpenResponse(status, a.resource, n));
    SendBinds(x2, s, c, OpenResponse(status, a.resource, n));
    AgreeMoves(x, r.x.tl);
    var last := Session(if r.code != 0 || status != S_STATUS_OPEN then Free else Open, a.resource, s, c, a.handler);
    SetAgrees(x.(tl := r.x.tl), n, last);
    assert Accept(x, a, n, s, c).sessions == x.sessions[n := last];
  }

  lemma SpduAgrees(x: Stack, a: App, d: seq<byte>, s: byte, c: byte)
    requires Sound(x) && Agree(x)
    ensures Agree(Spdu(x, a, d, s, c))
  {
    if d != [] {
      if d[0] == ST_OPEN_SESSION_REQ {
        OpenRequestAgrees(x, a, d[1..], s, c);
      } else if d[0] == ST_CLOSE_SESSION_REQ {
        CloseRequestAgrees(x, a, d[1..], s, c);
      }
    }
  }

  lemma CloseRequestAgrees(x: Stack, a: App, d: seq<byte>, s: byte, c: byte)
    requires Sound(x) && Agree(x)
    ensures Agree(CloseRequest(x, a, d, s, c))
  {
    if |d| >= 3 && d[0] == 2 {
      var n := Be16(d[1], d[2]);
      var ok := n < |x.sessions| && x.sessions[n].slot == s && x.sessions[n].conn == c
                && (x.sessions[n].state == Open || x.sessions[n].state == Closing);
      var x1 := if ok then x.Set(n, Free) else x;
      var spdu := [ST_CLOSE_SESSION_RES, 3, if ok then 0x00 else 0xF0, d[1], d[2]];
      SendBinds(x1, s, c, spdu);
      AgreeMoves(x1, Send(x1, s, c, spdu).x.tl);
    }
  }

  lemma CallbackAgrees(x: Stack, a: App, u: Upcall)
    requires Sound(x) && Agree(x)
    ensures Agree(Callback(x, a, u))
  {
    match u
    case ConnectionClose(s, c) => CloseAllSessions(x, a.callback, false, c, 0);
    case SlotClose(s) => CloseAllSessions(x, a.callback, true, s, 0);
    case Data(s, c, data) => SpduAgrees(x, a, data, s, c);
    case _ =>
  }

  lemma {:induction false} CallbacksAgree(x: Stack, app: nat -> App, told: seq<Upcall>, i: nat)
    requires Sound(x) && i <= |told| && Agree(x)
    ensures Agree(Callbacks(x, app, told, i))
    decreases |told| - i
  {
    if i < |told| {
      CallbackAgrees(x, app(i), told[i]);
      CallbacksAgree(Callback(x, app(i), told[i]), app, told, i + 1);
    }
  }

  lemma ReceiveAgrees(x: Stack, w: nat -> bool, app: nat -> App, s: nat, tag: byte, c: byte, data: seq<byte>)
    requires Sound(x) && s < |x.tl.net.slots| && c < x.tl.maxConns && x.tl.net.slots[s].handle != -1 && Agree(x)
    ensures Agree(Receive(x, w, app, s, tag, c, data).x) && SameHandles(x.tl, Receive(x, w, app, s, tag, c, data).x.tl)
  {
    AnyKept();
    TpduKeeps(ANY, x.tl, w, s, tag, c, data);
    var t := HandleTpdu(x.tl, w, s, tag, c, data).t;
    AgreeMoves(x, t);
    CallbacksAgree(x.(tl := t), app, t.net.told, |x.tl.net.told|);
    StackRuns.CallbacksKeep(ANY, x.(tl := t), app, t.net.told, |x.tl.net.told|);
  }

  lemma {:induction false} ProcessAgrees(x: Stack, w: nat -> bool, app: nat -> App, s: nat, p: seq<byte>)
    requires Sound(x) && s < |x.tl.net.slots| && x.tl.net.slots[s].handle != -1 && Agree(x)
    ensures Agree(ProcessData(x, w, app, s, p).x)
    decreases |p|
  {
    if p != [] {
      var y := ParseTpdu(p);
      if y.Tpdu? && y.c < x.tl.maxConns {
        ReceiveAgrees(x, w, app, s, y.tag, y.c, y.data);
        var r := Receive(x, w, app, s, y.tag, y.c, y.data);
        if r.code >= 0 { ProcessAgrees(r.x, w, app, s, p[y.size..]); }
      }
    }
  }

  lemma PollSlotAgrees(x: Stack, w: nat -> bool, app: nat -> App, rx: Rx, tick: nat -> Tick, s: nat)
    requires Sound(x) && s < |x.tl.net.slots| && Agree(x)
    ensures Agree(PollSlot(x, w, app, rx, tick, s).x)
  {
    AnyKept();
    var slots := x.tl.net.slots;
    if slots[s].handle != -1 {
      if rx.Readable? && rx.data != [] {
        var d := if slots[s].number == rx.number then s else Route(slots, slots[s].handle, rx.number, 0);
        if d < |slots| {
          ProcessAgrees(x, w, app, d, rx.data);
          StackRuns.ProcessKeeps(ANY, x, w, app, d, rx.data);
        }
      }
      var r := ReadSlot(x, w, app, rx, s);
      if r.code >= 0 {
        PollConnsKeep(ANY, r.x.tl, w, tick, s, 0);
        AgreeMoves(r.x, PollConns(r.x.tl, w, tick, s, 0).t);
      }
    }
  }

  lemma {:induction false} PollSlotsAgree(x: Stack, w: nat -> bool, app: nat -> App, rx: nat -> Rx, tick: nat -> nat -> Tick, s: nat)
    requires Sound(x) && s <= |x.tl.net.slots| && Agree(x)
    ensures Agree(PollSlots(x, w, app, rx, tick, s).x)
    decreases |x.tl.net.slots| - s
  {
    hide Agree;
    if s < |x.tl.net.slots| {
      PollSlotAgrees(x, w, app, rx(s), tick(s), s);
      var r := PollSlot(x, w, app, rx(s), tick(s), s);
      if r.code >= 0 { PollSlotsAgree(r.x, w, app, rx, tick, s + 1); }
    }
  }

  lemma CreateSessionAgrees(x: Stack, slot: int, c: byte, resource: nat, callback: bool)
    requires Sound(x) && Agree(x)
    ensures Agree(CreateSession(x, slot, c, resource, callback).x)
  {
    var n := FreeSession(x.sessions, 1);
    if n < |x.sessions| {
      var e := Session(Opening, resource, slot % 256, c, callback);
      var x1 := x.(sessions := x.sessions[n := e]);
      var spdu := [ST_CREATE_SESSION, 6] + Be32(resource) + [Hi(n), Lo(n)];
      var r := Send(x1, slot % 256, c, spdu);
      SendBinds(x1, slot % 256, c, spdu);
      AgreeMoves(x, r.x.tl);
      SetAgrees(x.(tl := r.x.tl), n, if r.code != 0 then e.(state := Free) else e);
    }
  }

  lemma DestroySessionAgrees(x: Stack, n: nat)
    requires Sound(x) && Agree(x)
    ensures Agree(DestroySession(x, n).x)
  {
    if n < |x.sessions| && (x.sessions[n].state == Open || x.sessions[n].state == Closing) {
      var e := x.sessions[n];
      var spdu := [ST_CLOSE_SESSION_REQ, 2, Hi(n), Lo(n)];
      SendBinds(x.Set(n, Closing), e.slot, e.conn, spdu);
      var r := Send(x.Set(n, Closing), e.slot, e.conn, spdu);
      AgreeMoves(x, r.x.tl);
      assert Bound(e, r.x.tl);
      SetAgrees(x.(tl := r.x.tl), n, e.(state := if r.code != 0 then Free else Closing));
    }
  }

  lemma SendSessionAgrees(x: Stack, n: nat, data: seq<byte>)
    requires Sound(x) && Agree(x)
    ensures Agree(SendSession(x, n, data).x)
  {
    if n < |x.sessions| && x.sessions[n].state == Open {
      SendBinds(x, x.sessions[n].slot, x.sessions[n].conn, DataSpdu(n, data));
      AgreeMoves(x, SendSession(x, n, data).x.tl);
    }
  }

  lemma {:induction false} BroadcastAgrees(x: Stack, slot: int, resource: nat, data: seq<byte>, i: nat)
    requires Sound(x) && i <= |x.sessions| && Agree(x)
    ensures Agree(Broadcast(x, slot, resource, data, i))
    decreases |x.sessions| - i
  {
    if i < |x.sessions| {
      SendSessionAgrees(x, i, data);
      var e := x.sessions[i];
      var y := if e.state == Open && (slot == -1 || slot == e.slot) && e.resource == resource
               then SendSession(x, i, data).x else x;
      BroadcastAgrees(y, slot, resource, data, i + 1);
    }
  }

  lemma DestroyAgrees(x: Stack, app: nat -> App, s: byte)
    requires Sound(x) && Agree(x)
    ensures Agree(Destroy(x, app, s))
  {
    if s < |x.tl.net.slots| {
      DestroyClosesItsSessions(x, app, s);
      var y := Destroy(x, app, s);
      forall i | 0 <= i < |y.sessions| ensures Bound(y.sessions[i], y.tl) {
        assert Bound(x.sessions[i], x.tl);
      }
    }
  }

  lemma StepAgrees(x: Stack, w: nat -> bool, app: nat -> App, e: Event)
    requires Sound(x) && Agree(x)
    ensures Agree(Step(x, w, app, e))
  {
    AnyKept();
    match e
    case DoRegister(handle, number) =>
      var t := RegisterSlot(x.tl, handle, number).t;
      forall i | 0 <= i < |x.sessions| ensures Bound(x.sessions[i], t) { assert Bound(x.sessions[i], x.tl); }
    case DoDestroy(s) => DestroyAgrees(x, app, s);
    case DoTlSend(s, c, data) => SendKeeps(ANY, x.tl, s, c, data); AgreeMoves(x, SendData(x.tl, s, c, data).t);
    case DoNewTc(s) => NewKeeps(ANY, x.tl, s); AgreeMoves(x, NewTc(x.tl, s).t);
    case DoDelTc(s, c) => DelKeeps(ANY, x.tl, s, c); AgreeMoves(x, DelTc(x.tl, s, c).t);
    case DoPoll(polled, rx, tick) => if polled { PollSlotsAgree(x, w, app, rx, tick, 0); }
    case DoCreateSession(slot, c, resource, callback) => CreateSessionAgrees(x, slot, c, resource, callback);
    case DoDestroySession(n) => DestroySessionAgrees(x, n);
    case DoSend(n, vector) => SendSessionAgrees(x, n, Flatten(vector));
    case DoBroadcast(slot, resource, data) => BroadcastAgrees(x, slot, resource, data, 0);
  }

  /** In every run, each session in use is bound to a connection of a registered slot and session 0 is unused. */
  lemma {:induction false} SessionsAgree(x: Stack, w: nat -> bool, app: nat -> App, es: seq<Event>)
    requires Sound(x) && Agree(x)
    ensures Agree(Run(x, w, app, es))
    decreases |es|
  {
    if es != [] {
      StepAgrees(x, w, app, es[0]);
      SessionsAgree(Step(x, w, app, es[0]), w, app, es[1..]);
    }
  }

  lemma NewStackAgrees(maxSlots: nat, maxConns: nat, junk: seq<Session>, w: nat -> bool, app: nat -> App, es: seq<Event>)
    requires maxSlots < 256 && maxConns < 256
    ensures Agree(Run(CreateStack(maxSlots, maxConns, junk), w, app, es))
  {
    SessionsAgree(CreateStack(maxSlots, maxConns, junk), w, app, es);
  }
}
