/** The session layer as the source has it: a table of sessions updated in place on top of a transport layer.
 *  Every method is proved against the functions of module `Sessions`, and keeps the agreement of sessions and slots.
 *  The methods that receive and poll belong to en50221_transport.c; they are here because they call back into the
 *  session layer. */
module SessionLayer {
  import opened Common
  import opened Transport
  import opened Sessions
  import opened SessionSafety
  import opened TransportSafety
  import TL = TransportLayer

  class SessionLayer {
    const tl: TL.TransportLayer
    const sessions: array<Session>
    var error: int
    /** The callbacks that were called. */
    var calls: seq<Call>

    /** The transport layer keeps its invariant. */
    ghost predicate Formed()
      reads this, tl, tl.slots, sessions
    {
      tl.Valid()
    }

    /** Sessions in use are bound to registered slots. */
    ghost predicate Valid()
      reads this, tl, tl.slots, sessions
    {
      Formed() && Agree(View())
    }

    ghost function View(): Stack
      reads this, tl, tl.slots, sessions
    {
      Stack(tl.View(), sessions[..], error, calls)
    }

    /** `junk` is the content of the freshly allocated table. */
    constructor (maxSlots: nat, maxConns: nat, junk: array<Session>)
      requires maxSlots < 256 && maxConns < 256
      modifies junk
      ensures fresh(tl) && fresh(tl.slots) && sessions == junk
      ensures Valid() && View() == CreateStack(maxSlots, maxConns, old(junk[..]))
    {
      tl := new TL.TransportLayer(maxSlots, maxConns);
      sessions := junk;
      error, calls := 0, [];
      new;
      var i := 0;
      while i < junk.Length
        modifies junk
        invariant i <= junk.Length
        invariant forall k :: 0 <= k < i ==> junk[k] == old(junk[k]).(state := Free, callback := false)
        invariant forall k :: i <= k < junk.Length ==> junk[k] == old(junk[k])
      {
        junk[i] := junk[i].(state := Free, callback := false);
        i := i + 1;
      }
      assert sessions[..] == CreateStack(maxSlots, maxConns, old(junk[..])).sessions;
    }

    method Fail(code: int) returns (r: int)
      requires Formed()
      modifies this
      ensures Formed() && View() == old(View()).Fail(code) && r == -1
    {
      error := code;
      return -1;
    }

    /** `en50221_tl_send_data` */
    method Send(s: byte, c: byte, spdu: seq<byte>) returns (code: int)
      requires Formed()
      modifies this, tl, tl.slots, sessions
      ensures Formed() && Outcome(View(), code) == Sessions.Send(old(View()), s, c, spdu)
    {
      code := tl.SendData(s, c, spdu);
      assert sessions[..] == old(sessions[..]);
    }

    method SetState(n: nat, state: SessionState)
      requires Formed() && n < sessions.Length
      modifies sessions
      ensures Formed() && View() == old(View()).Set(n, state)
    {
      sessions[n] := sessions[n].(state := state);
    }

    method Say(call: Call)
      requires Formed()
      modifies this
      ensures Formed() && View() == old(View()).Say(call)
    {
      calls := calls + [call];
    }

    /* ---- Operations of the host ---- */

    method FindFree() returns (n: nat)
      requires Formed()
      ensures n == FreeSession(sessions[..], 1)
    {
      n := 1;
      while n < sessions.Length && sessions[n].state != Free
        invariant 1 <= n && FreeSession(sessions[..], n) == FreeSession(sessions[..], 1)
        decreases sessions.Length - n
      {
        n := n + 1;
      }
    }

    method CreateSession(slot: int, c: byte, resource: nat, callback: bool) returns (code: int)
      requires Valid()
      modifies this, tl, tl.slots, sessions
      ensures Valid() && Outcome(View(), code) == Sessions.CreateSession(old(View()), slot, c, resource, callback)
    {
      CreateSessionAgrees(View(), slot, c, resource, callback);
      var n := FindFree();
      if n >= sessions.Length {
        code := Fail(ERR_OUTOFSESSIONS);
        return;
      }
      sessions[n] := Session(Opening, resource, slot % 256, c, callback);
      assert sessions[..] == old(sessions[..])[n := Session(Opening, resource, slot % 256, c, callback)];
      code := Send(slot % 256, c, [ST_CREATE_SESSION, 6] + Be32(resource) + [Hi(n), Lo(n)]);
      if code != 0 {
        if sessions[n].state == Opening { SetState(n, Free); }
        code := Fail(tl.error);
        return;
      }
      code := n;
    }

    method DestroySession(n: nat) returns (code: int)
      requires Valid()
      modifies this, tl, tl.slots, sessions
      ensures Valid() && Outcome(View(), code) == Sessions.DestroySession(old(View()), n)
    {
      DestroySessionAgrees(View(), n);
      if n >= sessions.Length || (sessions[n].state != Open && sessions[n].state != Closing) {
        code := Fail(ERR_BADSESSIONNUMBER);
        return;
      }
      SetState(n, Closing);
      code := Send(sessions[n].slot, sessions[n].conn, [ST_CLOSE_SESSION_REQ, 2, Hi(n), Lo(n)]);
      if code != 0 {
        if sessions[n].state == Closing { SetState(n, Free); }
        code := Fail(tl.error);
      }
    }

    method SendData(n: nat, data: seq<byte>) returns (code: int)
      requires Valid()
      modifies this, tl, tl.slots, sessions
      ensures Valid() && Outcome(View(), code) == SendSession(old(View()), n, data)
    {
      SendSessionAgrees(View(), n, data);
      if n >= sessions.Length || sessions[n].state != Open {
        code := Fail(ERR_BADSESSIONNUMBER);
        return;
      }
      var hdr := [ST_SESSION_NUMBER, 2, Hi(n), Lo(n)];
      code := SendVector(sessions[n].slot, sessions[n].conn, [hdr, data]);
      assert [hdr, data][1..] == [data] && Flatten([data]) == data;
      if code != 0 { code := Fail(tl.error); }
    }

    /** `en50221_tl_send_datav` */
    method SendVector(s: byte, c: byte, vector: seq<seq<byte>>) returns (code: int)
      requires Formed()
      modifies this, tl, tl.slots, sessions
      ensures Formed() && Outcome(View(), code) == Sessions.Send(old(View()), s, c, Flatten(vector))
    {
      code := tl.SendDataV(s, c, vector);
      assert sessions[..] == old(sessions[..]);
    }

    method SendDataV(n: nat, vector: seq<seq<byte>>) returns (code: int)
      requires Valid()
      modifies this, tl, tl.slots, sessions
      ensures Valid() && Outcome(View(), code) == SendSessionV(old(View()), n, vector)
    {
      SendSessionAgrees(View(), n, Flatten(vector));
      if n >= sessions.Length || sessions[n].state != Open {
        code := Fail(ERR_BADSESSIONNUMBER);
        return;
      }
      if |vector| > 9 {
        code := Fail(ERR_IOVLIMIT);
        return;
      }
      var hdr := [ST_SESSION_NUMBER, 2, Hi(n), Lo(n)];
      code := SendVector(sessions[n].slot, sessions[n].conn, [hdr] + vector);
      assert ([hdr] + vector)[1..] == vector && Flatten([hdr] + vector) == DataSpdu(n, Flatten(vector));
      if code != 0 { code := Fail(tl.error); }
    }

    method BroadcastData(slot: int, resource: nat, data: seq<byte>)
      requires Valid()
      modifies this, tl, tl.slots, sessions
      ensures Valid() && View() == Broadcast(old(View()), slot, resource, data, 0)
    {
      var i := 0;
      while i < sessions.Length
        invariant i <= sessions.Length && Valid()
        invariant Broadcast(View(), slot, resource, data, i) == Broadcast(old(View()), slot, resource, data, 0)
      {
        if sessions[i].state == Open && (slot == -1 || slot == sessions[i].slot) && sessions[i].resource == resource {
          var _ := SendData(i, data);
        }
        i := i + 1;
      }
    }

    /* ---- Received SPDUs ---- */

    method HandleOpenRequest(a: App, d: seq<byte>, s: byte, c: byte)
      requires Formed()
      modifies this, tl, tl.slots, sessions
      ensures Formed() && View() == OpenRequest(old(View()), a, d, s, c)
      ensures old(Valid()) ==> Valid()
    {
      if Valid() { OpenRequestAgrees(View(), a, d, s, c); }
      if |d| < 5 || d[0] != 4 { return; }
      if a.found { Say(Lookup(s, Word32(d[1], d[2], d[3], d[4]))); }
      var status := LookupStatus(a);
      if status != S_STATUS_OPEN {
        var _ := Send(s, c, OpenResponse(status, a.resource, 0xFFFF));
        return;
      }
      var n := FindFree();
      if n >= sessions.Length {
        var _ := Fail(ERR_OUTOFSESSIONS);
        var _ := Send(s, c, OpenResponse(S_STATUS_CLOSE_NO_RES, a.resource, 0xFFFF));
        return;
      }
      Admit(a, n, s, c);
    }

    /** A session for the module: set up, offered to the application, answered, and then open or free again. */
    method Admit(a: App, n: nat, s: byte, c: byte)
      requires Formed() && n < sessions.Length
      modifies this, tl, tl.slots, sessions
      ensures Formed() && View() == Accept(old(View()), a, n, s, c)
    {
      sessions[n] := Session(Opening, a.resource, s, c, a.handler);
      assert sessions[..] == old(sessions[..])[n := Session(Opening, a.resource, s, c, a.handler)];
      var status := S_STATUS_OPEN;
      if a.callback {
        Say(CamConnecting(s, n, a.resource));
        if a.busy { status := S_STATUS_CLOSE_RES_BUSY; }
      } else {
        status := S_STATUS_CLOSE_RES_UNAVAILABLE;
      }
      var code := Send(s, c, OpenResponse(status, a.resource, n));
      if code != 0 { status := S_STATUS_CLOSE_NO_RES; }
      if status != S_STATUS_OPEN {
        SetState(n, Free);
      } else {
        SetState(n, Open);
        Say(CamConnected(s, n, a.resource));
      }
    }

    method HandleCloseRequest(a: App, d: seq<byte>, s: byte, c: byte)
      requires Formed()
      modifies this, tl, tl.slots, sessions
      ensures Formed() && View() == CloseRequest(old(View()), a, d, s, c)
      ensures old(Valid()) ==> Valid()
    {
      if Valid() { CloseRequestAgrees(View(), a, d, s, c); }
      if |d| < 3 || d[0] != 2 { return; }
      var n := Be16(d[1], d[2]);
      var code: byte, resource := 0x00, 0;
      if n >= sessions.Length {
        code := 0xF0;
      } else {
        var e := sessions[n];
        if s != e.slot { code := 0xF0; }
        if c != e.conn { code := 0xF0; }
        if e.state != Open && e.state != Closing { code := 0xF0; }
        if code == 0x00 { SetState(n, Free); }
        resource := e.resource;
      }
      var _ := Send(s, c, [ST_CLOSE_SESSION_RES, 3, code, d[1], d[2]]);
      if code == 0x00 && a.callback { Say(Close(s, n, resource)); }
    }

    method HandleCreateResponse(a: App, d: seq<byte>, s: byte, c: byte)
      requires Formed()
      modifies this, sessions
      ensures Formed() && View() == CreateResponse(old(View()), a, d, s, c)
      ensures old(Valid()) ==> Valid()
    {
      if |d| < 8 || d[0] != 7 { return; }
      var n := Be16(d[5], d[6]);
      if n >= sessions.Length { return; }
      if s != sessions[n].slot || c != sessions[n].conn || sessions[n].state != Opening { return; }
      if d[1] != S_STATUS_OPEN {
        SetState(n, Free);
        if a.callback { Say(ConnectFail(s, n, sessions[n].resource)); }
        return;
      }
      SetState(n, Open);
      if a.callback { Say(Connected(s, n, sessions[n].resource)); }
    }

    method HandleCloseResponse(d: seq<byte>, s: byte, c: byte)
      requires Formed()
      modifies sessions
      ensures Formed() && View() == CloseResponse(old(View()), d, s, c)
      ensures old(Valid()) ==> Valid()
    {
      if |d| < 5 || d[0] != 4 { return; }
      var n := Be16(d[2], d[3]);
      if n >= sessions.Length { return; }
      if s != sessions[n].slot || c != sessions[n].conn || sessions[n].state != Closing { return; }
      SetState(n, Free);
    }

    method HandlePackage(d: seq<byte>, s: byte, c: byte)
      requires Formed()
      modifies this
      ensures Formed() && View() == Package(old(View()), d, s, c)
      ensures old(Valid()) ==> Valid()
    {
      if |d| < 3 || d[0] != 2 { return; }
      var n := Be16(d[1], d[2]);
      if n >= sessions.Length { return; }
      if s != sessions[n].slot || c != sessions[n].conn || sessions[n].state != Open { return; }
      var e := sessions[n];
      var data := d[3..];
      while data != []
        modifies this
        invariant Formed() && tl.View() == old(tl.View()) && error == old(error)
        invariant (if e.callback then SayApdus(View(), n, SplitApdus(data)) else View()) == Package(old(View()), d, s, c)
        decreases |data|
      {
        var length := ApduLength(data);
        if length.None? { return; }
        if e.callback { Say(Apdu(s, n, e.resource, data[..length.value])); }
        data := data[length.value..];
      }
    }

    method HandleSpdu(a: App, d: seq<byte>, s: byte, c: byte)
      requires Formed()
      modifies this, tl, tl.slots, sessions
      ensures Formed() && View() == Spdu(old(View()), a, d, s, c)
      ensures old(Valid()) ==> Valid()
    {
      if Valid() { SpduAgrees(View(), a, d, s, c); }
      if |d| < 1 { return; }
      if d[0] == ST_OPEN_SESSION_REQ { HandleOpenRequest(a, d[1..], s, c); }
      else if d[0] == ST_CLOSE_SESSION_REQ { HandleCloseRequest(a, d[1..], s, c); }
      else if d[0] == ST_SESSION_NUMBER { HandlePackage(d[1..], s, c); }
      else if d[0] == ST_CREATE_SESSION_RES { HandleCreateResponse(a, d[1..], s, c); }
      else if d[0] == ST_CLOSE_SESSION_RES { HandleCloseResponse(d[1..], s, c); }
    }

    /** The loops over the session table in `en50221_sl_transport_callback`. */
    method CloseSessions(callback: bool, slot: bool, id: byte)
      requires Formed()
      modifies this, sessions
      ensures Formed() && View() == CloseAll(old(View()), callback, slot, id, 0)
    {
      var i := 0;
      while i < sessions.Length
        invariant i <= sessions.Length && Formed()
        invariant CloseAll(View(), callback, slot, id, i) == CloseAll(old(View()), callback, slot, id, 0)
      {
        var e := sessions[i];
        if e.state != Free && (if slot then e.slot == id else e.conn == id) {
          SetState(i, Free);
          if callback { Say(Close(e.slot, i, e.resource)); }
        }
        i := i + 1;
      }
    }

    method TransportCallback(a: App, u: Upcall)
      requires Formed()
      modifies this, tl, tl.slots, sessions
      ensures Formed() && View() == Callback(old(View()), a, u)
      ensures old(Valid()) ==> Valid()
    {
      if Valid() { CallbackAgrees(View(), a, u); }
      match u
      case ConnectionOpen(s, c) => if a.callback { Say(TcConnect(s, c)); }
      case CamConnectionOpen(s, c) => if a.callback { Say(TcCamConnect(s, c)); }
      case ConnectionClose(s, c) => CloseSessions(a.callback, false, c);
      case SlotClose(s) => CloseSessions(a.callback, true, s);
      case Data(s, c, data) => HandleSpdu(a, data, s, c);
    }

    /** Hands on what the transport layer tells from number `from` on. */
    method Dispatch(app: nat -> App, from: nat)
      requires Formed() && from <= |tl.told|
      modifies this, tl, tl.slots, sessions
      ensures Formed() && View() == Callbacks(old(View()), app, old(tl.told), from)
      ensures old(Valid()) ==> Valid()
    {
      if Valid() { CallbacksAgree(View(), app, tl.told, from); }
      var told := tl.told;
      var i := from;
      while i < |told|
        invariant from <= i <= |told| && Formed()
        invariant Callbacks(View(), app, told, i) == Callbacks(old(View()), app, told, from)
      {
        TransportCallback(app(i), told[i]);
        i := i + 1;
      }
    }

    /* ---- Receiving and polling ---- */

    method ProcessData(w: nat -> bool, app: nat -> App, s: nat, packet: seq<byte>) returns (code: int)
      requires Valid() && s < tl.slots.Length && tl.slots[s].handle != -1
      modifies this, tl, tl.slots, sessions
      ensures Valid() && Outcome(View(), code) == Sessions.ProcessData(old(View()), w, app, s, packet)
    {
      var p := packet;
      while p != []
        invariant Valid() && tl.slots[s].handle != -1
        invariant Sessions.ProcessData(View(), w, app, s, p) == Sessions.ProcessData(old(View()), w, app, s, packet)
        decreases |p|
      {
        var y := ParseTpdu(p);
        if y.Malformed? {
          code := tl.FailOn(s, ERR_BADCAMDATA);
          return;
        }
        if y.c >= tl.maxConns {
          code := tl.FailOn(s, ERR_BADCONNECTIONID);
          return;
        }
        code := ReceiveOne(w, app, s, y.tag, y.c, y.data);
        if code < 0 { return; }
        p := p[y.size..];
      }
      code := 0;
    }

    method ReceiveOne(w: nat -> bool, app: nat -> App, s: nat, tag: byte, c: byte, data: seq<byte>) returns (code: int)
      requires Valid() && s < tl.slots.Length && c < tl.maxConns && tl.slots[s].handle != -1
      modifies this, tl, tl.slots, sessions
      ensures tl.slots[s].handle != -1
      ensures Valid() && Outcome(View(), code) == Receive(old(View()), w, app, s, tag, c, data)
    {
      ReceiveAgrees(View(), w, app, s, tag, c, data);
      var before := |tl.told|;
      code := tl.Handle(w, s, tag, c, data);
      assert sessions[..] == old(sessions[..]);
      if code >= 0 { Dispatch(app, before); }
    }

    method ReadOne(w: nat -> bool, app: nat -> App, rx: Rx, s: nat) returns (code: int)
      requires Valid() && s < tl.slots.Length && tl.slots[s].handle != -1
      modifies this, tl, tl.slots, sessions
      ensures Valid() && Outcome(View(), code) == ReadSlot(old(View()), w, app, rx, s)
    {
      match rx
      case Nothing => code := 0;
      case PollError => code := tl.FailOn(s, ERR_CAREAD);
      case ReadFailed => code := tl.FailOn(s, ERR_CAREAD);
      case Readable(number, data) =>
        code := 0;
        if data != [] {
          if tl.slots[s].number != number {
            var d := 0;
            while d < tl.slots.Length && !(tl.slots[d].handle == tl.slots[s].handle && tl.slots[d].number == number)
              invariant d <= tl.slots.Length
              invariant Route(tl.slots[..], tl.slots[s].handle, number, d) == Route(tl.slots[..], tl.slots[s].handle, number, 0)
            {
              d := d + 1;
            }
            if d == tl.slots.Length {
              code := tl.Fail(ERR_BADSLOTID);
              return;
            }
            code := ProcessData(w, app, d, data);
          } else {
            code := ProcessData(w, app, s, data);
          }
        }
    }

    method Poll(w: nat -> bool, app: nat -> App, polled: bool, rx: nat -> Rx, tick: nat -> nat -> Tick) returns (code: int)
      requires Valid()
      modifies this, tl, tl.slots, sessions
      ensures Valid() && Outcome(View(), code) == Sessions.Poll(old(View()), w, app, polled, rx, tick)
    {
      if !polled {
        code := tl.FailOn(-1, ERR_CAREAD);
        return;
      }
      code := VisitSlots(w, app, rx, tick);
    }

    /** The loop over the slots. */
    method VisitSlots(w: nat -> bool, app: nat -> App, rx: nat -> Rx, tick: nat -> nat -> Tick) returns (code: int)
      requires Valid()
      modifies this, tl, tl.slots, sessions
      ensures Valid() && Outcome(View(), code) == PollSlots(old(View()), w, app, rx, tick, 0)
    {
      hide Agree, Inv, PollSlot;
      var s := 0;
      while s < tl.slots.Length
        invariant s <= tl.slots.Length && Valid()
        invariant PollSlots(View(), w, app, rx, tick, s) == PollSlots(old(View()), w, app, rx, tick, 0)
      {
        code := PollOne(w, app, rx(s), tick(s), s);
        if code < 0 { return; }
        s := s + 1;
      }
      code := 0;
    }

    method PollOne(w: nat -> bool, app: nat -> App, rx: Rx, tick: nat -> Tick, s: nat) returns (code: int)
      requires Valid() && s < tl.slots.Length
      modifies this, tl, tl.slots, sessions
      ensures Valid() && Outcome(View(), code) == PollSlot(old(View()), w, app, rx, tick, s)
    {
      hide Agree, Inv;
      PollSlotAgrees(View(), w, app, rx, tick, s);
      if tl.slots[s].handle == -1 { return 0; }
      code := ReadOne(w, app, rx, s);
      if code < 0 { return; }
      ghost var sessions0 := sessions[..];
      code := tl.PollConns(w, tick, s);
      assert sessions[..] == sessions0;
    }

    method DestroySlot(app: nat -> App, s: byte)
      requires Valid()
      modifies this, tl, tl.slots, sessions
      ensures Valid() && View() == Destroy(old(View()), app, s)
    {
      DestroyAgrees(View(), app, s);
      var before := |tl.told|;
      tl.DestroySlot(s);
      assert sessions[..] == old(sessions[..]);
      Dispatch(app, before);
    }
  }
}
