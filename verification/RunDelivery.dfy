/** What a session is handed in a whole run: exactly the APDUs for it in the chains that its connection takes, until
 *  something ends it. */
module RunDelivery {
  import opened Common
  import opened Transport
  import opened TransportSafety
  import opened Sessions
  import opened Delivery
  import opened Reassembly
  import StackRuns

  /** Nothing of what is told ends the session. */
  predicate NoEnd(us: seq<Upcall>, s: byte, c: byte, n: nat) { forall u <- us :: !Ends(u, s, c, n) }

  /** A session that serves in `x` serves in `y`, unless what was told meanwhile ends it, and has been handed exactly
   *  the APDUs for it in what was told. */
  ghost predicate Hands(x: Stack, y: Stack, s: byte, c: byte, n: nat) {
    && Fits(x, y) && x.tl.net.told <= y.tl.net.told
    && var us := y.tl.net.told[|x.tl.net.told|..];
       Serves(x, s, c, n) && NoEnd(us, s, c, n) ==> Gets(x, y, s, c, n, Delivered(Handed(us, s, c), n))
  }

  lemma HandsOn(x: Stack, y: Stack, z: Stack, s: byte, c: byte, n: nat)
    requires Hands(x, y, s, c, n) && Hands(y, z, s, c, n)
    ensures Hands(x, z, s, c, n)
  {
    var from, mid := |x.tl.net.told|, |y.tl.net.told|;
    var us, vs := y.tl.net.told[from..], z.tl.net.told[mid..];
    assert z.tl.net.told[from..] == us + vs;
    hide Gets, Handed, Delivered, Ends, Serves, WellFormed;
    if Serves(x, s, c, n) && NoEnd(us + vs, s, c, n) {
      assert NoEnd(us, s, c, n) && NoEnd(vs, s, c, n) by {
        forall u | u in us ensures !Ends(u, s, c, n) { assert u in us + vs; }
        forall u | u in vs ensures !Ends(u, s, c, n) { assert u in us + vs; }
      }
      GetsOn(x, y, z, s, c, n, us, vs);
    }
  }

  lemma GetsOn(x: Stack, y: Stack, z: Stack, s: byte, c: byte, n: nat, us: seq<Upcall>, vs: seq<Upcall>)
    requires Gets(x, y, s, c, n, Delivered(Handed(us, s, c), n))
    requires Serves(y, s, c, n) ==> Gets(y, z, s, c, n, Delivered(Handed(vs, s, c), n))
    ensures Serves(y, s, c, n) && Gets(x, z, s, c, n, Delivered(Handed(us + vs, s, c), n))
  {
    HandedAppend(us, vs, s, c);
    DeliveredAppend(Handed(us, s, c), Handed(vs, s, c), n);
    Regroup(ApdusOf(x.calls, n), Delivered(Handed(us, s, c), n), Delivered(Handed(vs, s, c), n));
  }

  /** Nothing is told, and the session and its calls are as before. */
  lemma NothingHanded(x: Stack, y: Stack, s: byte, c: byte, n: nat)
    requires Fits(x, y) && y.tl.net.told == x.tl.net.told
    requires Serves(x, s, c, n) ==> Gets(x, y, s, c, n, [])
    ensures Hands(x, y, s, c, n)
  {
    assert y.tl.net.told[|x.tl.net.told|..] == [];
  }

  /* ---- Receiving ---- */

  lemma CallbackTells(x: Stack, a: App, u: Upcall)
    requires Sound(x)
    ensures Callback(x, a, u).tl.net.told == x.tl.net.told
  {
    forall k: nat, d: byte, spdu: seq<byte>
      ensures SendData(x.tl, k, d, spdu).t.net.told == x.tl.net.told
    {
      assert x.tl.net.told + [] == x.tl.net.told;
    }
  }

  /** What is told from number `i` on is handed on. */
  lemma {:induction false} CallbacksGive(x: Stack, app: nat -> App, told: seq<Upcall>, i: nat, s: byte, c: byte, n: nat)
    requires Sound(x) && i <= |told|
    ensures var y := Callbacks(x, app, told, i);
      && y.tl.net.told == x.tl.net.told
      && (Serves(x, s, c, n) && NoEnd(told[i..], s, c, n) ==> Gets(x, y, s, c, n, Delivered(Handed(told[i..], s, c), n)))
    decreases |told| - i
  {
    if i == |told| {
      assert told[i..] == [];
    } else {
      var u, rest, z := told[i], told[i + 1..], Callback(x, app(i), told[i]);
      assert told[i..] == [u] + rest;
      hide Callback, Gets, Handed, Delivered, Ends, Serves, WellFormed;
      CallbackTells(x, app(i), u);
      CallbacksGive(z, app, told, i + 1, s, c, n);
      if Serves(x, s, c, n) && NoEnd([u] + rest, s, c, n) {
        forall v | v in rest ensures !Ends(v, s, c, n) { assert v in [u] + rest; }
        assert u in [u] + rest;
        CallbackGives(x, app(i), u, s, c, n);
        GetsFirst(x, z, s, c, n, u);
        GetsOn(x, z, Callbacks(z, app, told, i + 1), s, c, n, [u], rest);
      }
    }
  }

  lemma GetsFirst(x: Stack, z: Stack, s: byte, c: byte, n: nat, u: Upcall)
    requires Serves(z, s, c, n) && ApdusOf(z.calls, n) == ApdusOf(x.calls, n) + Delivered(Handed([u], s, c), n)
    ensures Gets(x, z, s, c, n, Delivered(Handed([u], s, c), n))
  {
  }

  lemma DoTells(t: Tl, a: Act)
    ensures t.Do(a).net.told == t.net.told + Told(t.net, a)
    ensures Told(t.net, a) == [] ==> t.Do(a).net.told == t.net.told
  {
  }

  /** A handler that fails has told the upper layer nothing. */
  lemma TpduTells(t: Tl, w: nat -> bool, k: nat, tag: byte, d: byte, data: seq<byte>)
    requires WellFormed(t) && k < |t.net.slots| && d < t.maxConns
    ensures var r := HandleTpdu(t, w, k, tag, d, data);
      t.net.told <= r.t.net.told && (r.code < 0 ==> r.t.net.told == t.net.told)
  {
    hide Apply;
    if tag == T_REQUEST_T_C {
      var e, ok := FirstIdle(t.net.slots[k].conns, 1), t.Next(w);
      DoTells(t, Refused(k, d, ok));
      if e < t.maxConns {
        var t1 := t.Do(Offered(k, d, e, ok));
        DoTells(t, Offered(k, d, e, ok));
        DoTells(t1, Created(k, e, t1.Next(w)));
      }
    } else {
      var a :=
        if tag == T_C_T_C_REPLY then Opened(k, d)
        else if tag == T_DELETE_T_C then CamDeleted(k, d, t.Next(w))
        else if tag == T_D_T_C_REPLY then DeleteAcked(k, d)
        else if tag == T_DATA_MORE then GotMore(k, d, data)
        else if tag == T_DATA_LAST then GotLast(k, d, data)
        else if |data| == 1 && data[0] >= 0x80 then SentReceive(k, d, t.Next(w))
        else Quiet(k, d);
      DoTells(t, a);
    }
  }

  lemma ReceiveHands(x: Stack, w: nat -> bool, app: nat -> App, k: nat, tag: byte, d: byte, data: seq<byte>,
                     s: byte, c: byte, n: nat)
    requires Sound(x) && k < |x.tl.net.slots| && d < x.tl.maxConns
    ensures Hands(x, Receive(x, w, app, k, tag, d, data).x, s, c, n)
  {
    hide HandleTpdu, Callbacks, Handed, Delivered, Ends;
    TpduTells(x.tl, w, k, tag, d, data);
    var r := HandleTpdu(x.tl, w, k, tag, d, data);
    if r.code < 0 {
      NothingHanded(x, x.(tl := r.t), s, c, n);
    } else {
      CallbacksGive(x.(tl := r.t), app, r.t.net.told, |x.tl.net.told|, s, c, n);
    }
  }

  lemma {:induction false} ProcessHands(x: Stack, w: nat -> bool, app: nat -> App, k: nat, p: seq<byte>, s: byte,
                                        c: byte, n: nat)
    requires Sound(x) && k < |x.tl.net.slots|
    ensures Hands(x, ProcessData(x, w, app, k, p).x, s, c, n)
    decreases |p|
  {
    hide Hands, Receive, Serves;
    if p != [] {
      var y := ParseTpdu(p);
      if y.Tpdu? && y.c < x.tl.maxConns {
        ReceiveHands(x, w, app, k, y.tag, y.c, y.data, s, c, n);
        var r := Receive(x, w, app, k, y.tag, y.c, y.data);
        if r.code >= 0 {
          ProcessHands(r.x, w, app, k, p[y.size..], s, c, n);
          HandsOn(x, r.x, ProcessData(r.x, w, app, k, p[y.size..]).x, s, c, n);
        }
      } else {
        SameHands(x, ProcessData(x, w, app, k, p).x, s, c, n);
      }
    } else {
      SameHands(x, x, s, c, n);
    }
  }

  /** Only errors are noted. */
  lemma SameHands(x: Stack, y: Stack, s: byte, c: byte, n: nat)
    requires Sound(x) && SameShape(x.tl, y.tl) && y.tl.net.told == x.tl.net.told && y.sessions == x.sessions && y.calls == x.calls
    ensures Hands(x, y, s, c, n)
  {
    NothingHanded(x, y, s, c, n);
  }

  /* ---- Polling ---- */

  lemma PollConnTells(t: Tl, w: nat -> bool, tick: Tick, k: nat, j: nat)
    requires WellFormed(t) && k < |t.net.slots| && j < t.maxConns
    ensures PollConn(t, w, tick, k, j).t.net.told == t.net.told
  {
    hide TouchSlot;
    var r1 := PollQueue(t, w, k, j);
    assert t.net.told + [] == t.net.told;
    if r1.code >= 0 {
      var r2 := PollAsk(r1.t, w, tick, k, j);
      assert r2.t.net.told == t.net.told;
    }
  }

  lemma {:induction false} PollConnsTell(t: Tl, w: nat -> bool, tick: nat -> Tick, k: nat, j: nat)
    requires WellFormed(t) && k < |t.net.slots| && j <= t.maxConns
    ensures PollConns(t, w, tick, k, j).t.net.told == t.net.told
    decreases t.maxConns - j
  {
    hide PollConn;
    if j < t.maxConns {
      PollConnTells(t, w, tick(j), k, j);
      var r := PollConn(t, w, tick(j), k, j);
      if r.code >= 0 { PollConnsTell(r.t, w, tick, k, j + 1); }
    }
  }

  lemma ReadHands(x: Stack, w: nat -> bool, app: nat -> App, rx: Rx, k: nat, s: byte, c: byte, n: nat)
    requires Sound(x) && k < |x.tl.net.slots|
    ensures Hands(x, ReadSlot(x, w, app, rx, k).x, s, c, n)
  {
    hide Hands;
    SameHands(x, x, s, c, n);
    match rx
    case Readable(number, data) =>
      var slots := x.tl.net.slots;
      var d := if slots[k].number == number then k else Route(slots, slots[k].handle, number, 0);
      if data != [] && d < |slots| {
        ProcessHands(x, w, app, d, data, s, c, n);
      } else {
        SameHands(x, ReadSlot(x, w, app, rx, k).x, s, c, n);
      }
    case _ => SameHands(x, ReadSlot(x, w, app, rx, k).x, s, c, n);
  }

  lemma PollSlotHands(x: Stack, w: nat -> bool, app: nat -> App, rx: Rx, tick: nat -> Tick, k: nat, s: byte, c: byte,
                      n: nat)
    requires Sound(x) && k < |x.tl.net.slots|
    ensures Hands(x, PollSlot(x, w, app, rx, tick, k).x, s, c, n)
  {
    hide Hands, ReadSlot, PollConns;
    SameHands(x, x, s, c, n);
    ReadHands(x, w, app, rx, k, s, c, n);
    var r := ReadSlot(x, w, app, rx, k);
    if x.tl.net.slots[k].handle != -1 && r.code >= 0 {
      PollConnsTell(r.x.tl, w, tick, k, 0);
      SameHands(r.x, PollSlot(x, w, app, rx, tick, k).x, s, c, n);
      HandsOn(x, r.x, PollSlot(x, w, app, rx, tick, k).x, s, c, n);
    }
  }

  lemma {:induction false} PollSlotsHand(x: Stack, w: nat -> bool, app: nat -> App, rx: nat -> Rx,
                                         tick: nat -> nat -> Tick, k: nat,
                                         s: byte, c: byte, n: nat)
    requires Sound(x) && k <= |x.tl.net.slots|
    ensures Hands(x, PollSlots(x, w, app, rx, tick, k).x, s, c, n)
    decreases |x.tl.net.slots| - k
  {
    hide Hands, PollSlot;
    if k == |x.tl.net.slots| {
      SameHands(x, x, s, c, n);
    } else {
      PollSlotHands(x, w, app, rx(k), tick(k), k, s, c, n);
      var r := PollSlot(x, w, app, rx(k), tick(k), k);
      if r.code >= 0 {
        PollSlotsHand(r.x, w, app, rx, tick, k + 1, s, c, n);
        HandsOn(x, r.x, PollSlots(r.x, w, app, rx, tick, k + 1).x, s, c, n);
      }
    }
  }

  /* ---- The host's calls ---- */

  lemma SendTells(t: Tl, k: nat, d: byte, data: seq<byte>)
    requires WellFormed(t)
    ensures SendData(t, k, d, data).t.net.told == t.net.told
  {
    assert t.net.told + [] == t.net.told;
  }

  lemma {:induction false} BroadcastHands(x: Stack, slot: int, resource: nat, data: seq<byte>, i: nat, s: byte,
                                          c: byte, n: nat)
    requires Sound(x) && i <= |x.sessions|
    ensures Hands(x, Broadcast(x, slot, resource, data, i), s, c, n)
    decreases |x.sessions| - i
  {
    hide Hands, SendData;
    SameHands(x, x, s, c, n);
    if i < |x.sessions| {
      var e := x.sessions[i];
      SendTells(x.tl, e.slot, e.conn, DataSpdu(i, data));
      var y := if e.state == Open && (slot == -1 || slot == e.slot) && e.resource == resource
               then SendSession(x, i, data).x else x;
      SameHands(x, y, s, c, n);
      BroadcastHands(y, slot, resource, data, i + 1, s, c, n);
      HandsOn(x, y, Broadcast(y, slot, resource, data, i + 1), s, c, n);
    }
  }

  lemma CreateSessionHands(x: Stack, slot: int, d: byte, resource: nat, callback: bool, s: byte, c: byte, n: nat)
    requires Sound(x)
    ensures Hands(x, CreateSession(x, slot, d, resource, callback).x, s, c, n)
  {
    hide Hands, SendData, ApdusOf;
    var m := FreeSession(x.sessions, 1);
    SendTells(x.tl, slot % 256, d, [ST_CREATE_SESSION, 6] + Be32(resource) + [Hi(m), Lo(m)]);
    NothingHanded(x, CreateSession(x, slot, d, resource, callback).x, s, c, n);
  }

  lemma DestroySessionHands(x: Stack, m: nat, s: byte, c: byte, n: nat)
    requires Sound(x) && m != n
    ensures Hands(x, DestroySession(x, m).x, s, c, n)
  {
    hide Hands, SendData, ApdusOf;
    if m < |x.sessions| {
      SendTells(x.tl, x.sessions[m].slot, x.sessions[m].conn, [ST_CLOSE_SESSION_REQ, 2, Hi(m), Lo(m)]);
    }
    NothingHanded(x, DestroySession(x, m).x, s, c, n);
  }

  /** The session's own end is the host's call that closes it. */
  lemma StepHands(x: Stack, w: nat -> bool, app: nat -> App, e: Event, s: byte, c: byte, n: nat)
    requires Sound(x) && e != DoDestroySession(n)
    ensures Hands(x, Step(x, w, app, e), s, c, n)
  {
    hide Hands, SendData, TouchSlot, CreateSession, DestroySession, Destroy;
    assert x.tl.net.told + [] == x.tl.net.told;
    match e
    case DoRegister(handle, number) => SameHands(x, Step(x, w, app, e), s, c, n);
    case DoDestroy(k) => DestroyHands(x, app, k, s, c, n);
    case DoTlSend(k, d, data) => SendTells(x.tl, k, d, data); SameHands(x, Step(x, w, app, e), s, c, n);
    case DoNewTc(k) => SameHands(x, Step(x, w, app, e), s, c, n);
    case DoDelTc(k, d) => SameHands(x, Step(x, w, app, e), s, c, n);
    case DoPoll(polled, rx, tick) =>
      if polled { PollSlotsHand(x, w, app, rx, tick, 0, s, c, n); } else { SameHands(x, Step(x, w, app, e), s, c, n); }
    case DoCreateSession(slot, d, resource, callback) => CreateSessionHands(x, slot, d, resource, callback, s, c, n);
    case DoDestroySession(m) => DestroySessionHands(x, m, s, c, n);
    case DoSend(m, vector) =>
      if m < |x.sessions| { SendTells(x.tl, x.sessions[m].slot, x.sessions[m].conn, DataSpdu(m, Flatten(vector))); }
      SameHands(x, Step(x, w, app, e), s, c, n);
    case DoBroadcast(slot, resource, data) => BroadcastHands(x, slot, resource, data, 0, s, c, n);
  }

  lemma DestroyHands(x: Stack, app: nat -> App, k: byte, s: byte, c: byte, n: nat)
    requires Sound(x)
    ensures Hands(x, Destroy(x, app, k), s, c, n)
  {
    hide Callbacks, TouchSlot, Handed, Delivered, Ends;
    var t := DestroySlot(x.tl, k);
    CallbacksGive(x.(tl := t), app, t.net.told, |x.tl.net.told|, s, c, n);
  }

  lemma {:induction false} RunHands(x: Stack, w: nat -> bool, app: nat -> App, es: seq<Event>, s: byte, c: byte, n: nat)
    requires Sound(x) && forall i :: 0 <= i < |es| ==> es[i] != DoDestroySession(n)
    ensures Hands(x, Run(x, w, app, es), s, c, n)
    decreases |es|
  {
    hide Hands, Step;
    if es == [] {
      SameHands(x, x, s, c, n);
    } else {
      var y := Step(x, w, app, es[0]);
      StepHands(x, w, app, es[0], s, c, n);
      RunHands(y, w, app, es[1..], s, c, n);
      HandsOn(x, y, Run(y, w, app, es[1..]), s, c, n);
    }
  }

  /* ---- Delivery in every run ---- */

  /** Nothing the transport layer does ends the session: its slot stays, and the module ends no connection of its
   *  number. */
  predicate Harmless(a: Act, s: byte, c: byte) {
    a != Destroyed(s) && !(a.CamDeleted? && a.c == c && a.ok)
  }

  lemma {:induction false} HandedIn(us: seq<Upcall>, u: Upcall, s: byte, c: byte)
    requires u in us && u.Data? && u.s == s && u.c == c
    ensures u.data in Handed(us, s, c)
  {
    if us[0] != u { HandedIn(us[1..], u, s, c); }
  }

  /** The session is not ended by what is told when no action, no payload and no call of the host ends it. */
  lemma NothingEnds(us: seq<Upcall>, acts: seq<Act>, s: byte, c: byte, n: nat)
    requires forall u <- us :: Foretold(u, acts)
    requires forall a <- acts :: Harmless(a, s, c)
    requires forall p <- Handed(us, s, c) :: !Closes(p, n)
    ensures NoEnd(us, s, c, n)
  {
    forall u | u in us ensures !Ends(u, s, c, n) {
      if u.Data? && u.s == s && u.c == c { HandedIn(us, u, s, c); }
    }
  }

  /** In every run, with any calls of the host and any octets from any module, a session that is not ended serves on
   *  and has been handed exactly the APDUs for it in the chains its connection took, in order. */
  lemma RunDelivers(x: Stack, w: nat -> bool, app: nat -> App, es: seq<Event>, s: byte, c: byte, n: nat)
    requires Inv(x.tl.net) && Serves(x, s, c, n) && s < |x.tl.net.slots| && c < x.tl.maxConns
    requires forall i :: 0 <= i < |es| ==> es[i] != DoDestroySession(n)
    requires var acts := Run(x, w, app, es).tl.net.acts;
      forall i :: |x.tl.net.acts| <= i < |acts| ==> Harmless(acts[i], s, c)
    ensures var y := Run(x, w, app, es);
      && |x.tl.net.acts| <= |y.tl.net.acts|
      && var ps := Payloads(Pieces(y.tl.net.acts[|x.tl.net.acts|..], s, c), Held(x.tl.At(s, c)));
         (forall p <- ps :: !Closes(p, n)) ==>
           Serves(y, s, c, n) && ApdusOf(y.calls, n) == ApdusOf(x.calls, n) + Delivered(ps, n)
  {
    var y := Run(x, w, app, es);
    RunChains(x, w, app, es, s, c);
    RunHands(x, w, app, es, s, c, n);
    var acts, us := y.tl.net.acts[|x.tl.net.acts|..], y.tl.net.told[|x.tl.net.told|..];
    if forall p <- Handed(us, s, c) :: !Closes(p, n) { NothingEnds(us, acts, s, c, n); }
  }
}
