/** What the host makes of every TPDU, and what it sends in a poll, in the octets written to the link. */
module Answers {
  import opened Common
  import opened Transport
  import opened TransportSafety
  import opened HostCalls
  import Asn1

  /* ---- Octets written ---- */

  /** A packet written, or attempted, on connection `c` of slot `s`. */
  datatype Sent = Sent(s: byte, c: byte, packet: seq<byte>, ok: bool)

  function SentBy(a: Act): seq<Sent> {
    match a
    case SentQueued(s, c, _, ok) => [Sent(s, c, Packet(a).value, ok)]
    case SentPoll(s, c, ok) => [Sent(s, c, Packet(a).value, ok)]
    case CamDeleted(s, c, ok) => [Sent(s, c, Packet(a).value, ok)]
    case Refused(s, c, ok) => [Sent(s, c, Packet(a).value, ok)]
    case Offered(s, c, _, ok) => [Sent(s, c, Packet(a).value, ok)]
    case Created(s, c, ok) => [Sent(s, c, Packet(a).value, ok)]
    case SentReceive(s, c, ok) => [Sent(s, c, Packet(a).value, ok)]
    case _ => []
  }

  function SentIn(acts: seq<Act>): seq<Sent> {
    if acts == [] then [] else SentIn(acts[..|acts| - 1]) + SentBy(acts[|acts| - 1])
  }

  /** From `t` to `u` these packets were attempted, in this order. */
  ghost predicate Writes(t: Tl, u: Tl, ps: seq<Sent>) {
    t.net.acts <= u.net.acts && SentIn(u.net.acts[|t.net.acts|..]) == ps
  }

  lemma {:induction false} SentInAppend(xs: seq<Act>, ys: seq<Act>)
    ensures SentIn(xs + ys) == SentIn(xs) + SentIn(ys)
    decreases |ys|
  {
    if ys == [] {
      assert xs + ys == xs;
    } else {
      var init := ys[..|ys| - 1];
      assert (xs + ys)[..|xs + ys| - 1] == xs + init;
      SentInAppend(xs, init);
      Regroup(SentIn(xs), SentIn(init), SentBy(ys[|ys| - 1]));
    }
  }

  lemma WritesNothing(t: Tl, u: Tl)
    requires u.net.acts == t.net.acts
    ensures Writes(t, u, [])
  {
    assert u.net.acts[|t.net.acts|..] == [];
  }

  lemma WritesOne(t: Tl, u: Tl, a: Act)
    requires u.net.acts == t.net.acts + [a]
    ensures Writes(t, u, SentBy(a))
  {
    assert u.net.acts[|t.net.acts|..] == [a] && [a][..0] == [] && [] + SentBy(a) == SentBy(a);
  }

  lemma WritesOn(t: Tl, u: Tl, v: Tl, ps: seq<Sent>, qs: seq<Sent>)
    requires Writes(t, u, ps) && Writes(u, v, qs)
    ensures Writes(t, v, ps + qs)
    ensures (ps == [] ==> Writes(t, v, qs)) && (qs == [] ==> Writes(t, v, ps))
  {
    var n, m := |t.net.acts|, |u.net.acts|;
    assert v.net.acts[n..] == u.net.acts[n..] + v.net.acts[m..];
    SentInAppend(u.net.acts[n..], v.net.acts[m..]);
    assert (ps == [] ==> ps + qs == qs) && (qs == [] ==> ps + qs == ps);
  }

  /* ---- One connection ---- */

  /** Only connection `c` of slot `s` may differ, which becomes `k`, and the upper layer is told `us`. */
  ghost predicate Alters(t: Tl, u: Tl, s: nat, c: nat, k: Conn, us: seq<Upcall>) {
    && HasConn(t, s, c) && SameShape(t, u) && u.At(s, c) == k && u.net.told == t.net.told + us
    && forall i :: 0 <= i < |t.net.slots| ==> OnlyConnOf(t.net.slots[i], u.net.slots[i], i == s, c)
  }

  /** The call fails with this error in slot `s`, or succeeds and leaves the errors as they are. */
  ghost predicate Ends(t: Tl, r: Result, s: nat, ok: bool, error: int) {
    if ok then r.code == 0 && r.t.error == t.error && r.t.errorSlot == t.errorSlot
    else r.code == -1 && r.t.error == error && r.t.errorSlot == s
  }

  /** Bad data from the module: noted for the slot, and nothing else happens. */
  ghost predicate Bad(t: Tl, r: Result, s: nat) {
    r.code == -1 && r.t == t.(error := -7, errorSlot := s)
  }

  lemma ActAlters(t: Tl, a: Act)
    requires !a.Registered? && !a.Destroyed? && !a.Offered? && HasConn(t, a.s, a.c)
    ensures var u := t.Do(a);
      Alters(t, u, a.s, a.c, TouchOwn(t.At(a.s, a.c), a), Told(t.net, a)) && Writes(t, u, SentBy(a))
      && u.error == t.error && u.errorSlot == t.errorSlot
  {
    hide TouchSlot, TouchOwn, Told, OnlyConnOf, SentBy, SentIn;
    SlotOnly(t.net.slots[a.s], a);
    SameSlots(a.c);
    ConnOf(t.net.slots[a.s], TouchSlot(t.net.slots[a.s], a), a.c);
    WritesOne(t, t.Do(a), a);
  }

  /* ---- Received TPDUs ---- */

  /** A status (0x80): on an active connection the host answers one octet with the top bit set with 0x81, 1 and the
   *  number of the connection, and waits for what it has asked for; with the bit clear it writes nothing and waits for
   *  nothing. */
  lemma StatusExactly(t: Tl, w: nat -> bool, s: byte, c: byte, data: seq<byte>)
    requires HasConn(t, s, c)
    ensures var r := HandleTpdu(t, w, s, 0x80, c, data);
      var k, ok := t.At(s, c), w(|t.net.acts|);
      if k.state == Active && |data| == 1 then
        if data[0] / 0x80 == 1 then
          && Writes(t, r.t, [Sent(s, c, [0x81, 1, c], ok)]) && Ends(t, r, s, ok, -2)
          && Alters(t, r.t, s, c, if ok then k.(waiting := true) else k, [])
        else
          Writes(t, r.t, []) && Ends(t, r, s, true, 0) && Alters(t, r.t, s, c, k.(waiting := false), [])
      else Bad(t, r, s)
  {
    hide Apply, Writes, Alters;
    ActAlters(t, SentReceive(s, c, t.Next(w)));
    ActAlters(t, Quiet(s, c));
    Noted(t, t.Do(SentReceive(s, c, t.Next(w))));
  }

  /** Noting an error writes nothing and alters no connection. */
  lemma Noted(t: Tl, u: Tl)
    ensures forall k: int, code: int, ps: seq<Sent> :: Writes(t, u, ps) ==> Writes(t, u.FailOn(k, code), ps)
    ensures forall k: int, code: int, s: nat, c: nat, q: Conn, us: seq<Upcall> ::
      Alters(t, u, s, c, q, us) ==> Alters(t, u.FailOn(k, code), s, c, q, us)
  {
  }

  /** A confirmed creation (0x83) opens the connection in creation, and the wait is over. */
  lemma CreateReplyExactly(t: Tl, w: nat -> bool, s: byte, c: byte, data: seq<byte>)
    requires HasConn(t, s, c)
    ensures var r := HandleTpdu(t, w, s, 0x83, c, data);
      var k := t.At(s, c);
      if k.state == InCreation then
        && Writes(t, r.t, []) && Ends(t, r, s, true, 0)
        && Alters(t, r.t, s, c, k.(state := Active, waiting := false), [ConnectionOpen(s, c)])
      else Bad(t, r, s)
  {
    hide Apply, Writes, Alters;
    ActAlters(t, Opened(s, c));
  }

  /** A deletion by the module (0x84) ends an active connection or one in deletion, its queue and its wait kept; the
   *  answer is 0x85, 1 and its number, and the upper layer is told when it is written. */
  lemma DeleteExactly(t: Tl, w: nat -> bool, s: byte, c: byte, data: seq<byte>)
    requires HasConn(t, s, c)
    ensures var r := HandleTpdu(t, w, s, 0x84, c, data);
      var k, ok := t.At(s, c), w(|t.net.acts|);
      if k.state == Active || k.state == InDeletion then
        && Writes(t, r.t, [Sent(s, c, [0x85, 1, c], ok)]) && Ends(t, r, s, ok, -2)
        && Alters(t, r.t, s, c, k.(state := Idle, chain := None, chainLen := 0), if ok then [ConnectionClose(s, c)] else [])
      else Bad(t, r, s)
  {
    hide Apply, Writes, Alters;
    ActAlters(t, CamDeleted(s, c, t.Next(w)));
    Noted(t, t.Do(CamDeleted(s, c, t.Next(w))));
  }

  /** A confirmed deletion (0x85) ends the connection in deletion; nobody is told. */
  lemma DeleteReplyExactly(t: Tl, w: nat -> bool, s: byte, c: byte, data: seq<byte>)
    requires HasConn(t, s, c)
    ensures var r := HandleTpdu(t, w, s, 0x85, c, data);
      var k := t.At(s, c);
      if k.state == InDeletion then
        Writes(t, r.t, []) && Ends(t, r, s, true, 0) && Alters(t, r.t, s, c, k.(state := Idle), [])
      else Bad(t, r, s)
  {
    hide Apply, Writes, Alters;
    ActAlters(t, DeleteAcked(s, c));
  }

  /** A piece of a chain (0xA1), or its end (0xA0): on an active connection what is held and the piece are held, or
   *  handed up when the end has something in it; either ends the wait. */
  lemma DataExactly(t: Tl, w: nat -> bool, s: byte, c: byte, data: seq<byte>)
    requires HasConn(t, s, c) && GoodConn(t.At(s, c), c)
    ensures var r := HandleTpdu(t, w, s, 0xA1, c, data);
      var k := t.At(s, c);
      if k.state == Active then
        && Writes(t, r.t, []) && Ends(t, r, s, true, 0)
        && Alters(t, r.t, s, c, k.(waiting := false, chain := Some(Held(k) + data), chainLen := |Held(k) + data|), [])
      else Bad(t, r, s)
    ensures var r := HandleTpdu(t, w, s, 0xA0, c, data);
      var k := t.At(s, c);
      if k.state == Active then
        && Writes(t, r.t, []) && Ends(t, r, s, true, 0)
        && Alters(t, r.t, s, c, k.(waiting := false, chain := None, chainLen := 0),
                  if data == [] then [] else [Data(s, c, Held(k) + data)])
      else Bad(t, r, s)
  {
    hide Apply, Writes, Alters;
    ActAlters(t, GotMore(s, c, data));
    ActAlters(t, GotLast(s, c, data));
  }

  /** Other tags are bad data. */
  lemma OtherTagsBad(t: Tl, w: nat -> bool, s: byte, tag: byte, c: byte, data: seq<byte>)
    requires HasConn(t, s, c) && tag !in {0x80, 0x83, 0x84, 0x85, 0x86, 0xA0, 0xA1}
    ensures Bad(t, HandleTpdu(t, w, s, tag, c, data), s)
  {
  }

  /** The first idle connection from 1 on. */
  predicate FirstIdleConn(t: Tl, s: nat, d: nat)
    requires WellFormed(t)
  {
    1 <= d && HasConn(t, s, d) && t.At(s, d).state == Idle && forall e :: 1 <= e < d ==> t.At(s, e).state != Idle
  }

  lemma FirstIdleFound(t: Tl, s: nat)
    requires WellFormed(t) && InUse(t, s)
    ensures var e := FirstIdle(t.net.slots[s].conns, 1);
      && (e < t.maxConns ==> FirstIdleConn(t, s, e)) && forall d :: FirstIdleConn(t, s, d) ==> d == e
  {
    var e := FirstIdle(t.net.slots[s].conns, 1);
    assert e < t.maxConns ==> t.At(s, e).state == Idle;
    assert forall d :: 1 <= d < e && d < t.maxConns ==> t.At(s, d).state != Idle;
  }

  /** A request for a connection (0x86) when none is idle: refused with 0x77, 2, the number of the connection and 1,
   *  and the wait is over when that is written. */
  lemma RequestRefused(t: Tl, w: nat -> bool, s: byte, c: byte, data: seq<byte>)
    requires HasConn(t, s, c) && !exists d :: FirstIdleConn(t, s, d)
    ensures var r := HandleTpdu(t, w, s, 0x86, c, data);
      var k, ok := t.At(s, c), w(|t.net.acts|);
      && Writes(t, r.t, [Sent(s, c, [0x77, 2, c, 1], ok)]) && Ends(t, r, s, ok, -2)
      && Alters(t, r.t, s, c, if ok then k.(waiting := false) else k, [])
  {
    var a := Refused(s, c, t.Next(w));
    RefusedStep(t, w, s, c, data);
    hide HandleTpdu, Apply, Writes, Alters, Told;
    ActAlters(t, a);
    assert Told(t.net, a) == [] by { ToldNothing(t.net, a); }
  }

  lemma ToldNothing(n: Net, a: Act)
    requires a.Refused?
    ensures Told(n, a) == []
  {
  }

  lemma RequestHandled(t: Tl, w: nat -> bool, s: byte, c: byte, data: seq<byte>)
    requires HasConn(t, s, c)
    ensures HandleTpdu(t, w, s, T_REQUEST_T_C, c, data) == HandleRequest(t, w, s, c)
  {
    hide HandleRequest, Apply;
  }

  lemma RefusedStep(t: Tl, w: nat -> bool, s: byte, c: byte, data: seq<byte>)
    requires HasConn(t, s, c) && !exists d :: FirstIdleConn(t, s, d)
    ensures HandleTpdu(t, w, s, T_REQUEST_T_C, c, data) == Written(t.Do(Refused(s, c, t.Next(w))), s, t.Next(w))
  {
    RequestHandled(t, w, s, c, data);
    FirstIdleFound(t, s);
    hide HandleTpdu, Apply;
  }

  /** Connection `d` of slot `s` was offered on `c`, which ended the wait there if the write succeeded, and was then
   *  announced on itself, after which it is in creation with the host waiting; nothing else is different. */
  ghost predicate Grants(t: Tl, u: Tl, s: byte, c: byte, d: byte, offered: bool, announced: bool) {
    && HasConn(t, s, d) && SameShape(t, u)
    && u.net.told == t.net.told + (if announced then [CamConnectionOpen(s, d)] else [])
    && (forall i :: 0 <= i < |t.net.slots| && i != s ==> u.net.slots[i] == t.net.slots[i])
    && u.net.slots[s].handle == t.net.slots[s].handle && u.net.slots[s].number == t.net.slots[s].number
    && forall e :: 0 <= e < t.maxConns ==>
         var k := t.At(s, e);
         var heard := if e == c && offered then k.(waiting := false) else k;
         u.At(s, e) == if e != d then heard
                       else if announced then k.(state := InCreation, waiting := true, chain := None, chainLen := 0)
                       else heard.(chain := None, chainLen := 0)
  }

  /** A request when one is idle: the first such is offered with 0x87, 2 and both numbers on the connection of the
   *  request, which ends the wait there; then it is announced with 0x82, 1 and its number on itself, and is in creation
   *  with the host waiting. When a write fails it stays idle. */
  lemma RequestGranted(t: Tl, w: nat -> bool, s: byte, c: byte, data: seq<byte>, d: byte)
    requires HasConn(t, s, c) && FirstIdleConn(t, s, d)
    ensures var r := HandleTpdu(t, w, s, 0x86, c, data);
      var n := |t.net.acts|;
      var offered, announced := w(n), w(n) && w(n + 1);
      && Writes(t, r.t, [Sent(s, c, [0x87, 2, c, d], offered)] + if offered then [Sent(s, d, [0x82, 1, d], announced)] else [])
      && Ends(t, r, s, announced, -2) && Grants(t, r.t, s, c, d, offered, announced)
  {
    RequestSteps(t, w, s, c, data, d);
    hide HandleTpdu, Writes, Apply, Grants, Alters, TouchOwn, Told, FirstIdleConn, SentIn;
    var offer, create := Offered(s, c, d, t.Next(w)), Created(s, d, w(|t.net.acts| + 1));
    var t1 := t.Do(offer);
    OfferAlters(t, offer);
    if t.Next(w) {
      ActAlters(t1, create);
      WritesOn(t, t1, t1.Do(create), SentBy(offer), SentBy(create));
      CreateGrants(t, t1, create, c);
    }
  }

  lemma CreateGrants(t: Tl, u: Tl, a: Act, c: byte)
    requires a.Created? && HasConn(u, a.s, a.c) && Grants(t, u, a.s, c, a.c, true, false) && t.At(a.s, a.c).state == Idle
    requires Alters(u, u.Do(a), a.s, a.c, TouchOwn(u.At(a.s, a.c), a), Told(u.net, a))
    ensures Grants(t, u.Do(a), a.s, c, a.c, true, a.ok)
  {
    hide Apply;
    assert t.net.told + [] == t.net.told;
  }

  lemma RequestSteps(t: Tl, w: nat -> bool, s: byte, c: byte, data: seq<byte>, d: byte)
    requires HasConn(t, s, c) && FirstIdleConn(t, s, d)
    ensures var t1 := t.Do(Offered(s, c, d, t.Next(w)));
      HandleTpdu(t, w, s, T_REQUEST_T_C, c, data) ==
        if !t.Next(w) then Written(t1, s, false)
        else Written(t1.Do(Created(s, d, w(|t.net.acts| + 1))), s, w(|t.net.acts| + 1))
    ensures HasConn(t, s, d) && t.At(s, d).state == Idle
  {
    RequestHandled(t, w, s, c, data);
    FirstIdleFound(t, s);
    assert FirstIdle(t.net.slots[s].conns, 1) == d && HasConn(t, s, d) && t.At(s, d).state == Idle;
    hide HandleTpdu, TouchSlot, Told, FirstIdle, FirstIdleConn, WellFormed, SameShape;
  }

  lemma OfferAlters(t: Tl, a: Act)
    requires a.Offered? && HasConn(t, a.s, a.c) && HasConn(t, a.s, a.d)
    ensures var u := t.Do(a);
      && Writes(t, u, SentBy(a)) && u.error == t.error && u.errorSlot == t.errorSlot && HasConn(u, a.s, a.d)
      && Grants(t, u, a.s, a.c, a.d, a.ok, false)
  {
    assert t.net.told + [] == t.net.told;
    WritesOne(t, t.Do(a), a);
  }
}
