/** What a poll sends: every connection gets what is due on it, once, and nothing else is written. */
module Polling {
  import opened Common
  import opened Transport
  import opened TransportSafety
  import opened HostCalls
  import opened Answers

  /* ---- One connection ---- */

  /** A message is queued, may be sent in this state, and nothing is awaited. */
  predicate HeadDue(k: Conn) {
    k.queue != [] && !k.waiting && (k.state == InCreation || k.state == Active || k.state == DeleteQueued)
  }

  /** The connection is open, has nothing to send or to wait for, and the time for a poll has come. */
  predicate AskDue(k: Conn, tick: Tick) { k.state == Active && !k.waiting && k.queue == [] && tick.pollDue }

  /** The packet that is due: the oldest message, or else 0xA0, 1 and the number of the connection. */
  function Due(k: Conn, tick: Tick, c: byte): Option<seq<byte>> {
    if HeadDue(k) then Some(k.queue[0]) else if AskDue(k, tick) then Some([0xA0, 1, c]) else None
  }

  /** The connection once the packet is written: a T_DELETE_T_C (0x84) puts it in deletion, with nothing held. */
  function AfterWrite(k: Conn): Conn {
    if !HeadDue(k) then k.(waiting := true)
    else if k.queue[0] != [] && k.queue[0][0] == 0x84 then Conn(InDeletion, true, None, 0, k.queue[1..])
    else k.(waiting := true, queue := k.queue[1..])
  }

  /** The time for an answer is over: what was in creation or deletion is idle, anything else an error. */
  function TimesOut(k: Conn, tick: Tick): bool { k.waiting && tick.timedOut && k.state != Idle }

  predicate Gives(k: Conn) { k.state == InCreation || k.state == InDeletion }

  /** When nothing is due nothing is written, and only a wait that is over changes anything. */
  lemma PollRests(t: Tl, w: nat -> bool, tick: Tick, s: byte, c: byte)
    requires HasConn(t, s, c) && Due(t.At(s, c), tick, c) == None
    ensures var k, r := t.At(s, c), PollConn(t, w, tick, s, c);
      && Writes(t, r.t, []) && Ends(t, r, s, TimesOut(k, tick) ==> Gives(k), -3)
      && Alters(t, r.t, s, c, if TimesOut(k, tick) && Gives(k) then k.(state := Idle) else k, [])
  {
    hide Apply, Writes, Alters;
    Unaltered(t, s, c);
    Noted(t, t);
    if Gives(t.At(s, c)) { ActAlters(t, TimedOut(s, c)); }
  }

  lemma Unaltered(t: Tl, s: nat, c: nat)
    requires HasConn(t, s, c)
    ensures Writes(t, t, []) && Alters(t, t, s, c, t.At(s, c), [])
  {
    WritesNothing(t, t);
    assert t.net.told + [] == t.net.told;
  }

  /** A packet that is due is written, and only that. When the write fails the message is gone all the same, and a poll is
   *  awaited all the same. */
  lemma PollSends(t: Tl, w: nat -> bool, tick: Tick, s: byte, c: byte)
    requires HasConn(t, s, c) && Due(t.At(s, c), tick, c).Some?
    ensures var k, r := t.At(s, c), PollConn(t, w, tick, s, c);
      var ok, sent := w(|t.net.acts|), AfterWrite(t.At(s, c));
      && Writes(t, r.t, [Sent(s, c, Due(k, tick, c).value, ok)])
      && (if !ok then
            && Ends(t, r, s, false, -2)
            && Alters(t, r.t, s, c, if HeadDue(k) then k.(queue := k.queue[1..]) else k.(waiting := true), [])
          else
            && Ends(t, r, s, TimesOut(sent, tick) ==> Gives(sent), -3)
            && Alters(t, r.t, s, c, if TimesOut(sent, tick) && Gives(sent) then sent.(state := Idle) else sent, []))
  {
    hide Apply, Writes, Alters;
    var k, ok := t.At(s, c), t.Next(w);
    var a := if HeadDue(k) then SentQueued(s, c, k.queue[0], ok) else SentPoll(s, c, ok);
    var u := t.Do(a);
    ActAlters(t, a);
    Noted(t, u);
    if ok {
      AlteredHas(t, u, s, c, TouchOwn(k, a), []);
      TimeoutAlters(t, u, tick, s, c, SentBy(a));
    }
  }

  lemma AlteredHas(t: Tl, u: Tl, s: nat, c: nat, k: Conn, us: seq<Upcall>)
    requires Alters(t, u, s, c, k, us)
    ensures HasConn(u, s, c) && u.At(s, c) == k
  {
    assert OnlyConnOf(t.net.slots[s], u.net.slots[s], true, c);
  }

  lemma TimeoutAlters(t: Tl, u: Tl, tick: Tick, s: byte, c: byte, ps: seq<Sent>)
    requires HasConn(u, s, c) && Alters(t, u, s, c, u.At(s, c), []) && Writes(t, u, ps)
    requires u.error == t.error && u.errorSlot == t.errorSlot
    ensures var r, k := PollTimeout(u, tick, s, c), u.At(s, c);
      && Writes(t, r.t, ps) && Ends(t, r, s, TimesOut(k, tick) ==> Gives(k), -3)
      && Alters(t, r.t, s, c, if TimesOut(k, tick) && Gives(k) then k.(state := Idle) else k, [])
  {
    hide Apply, Writes, Alters;
    Noted(t, u);
    if TimesOut(u.At(s, c), tick) && Gives(u.At(s, c)) {
      var v, k := u.Do(TimedOut(s, c)), u.At(s, c).(state := Idle);
      ActAlters(u, TimedOut(s, c));
      WritesOn(t, u, v, ps, []);
      AltersOn(t, u, v, s, c, k);
    }
  }

  lemma AltersOn(t: Tl, u: Tl, v: Tl, s: nat, c: nat, k: Conn)
    requires HasConn(u, s, c) && Alters(t, u, s, c, u.At(s, c), []) && Alters(u, v, s, c, k, [])
    ensures Alters(t, v, s, c, k, [])
  {
    forall i | 0 <= i < |t.net.slots| ensures OnlyConnOf(t.net.slots[i], v.net.slots[i], i == s, c) {
      assert OnlyConnOf(t.net.slots[i], u.net.slots[i], i == s, c) && OnlyConnOf(u.net.slots[i], v.net.slots[i], i == s, c);
    }
    assert t.net.told + [] == t.net.told;
  }

  /* ---- A whole slot ---- */

  /** Connections from `j` on have each been sent at most what was due on it, in their order. */
  ghost predicate Served(t: Tl, tick: nat -> Tick, s: byte, j: nat, ps: seq<Sent>)
    requires WellFormed(t) && InUse(t, s)
  {
    && (forall i :: 0 <= i < |ps| ==>
          && ps[i].s == s && j <= ps[i].c < t.maxConns
          && Due(t.At(s, ps[i].c), tick(ps[i].c), ps[i].c) == Some(ps[i].packet))
    && (forall i, k :: 0 <= i < k < |ps| ==> ps[i].c < ps[k].c)
  }

  /** Every connection from `j` on has got what was due on it. */
  ghost predicate AllServed(t: Tl, tick: nat -> Tick, s: byte, j: nat, ps: seq<Sent>)
    requires WellFormed(t) && InUse(t, s)
  {
    forall c: byte :: j <= c < t.maxConns && Due(t.At(s, c), tick(c), c).Some? ==>
      Sent(s, c, Due(t.At(s, c), tick(c), c).value, true) in ps
  }

  /** The other slots, the numbers of all, and the connections in front of `j` are as they were, and nothing was told. */
  ghost predicate Behind(t: Tl, u: Tl, s: nat, j: nat)
    requires WellFormed(t) && InUse(t, s)
  {
    && SameShape(t, u) && InUse(u, s) && u.net.told == t.net.told
    && u.net.slots[s].handle == t.net.slots[s].handle && u.net.slots[s].number == t.net.slots[s].number
    && (forall i :: 0 <= i < |t.net.slots| && i != s ==> u.net.slots[i] == t.net.slots[i])
    && forall c :: 0 <= c < j && c < t.maxConns ==> u.At(s, c) == t.At(s, c)
  }

  lemma OneVisit(t: Tl, w: nat -> bool, tick: Tick, s: byte, c: byte) returns (ps: seq<Sent>)
    requires HasConn(t, s, c)
    ensures var r, due := PollConn(t, w, tick, s, c), Due(t.At(s, c), tick, c);
      && Writes(t, r.t, ps) && OnlyConn(t, r.t, s, c)
      && (due == None ==> ps == []) && (due.Some? ==> exists ok :: ps == [Sent(s, c, due.value, ok)])
      && (due.Some? && r.code >= 0 ==> ps == [Sent(s, c, due.value, true)])
  {
    hide PollConn, Writes, OnlyConnOf, Due;
    var due := Due(t.At(s, c), tick, c);
    assert t.net.told + [] == t.net.told;
    if due == None {
      PollRests(t, w, tick, s, c);
      ps := [];
    } else {
      PollSends(t, w, tick, s, c);
      ps := [Sent(s, c, due.value, w(|t.net.acts|))];
    }
  }

  lemma StillBehind(t: Tl, u: Tl, s: nat, c: nat)
    requires HasConn(t, s, c) && OnlyConn(t, u, s, c)
    ensures Visited(t, u, s, c)
  {
    assert OnlyConnOf(t.net.slots[s], u.net.slots[s], true, c);
    forall i | 0 <= i < |t.net.slots| && i != s ensures u.net.slots[i] == t.net.slots[i] {
      assert OnlyConnOf(t.net.slots[i], u.net.slots[i], false, c);
      assert u.net.slots[i].conns == t.net.slots[i].conns;
    }
  }

  /** From `t` to `u` only connection `j` of the slot has been looked at. */
  ghost predicate Visited(t: Tl, u: Tl, s: nat, j: nat)
    requires WellFormed(t) && InUse(t, s)
  {
    Behind(t, u, s, j) && forall d :: 0 <= d < t.maxConns && d != j ==> u.At(s, d) == t.At(s, d)
  }

  lemma ServedOn(t: Tl, u: Tl, tick: nat -> Tick, s: byte, j: byte, first: seq<Sent>, more: seq<Sent>)
    requires HasConn(t, s, j) && Visited(t, u, s, j) && Served(u, tick, s, j + 1, more)
    requires |first| <= 1
    requires first != [] ==> first[0].s == s && first[0].c == j && Due(t.At(s, j), tick(j), j) == Some(first[0].packet)
    ensures Served(t, tick, s, j, first + more)
  {
    hide Due;
    var ps := first + more;
    forall i | 0 <= i < |ps|
      ensures ps[i].s == s && j <= ps[i].c < t.maxConns && Due(t.At(s, ps[i].c), tick(ps[i].c), ps[i].c) == Some(ps[i].packet)
    {
      if i >= |first| { assert ps[i] == more[i - |first|]; }
    }
  }

  lemma AllServedOn(t: Tl, u: Tl, tick: nat -> Tick, s: byte, j: byte, first: seq<Sent>, more: seq<Sent>)
    requires HasConn(t, s, j) && Visited(t, u, s, j) && AllServed(u, tick, s, j + 1, more)
    requires Due(t.At(s, j), tick(j), j).Some? ==> first == [Sent(s, j, Due(t.At(s, j), tick(j), j).value, true)]
    ensures AllServed(t, tick, s, j, first + more)
  {
    hide Due;
    forall c: byte | j <= c < t.maxConns && Due(t.At(s, c), tick(c), c).Some?
      ensures Sent(s, c, Due(t.At(s, c), tick(c), c).value, true) in first + more
    {
      if c != j { assert u.At(s, c) == t.At(s, c); }
    }
  }

  lemma BehindOn(t: Tl, u: Tl, v: Tl, s: nat, j: nat)
    requires WellFormed(t) && InUse(t, s) && Visited(t, u, s, j) && Behind(u, v, s, j + 1)
    ensures Behind(t, v, s, j)
  {
  }

  lemma NoneServed(t: Tl, tick: nat -> Tick, s: byte, j: nat)
    requires WellFormed(t) && InUse(t, s)
    ensures Served(t, tick, s, j, []) && Behind(t, t, s, j) && Writes(t, t, [])
  {
    WritesNothing(t, t);
  }

  /** A poll of a slot sends every connection what is due on it, once and in their order, and nothing else; an error ends
   *  it. */
  lemma {:induction false} PollConnsServe(t: Tl, w: nat -> bool, tick: nat -> Tick, s: byte, j: nat) returns (ps: seq<Sent>)
    requires WellFormed(t) && InUse(t, s) && j <= t.maxConns
    ensures var r := PollConns(t, w, tick, s, j);
      && Writes(t, r.t, ps) && Served(t, tick, s, j, ps) && Behind(t, r.t, s, j)
      && (r.code >= 0 ==> AllServed(t, tick, s, j, ps))
    decreases t.maxConns - j
  {
    hide PollConn, Writes, Due, OnlyConn, Served, AllServed, Behind;
    NoneServed(t, tick, s, j);
    if j == t.maxConns {
      ps := [];
      assert AllServed(t, tick, s, j, ps) by { NobodyLeft(t, tick, s, j); }
    } else {
      var first := OneVisit(t, w, tick(j), s, j);
      var r := PollConn(t, w, tick(j), s, j);
      StillBehind(t, r.t, s, j);
      assert InUse(r.t, s) && SameShape(t, r.t) by { BehindInUse(t, r.t, s, j); }
      if r.code < 0 {
        NoneServed(r.t, tick, s, j + 1);
        ServedOn(t, r.t, tick, s, j, first, []);
        assert first + [] == first;
        ps := first;
      } else {
        var more := PollConnsServe(r.t, w, tick, s, j + 1);
        ps := first + more;
        WritesOn(t, r.t, PollConns(r.t, w, tick, s, j + 1).t, first, more);
        ServedOn(t, r.t, tick, s, j, first, more);
        BehindOn(t, r.t, PollConns(r.t, w, tick, s, j + 1).t, s, j);
        if PollConns(r.t, w, tick, s, j + 1).code >= 0 { AllServedOn(t, r.t, tick, s, j, first, more); }
      }
    }
  }

  lemma NobodyLeft(t: Tl, tick: nat -> Tick, s: byte, j: nat)
    requires WellFormed(t) && InUse(t, s) && j == t.maxConns
    ensures AllServed(t, tick, s, j, [])
  {
  }

  lemma BehindInUse(t: Tl, u: Tl, s: nat, j: nat)
    requires WellFormed(t) && InUse(t, s) && Behind(t, u, s, j)
    ensures SameShape(t, u) && InUse(u, s)
  {
  }
}
