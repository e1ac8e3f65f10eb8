/** Every operation of the transport layer is a sequence of legal actions: whatever the legal actions keep,
 *  the operations keep. */
module TransportKeeps {
  import opened Common
  import opened Transport

  /** `good` survives every action the code can take. */
  ghost predicate Kept(good: Net -> bool) {
    forall n: Net, a: Act {:trigger good(Apply(n, a))} :: good(n) && Legal(n, a) ==> good(Apply(n, a))
  }

  lemma HandlesKept(n: Net, a: Act)
    requires !a.Registered? && !a.Destroyed?
    ensures |Apply(n, a).slots| == |n.slots|
    ensures forall i :: 0 <= i < |n.slots| ==> Apply(n, a).slots[i].handle == n.slots[i].handle
  {
  }

  /** `u` is `t` after an action that is neither a registration nor a destruction. */
  ghost predicate SameHandles(t: Tl, u: Tl) {
    && |u.net.slots| == |t.net.slots|
    && forall i :: 0 <= i < |t.net.slots| ==> u.net.slots[i].handle == t.net.slots[i].handle
  }

  lemma DoKeeps(good: Net -> bool, t: Tl, a: Act)
    requires Kept(good) && good(t.net) && Legal(t.net, a) && !a.Registered? && !a.Destroyed?
    ensures good(t.Do(a).net) && SameHandles(t, t.Do(a))
  {
    HandlesKept(t.net, a);
  }

  lemma RequestKeeps(good: Net -> bool, t: Tl, w: nat -> bool, s: nat, c: byte)
    requires WellFormed(t) && s < |t.net.slots| && c < t.maxConns && t.net.slots[s].handle != -1
    requires Kept(good) && good(t.net)
    ensures var u := HandleRequest(t, w, s, c).t; good(u.net) && SameHandles(t, u)
  {
    var d := FirstIdle(t.net.slots[s].conns, 1);
    var ok := t.Next(w);
    if d >= t.maxConns {
      DoKeeps(good, t, Refused(s, c, ok));
    } else {
      DoKeeps(good, t, Offered(s, c, d, ok));
      var t1 := t.Do(Offered(s, c, d, ok));
      if ok {
        assert t1.net.slots[s].conns[d].state == Idle;
        DoKeeps(good, t1, Created(s, d, t1.Next(w)));
      }
    }
  }

  lemma TpduKeeps(good: Net -> bool, t: Tl, w: nat -> bool, s: nat, tag: byte, c: byte, data: seq<byte>)
    requires WellFormed(t) && s < |t.net.slots| && c < t.maxConns && t.net.slots[s].handle != -1
    requires Kept(good) && good(t.net)
    ensures var u := HandleTpdu(t, w, s, tag, c, data).t; good(u.net) && SameHandles(t, u)
  {
    var state := t.At(s, c).state;
    if tag == T_REQUEST_T_C {
      RequestKeeps(good, t, w, s, c);
    } else {
      var a :=
        if tag == T_C_T_C_REPLY then Opened(s, c)
        else if tag == T_DELETE_T_C then CamDeleted(s, c, t.Next(w))
        else if tag == T_D_T_C_REPLY then DeleteAcked(s, c)
        else if tag == T_DATA_MORE then GotMore(s, c, data)
        else if tag == T_DATA_LAST then GotLast(s, c, data)
        else if |data| == 1 && data[0] >= 0x80 then SentReceive(s, c, t.Next(w))
        else Quiet(s, c);
      if Legal(t.net, a) { DoKeeps(good, t, a); }
    }
  }

  lemma PollConnKeeps(good: Net -> bool, t: Tl, w: nat -> bool, tick: Tick, s: nat, j: nat)
    requires WellFormed(t) && s < |t.net.slots| && j < t.maxConns && t.net.slots[s].handle != -1
    requires Kept(good) && good(t.net)
    ensures var u := PollConn(t, w, tick, s, j).t; good(u.net) && SameHandles(t, u)
  {
    var k := t.At(s, j);
    if k.state != Idle {
      var r1 := PollQueue(t, w, s, j);
      if k.queue != [] && Legal(t.net, SentQueued(s, j, k.queue[0], t.Next(w))) {
        DoKeeps(good, t, SentQueued(s, j, k.queue[0], t.Next(w)));
      }
      if r1.code >= 0 {
        AskAndTimeoutKeep(good, r1.t, w, tick, s, j);
      }
    }
  }

  lemma AskAndTimeoutKeep(good: Net -> bool, t: Tl, w: nat -> bool, tick: Tick, s: nat, j: nat)
    requires WellFormed(t) && s < |t.net.slots| && j < t.maxConns && t.net.slots[s].handle != -1
    requires t.At(s, j).waiting || t.At(s, j).state != Active || t.At(s, j).queue == []
    requires Kept(good) && good(t.net)
    ensures var u := PollAsk(t, w, tick, s, j).t; good(u.net) && SameHandles(t, u)
    ensures var u := PollTimeout(PollAsk(t, w, tick, s, j).t, tick, s, j).t; good(u.net) && SameHandles(t, u)
  {
    if Legal(t.net, SentPoll(s, j, t.Next(w))) { DoKeeps(good, t, SentPoll(s, j, t.Next(w))); }
    var u := PollAsk(t, w, tick, s, j).t;
    if Legal(u.net, TimedOut(s, j)) { DoKeeps(good, u, TimedOut(s, j)); }
  }

  lemma {:induction false} PollConnsKeep(good: Net -> bool, t: Tl, w: nat -> bool, tick: nat -> Tick, s: nat, j: nat)
    requires WellFormed(t) && s < |t.net.slots| && j <= t.maxConns && t.net.slots[s].handle != -1
    requires Kept(good) && good(t.net)
    ensures var u := PollConns(t, w, tick, s, j).t; good(u.net) && SameHandles(t, u)
    decreases t.maxConns - j
  {
    if j < t.maxConns {
      PollConnKeeps(good, t, w, tick(j), s, j);
      var r := PollConn(t, w, tick(j), s, j);
      if r.code >= 0 { PollConnsKeep(good, r.t, w, tick, s, j + 1); }
    }
  }

  lemma RegisterKeeps(good: Net -> bool, t: Tl, handle: int, number: byte)
    requires WellFormed(t) && Kept(good) && good(t.net)
    ensures good(RegisterSlot(t, handle, number).t.net)
  {
    var s := FreeSlot(t.net.slots, 0);
    if s < |t.net.slots| {
      assert Legal(t.net, Registered(s, handle, number));
      assert good(Apply(t.net, Registered(s, handle, number)));
    }
  }

  lemma DestroyKeeps(good: Net -> bool, t: Tl, s: byte)
    requires Kept(good) && good(t.net)
    ensures good(DestroySlot(t, s).net)
  {
    if s < |t.net.slots| { assert good(Apply(t.net, Destroyed(s))); }
  }

  lemma SendKeeps(good: Net -> bool, t: Tl, s: nat, c: byte, data: seq<byte>)
    requires WellFormed(t) && Kept(good) && good(t.net)
    ensures good(SendData(t, s, c, data).t.net) && SameHandles(t, SendData(t, s, c, data).t)
  {
    if SendData(t, s, c, data).code == 0 { DoKeeps(good, t, QueuedData(s, c, data)); }
  }

  lemma NewKeeps(good: Net -> bool, t: Tl, s: nat)
    requires WellFormed(t) && Kept(good) && good(t.net)
    ensures good(NewTc(t, s).t.net) && SameHandles(t, NewTc(t, s).t)
  {
    var r := NewTc(t, s);
    if r.code != -1 { DoKeeps(good, t, QueuedCreate(s, r.code)); }
  }

  lemma DelKeeps(good: Net -> bool, t: Tl, s: nat, c: byte)
    requires WellFormed(t) && Kept(good) && good(t.net)
    ensures good(DelTc(t, s, c).t.net) && SameHandles(t, DelTc(t, s, c).t)
  {
    if DelTc(t, s, c).code == 0 { DoKeeps(good, t, QueuedDelete(s, c)); }
  }
}
