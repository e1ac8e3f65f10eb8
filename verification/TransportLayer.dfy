/** The transport layer as the source has it: tables updated in place, loops over slots and connections.
 *  Every method is proved against the state machine of module `Transport`, and keeps the state invariant. */
module TransportLayer {
  import opened Common
  import opened Transport
  import opened TransportKeeps
  import opened TransportSafety
  import Asn1

  class TransportLayer {
    const maxConns: nat
    const slots: array<Slot>
    var error: int
    var errorSlot: int
    /** What has happened, and what the upper layer has been told. */
    var acts: seq<Act>
    var told: seq<Upcall>

    /** The tables have their shapes. */
    ghost predicate Formed()
      reads this, slots
    {
      WellFormed(View())
    }

    /** The state invariant holds. */
    ghost predicate Valid()
      reads this, slots
    {
      Formed() && Inv(View().net)
    }

    ghost function View(): Tl
      reads this, slots
    {
      Tl(maxConns, Net(slots[..], acts, told), error, errorSlot)
    }

    constructor (maxSlots: nat, maxConns: nat)
      requires maxSlots < 256 && maxConns < 256
      ensures fresh(slots)
      ensures Valid() && View() == Create(maxSlots, maxConns)
    {
      this.maxConns := maxConns;
      slots := new Slot[maxSlots];
      error, errorSlot, acts, told := 0, 0, [], [];
      new;
      var i := 0;
      while i < maxSlots
        modifies slots
        invariant i <= maxSlots
        invariant forall k :: 0 <= k < i ==> slots[k] == Slot(-1, 0, seq(maxConns, _ => FRESH_CONN))
      {
        var conns := [];
        var j := 0;
        while j < maxConns
          invariant j <= maxConns && conns == seq(j, _ => FRESH_CONN)
        {
          conns := conns + [FRESH_CONN];
          j := j + 1;
        }
        slots[i] := Slot(-1, 0, conns);
        i := i + 1;
      }
      assert slots[..] == InitNet(maxSlots, maxConns).slots;
    }

    /* ---- Storing ---- */

    /** Stores connection `c` of slot `s`. */
    method SetConn(s: nat, c: nat, k: Conn)
      requires Formed() && s < slots.Length && c < maxConns
      modifies slots
      ensures View() == old(View()).(net := old(View().net).(slots := Stored(old(slots[..]), s, c, k)))
      ensures Formed()
    {
      slots[s] := slots[s].(conns := slots[s].conns[c := k]);
    }

    static ghost function Stored(slots: seq<Slot>, s: nat, c: nat, k: Conn): seq<Slot>
      requires s < |slots| && c < |slots[s].conns|
    {
      slots[s := slots[s].(conns := slots[s].conns[c := k])]
    }

    /** An action that touches the one connection it names is one store. */
    static lemma OneStore(n: Net, a: Act)
      requires !a.Registered? && !a.Destroyed? && !a.Offered? && a.s < |n.slots| && a.c < |n.slots[a.s].conns|
      ensures Apply(n, a).slots == Stored(n.slots, a.s, a.c, TouchOwn(n.slots[a.s].conns[a.c], a))
    {
      assert TouchSlot(n.slots[a.s], a).conns == n.slots[a.s].conns[a.c := TouchOwn(n.slots[a.s].conns[a.c], a)];
    }

    method Fail(code: int) returns (r: int)
      requires Valid()
      modifies this
      ensures Valid() && View() == old(View()).Fail(code) && r == -1
    {
      error := code;
      return -1;
    }

    method FailOn(s: int, code: int) returns (r: int)
      requires Valid()
      modifies this
      ensures Valid() && View() == old(View()).FailOn(s, code) && r == -1
    {
      error := code;
      errorSlot := s;
      return -1;
    }

    /** Stores what a legal action makes of the connection it names, and records the action. */
    method Note(a: Act, k: Conn)
      requires Valid() && !a.Registered? && !a.Destroyed? && !a.Offered? && a.s < slots.Length && a.c < maxConns
      requires k == TouchOwn(slots[a.s].conns[a.c], a) && LegalOwn(slots[a.s].conns[a.c], a)
      requires slots[a.s].handle != -1 || slots[a.s].conns[a.c].state != Idle
      modifies this, slots
      ensures Valid() && View() == old(View()).Do(a)
    {
      hide LegalOwn, TouchOwn;
      InUse(View().net, a.s, a.c);
      Keeps(View().net, a);
      OneStore(View().net, a);
      told := told + Told(Net(slots[..], acts, told), a);
      acts := acts + [a];
      SetConn(a.s, a.c, k);
    }

    static lemma Keeps(n: Net, a: Act)
      requires Inv(n) && Legal(n, a)
      ensures Inv(Apply(n, a))
    {
      InvKept();
    }

    /** Only slots in use have connections that are not idle. */
    static lemma InUse(n: Net, s: nat, c: nat)
      requires Inv(n) && s < |n.slots| && c < |n.slots[s].conns|
      ensures n.slots[s].conns[c].state != Idle ==> n.slots[s].handle != -1
    {
      assert GoodSlot(n.slots[s]);
    }

    /* ---- Operations of the host ---- */

    method RegisterSlot(handle: int, number: byte) returns (code: int)
      requires Valid()
      modifies this, slots
      ensures Valid() && Result(View(), code) == Transport.RegisterSlot(old(View()), handle, number)
    {
      var i := 0;
      while i < slots.Length && slots[i].handle != -1
        invariant i <= slots.Length && FreeSlot(slots[..], i) == FreeSlot(slots[..], 0)
      {
        i := i + 1;
      }
      if i == slots.Length {
        code := Fail(ERR_OUTOFSLOTS);
        return;
      }
      ghost var a := Registered(i, handle, number);
      Keeps(View().net, a);
      assert TouchSlot(slots[i], a).conns == slots[i].conns;
      slots[i] := slots[i].(handle := handle, number := number);
      acts := acts + [Registered(i, handle, number)];
      assert View() == old(View()).Do(a);
      return i;
    }

    method DestroySlot(s: byte)
      requires Valid()
      modifies this, slots
      ensures Valid() && View() == Transport.DestroySlot(old(View()), s)
    {
      if s >= slots.Length { return; }
      Keeps(View().net, Destroyed(s));
      var x := slots[s];
      x := x.(handle := -1);
      var i := 0;
      while i < maxConns
        invariant i <= maxConns && |x.conns| == maxConns && x.handle == -1 && x.number == old(slots[s].number)
        invariant forall k :: 0 <= k < i ==> x.conns[k] == FRESH_CONN
      {
        var k := x.conns[i];
        k := k.(state := Idle, waiting := false);
        k := k.(chain := None, chainLen := 0);
        k := k.(queue := []);
        x := x.(conns := x.conns[i := k]);
        i := i + 1;
      }
      assert x == TouchSlot(slots[s], Destroyed(s));
      slots[s] := x;
      told := told + [SlotClose(s)];
      acts := acts + [Destroyed(s)];
    }

    /** The message `send_data` builds, in a buffer ten octets longer than the data. */
    method BuildFrame(c: byte, data: seq<byte>) returns (msg: seq<byte>)
      ensures msg == DataFrame(c, data)
    {
      var buf := new byte[|data| + 10](_ => 0);
      var n := BuildHeader(c, |data| + 1, buf);
      CopyAt(data, buf, n);
      msg := buf[..n + |data|];
      assert msg == buf[..n] + buf[n..n + |data|];
    }

    /** The `T_DATA_LAST` tag, the length and the connection. */
    method BuildHeader(c: byte, length: nat, buf: array<byte>) returns (n: nat)
      requires buf.Length >= 9
      modifies buf
      ensures n <= 5 && buf[..n] == [T_DATA_LAST] + Asn1.Encode(length % 0x10000) + [c]
    {
      buf[0] := T_DATA_LAST;
      var size := Asn1.EncodeInto(length % 0x10000, buf, 1, 3);
      assert buf[..1 + size] == [T_DATA_LAST] + buf[1..1 + size];
      buf[1 + size] := c;
      n := 2 + size;
      assert buf[..n] == buf[..n - 1] + [c];
    }

    /** `memcpy` */
    method CopyAt(data: seq<byte>, buf: array<byte>, at: nat)
      requires at + |data| <= buf.Length
      modifies buf
      ensures buf[..at] == old(buf[..at]) && buf[at..at + |data|] == data
    {
      for i := 0 to |data|
        invariant buf[..at] == old(buf[..at]) && buf[at..at + i] == data[..i]
      {
        buf[at + i] := data[i];
      }
    }

    /** The checks `send_data`, `send_datav` and `del_tc` begin with. */
    method CheckConn(s: byte, c: byte) returns (code: int)
      requires Valid()
      modifies this
      ensures Valid() && View().net == old(View()).net
      ensures (code == 0) == (s < slots.Length && slots[s].handle != -1 && c < maxConns)
      ensures code == 0 ==> View() == old(View())
      ensures code != 0 ==> code == -1
      ensures s >= slots.Length || slots[s].handle == -1 ==> View() == old(View()).Fail(ERR_BADSLOTID)
      ensures s < slots.Length && slots[s].handle != -1 && c >= maxConns ==>
        View() == old(View()).FailOn(s, ERR_BADCONNECTIONID)
    {
      if s >= slots.Length || slots[s].handle == -1 {
        code := Fail(ERR_BADSLOTID);
      } else if c >= maxConns {
        code := FailOn(s, ERR_BADCONNECTIONID);
      } else {
        code := 0;
      }
    }

    method SendData(s: byte, c: byte, data: seq<byte>) returns (code: int)
      requires Valid()
      modifies this, slots
      ensures Valid() && Result(View(), code) == Transport.SendData(old(View()), s, c, data)
    {
      code := CheckConn(s, c);
      if code != 0 { return; }
      var k := slots[s].conns[c];
      if k.state != Active {
        code := Fail(ERR_BADCONNECTIONID);
        return;
      }
      var msg := BuildFrame(c, data);
      Note(QueuedData(s, c, data), k.(queue := k.queue + [msg]));
    }

    /** Merges the vector and queues it like `SendData`. */
    method SendDataV(s: byte, c: byte, vector: seq<seq<byte>>) returns (code: int)
      requires Valid()
      modifies this, slots
      ensures Valid() && Result(View(), code) == Transport.SendData(old(View()), s, c, Flatten(vector))
    {
      code := CheckConn(s, c);
      if code != 0 { return; }
      var k := slots[s].conns[c];
      if k.state != Active {
        code := Fail(ERR_BADCONNECTIONID);
        return;
      }
      var data := [];
      var i := 0;
      while i < |vector|
        modifies {}
        invariant i <= |vector| && data == Flatten(vector[..i])
      {
        FlattenAppend(vector[..i], [vector[i]]);
        assert vector[..i + 1] == vector[..i] + [vector[i]];
        data := data + vector[i];
        i := i + 1;
      }
      assert vector[..i] == vector;
      var msg := BuildFrame(c, data);
      Note(QueuedData(s, c, data), k.(queue := k.queue + [msg]));
    }

    /** The search of `en50221_tl_alloc_new_tc`. */
    method FindIdle(s: nat) returns (conid: nat)
      requires Valid() && s < slots.Length
      ensures conid == FirstIdle(slots[s].conns, 1)
    {
      conid := 1;
      while conid < maxConns && slots[s].conns[conid].state != Idle
        invariant 1 <= conid && FirstIdle(slots[s].conns, conid) == FirstIdle(slots[s].conns, 1)
        decreases maxConns - conid
      {
        conid := conid + 1;
      }
    }

    method NewTc(s: byte) returns (code: int)
      requires Valid()
      modifies this, slots
      ensures Valid() && Result(View(), code) == Transport.NewTc(old(View()), s)
    {
      if s >= slots.Length || slots[s].handle == -1 {
        code := Fail(ERR_BADSLOTID);
        return;
      }
      var conid := FindIdle(s);
      if conid >= maxConns {
        code := FailOn(s, ERR_OUTOFCONNECTIONS);
        return;
      }
      var k := slots[s].conns[conid];
      k := k.(state := InCreation, chain := None, chainLen := 0);
      k := k.(queue := k.queue + [[T_CREATE_T_C, 1, conid]]);
      Note(QueuedCreate(s, conid), k);
      return conid;
    }

    method DelTc(s: byte, c: byte) returns (code: int)
      requires Valid()
      modifies this, slots
      ensures Valid() && Result(View(), code) == Transport.DelTc(old(View()), s, c)
    {
      code := CheckConn(s, c);
      if code != 0 { return; }
      var k := slots[s].conns[c];
      if k.state != Active && k.state != InDeletion {
        code := FailOn(s, ERR_BADSTATE);
        return;
      }
      k := k.(queue := k.queue + [[T_DELETE_T_C, 1, c]]);
      k := k.(state := DeleteQueued);
      Note(QueuedDelete(s, c), k);
    }

    /* ---- Received TPDUs ---- */

    method HandleCreateReply(s: nat, c: byte) returns (code: int)
      requires Valid() && s < slots.Length && c < maxConns
      modifies this, slots
      ensures Valid() && forall w, data :: Result(View(), code) == HandleTpdu(old(View()), w, s, T_C_T_C_REPLY, c, data)
    {
      var k := slots[s].conns[c];
      if k.state == InCreation {
        Note(Opened(s, c), k.(state := Active, waiting := false));
        code := 0;
      } else {
        code := FailOn(s, ERR_BADCAMDATA);
      }
    }

    method HandleDelete(w: nat -> bool, s: nat, c: byte) returns (code: int)
      requires Valid() && s < slots.Length && c < maxConns
      modifies this, slots
      ensures Valid() && forall data :: Result(View(), code) == HandleTpdu(old(View()), w, s, T_DELETE_T_C, c, data)
    {
      var k := slots[s].conns[c];
      if k.state == Active || k.state == InDeletion {
        k := k.(state := Idle);
        k := k.(chain := None, chainLen := 0);
        var ok := w(|acts|);
        Note(CamDeleted(s, c, ok), k);
        if !ok {
          code := FailOn(s, ERR_CAWRITE);
          return;
        }
        code := 0;
      } else {
        code := FailOn(s, ERR_BADCAMDATA);
      }
    }

    method HandleDeleteReply(s: nat, c: byte) returns (code: int)
      requires Valid() && s < slots.Length && c < maxConns
      modifies this, slots
      ensures Valid() && forall w, data :: Result(View(), code) == HandleTpdu(old(View()), w, s, T_D_T_C_REPLY, c, data)
    {
      var k := slots[s].conns[c];
      if k.state == InDeletion {
        Note(DeleteAcked(s, c), k.(state := Idle));
        code := 0;
      } else {
        code := FailOn(s, ERR_BADCAMDATA);
      }
    }

    /** The two stores an offer makes: the new connection is cleared, and the host stops waiting on the old one. */
    static lemma TwoStores(n: Net, s: byte, c: byte, d: byte, ok: bool)
      requires s < |n.slots| && c < |n.slots[s].conns| && d < |n.slots[s].conns|
      ensures var n1 := Stored(n.slots, s, d, DropChain(n.slots[s].conns[d]));
        Apply(n, Offered(s, c, d, ok)).slots == if ok then Stored(n1, s, c, n1[s].conns[c].(waiting := false)) else n1
    {
      var n1 := Stored(n.slots, s, d, DropChain(n.slots[s].conns[d]));
      var n2 := if ok then Stored(n1, s, c, n1[s].conns[c].(waiting := false)) else n1;
      assert TouchSlot(n.slots[s], Offered(s, c, d, ok)).conns == n2[s].conns;
    }

    method HandleRequest(w: nat -> bool, s: nat, c: byte) returns (code: int)
      requires Valid() && s < slots.Length && c < maxConns && slots[s].handle != -1
      modifies this, slots
      ensures Valid() && Result(View(), code) == Transport.HandleRequest(old(View()), w, s, c)
    {
      var conid := FindIdle(s);
      var ok := w(|acts|);
      if conid >= maxConns {
        var k := slots[s].conns[c];
        if ok { k := k.(waiting := false); }
        Note(Refused(s, c, ok), k);
        code := 0;
        if !ok { code := FailOn(s, ERR_CAWRITE); }
        return;
      }
      StoreOffer(s, c, conid, ok);
      if !ok {
        code := FailOn(s, ERR_CAWRITE);
        return;
      }
      code := CreateOffered(w, s, conid);
    }

    /** The stores around the T_NEW_T_C: the search has put the new connection in creation, and a failed write puts
     *  it back. */
    method StoreOffer(s: nat, c: byte, d: byte, ok: bool)
      requires Valid() && s < slots.Length && c < maxConns && slots[s].handle != -1
      requires 1 <= d < maxConns && slots[s].conns[d].state == Idle
      modifies this, slots
      ensures Valid() && View() == old(View()).Do(Offered(s, c, d, ok))
      ensures slots[s].conns[d].state == Idle && slots[s].handle != -1
    {
      TwoStores(View().net, s, c, d, ok);
      Keeps(View().net, Offered(s, c, d, ok));
      var k := slots[s].conns[d].(state := InCreation, chain := None, chainLen := 0);
      SetConn(s, d, k.(state := Idle));
      if ok { SetConn(s, c, slots[s].conns[c].(waiting := false)); }
      acts := acts + [Offered(s, c, d, ok)];
    }

    /** The T_CREATE_T_C of `en50221_tl_handle_request_tc`. */
    method CreateOffered(w: nat -> bool, s: nat, d: byte) returns (code: int)
      requires Valid() && s < slots.Length && 1 <= d < maxConns && slots[s].conns[d].state == Idle && slots[s].handle != -1
      modifies this, slots
      ensures Valid() && var t := old(View()); Result(View(), code) == Written(t.Do(Created(s, d, t.Next(w))), s, t.Next(w))
    {
      var ok := w(|acts|);
      var k := slots[s].conns[d].(state := InCreation, chain := None, chainLen := 0);
      if !ok {
        Note(Created(s, d, false), k.(state := Idle));
        code := FailOn(s, ERR_CAWRITE);
        return;
      }
      Note(Created(s, d, true), k.(waiting := true));
      code := 0;
    }

    method HandleMore(s: nat, c: byte, data: seq<byte>) returns (code: int)
      requires Valid() && s < slots.Length && c < maxConns
      modifies this, slots
      ensures Valid() && forall w :: Result(View(), code) == HandleTpdu(old(View()), w, s, T_DATA_MORE, c, data)
    {
      var k := slots[s].conns[c];
      if k.state != Active {
        code := FailOn(s, ERR_BADCAMDATA);
        return;
      }
      var buf := Held(k) + data;
      Note(GotMore(s, c, data), k.(waiting := false, chain := Some(buf), chainLen := k.chainLen + |data|));
      code := 0;
    }

    method HandleLast(s: nat, c: byte, data: seq<byte>) returns (code: int)
      requires Valid() && s < slots.Length && c < maxConns
      modifies this, slots
      ensures Valid() && forall w :: Result(View(), code) == HandleTpdu(old(View()), w, s, T_DATA_LAST, c, data)
    {
      var k := slots[s].conns[c];
      if k.state != Active {
        code := FailOn(s, ERR_BADCAMDATA);
        return;
      }
      k := k.(waiting := false);
      if k.chain.Some? { k := k.(chain := None, chainLen := 0); }
      Note(GotLast(s, c, data), k);
      code := 0;
    }

    method HandleSb(w: nat -> bool, s: nat, c: byte, data: seq<byte>) returns (code: int)
      requires Valid() && s < slots.Length && c < maxConns
      modifies this, slots
      ensures Valid() && Result(View(), code) == HandleTpdu(old(View()), w, s, T_SB, c, data)
    {
      var k := slots[s].conns[c];
      if k.state != Active || |data| != 1 {
        code := FailOn(s, ERR_BADCAMDATA);
        return;
      }
      code := 0;
      if data[0] >= 0x80 {
        var ok := w(|acts|);
        if ok { k := k.(waiting := true); }
        Note(SentReceive(s, c, ok), k);
        if !ok { code := FailOn(s, ERR_CAWRITE); }
      } else {
        Note(Quiet(s, c), k.(waiting := false));
      }
    }

    /** The dispatch of `en50221_tl_process_data`. */
    method Handle(w: nat -> bool, s: nat, tag: byte, c: byte, data: seq<byte>) returns (code: int)
      requires Valid() && s < slots.Length && c < maxConns && slots[s].handle != -1
      modifies this, slots
      ensures Valid() && Result(View(), code) == HandleTpdu(old(View()), w, s, tag, c, data)
    {
      if tag == T_C_T_C_REPLY { code := HandleCreateReply(s, c); }
      else if tag == T_DELETE_T_C { code := HandleDelete(w, s, c); }
      else if tag == T_D_T_C_REPLY { code := HandleDeleteReply(s, c); }
      else if tag == T_REQUEST_T_C { code := HandleRequest(w, s, c); }
      else if tag == T_DATA_MORE { code := HandleMore(s, c, data); }
      else if tag == T_DATA_LAST { code := HandleLast(s, c, data); }
      else if tag == T_SB { code := HandleSb(w, s, c, data); }
      else { code := FailOn(s, ERR_BADCAMDATA); }
    }

    /* ---- Polling ---- */

    method PollQueue(w: nat -> bool, s: nat, j: nat) returns (code: int)
      requires Valid() && s < slots.Length && j < maxConns
      modifies this, slots
      ensures Valid() && Result(View(), code) == Transport.PollQueue(old(View()), w, s, j)
    {
      var k := slots[s].conns[j];
      code := 0;
      if (k.state == InCreation || k.state == Active || k.state == DeleteQueued) && k.queue != [] && !k.waiting {
        var msg := k.queue[0];
        k := k.(queue := k.queue[1..]);
        var ok := w(|acts|);
        if !ok {
          Note(SentQueued(s, j, msg, false), k);
          code := FailOn(s, ERR_CAWRITE);
          return;
        }
        k := k.(waiting := true);
        if |msg| > 0 && msg[0] == T_DELETE_T_C {
          k := k.(state := InDeletion);
          k := k.(chain := None, chainLen := 0);
        }
        Note(SentQueued(s, j, msg, true), k);
      }
    }

    method PollAsk(w: nat -> bool, tick: Tick, s: nat, j: nat) returns (code: int)
      requires Valid() && s < slots.Length && j < maxConns
      requires slots[s].conns[j].waiting || slots[s].conns[j].state != Active || slots[s].conns[j].queue == []
      modifies this, slots
      ensures Valid() && Result(View(), code) == Transport.PollAsk(old(View()), w, tick, s, j)
    {
      var k := slots[s].conns[j];
      code := 0;
      if k.state == Active && !k.waiting && tick.pollDue {
        var ok := w(|acts|);
        Note(SentPoll(s, j, ok), k.(waiting := true));
        if !ok { code := FailOn(s, ERR_CAWRITE); }
      }
    }

    method PollTimeout(tick: Tick, s: nat, j: nat) returns (code: int)
      requires Valid() && s < slots.Length && j < maxConns
      modifies this, slots
      ensures Valid() && Result(View(), code) == Transport.PollTimeout(old(View()), tick, s, j)
    {
      var k := slots[s].conns[j];
      code := 0;
      if k.waiting && tick.timedOut {
        if k.state == InCreation || k.state == InDeletion {
          Note(TimedOut(s, j), k.(state := Idle));
        } else if k.state == Active || k.state == DeleteQueued {
          code := FailOn(s, ERR_TIMEOUT);
        }
      }
    }

    /** One pass over the connections of a slot. */
    method PollConns(w: nat -> bool, tick: nat -> Tick, s: nat) returns (code: int)
      requires Valid() && s < slots.Length
      modifies this, slots
      ensures Valid() && Result(View(), code) == Transport.PollConns(old(View()), w, tick, s, 0)
    {
      var j := 0;
      while j < maxConns
        invariant j <= maxConns && Valid()
        invariant Transport.PollConns(View(), w, tick, s, j) == Transport.PollConns(old(View()), w, tick, s, 0)
      {
        if slots[s].conns[j].state != Idle {
          QueueDone(View(), w, s, j);
          code := PollQueue(w, s, j);
          if code < 0 { return; }
          code := PollAsk(w, tick(j), s, j);
          if code < 0 { return; }
          code := PollTimeout(tick(j), s, j);
          if code < 0 { return; }
        }
        j := j + 1;
      }
      code := 0;
    }
  }
}
