/** The EN 50221 transport layer (en50221_transport.c) as a state machine.
 *
 *  Every change the source makes to a slot or a connection is an action (`Act`), kept in a log in the
 *  order it happens.  The operations of the layer are built from actions, so a property of all
 *  legal action logs is a property of all runs.  The outcome of the `i`th action that writes to the link
 *  is `w(i)`; `w` is universally quantified everywhere, and so are the clock readings (`Tick`).
 */
module Transport {
  import opened Common
  import Asn1

  const T_SB: byte := 0x80
  const T_RCV: byte := 0x81
  const T_CREATE_T_C: byte := 0x82
  const T_C_T_C_REPLY: byte := 0x83
  const T_DELETE_T_C: byte := 0x84
  const T_D_T_C_REPLY: byte := 0x85
  const T_REQUEST_T_C: byte := 0x86
  const T_NEW_T_C: byte := 0x87
  const T_T_C_ERROR: byte := 0x77
  const T_DATA_LAST: byte := 0xA0
  const T_DATA_MORE: byte := 0xA1

  const ERR_CAREAD := -1
  const ERR_CAWRITE := -2
  const ERR_TIMEOUT := -3
  const ERR_BADSLOTID := -4
  const ERR_BADCONNECTIONID := -5
  const ERR_BADSTATE := -6
  const ERR_BADCAMDATA := -7
  const ERR_OUTOFCONNECTIONS := -10
  const ERR_OUTOFSLOTS := -11

  datatype ConnState = Idle | Active | DeleteQueued | InCreation | InDeletion

  /** `struct en50221_connection`.  `waiting` is `tx_time.tv_sec != 0`. */
  datatype Conn = Conn(state: ConnState, waiting: bool, chain: Option<seq<byte>>, chainLen: nat, queue: seq<seq<byte>>)

  /** `struct en50221_slot`; `handle == -1` marks an unused slot. */
  datatype Slot = Slot(handle: int, number: byte, conns: seq<Conn>)

  const FRESH_CONN := Conn(Idle, false, None, 0, [])

  datatype Act =
    | Registered(s: byte, handle: int, number: byte)
    | Destroyed(s: byte)
    | QueuedData(s: byte, c: byte, data: seq<byte>)       // send_data, send_datav
    | QueuedCreate(s: byte, c: byte)                      // new_tc
    | QueuedDelete(s: byte, c: byte)                      // del_tc
    | SentQueued(s: byte, c: byte, msg: seq<byte>, ok: bool)
    | SentPoll(s: byte, c: byte, ok: bool)
    | TimedOut(s: byte, c: byte)
    | Opened(s: byte, c: byte)                            // T_C_T_C_REPLY
    | CamDeleted(s: byte, c: byte, ok: bool)              // T_DELETE_T_C, answered with T_D_T_C_REPLY
    | DeleteAcked(s: byte, c: byte)                       // T_D_T_C_REPLY
    | Refused(s: byte, c: byte, ok: bool)                 // T_REQUEST_T_C, answered with T_T_C_ERROR
    | Offered(s: byte, c: byte, d: byte, ok: bool)        // T_REQUEST_T_C, answered with T_NEW_T_C for d
    | Created(s: byte, c: byte, ok: bool)                 // the T_CREATE_T_C that follows it
    | GotMore(s: byte, c: byte, data: seq<byte>)
    | GotLast(s: byte, c: byte, data: seq<byte>)
    | SentReceive(s: byte, c: byte, ok: bool)             // T_SB with data, answered with T_RCV
    | Quiet(s: byte, c: byte)                             // T_SB without data

  /** What the callback of the upper layer is told. */
  datatype Upcall =
    | ConnectionOpen(s: byte, c: byte)
    | CamConnectionOpen(s: byte, c: byte)
    | ConnectionClose(s: byte, c: byte)
    | SlotClose(s: byte)
    | Data(s: byte, c: byte, data: seq<byte>)

  datatype Net = Net(slots: seq<Slot>, acts: seq<Act>, told: seq<Upcall>)

  datatype Tl = Tl(maxConns: nat, net: Net, error: int, errorSlot: int) {
    function Fail(code: int): Tl { this.(error := code) }
    function FailOn(s: int, code: int): Tl { this.(error := code, errorSlot := s) }
    function Do(a: Act): (u: Tl)
      ensures WellFormed(this) ==> SameShape(this, u)
    { this.(net := Apply(net, a)) }
    /** The connection `c` of slot `s`. */
    function At(s: nat, c: nat): Conn
      requires WellFormed(this) && s < |net.slots| && c < maxConns
    { net.slots[s].conns[c] }
    /** The outcome of the next write. */
    function Next(w: nat -> bool): bool { w(|net.acts|) }
  }

  predicate WellFormed(t: Tl) {
    && t.maxConns < 256 && |t.net.slots| < 256
    && forall s :: 0 <= s < |t.net.slots| ==> |t.net.slots[s].conns| == t.maxConns
  }

  /** The arrays of slots and of connections keep their sizes. */
  predicate SameShape(t: Tl, u: Tl) {
    WellFormed(u) && u.maxConns == t.maxConns && |u.net.slots| == |t.net.slots|
  }

  /* ---- Packets ---- */

  /** A TPDU; the length field is truncated to 16 bits. */
  function Frame(tag: byte, c: byte, data: seq<byte>): seq<byte> {
    [tag] + Asn1.Encode((|data| + 1) % 0x10000) + [c] + data
  }

  /** The T_DATA_LAST that `send_data` queues. */
  function DataFrame(c: byte, data: seq<byte>): seq<byte> { Frame(T_DATA_LAST, c, data) }

  function CreateFrame(c: byte): seq<byte> { [T_CREATE_T_C, 1, c] }
  function DeleteFrame(c: byte): seq<byte> { [T_DELETE_T_C, 1, c] }

  /** The bytes an action writes to the link, if it writes. */
  function Packet(a: Act): Option<seq<byte>> {
    match a
    case SentQueued(_, _, msg, _) => Some(msg)
    case SentPoll(_, c, _) => Some([T_DATA_LAST, 1, c])
    case CamDeleted(_, c, _) => Some([T_D_T_C_REPLY, 1, c])
    case Refused(_, c, _) => Some([T_T_C_ERROR, 2, c, 1])
    case Offered(_, c, d, _) => Some([T_NEW_T_C, 2, c, d])
    case Created(_, c, _) => Some(CreateFrame(c))
    case SentReceive(_, c, _) => Some([T_RCV, 1, c])
    case _ => None
  }

  /** `a` attempts to write a packet with this tag on connection `c` of slot `s`. */
  predicate Attempts(a: Act, s: byte, c: byte, tag: byte) {
    a.s == s && Packet(a).Some? && a.c == c && |Packet(a).value| > 0 && Packet(a).value[0] == tag
  }

  predicate IsTag(msg: seq<byte>, tag: byte) { |msg| > 0 && msg[0] == tag }

  /* ---- Actions ---- */

  /** The bytes a chain holds in front of the offset `buffer_length`. */
  function Held(k: Conn): seq<byte> {
    if k.chain.None? then [] else if k.chainLen <= |k.chain.value| then k.chain.value[..k.chainLen] else k.chain.value
  }

  function DropChain(k: Conn): Conn { k.(chain := None, chainLen := 0) }

  /** What an action in its slot makes of connection `c`. */
  function TouchConn(k: Conn, c: nat, a: Act): Conn {
    match a
    case Registered(_, _, _) => k
    case Destroyed(_) => FRESH_CONN
    case Offered(_, x, d, ok) =>
      var k1 := if d == c then DropChain(k) else k;
      if x == c && ok then k1.(waiting := false) else k1
    case _ => if a.c == c then TouchOwn(k, a) else k
  }

  /** What an action makes of the one connection it names. */
  function TouchOwn(k: Conn, a: Act): Conn
    requires !a.Registered? && !a.Destroyed? && !a.Offered?
  {
    match a
    case QueuedData(_, c, data) => k.(queue := k.queue + [DataFrame(c, data)])
    case QueuedCreate(_, c) => DropChain(k).(state := InCreation, queue := k.queue + [CreateFrame(c)])
    case QueuedDelete(_, c) => k.(state := DeleteQueued, queue := k.queue + [DeleteFrame(c)])
    case SentQueued(_, _, msg, ok) =>
      var k1 := k.(queue := if k.queue == [] then [] else k.queue[1..]);
      if !ok then k1
      else if IsTag(msg, T_DELETE_T_C) then DropChain(k1).(waiting := true, state := InDeletion)
      else k1.(waiting := true)
    case SentPoll(_, _, _) => k.(waiting := true)
    case TimedOut(_, _) => k.(state := Idle)
    case Opened(_, _) => k.(state := Active, waiting := false)
    case CamDeleted(_, _, _) => DropChain(k).(state := Idle)
    case DeleteAcked(_, _) => k.(state := Idle)
    case Refused(_, _, ok) => if ok then k.(waiting := false) else k
    case Created(_, _, ok) => if ok then DropChain(k).(state := InCreation, waiting := true) else DropChain(k)
    case GotMore(_, _, data) => k.(waiting := false, chain := Some(Held(k) + data), chainLen := k.chainLen + |data|)
    case GotLast(_, _, _) => if k.chain.None? then k.(waiting := false) else DropChain(k).(waiting := false)
    case SentReceive(_, _, ok) => if ok then k.(waiting := true) else k
    case Quiet(_, _) => k.(waiting := false)
  }

  function TouchSlot(x: Slot, a: Act): Slot {
    var conns := seq(|x.conns|, c requires 0 <= c < |x.conns| => TouchConn(x.conns[c], c, a));
    match a
    case Registered(_, handle, number) => Slot(handle, number, conns)
    case Destroyed(_) => Slot(-1, x.number, conns)
    case _ => x.(conns := conns)
  }

  /** What the upper layer is told when `a` happens in network `n`. */
  function Told(n: Net, a: Act): seq<Upcall> {
    match a
    case Destroyed(s) => [SlotClose(s)]
    case Opened(s, c) => [ConnectionOpen(s, c)]
    case CamDeleted(s, c, ok) => if ok then [ConnectionClose(s, c)] else []
    case Created(s, c, ok) => if ok then [CamConnectionOpen(s, c)] else []
    case GotLast(s, c, data) =>
      if s < |n.slots| && c < |n.slots[s].conns| && data != []
      then [Data(s, c, Held(n.slots[s].conns[c]) + data)] else []
    case _ => []
  }

  function Apply(n: Net, a: Act): Net {
    Net(if a.s < |n.slots| then n.slots[a.s := TouchSlot(n.slots[a.s], a)] else n.slots,
        n.acts + [a],
        n.told + Told(n, a))
  }

  /** When the code can take an action. */
  predicate Legal(n: Net, a: Act) {
    && a.s < |n.slots|
    && match a {
         case Registered(s, _, _) => n.slots[s].handle == -1
         case Destroyed(_) => true
         case Offered(s, c, d, _) =>
           && n.slots[s].handle != -1
           && c < |n.slots[s].conns| && 1 <= d < |n.slots[s].conns| && n.slots[s].conns[d].state == Idle
         case _ =>
           && n.slots[a.s].handle != -1
           && a.c < |n.slots[a.s].conns|
           && LegalOwn(n.slots[a.s].conns[a.c], a)
       }
  }

  predicate LegalOwn(k: Conn, a: Act)
    requires !a.Registered? && !a.Destroyed? && !a.Offered?
  {
    match a
    case QueuedData(_, _, _) => k.state == Active
    case QueuedCreate(_, c) => k.state == Idle && c >= 1
    case QueuedDelete(_, _) => k.state == Active || k.state == InDeletion
    case SentQueued(_, _, msg, _) =>
      && (k.state == InCreation || k.state == Active || k.state == DeleteQueued)
      && k.queue != [] && msg == k.queue[0] && !k.waiting
    case SentPoll(_, _, _) => k.state == Active && !k.waiting && k.queue == []
    case TimedOut(_, _) => k.waiting && (k.state == InCreation || k.state == InDeletion)
    case Opened(_, _) => k.state == InCreation
    case CamDeleted(_, _, _) => k.state == Active || k.state == InDeletion
    case DeleteAcked(_, _) => k.state == InDeletion
    case Refused(_, _, _) => true
    case Created(_, c, _) => k.state == Idle && c >= 1
    case GotMore(_, _, _) => k.state == Active
    case GotLast(_, _, _) => k.state == Active
    case SentReceive(_, _, _) => k.state == Active
    case Quiet(_, _) => k.state == Active
  }

  /* ---- Operations of the host ---- */

  function Create(maxSlots: nat, maxConns: nat): (t: Tl)
    requires maxSlots < 256 && maxConns < 256
    ensures WellFormed(t)
  {
    Tl(maxConns, InitNet(maxSlots, maxConns), 0, 0)
  }

  function InitNet(maxSlots: nat, maxConns: nat): Net {
    Net(seq(maxSlots, _ => Slot(-1, 0, seq(maxConns, _ => FRESH_CONN))), [], [])
  }

  /** The result code of an operation (-1 on failure) and the layer it leaves. */
  datatype Result = Result(t: Tl, code: int)

  /** The first slot not in use, or the number of slots. */
  function FreeSlot(slots: seq<Slot>, i: nat): (r: nat)
    requires i <= |slots|
    ensures i <= r <= |slots|
    ensures r < |slots| ==> slots[r].handle == -1
    ensures forall k :: i <= k < r ==> slots[k].handle != -1
    decreases |slots| - i
  {
    if i == |slots| || slots[i].handle == -1 then i else FreeSlot(slots, i + 1)
  }

  function RegisterSlot(t: Tl, handle: int, number: byte): Result
    requires WellFormed(t)
  {
    var s := FreeSlot(t.net.slots, 0);
    if s == |t.net.slots| then Result(t.Fail(ERR_OUTOFSLOTS), -1)
    else Result(t.Do(Registered(s, handle, number)), s)
  }

  function DestroySlot(t: Tl, s: byte): Tl {
    if s >= |t.net.slots| then t else t.Do(Destroyed(s))
  }

  function SendData(t: Tl, s: nat, c: byte, data: seq<byte>): Result
    requires WellFormed(t)
  {
    if s >= |t.net.slots| || t.net.slots[s].handle == -1 then Result(t.Fail(ERR_BADSLOTID), -1)
    else if c >= t.maxConns then Result(t.FailOn(s, ERR_BADCONNECTIONID), -1)
    else if t.At(s, c).state != Active then Result(t.Fail(ERR_BADCONNECTIONID), -1)
    else Result(t.Do(QueuedData(s, c, data)), 0)
  }

  /** `en50221_tl_alloc_new_tc`: the first idle connection from `i` on, or the number of connections. */
  function FirstIdle(conns: seq<Conn>, i: nat): (r: nat)
    ensures i <= r && (i <= |conns| ==> r <= |conns|)
    ensures r < |conns| ==> conns[r].state == Idle
    ensures forall k :: i <= k < r && k < |conns| ==> conns[k].state != Idle
    decreases |conns| - i
  {
    if i >= |conns| || conns[i].state == Idle then i else FirstIdle(conns, i + 1)
  }

  function NewTc(t: Tl, s: nat): Result
    requires WellFormed(t)
  {
    if s >= |t.net.slots| || t.net.slots[s].handle == -1 then Result(t.Fail(ERR_BADSLOTID), -1)
    else
      var d := FirstIdle(t.net.slots[s].conns, 1);
      if d >= t.maxConns then Result(t.FailOn(s, ERR_OUTOFCONNECTIONS), -1)
      else Result(t.Do(QueuedCreate(s, d)), d)
  }

  function DelTc(t: Tl, s: nat, c: byte): Result
    requires WellFormed(t)
  {
    if s >= |t.net.slots| || t.net.slots[s].handle == -1 then Result(t.Fail(ERR_BADSLOTID), -1)
    else if c >= t.maxConns then Result(t.FailOn(s, ERR_BADCONNECTIONID), -1)
    else if t.At(s, c).state != Active && t.At(s, c).state != InDeletion then
      Result(t.FailOn(s, ERR_BADSTATE), -1)
    else Result(t.Do(QueuedDelete(s, c)), 0)
  }

  /* ---- Received TPDUs ---- */

  /** The handlers of `en50221_tl_process_data`, one TPDU addressed to an existing connection. */
  function HandleTpdu(t: Tl, w: nat -> bool, s: nat, tag: byte, c: byte, data: seq<byte>): (r: Result)
    requires WellFormed(t) && s < |t.net.slots| && c < t.maxConns
    ensures SameShape(t, r.t)
  {
    var state := t.At(s, c).state;
    var bad := Result(t.FailOn(s, ERR_BADCAMDATA), -1);
    if tag == T_C_T_C_REPLY then
      if state == InCreation then Result(t.Do(Opened(s, c)), 0) else bad
    else if tag == T_DELETE_T_C then
      if state == Active || state == InDeletion then Written(t.Do(CamDeleted(s, c, t.Next(w))), s, t.Next(w)) else bad
    else if tag == T_D_T_C_REPLY then
      if state == InDeletion then Result(t.Do(DeleteAcked(s, c)), 0) else bad
    else if tag == T_REQUEST_T_C then HandleRequest(t, w, s, c)
    else if tag == T_DATA_MORE then
      if state == Active then Result(t.Do(GotMore(s, c, data)), 0) else bad
    else if tag == T_DATA_LAST then
      if state == Active then Result(t.Do(GotLast(s, c, data)), 0) else bad
    else if tag == T_SB then
      if state != Active || |data| != 1 then bad
      else if data[0] >= 0x80 then Written(t.Do(SentReceive(s, c, t.Next(w))), s, t.Next(w))
      else Result(t.Do(Quiet(s, c)), 0)
    else bad
  }

  /** What a handler returns after its last write. */
  function Written(t: Tl, s: nat, ok: bool): Result {
    if ok then Result(t, 0) else Result(t.FailOn(s, ERR_CAWRITE), -1)
  }

  /** `en50221_tl_handle_request_tc` */
  function HandleRequest(t: Tl, w: nat -> bool, s: nat, c: byte): (r: Result)
    requires WellFormed(t) && s < |t.net.slots| && c < t.maxConns
    ensures SameShape(t, r.t)
  {
    var d := FirstIdle(t.net.slots[s].conns, 1);
    var ok := t.Next(w);
    if d >= t.maxConns then Written(t.Do(Refused(s, c, ok)), s, ok)
    else
      var t1 := t.Do(Offered(s, c, d, ok));
      if !ok then Written(t1, s, false)
      else Written(t1.Do(Created(s, d, t1.Next(w))), s, t1.Next(w))
  }

  /** The first TPDU of a packet. */
  datatype Parsed = Malformed | Tpdu(tag: byte, c: byte, data: seq<byte>, size: nat)

  function ParseTpdu(p: seq<byte>): (r: Parsed)
    requires p != []
    ensures r.Tpdu? ==> 3 <= r.size <= |p| && |r.data| <= r.size
  {
    match Asn1.Decode(p[1..])
    case Bad => Malformed
    case Length(n, size) =>
      Asn1.DecodeSound(p[1..]);
      if n < 1 || n > |p| - (1 + size) then Malformed
      else Tpdu(p[0], p[1 + size], p[size + 2..size + 1 + n], 1 + size + n)
  }

  /* ---- Polling ---- */

  /** The clock readings of one visit to a connection. */
  datatype Tick = Tick(pollDue: bool, timedOut: bool)

  /** What `poll` and `dvbca_link_read` report for a slot. */
  datatype Rx = Nothing | PollError | ReadFailed | Readable(number: byte, data: seq<byte>)

  /** Sends the head of the queue when nothing is awaited. */
  function PollQueue(t: Tl, w: nat -> bool, s: nat, j: nat): (r: Result)
    requires WellFormed(t) && s < |t.net.slots| && j < t.maxConns
    ensures SameShape(t, r.t)
  {
    var k := t.At(s, j);
    if (k.state == InCreation || k.state == Active || k.state == DeleteQueued) && k.queue != [] && !k.waiting
    then Written(t.Do(SentQueued(s, j, k.queue[0], t.Next(w))), s, t.Next(w))
    else Result(t, 0)
  }

  /** Asks the module for data when nothing is awaited. */
  function PollAsk(t: Tl, w: nat -> bool, tick: Tick, s: nat, j: nat): (r: Result)
    requires WellFormed(t) && s < |t.net.slots| && j < t.maxConns
    ensures SameShape(t, r.t)
  {
    var k := t.At(s, j);
    if k.state == Active && !k.waiting && tick.pollDue
    then Written(t.Do(SentPoll(s, j, t.Next(w))), s, t.Next(w))
    else Result(t, 0)
  }

  function PollTimeout(t: Tl, tick: Tick, s: nat, j: nat): (r: Result)
    requires WellFormed(t) && s < |t.net.slots| && j < t.maxConns
    ensures SameShape(t, r.t)
  {
    var k := t.At(s, j);
    if !k.waiting || !tick.timedOut || k.state == Idle then Result(t, 0)
    else if k.state == InCreation || k.state == InDeletion then Result(t.Do(TimedOut(s, j)), 0)
    else Result(t.FailOn(s, ERR_TIMEOUT), -1)
  }

  function PollConn(t: Tl, w: nat -> bool, tick: Tick, s: nat, j: nat): (r: Result)
    requires WellFormed(t) && s < |t.net.slots| && j < t.maxConns
    ensures SameShape(t, r.t)
  {
    if t.At(s, j).state == Idle then Result(t, 0)
    else
      var r1 := PollQueue(t, w, s, j);
      if r1.code < 0 then r1
      else
        var r2 := PollAsk(r1.t, w, tick, s, j);
        if r2.code < 0 then r2 else PollTimeout(r2.t, tick, s, j)
  }

  /** The connections of a slot from `j` on. */
  function PollConns(t: Tl, w: nat -> bool, tick: nat -> Tick, s: nat, j: nat): (r: Result)
    requires WellFormed(t) && s < |t.net.slots| && j <= t.maxConns
    ensures SameShape(t, r.t)
    decreases t.maxConns - j
  {
    if j == t.maxConns then Result(t, 0)
    else
      var r := PollConn(t, w, tick(j), s, j);
      if r.code < 0 then r else PollConns(r.t, w, tick, s, j + 1)
  }

  /** The slot a packet is for: the same device, another CAM number. */
  function Route(slots: seq<Slot>, handle: int, number: byte, i: nat): (r: nat)
    requires i <= |slots|
    ensures i <= r <= |slots|
    ensures r < |slots| ==> slots[r].handle == handle && slots[r].number == number
    decreases |slots| - i
  {
    if i == |slots| || (slots[i].handle == handle && slots[i].number == number) then i
    else Route(slots, handle, number, i + 1)
  }
}
