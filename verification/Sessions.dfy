/** The EN 50221 session layer (en50221_session.c) on top of the transport layer, together with the parts of
 *  the transport layer that call back into it (receiving a packet, polling, destroying a slot).
 *
 *  What the application answers when it is asked about the `i`th upcall is `app(i)`.
 */
module Sessions {
  import opened Common
  import opened Transport
  import Asn1

  const S_STATUS_OPEN := 0x00
  const S_STATUS_CLOSE_NO_RES := 0xF0
  const S_STATUS_CLOSE_RES_UNAVAILABLE := 0xF1
  const S_STATUS_CLOSE_RES_LOW_VERSION := 0xF2
  const S_STATUS_CLOSE_RES_BUSY := 0xF3

  const ST_SESSION_NUMBER: byte := 0x90
  const ST_OPEN_SESSION_REQ: byte := 0x91
  const ST_OPEN_SESSION_RES: byte := 0x92
  const ST_CREATE_SESSION: byte := 0x93
  const ST_CREATE_SESSION_RES: byte := 0x94
  const ST_CLOSE_SESSION_REQ: byte := 0x95
  const ST_CLOSE_SESSION_RES: byte := 0x96

  const ERR_IOVLIMIT := -12
  const ERR_BADSESSIONNUMBER := -13
  const ERR_OUTOFSESSIONS := -14

  datatype SessionState = Free | Open | Opening | Closing

  /** `struct en50221_session`; `callback` tells whether a resource callback is set. */
  datatype Session = Session(state: SessionState, resource: nat, slot: byte, conn: byte, callback: bool)

  /** A call of the session callback or, for `Lookup` and `Apdu`, of the lookup and of a resource callback. */
  datatype Call =
    | Lookup(slot: nat, resource: nat)
    | TcConnect(slot: nat, conn: byte)
    | TcCamConnect(slot: nat, conn: byte)
    | CamConnecting(slot: nat, session: nat, resource: nat)
    | CamConnected(slot: nat, session: nat, resource: nat)
    | Connected(slot: nat, session: nat, resource: nat)
    | ConnectFail(slot: nat, session: nat, resource: nat)
    | Close(slot: nat, session: nat, resource: nat)
    | Apdu(slot: nat, session: nat, resource: nat, apdu: seq<byte>)

  /** The answers of the application: the lookup callback's result, resource and resource callback (`found` is false
   *  when there is no lookup callback, and then `resource` is whatever the variable holds), whether a session callback exists,
   *  and whether it objects to a connecting session. */
  datatype App = App(found: bool, status: int, resource: nat, handler: bool, callback: bool, busy: bool)

  datatype Stack = Stack(tl: Tl, sessions: seq<Session>, error: int, calls: seq<Call>) {
    function Fail(code: int): Stack { this.(error := code) }
    function Say(call: Call): Stack { this.(calls := calls + [call]) }
    function Set(n: nat, state: SessionState): Stack
      requires n < |sessions|
    { this.(sessions := sessions[n := sessions[n].(state := state)]) }
  }

  predicate Sound(x: Stack) { WellFormed(x.tl) }

  /** The layers keep the sizes of their tables. */
  predicate Fits(x: Stack, y: Stack) { SameShape(x.tl, y.tl) && |y.sessions| == |x.sessions| }

  datatype Outcome = Outcome(x: Stack, code: int)

  function Hi(n: nat): byte { n / 256 % 256 }
  function Lo(n: nat): byte { n % 256 }
  function Be16(hi: byte, lo: byte): nat { (hi as nat) * 256 + lo }
  function Word32(b0: byte, b1: byte, b2: byte, b3: byte): nat { b0 as nat * 0x1000000 + b1 as nat * 0x10000 + b2 as nat * 0x100 + b3 }
  function Be32(n: nat): seq<byte> { [n / 0x1000000 % 256, n / 0x10000 % 256, n / 0x100 % 256, n % 256] }

  /** A new pair of layers; `junk` is what `malloc` left in the session table. */
  function CreateStack(maxSlots: nat, maxConns: nat, junk: seq<Session>): (x: Stack)
    requires maxSlots < 256 && maxConns < 256
    ensures Sound(x)
  {
    Stack(Create(maxSlots, maxConns),
          seq(|junk|, i requires 0 <= i < |junk| => junk[i].(state := Free, callback := false)), 0, [])
  }

  /* ---- Operations of the host ---- */

  /** The search of `en50221_sl_alloc_new_session`: the first free session from `i` on. */
  function FreeSession(sessions: seq<Session>, i: nat): (r: nat)
    ensures i <= r && (i <= |sessions| ==> r <= |sessions|)
    ensures r < |sessions| ==> sessions[r].state == Free
    ensures forall k :: i <= k < r && k < |sessions| ==> sessions[k].state != Free
    decreases |sessions| - i
  {
    if i >= |sessions| || sessions[i].state == Free then i else FreeSession(sessions, i + 1)
  }

  /** Queues an SPDU; the result is that of `en50221_tl_send_data`. */
  function Send(x: Stack, s: nat, c: byte, spdu: seq<byte>): (r: Outcome)
    requires Sound(x)
    ensures Fits(x, r.x) && r.x.sessions == x.sessions && r.x.calls == x.calls
  {
    var r := SendData(x.tl, s, c, spdu);
    Outcome(x.(tl := r.t), r.code)
  }

  function CreateSession(x: Stack, slot: int, c: byte, resource: nat, callback: bool): (r: Outcome)
    requires Sound(x)
    ensures Fits(x, r.x)
  {
    var n := FreeSession(x.sessions, 1);
    if n >= |x.sessions| then Outcome(x.Fail(ERR_OUTOFSESSIONS), -1)
    else
      var x1 := x.(sessions := x.sessions[n := Session(Opening, resource, slot % 256, c, callback)]);
      var r := Send(x1, slot % 256, c, [ST_CREATE_SESSION, 6] + Be32(resource) + [Hi(n), Lo(n)]);
      if r.code != 0 then Outcome(r.x.Set(n, Free).Fail(r.x.tl.error), -1) else Outcome(r.x, n)
  }

  function DestroySession(x: Stack, n: nat): (r: Outcome)
    requires Sound(x)
    ensures Fits(x, r.x)
  {
    if n >= |x.sessions| || (x.sessions[n].state != Open && x.sessions[n].state != Closing) then
      Outcome(x.Fail(ERR_BADSESSIONNUMBER), -1)
    else
      var r := Send(x.Set(n, Closing), x.sessions[n].slot, x.sessions[n].conn, [ST_CLOSE_SESSION_REQ, 2, Hi(n), Lo(n)]);
      if r.code != 0 then Outcome(r.x.Set(n, Free).Fail(r.x.tl.error), -1) else r
  }

  /** The SPDU that carries APDUs. */
  function DataSpdu(n: nat, data: seq<byte>): seq<byte> { [ST_SESSION_NUMBER, 2, Hi(n), Lo(n)] + data }

  function SendSession(x: Stack, n: nat, data: seq<byte>): (r: Outcome)
    requires Sound(x)
    ensures Fits(x, r.x) && r.x.sessions == x.sessions && r.x.calls == x.calls
  {
    if n >= |x.sessions| || x.sessions[n].state != Open then Outcome(x.Fail(ERR_BADSESSIONNUMBER), -1)
    else
      var r := Send(x, x.sessions[n].slot, x.sessions[n].conn, DataSpdu(n, data));
      if r.code != 0 then Outcome(r.x.Fail(r.x.tl.error), -1) else r
  }

  function SendSessionV(x: Stack, n: nat, vector: seq<seq<byte>>): (r: Outcome)
    requires Sound(x)
    ensures Fits(x, r.x)
  {
    if n < |x.sessions| && x.sessions[n].state == Open && |vector| > 9 then Outcome(x.Fail(ERR_IOVLIMIT), -1)
    else SendSession(x, n, Flatten(vector))
  }

  /** `en50221_sl_broadcast_data` from session `i` on; `slot == -1` means every slot. */
  function Broadcast(x: Stack, slot: int, resource: nat, data: seq<byte>, i: nat): (y: Stack)
    requires Sound(x) && i <= |x.sessions|
    ensures Fits(x, y)
    decreases |x.sessions| - i
  {
    if i == |x.sessions| then x
    else
      var e := x.sessions[i];
      var y := if e.state == Open && (slot == -1 || slot == e.slot) && e.resource == resource
               then SendSession(x, i, data).x else x;
      Broadcast(y, slot, resource, data, i + 1)
  }

  /* ---- SPDUs received on connection `c` of slot `s` (`d` is what follows the tag) ---- */

  /** The status of the response to the lookup. */
  function LookupStatus(a: App): int {
    if !a.found || a.status == -1 then S_STATUS_CLOSE_NO_RES
    else if a.status == 0 then S_STATUS_OPEN
    else if a.status == -2 then S_STATUS_CLOSE_RES_LOW_VERSION
    else if a.status == -3 then S_STATUS_CLOSE_RES_UNAVAILABLE
    else a.status
  }

  function OpenRequest(x: Stack, a: App, d: seq<byte>, s: byte, c: byte): (y: Stack)
    requires Sound(x)
    ensures Fits(x, y)
  {
    if |d| < 5 || d[0] != 4 then x
    else if a.found then AfterLookup(x.Say(Lookup(s, Word32(d[1], d[2], d[3], d[4]))), a, s, c)
    else AfterLookup(x, a, s, c)
  }

  function AfterLookup(x: Stack, a: App, s: byte, c: byte): (y: Stack)
    requires Sound(x)
    ensures Fits(x, y)
  {
    var status := LookupStatus(a);
    var n := FreeSession(x.sessions, 1);
    if status != S_STATUS_OPEN then Send(x, s, c, OpenResponse(status, a.resource, 0xFFFF)).x
    else if n >= |x.sessions| then
      Send(x.Fail(ERR_OUTOFSESSIONS), s, c, OpenResponse(S_STATUS_CLOSE_NO_RES, a.resource, 0xFFFF)).x
    else Accept(x, a, n, s, c)
  }

  /** Session `n` is set up for the module, if the application agrees and the response can be queued. */
  function Accept(x: Stack, a: App, n: nat, s: byte, c: byte): (y: Stack)
    requires Sound(x) && n < |x.sessions|
    ensures Fits(x, y)
  {
    var x1 := x.(sessions := x.sessions[n := Session(Opening, a.resource, s, c, a.handler)]);
    var x2 := if a.callback then x1.Say(CamConnecting(s, n, a.resource)) else x1;
    var status := if !a.callback then S_STATUS_CLOSE_RES_UNAVAILABLE
                  else if a.busy then S_STATUS_CLOSE_RES_BUSY else S_STATUS_OPEN;
    var r := Send(x2, s, c, OpenResponse(status, a.resource, n));
    if r.code != 0 || status != S_STATUS_OPEN then r.x.Set(n, Free)
    else r.x.Set(n, Open).Say(CamConnected(s, n, a.resource))
  }

  function OpenResponse(status: int, resource: nat, n: nat): seq<byte> {
    [ST_OPEN_SESSION_RES, 7, status % 256] + Be32(resource) + [Hi(n), Lo(n)]
  }

  function CloseRequest(x: Stack, a: App, d: seq<byte>, s: byte, c: byte): (y: Stack)
    requires Sound(x)
    ensures Fits(x, y)
  {
    if |d| < 3 || d[0] != 2 then x
    else
      var n := Be16(d[1], d[2]);
      var ok := n < |x.sessions| && x.sessions[n].slot == s && x.sessions[n].conn == c
                && (x.sessions[n].state == Open || x.sessions[n].state == Closing);
      var x1 := if ok then x.Set(n, Free) else x;
      var r := Send(x1, s, c, [ST_CLOSE_SESSION_RES, 3, if ok then 0x00 else 0xF0, d[1], d[2]]);
      if ok && a.callback then r.x.Say(Close(s, n, x.sessions[n].resource)) else r.x
  }

  /** The number is read one octet before its place in the standard, as the code does. */
  function CreateResponse(x: Stack, a: App, d: seq<byte>, s: byte, c: byte): (y: Stack)
    requires Sound(x)
    ensures Fits(x, y)
  {
    if |d| < 8 || d[0] != 7 then x
    else
      var n := Be16(d[5], d[6]);
      if n >= |x.sessions| || x.sessions[n].slot != s || x.sessions[n].conn != c || x.sessions[n].state != Opening then x
      else
        var e := x.sessions[n];
        var x1 := x.Set(n, if d[1] != S_STATUS_OPEN then Free else Open);
        if !a.callback then x1
        else x1.Say(if d[1] != S_STATUS_OPEN then ConnectFail(s, n, e.resource) else Connected(s, n, e.resource))
  }

  /** A response is expected to hold four octets, one more than the host's own responses hold. */
  function CloseResponse(x: Stack, d: seq<byte>, s: byte, c: byte): (y: Stack)
    requires Sound(x)
    ensures Fits(x, y)
  {
    if |d| < 5 || d[0] != 4 then x
    else
      var n := Be16(d[2], d[3]);
      if n >= |x.sessions| || x.sessions[n].slot != s || x.sessions[n].conn != c || x.sessions[n].state != Closing then x
      else x.Set(n, Free)
  }

  /** The length of the APDU in front of `d`, if there is a whole one. */
  function ApduLength(d: seq<byte>): (r: Option<nat>)
    ensures r.Some? ==> 3 < r.value <= |d|
  {
    if |d| < 3 then None
    else match Asn1.Decode(d[3..])
      case Bad => None
      case Length(n, size) =>
        Asn1.DecodeSound(d[3..]);
        if 3 + size + n > |d| then None else Some(3 + size + n)
  }

  /** The APDUs handed up: all in front of the first one that is malformed. */
  function SplitApdus(d: seq<byte>): seq<seq<byte>>
    decreases |d|
  {
    match ApduLength(d)
    case None => []
    case Some(n) => [d[..n]] + SplitApdus(d[n..])
  }

  function SayApdus(x: Stack, n: nat, apdus: seq<seq<byte>>): (y: Stack)
    requires n < |x.sessions|
    ensures y.tl == x.tl && y.sessions == x.sessions
    decreases |apdus|
  {
    if apdus == [] then x
    else SayApdus(x.Say(Apdu(x.sessions[n].slot, n, x.sessions[n].resource, apdus[0])), n, apdus[1..])
  }

  function Package(x: Stack, d: seq<byte>, s: byte, c: byte): (y: Stack)
    requires Sound(x)
    ensures Fits(x, y)
  {
    if |d| < 3 || d[0] != 2 then x
    else
      var n := Be16(d[1], d[2]);
      if n >= |x.sessions| || x.sessions[n].slot != s || x.sessions[n].conn != c || x.sessions[n].state != Open then x
      else if !x.sessions[n].callback then x
      else SayApdus(x, n, SplitApdus(d[3..]))
  }

  function Spdu(x: Stack, a: App, d: seq<byte>, s: byte, c: byte): (y: Stack)
    requires Sound(x)
    ensures Fits(x, y)
  {
    if |d| < 1 then x
    else if d[0] == ST_OPEN_SESSION_REQ then OpenRequest(x, a, d[1..], s, c)
    else if d[0] == ST_CLOSE_SESSION_REQ then CloseRequest(x, a, d[1..], s, c)
    else if d[0] == ST_SESSION_NUMBER then Package(x, d[1..], s, c)
    else if d[0] == ST_CREATE_SESSION_RES then CreateResponse(x, a, d[1..], s, c)
    else if d[0] == ST_CLOSE_SESSION_RES then CloseResponse(x, d[1..], s, c)
    else x
  }

  /* ---- The transport callback ---- */

  /** The sessions that go with a slot (`slot`) or with a connection id, in whatever slot (`!slot`). */
  predicate Goes(e: Session, slot: bool, id: byte) {
    e.state != Free && (if slot then e.slot == id else e.conn == id)
  }

  /** Frees session `i` and announces it, if it goes. */
  function CloseOne(x: Stack, callback: bool, slot: bool, id: byte, i: nat): (y: Stack)
    requires i < |x.sessions|
    ensures y.tl == x.tl && |y.sessions| == |x.sessions|
  {
    var e := x.sessions[i];
    if !Goes(e, slot, id) then x
    else if callback then x.Set(i, Free).Say(Close(e.slot, i, e.resource))
    else x.Set(i, Free)
  }

  /** The sessions from `i` on. */
  function CloseAll(x: Stack, callback: bool, slot: bool, id: byte, i: nat): (y: Stack)
    requires i <= |x.sessions|
    ensures y.tl == x.tl && |y.sessions| == |x.sessions|
    decreases |x.sessions| - i
  {
    if i == |x.sessions| then x else CloseAll(CloseOne(x, callback, slot, id, i), callback, slot, id, i + 1)
  }

  /** `en50221_sl_transport_callback` */
  function Callback(x: Stack, a: App, u: Upcall): (y: Stack)
    requires Sound(x)
    ensures Fits(x, y)
  {
    match u
    case ConnectionOpen(s, c) => if a.callback then x.Say(TcConnect(s, c)) else x
    case CamConnectionOpen(s, c) => if a.callback then x.Say(TcCamConnect(s, c)) else x
    case ConnectionClose(s, c) => CloseAll(x, a.callback, false, c, 0)
    case SlotClose(s) => CloseAll(x, a.callback, true, s, 0)
    case Data(s, c, data) => Spdu(x, a, data, s, c)
  }

  /** Hands on the upcalls from number `i` on. */
  function Callbacks(x: Stack, app: nat -> App, told: seq<Upcall>, i: nat): (y: Stack)
    requires Sound(x) && i <= |told|
    ensures Fits(x, y)
    decreases |told| - i
  {
    if i == |told| then x else Callbacks(Callback(x, app(i), told[i]), app, told, i + 1)
  }

  /* ---- Receiving and polling ---- */

  /** One TPDU and the callback it causes. */
  function Receive(x: Stack, w: nat -> bool, app: nat -> App, s: nat, tag: byte, c: byte, data: seq<byte>): (r: Outcome)
    requires Sound(x) && s < |x.tl.net.slots| && c < x.tl.maxConns
    ensures Fits(x, r.x)
  {
    var r := HandleTpdu(x.tl, w, s, tag, c, data);
    if r.code < 0 then Outcome(x.(tl := r.t), r.code)
    else Outcome(Callbacks(x.(tl := r.t), app, r.t.net.told, |x.tl.net.told|), r.code)
  }

  /** `en50221_tl_process_data` */
  function ProcessData(x: Stack, w: nat -> bool, app: nat -> App, s: nat, p: seq<byte>): (r: Outcome)
    requires Sound(x) && s < |x.tl.net.slots|
    ensures Fits(x, r.x)
    decreases |p|
  {
    if p == [] then Outcome(x, 0)
    else match ParseTpdu(p)
      case Malformed => Outcome(x.(tl := x.tl.FailOn(s, ERR_BADCAMDATA)), -1)
      case Tpdu(tag, c, data, size) =>
        if c >= x.tl.maxConns then Outcome(x.(tl := x.tl.FailOn(s, ERR_BADCONNECTIONID)), -1)
        else
          var r := Receive(x, w, app, s, tag, c, data);
          if r.code < 0 then r else ProcessData(r.x, w, app, s, p[size..])
  }

  function ReadSlot(x: Stack, w: nat -> bool, app: nat -> App, rx: Rx, s: nat): (r: Outcome)
    requires Sound(x) && s < |x.tl.net.slots|
    ensures Fits(x, r.x)
  {
    match rx
    case Nothing => Outcome(x, 0)
    case PollError => Outcome(x.(tl := x.tl.FailOn(s, ERR_CAREAD)), -1)
    case ReadFailed => Outcome(x.(tl := x.tl.FailOn(s, ERR_CAREAD)), -1)
    case Readable(number, data) =>
      var slots := x.tl.net.slots;
      if data == [] then Outcome(x, 0)
      else if slots[s].number == number then ProcessData(x, w, app, s, data)
      else
        var d := Route(slots, slots[s].handle, number, 0);
        if d == |slots| then Outcome(x.(tl := x.tl.Fail(ERR_BADSLOTID)), -1) else ProcessData(x, w, app, d, data)
  }

  function PollSlot(x: Stack, w: nat -> bool, app: nat -> App, rx: Rx, tick: nat -> Tick, s: nat): (r: Outcome)
    requires Sound(x) && s < |x.tl.net.slots|
    ensures Fits(x, r.x)
  {
    if x.tl.net.slots[s].handle == -1 then Outcome(x, 0)
    else
      var r := ReadSlot(x, w, app, rx, s);
      if r.code < 0 then r
      else
        var q := PollConns(r.x.tl, w, tick, s, 0);
        Outcome(r.x.(tl := q.t), q.code)
  }

  /** The slots from `s` on. */
  function PollSlots(x: Stack, w: nat -> bool, app: nat -> App, rx: nat -> Rx, tick: nat -> nat -> Tick, s: nat): (r: Outcome)
    requires Sound(x) && s <= |x.tl.net.slots|
    ensures Fits(x, r.x)
    decreases |x.tl.net.slots| - s
  {
    if s == |x.tl.net.slots| then Outcome(x, 0)
    else
      var r := PollSlot(x, w, app, rx(s), tick(s), s);
      if r.code < 0 then r else PollSlots(r.x, w, app, rx, tick, s + 1)
  }

  /** `en50221_tl_poll`; `polled` is false when `poll` itself fails. */
  function Poll(x: Stack, w: nat -> bool, app: nat -> App, polled: bool, rx: nat -> Rx, tick: nat -> nat -> Tick): (r: Outcome)
    requires Sound(x)
    ensures Fits(x, r.x)
  {
    if !polled then Outcome(x.(tl := x.tl.FailOn(-1, ERR_CAREAD)), -1) else PollSlots(x, w, app, rx, tick, 0)
  }

  /** `en50221_tl_destroy_slot` */
  function Destroy(x: Stack, app: nat -> App, s: byte): (y: Stack)
    requires Sound(x)
    ensures Fits(x, y)
  {
    var t := DestroySlot(x.tl, s);
    Callbacks(x.(tl := t), app, t.net.told, |x.tl.net.told|)
  }

  /* ---- Runs ---- */

  /** A call of either API or a poll, with everything the environment decides about it. */
  datatype Event =
    | DoRegister(handle: int, number: byte)
    | DoDestroy(s: byte)
    | DoTlSend(s: byte, c: byte, data: seq<byte>)
    | DoNewTc(s: byte)
    | DoDelTc(s: byte, c: byte)
    | DoPoll(polled: bool, rx: nat -> Rx, tick: nat -> nat -> Tick)
    | DoCreateSession(slot: int, c: byte, resource: nat, callback: bool)
    | DoDestroySession(n: nat)
    | DoSend(n: nat, vector: seq<seq<byte>>)
    | DoBroadcast(slot: int, resource: nat, data: seq<byte>)

  function Step(x: Stack, w: nat -> bool, app: nat -> App, e: Event): (y: Stack)
    requires Sound(x)
    ensures Fits(x, y)
  {
    match e
    case DoRegister(handle, number) => x.(tl := RegisterSlot(x.tl, handle, number).t)
    case DoDestroy(s) => Destroy(x, app, s)
    case DoTlSend(s, c, data) => x.(tl := SendData(x.tl, s, c, data).t)
    case DoNewTc(s) => x.(tl := NewTc(x.tl, s).t)
    case DoDelTc(s, c) => x.(tl := DelTc(x.tl, s, c).t)
    case DoPoll(polled, rx, tick) => Poll(x, w, app, polled, rx, tick).x
    case DoCreateSession(slot, c, resource, callback) => CreateSession(x, slot, c, resource, callback).x
    case DoDestroySession(n) => DestroySession(x, n).x
    case DoSend(n, vector) => SendSessionV(x, n, vector).x
    case DoBroadcast(slot, resource, data) => Broadcast(x, slot, resource, data, 0)
  }

  function Run(x: Stack, w: nat -> bool, app: nat -> App, es: seq<Event>): (y: Stack)
    requires Sound(x)
    ensures Fits(x, y)
    decreases |es|
  {
    if es == [] then x else Run(Step(x, w, app, es[0]), w, app, es[1..])
  }
}
