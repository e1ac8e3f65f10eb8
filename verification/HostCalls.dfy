/** What every call of the host does: exactly when it succeeds, what is queued then in octets, what it reports otherwise,
 *  and that nothing else changes. */
module HostCalls {
  import opened Common
  import opened Transport
  import opened TransportSafety
  import opened Sessions
  import opened Delivery

  /* ---- What a call can change ---- */

  /** The slots are the same but for what is in their connections, and of those only connection `c` of slot `s` may
   *  differ. */
  ghost predicate OnlyConn(t: Tl, u: Tl, s: nat, c: nat) {
    && WellFormed(t) && SameShape(t, u) && u.net.told == t.net.told
    && forall k :: 0 <= k < |t.net.slots| ==> OnlyConnOf(t.net.slots[k], u.net.slots[k], k == s, c)
  }

  ghost predicate OnlyConnOf(x: Slot, y: Slot, here: bool, c: nat) {
    && y.handle == x.handle && y.number == x.number && |y.conns| == |x.conns|
    && forall d :: 0 <= d < |x.conns| && !(here && d == c) ==> y.conns[d] == x.conns[d]
  }

  /** The slot is in use. */
  predicate InUse(t: Tl, s: nat) { s < |t.net.slots| && t.net.slots[s].handle != -1 }

  /** It has the connection. */
  predicate HasConn(t: Tl, s: nat, c: nat) { WellFormed(t) && InUse(t, s) && c < t.maxConns }

  /** The call fails with this error and changes nothing else. */
  ghost predicate Refuses(t: Tl, r: Result, error: int) {
    r.code == -1 && r.t.net == t.net && r.t.maxConns == t.maxConns && r.t.error == error
  }

  /** One more message is queued on the connection, with the octets `m`; `k` is the connection but for its queue. */
  ghost predicate Queues(t: Tl, u: Tl, s: nat, c: nat, k: Conn, m: seq<byte>)
    requires HasConn(t, s, c)
  {
    OnlyConn(t, u, s, c) && u.At(s, c) == k.(queue := t.At(s, c).queue + [m]) && u.error == t.error
  }

  lemma SlotOnly(x: Slot, a: Act)
    requires !a.Registered? && !a.Destroyed? && !a.Offered?
    ensures OnlyConnOf(x, TouchSlot(x, a), true, a.c)
    ensures a.c < |x.conns| ==> TouchSlot(x, a).conns[a.c] == TouchOwn(x.conns[a.c], a)
  {
  }

  lemma SameSlots(c: nat)
    ensures forall x: Slot :: OnlyConnOf(x, x, false, c)
  {
  }

  lemma ConnOf(x: Slot, y: Slot, c: nat)
    requires OnlyConnOf(x, y, true, c)
    ensures |y.conns| == |x.conns|
  {
  }

  /** An action of one connection that is not told. */
  lemma OwnActOnly(t: Tl, a: Act)
    requires WellFormed(t) && !a.Registered? && !a.Destroyed? && !a.Offered? && a.s < |t.net.slots| && a.c < t.maxConns
    requires Told(t.net, a) == []
    ensures OnlyConn(t, t.Do(a), a.s, a.c) && t.Do(a).At(a.s, a.c) == TouchOwn(t.At(a.s, a.c), a)
  {
    hide TouchSlot, TouchOwn, Told, OnlyConnOf, OnlyConn;
    assert t.net.told + [] == t.net.told;
    SlotOnly(t.net.slots[a.s], a);
    ConnOf(t.net.slots[a.s], TouchSlot(t.net.slots[a.s], a), a.c);
    OneSlotOnly(t, t.Do(a), a.s, a.c, TouchSlot(t.net.slots[a.s], a));
  }

  lemma OneSlotOnly(t: Tl, u: Tl, s: nat, c: nat, y: Slot)
    requires WellFormed(t) && s < |t.net.slots| && SameShape(t, u) && u.net.told == t.net.told
    requires u.net.slots == t.net.slots[s := y] && OnlyConnOf(t.net.slots[s], y, true, c)
    ensures OnlyConn(t, u, s, c)
  {
    hide OnlyConnOf;
    SameSlots(c);
  }

  /** The octets are those of one TPDU. */
  predicate ReadsAs(m: seq<byte>, tag: byte, c: byte, data: seq<byte>) {
    m != [] && ParseTpdu(m) == Tpdu(tag, c, data, |m|)
  }

  /* ---- Slots ---- */

  /** New layers: no slot and no session is in use, no connection has ever been used, and nothing was done or told. */
  lemma CreateExactly(maxSlots: nat, maxConns: nat, junk: seq<Session>)
    requires maxSlots < 256 && maxConns < 256
    ensures var x := CreateStack(maxSlots, maxConns, junk);
      && |x.tl.net.slots| == maxSlots && x.tl.maxConns == maxConns && x.tl.net.acts == [] && x.tl.net.told == []
      && x.tl.error == 0 && x.error == 0 && x.calls == [] && |x.sessions| == |junk|
      && (forall s :: 0 <= s < maxSlots ==> !InUse(x.tl, s))
      && (forall s, c :: 0 <= s < maxSlots && 0 <= c < maxConns ==> x.tl.At(s, c) == Conn(Idle, false, None, 0, []))
      && forall n :: 0 <= n < |junk| ==> x.sessions[n].state == Free && !x.sessions[n].callback
  {
  }

  /** A slot is found exactly when one is free; it is the first, and gets just the handle and the number. */
  lemma RegisterExactly(t: Tl, handle: int, number: byte)
    requires WellFormed(t)
    ensures var r := RegisterSlot(t, handle, number);
      && (r.code == -1 <==> forall k :: 0 <= k < |t.net.slots| ==> InUse(t, k))
      && (r.code == -1 ==> Refuses(t, r, -11))
      && (r.code != -1 ==>
            && 0 <= r.code < |t.net.slots| && !InUse(t, r.code) && (forall k :: 0 <= k < r.code ==> InUse(t, k))
            && SameShape(t, r.t) && r.t.net.told == t.net.told && r.t.error == t.error
            && r.t.net.slots == t.net.slots[r.code := t.net.slots[r.code].(handle := handle, number := number)])
  {
    var k := FreeSlot(t.net.slots, 0);
    assert forall j :: 0 <= j < k ==> InUse(t, j);
    if k < |t.net.slots| {
      assert !InUse(t, k);
      var x := t.net.slots[k];
      assert TouchSlot(x, Registered(k, handle, number)).conns == x.conns;
      assert t.net.told + [] == t.net.told;
    }
  }

  /** Afterwards the slot is free, and its connections are as on the first day; the upper layer is told once. */
  lemma DestroyExactly(t: Tl, s: byte)
    requires WellFormed(t)
    ensures var u := DestroySlot(t, s);
      && (s >= |t.net.slots| ==> u == t)
      && (s < |t.net.slots| ==>
            && SameShape(t, u) && !InUse(u, s) && u.net.slots[s].number == t.net.slots[s].number
            && u.net.told == t.net.told + [SlotClose(s)] && u.error == t.error
            && (forall c :: 0 <= c < t.maxConns ==> u.At(s, c) == Conn(Idle, false, None, 0, []))
            && forall k :: 0 <= k < |t.net.slots| && k != s ==> u.net.slots[k] == t.net.slots[k])
  {
  }

  /* ---- Connections ---- */

  /** Data is taken exactly on an active connection of a slot in use, whether the host is waiting on it or not; the
   *  message queued is the one that is read back as these data on this connection. */
  lemma SendDataExactly(t: Tl, s: byte, c: byte, data: seq<byte>)
    requires WellFormed(t)
    ensures var r := SendData(t, s, c, data);
      && (r.code == 0 <==> HasConn(t, s, c) && t.At(s, c).state == Active)
      && (r.code == 0 ==> Queues(t, r.t, s, c, t.At(s, c), DataFrame(c, data)))
      && (r.code != 0 ==> Refuses(t, r, if InUse(t, s) then -5 else -4))
    ensures |data| + 1 < 0x10000 ==> ReadsAs(DataFrame(c, data), 0xA0, c, data)
  {
    hide Apply;
    var r := SendData(t, s, c, data);
    if r.code == 0 { OwnActOnly(t, QueuedData(s, c, data)); }
    if |data| + 1 < 0x10000 {
      ParseFrame(T_DATA_LAST, c, data, []);
      assert DataFrame(c, data) + [] == DataFrame(c, data);
    }
  }

  /** A connection is opened exactly when the slot is in use and one from 1 on is idle: the first of them is put in
   *  creation, with nothing held, and its T_CREATE_T_C stands behind what is queued. */
  lemma NewTcExactly(t: Tl, s: byte)
    requires WellFormed(t)
    ensures var r := NewTc(t, s);
      && (r.code != -1 <==> InUse(t, s) && exists d :: 1 <= d < t.maxConns && t.At(s, d).state == Idle)
      && (r.code != -1 ==>
            && HasConn(t, s, r.code) && 1 <= r.code && t.At(s, r.code).state == Idle
            && (forall d :: 1 <= d < r.code ==> t.At(s, d).state != Idle)
            && Queues(t, r.t, s, r.code, t.At(s, r.code).(state := InCreation, chain := None, chainLen := 0), [0x82, 1, r.code]))
      && (r.code == -1 ==> Refuses(t, r, if InUse(t, s) then -10 else -4))
  {
    hide Apply;
    var r := NewTc(t, s);
    if r.code != -1 {
      OwnActOnly(t, QueuedCreate(s, r.code));
      assert t.At(s, r.code).state == Idle;
    }
  }

  /** A deletion is queued exactly on an active connection or one in deletion. */
  lemma DelTcExactly(t: Tl, s: byte, c: byte)
    requires WellFormed(t)
    ensures var r := DelTc(t, s, c);
      && (r.code == 0 <==> HasConn(t, s, c) && (t.At(s, c).state == Active || t.At(s, c).state == InDeletion))
      && (r.code == 0 ==> Queues(t, r.t, s, c, t.At(s, c).(state := DeleteQueued), [0x84, 1, c]))
      && (r.code != 0 ==> Refuses(t, r, if !InUse(t, s) then -4 else if c >= t.maxConns then -5 else -6))
  {
    hide Apply;
    if DelTc(t, s, c).code == 0 { OwnActOnly(t, QueuedDelete(s, c)); }
  }

  /* ---- Sessions ---- */

  /** The session is open on an active connection. */
  ghost predicate CanSend(x: Stack, n: nat) {
    && Sound(x) && n < |x.sessions| && x.sessions[n].state == Open
    && HasConn(x.tl, x.sessions[n].slot, x.sessions[n].conn)
    && x.tl.At(x.sessions[n].slot, x.sessions[n].conn).state == Active
  }

  /** From `x` to `y` one more SPDU is queued on the connection and nothing else is different. */
  ghost predicate QueuesSpdu(x: Stack, y: Stack, s: nat, c: byte, spdu: seq<byte>) {
    && Sound(x) && HasConn(x.tl, s, c) && y.sessions == x.sessions && y.calls == x.calls && y.error == x.error
    && Queues(x.tl, y.tl, s, c, x.tl.At(s, c), DataFrame(c, spdu))
  }

  /** Nothing is different but the errors noted. */
  ghost predicate OnlyErrors(x: Stack, y: Stack, error: int) {
    y.tl.net == x.tl.net && y.tl.maxConns == x.tl.maxConns && y.sessions == x.sessions && y.calls == x.calls && y.error == error
  }

  /** Data is taken exactly on a session that is open on an active connection, whatever the host waits for; the SPDU
   *  queued is 0x90, 2, the number of the session, high octet first, and the data. */
  lemma SendSessionExactly(x: Stack, n: nat, data: seq<byte>)
    requires Sound(x) && n < 0x10000
    ensures var r := SendSession(x, n, data);
      && (r.code == 0 <==> CanSend(x, n))
      && (r.code == 0 ==>
            && QueuesSpdu(x, r.x, x.sessions[n].slot, x.sessions[n].conn, [0x90, 2, n / 256, n % 256] + data)
            && CanSend(r.x, n))
      && (r.code != 0 ==> r.code == -1 && OnlyErrors(x, r.x,
            if n >= |x.sessions| || x.sessions[n].state != Open then -13
            else if !InUse(x.tl, x.sessions[n].slot) then -4 else -5))
  {
    hide SendData, DataFrame;
    if n < |x.sessions| { SendDataExactly(x.tl, x.sessions[n].slot, x.sessions[n].conn, DataSpdu(n, data)); }
  }

  /** A vector of up to nine parts is taken as its concatenation, a longer one is refused. */
  lemma SendVectorExactly(x: Stack, n: nat, vector: seq<seq<byte>>)
    requires Sound(x) && n < 0x10000
    ensures var r := SendSessionV(x, n, vector);
      && (r.code == 0 <==> CanSend(x, n) && |vector| <= 9)
      && (r.code == 0 ==> r == SendSession(x, n, Flatten(vector)))
      && (r.code != 0 ==> r.code == -1 && OnlyErrors(x, r.x,
            if n >= |x.sessions| || x.sessions[n].state != Open then -13 else if |vector| > 9 then -12
            else if !InUse(x.tl, x.sessions[n].slot) then -4 else -5))
  {
    hide SendSession;
    SendSessionExactly(x, n, Flatten(vector));
  }

  /** So every SPDU of a list is taken, one after the other. */
  lemma {:induction false} SendAllTaken(x: Stack, n: nat, spdus: seq<seq<seq<byte>>>)
    requires CanSend(x, n) && n < 0x10000
    ensures SendAll(x, n, spdus).code == 0 && CanSend(SendAll(x, n, spdus).x, n)
    decreases |spdus|
  {
    hide SendSession, CanSend;
    assert Sound(x) by { Able(x, n); }
    if spdus != [] {
      SendSessionExactly(x, n, Flatten(spdus[0]));
      SendAllTaken(SendSession(x, n, Flatten(spdus[0])).x, n, spdus[1..]);
    }
  }

  function Sends(n: nat, spdus: seq<seq<seq<byte>>>): seq<Event> {
    if spdus == [] then [] else [DoSend(n, spdus[0])] + Sends(n, spdus[1..])
  }

  /** Sending them is a run of calls with vectors. */
  lemma {:induction false} SendAllIsRun(x: Stack, w: nat -> bool, app: nat -> App, n: nat, spdus: seq<seq<seq<byte>>>)
    requires CanSend(x, n) && n < 0x10000
    requires forall spdu <- spdus :: |spdu| <= 9
    ensures Run(x, w, app, Sends(n, spdus)) == SendAll(x, n, spdus).x
    decreases |spdus|
  {
    hide SendSession, SendSessionV, CanSend, Sound, SameShape, QueuesSpdu, OnlyErrors, Step;
    Able(x, n);
    if spdus != [] {
      assert spdus[0] in spdus && forall spdu <- spdus[1..] :: spdu in spdus;
      OneSend(x, w, app, n, spdus[0]);
      SendAllIsRun(SendSession(x, n, Flatten(spdus[0])).x, w, app, n, spdus[1..]);
      assert Sends(n, spdus)[0] == DoSend(n, spdus[0]) && Sends(n, spdus)[1..] == Sends(n, spdus[1..]);
    }
  }

  lemma OneSend(x: Stack, w: nat -> bool, app: nat -> App, n: nat, spdu: seq<seq<byte>>)
    requires CanSend(x, n) && n < 0x10000 && |spdu| <= 9
    ensures var r := SendSession(x, n, Flatten(spdu));
      Step(x, w, app, DoSend(n, spdu)) == r.x && r.code == 0 && CanSend(r.x, n)
  {
    hide SendSession, SendSessionV, CanSend, Sound, SameShape, QueuesSpdu, OnlyErrors, Step;
    Able(x, n);
    SendSessionExactly(x, n, Flatten(spdu));
    SendVectorExactly(x, n, spdu);
    SendStep(x, w, app, n, spdu);
  }

  lemma SendStep(x: Stack, w: nat -> bool, app: nat -> App, n: nat, vector: seq<seq<byte>>)
    requires Sound(x)
    ensures Step(x, w, app, DoSend(n, vector)) == SendSessionV(x, n, vector).x
  {
    hide Sound, SameShape, SendSessionV, Poll, Destroy, Broadcast, CreateSession, DestroySession, RegisterSlot, SendData,
         NewTc, DelTc;
  }

  lemma Able(x: Stack, n: nat)
    requires CanSend(x, n)
    ensures Sound(x)
  {
  }

  /** In a run the calls of the transport layer have the effects stated above. */
  lemma StepsTakeEffect(x: Stack, w: nat -> bool, app: nat -> App, s: byte, c: byte, data: seq<byte>, handle: int, number: byte)
    requires Sound(x)
    ensures HasConn(x.tl, s, c) && x.tl.At(s, c).state == Active ==>
      && Queues(x.tl, Step(x, w, app, DoTlSend(s, c, data)).tl, s, c, x.tl.At(s, c), DataFrame(c, data))
      && Queues(x.tl, Step(x, w, app, DoDelTc(s, c)).tl, s, c, x.tl.At(s, c).(state := DeleteQueued), [0x84, 1, c])
    ensures HasConn(x.tl, s, c) && 1 <= c && x.tl.At(s, c).state == Idle
            && (forall d :: 1 <= d < c ==> x.tl.At(s, d).state != Idle) ==>
      Queues(x.tl, Step(x, w, app, DoNewTc(s)).tl, s, c,
             x.tl.At(s, c).(state := InCreation, chain := None, chainLen := 0), [0x82, 1, c])
    ensures s < |x.tl.net.slots| && !InUse(x.tl, s) && (forall k :: 0 <= k < s ==> InUse(x.tl, k)) ==>
      Step(x, w, app, DoRegister(handle, number)).tl.net.slots ==
        x.tl.net.slots[s := x.tl.net.slots[s].(handle := handle, number := number)]
  {
    TlSteps(x, w, app, s, c, data, handle, number);
    hide Step, SendData, DelTc, NewTc, RegisterSlot, Queues, Refuses, ReadsAs;
    SendDataExactly(x.tl, s, c, data);
    DelTcExactly(x.tl, s, c);
    NewTcExactly(x.tl, s);
    RegisterExactly(x.tl, handle, number);
  }

  lemma TlSteps(x: Stack, w: nat -> bool, app: nat -> App, s: byte, c: byte, data: seq<byte>, handle: int, number: byte)
    requires Sound(x)
    ensures Step(x, w, app, DoTlSend(s, c, data)).tl == SendData(x.tl, s, c, data).t
    ensures Step(x, w, app, DoDelTc(s, c)).tl == DelTc(x.tl, s, c).t
    ensures Step(x, w, app, DoNewTc(s)).tl == NewTc(x.tl, s).t
    ensures Step(x, w, app, DoRegister(handle, number)).tl == RegisterSlot(x.tl, handle, number).t
  {
    hide Sound, SameShape, SendSessionV, Poll, Destroy, Broadcast, CreateSession, DestroySession, RegisterSlot, SendData,
         NewTc, DelTc;
  }

  /** A number sent as octets, the highest first. */
  function Word(b: seq<byte>): nat { if b == [] then 0 else Word(b[..|b| - 1]) * 256 + b[|b| - 1] }

  lemma WordOf16(n: nat)
    requires n < 0x10000
    ensures Word([Hi(n), Lo(n)]) == n
  {
    var b := [Hi(n), Lo(n)];
    assert b[..1] == [Hi(n)] && b[..1][..0] == [];
    assert Word([Hi(n)]) == Hi(n);
  }

  lemma WordOf32(n: nat)
    requires n < 0x1_0000_0000
    ensures Word(Be32(n)) == n
  {
    var b := Be32(n);
    assert b[..3] == [b[0], b[1], b[2]] && b[..3][..2] == [b[0], b[1]] && b[..3][..2][..1] == [b[0]];
    assert Word([b[0]]) == b[0];
    assert Word([b[0], b[1]]) == b[0] as nat * 256 + b[1];
    assert Word([b[0], b[1], b[2]]) == (b[0] as nat * 256 + b[1]) * 256 + b[2];
    FourOctets(n);
  }

  lemma FourOctets(n: nat)
    requires n < 0x1_0000_0000
    ensures ((n / 0x1000000 % 256 * 256 + n / 0x10000 % 256) * 256 + n / 0x100 % 256) * 256 + n % 256 == n
  {
    assert n / 0x1000000 % 256 == n / 0x1000000;
    assert n / 0x10000 == n / 0x1000000 * 256 + n / 0x10000 % 256;
    assert n / 0x100 == n / 0x10000 * 256 + n / 0x100 % 256;
  }

  /** A host's request for a session with a resource: 0x93, 6, the resource and the number of the session. */
  predicate AsksForSession(spdu: seq<byte>, resource: nat, n: nat) {
    |spdu| == 8 && spdu[0] == 0x93 && spdu[1] == 6
    && (resource < 0x1_0000_0000 ==> Word(spdu[2..6]) == resource) && (n < 0x10000 ==> Word(spdu[6..]) == n)
  }

  lemma CreateSpduReads(resource: nat, n: nat)
    ensures AsksForSession([ST_CREATE_SESSION, 6] + Be32(resource) + [Hi(n), Lo(n)], resource, n)
  {
    var spdu := [ST_CREATE_SESSION, 6] + Be32(resource) + [Hi(n), Lo(n)];
    assert spdu[2..6] == Be32(resource) && spdu[6..] == [Hi(n), Lo(n)];
    if resource < 0x1_0000_0000 { WordOf32(resource); }
    if n < 0x10000 { WordOf16(n); }
  }

  /** The first session from 1 on that is free. */
  predicate FirstFree(sessions: seq<Session>, n: nat) {
    1 <= n < |sessions| && sessions[n].state == Free && forall k :: 1 <= k < n ==> sessions[k].state != Free
  }

  /** A session is asked for exactly when one is free and the connection is active: it is the first free one, and stays
   *  in use until the module answers. Otherwise no session is in use that was not. */
  lemma CreateSessionExactly(x: Stack, slot: int, c: byte, resource: nat, callback: bool)
    requires Sound(x)
    ensures var r := CreateSession(x, slot, c, resource, callback);
      var s := slot % 256;
      && (r.code != -1 <==> (exists n :: FirstFree(x.sessions, n)) && HasConn(x.tl, s, c) && x.tl.At(s, c).state == Active)
      && (r.code != -1 ==>
            && r.code >= 0 && FirstFree(x.sessions, r.code) && r.x.calls == x.calls && r.x.error == x.error
            && r.x.sessions == x.sessions[r.code := Session(Opening, resource, s, c, callback)]
            && exists spdu ::
                 AsksForSession(spdu, resource, r.code) && Queues(x.tl, r.x.tl, s, c, x.tl.At(s, c), DataFrame(c, spdu)))
      && (r.code == -1 ==>
            && r.x.tl.net == x.tl.net && r.x.calls == x.calls && |r.x.sessions| == |x.sessions|
            && (forall k :: 0 <= k < |x.sessions| && (k == 0 || x.sessions[k].state != Free) ==> r.x.sessions[k] == x.sessions[k])
            && (forall k :: 1 <= k < |x.sessions| && x.sessions[k].state == Free ==> r.x.sessions[k].state == Free)
            && r.x.error == if !exists n :: FirstFree(x.sessions, n) then -14 else if !InUse(x.tl, s) then -4 else -5)
  {
    hide SendData, DataFrame, Be32;
    var n := FreeSession(x.sessions, 1);
    var spdu := [ST_CREATE_SESSION, 6] + Be32(resource) + [Hi(n), Lo(n)];
    CreateSpduReads(resource, n);
    SendDataExactly(x.tl, slot % 256, c, spdu);
    assert n < |x.sessions| ==> FirstFree(x.sessions, n);
  }

  /** A session is closed exactly when it is open or being closed on an active connection; when the request cannot be
   *  queued, it is free at once. */
  lemma DestroySessionExactly(x: Stack, n: nat)
    requires Sound(x) && n < 0x10000
    ensures var r := DestroySession(x, n);
      var used := n < |x.sessions| && (x.sessions[n].state == Open || x.sessions[n].state == Closing);
      && (r.code == 0 <==>
            used && HasConn(x.tl, x.sessions[n].slot, x.sessions[n].conn)
            && x.tl.At(x.sessions[n].slot, x.sessions[n].conn).state == Active)
      && (r.code == 0 ==>
            && r.x.sessions == x.sessions[n := x.sessions[n].(state := Closing)] && r.x.calls == x.calls && r.x.error == x.error
            && var s, c := x.sessions[n].slot, x.sessions[n].conn;
               Queues(x.tl, r.x.tl, s, c, x.tl.At(s, c), DataFrame(c, [0x95, 2, n / 256, n % 256])))
      && (r.code != 0 ==>
            && r.code == -1 && r.x.tl.net == x.tl.net && r.x.calls == x.calls
            && r.x.sessions == (if used then x.sessions[n := x.sessions[n].(state := Free)] else x.sessions)
            && r.x.error == if !used then -13 else if !InUse(x.tl, x.sessions[n].slot) then -4 else -5)
  {
    hide SendData, DataFrame;
    if n < |x.sessions| {
      SendDataExactly(x.tl, x.sessions[n].slot, x.sessions[n].conn, [ST_CLOSE_SESSION_REQ, 2, Hi(n), Lo(n)]);
    }
  }

  /* ---- Broadcasting ---- */

  /** The session is one of those the data is for. */
  predicate Addressee(e: Session, slot: int, resource: nat) {
    e.state == Open && e.resource == resource && (slot == -1 || slot == e.slot)
  }

  /** The messages for connection `c` of slot `s`: one for each of its sessions that is meant, in the order of their
   *  numbers. */
  function MessagesFor(sessions: seq<Session>, slot: int, resource: nat, data: seq<byte>, s: byte, c: byte, i: nat): seq<seq<byte>>
    requires i <= |sessions|
    decreases |sessions| - i
  {
    if i == |sessions| then []
    else (if Addressee(sessions[i], slot, resource) && sessions[i].slot == s && sessions[i].conn == c
          then [DataFrame(c, [0x90, 2, i / 256 % 256, i % 256] + data)] else [])
         + MessagesFor(sessions, slot, resource, data, s, c, i + 1)
  }

  /** From `x` to `y` the connection has got these messages, if it is active, and is otherwise the same. */
  ghost predicate Gained(t: Tl, u: Tl, s: nat, c: nat, ms: seq<seq<byte>>) {
    && HasConn(t, s, c) && SameShape(t, u)
    && u.At(s, c) == if t.At(s, c).state == Active then t.At(s, c).(queue := t.At(s, c).queue + ms) else t.At(s, c)
  }

  /** Broadcast data goes to exactly the open sessions of the resource in the slot, or in all slots for -1, to each
   *  once; the sessions themselves stay as they are. */
  lemma {:induction false} BroadcastExactly(x: Stack, slot: int, resource: nat, data: seq<byte>, i: nat, s: byte, c: byte)
    requires Sound(x) && i <= |x.sessions| && HasConn(x.tl, s, c)
    ensures var y := Broadcast(x, slot, resource, data, i);
      && y.sessions == x.sessions && y.calls == x.calls
      && Gained(x.tl, y.tl, s, c, MessagesFor(x.sessions, slot, resource, data, s, c, i))
    decreases |x.sessions| - i
  {
    hide SendSession, Gained, DataFrame, MessagesFor, HasConn;
    if i == |x.sessions| {
      NothingGained(x, slot, resource, data, s, c);
    } else {
      var e := x.sessions[i];
      var y := if e.state == Open && (slot == -1 || slot == e.slot) && e.resource == resource
               then SendSession(x, i, data).x else x;
      var first := if Addressee(e, slot, resource) && e.slot == s && e.conn == c
                   then [DataFrame(c, [0x90, 2, i / 256 % 256, i % 256] + data)] else [];
      OneBroadcast(x, y, slot, resource, data, i, s, c, first);
      BroadcastExactly(y, slot, resource, data, i + 1, s, c);
      GainedOn(x.tl, y.tl, Broadcast(y, slot, resource, data, i + 1).tl, s, c, first,
               MessagesFor(x.sessions, slot, resource, data, s, c, i + 1));
      NextMessages(x.sessions, slot, resource, data, s, c, i, first);
    }
  }

  lemma NothingGained(x: Stack, slot: int, resource: nat, data: seq<byte>, s: byte, c: byte)
    requires Sound(x) && HasConn(x.tl, s, c)
    ensures Gained(x.tl, x.tl, s, c, MessagesFor(x.sessions, slot, resource, data, s, c, |x.sessions|))
  {
    assert x.tl.At(s, c).queue + [] == x.tl.At(s, c).queue;
  }

  lemma NextMessages(sessions: seq<Session>, slot: int, resource: nat, data: seq<byte>, s: byte, c: byte, i: nat,
                     first: seq<seq<byte>>)
    requires i < |sessions|
    requires first == if Addressee(sessions[i], slot, resource) && sessions[i].slot == s && sessions[i].conn == c
                      then [DataFrame(c, [0x90, 2, i / 256 % 256, i % 256] + data)] else []
    ensures MessagesFor(sessions, slot, resource, data, s, c, i) ==
      first + MessagesFor(sessions, slot, resource, data, s, c, i + 1)
  {
  }

  lemma OneBroadcast(x: Stack, y: Stack, slot: int, resource: nat, data: seq<byte>, i: nat, s: byte, c: byte,
                     first: seq<seq<byte>>)
    requires Sound(x) && i < |x.sessions| && HasConn(x.tl, s, c)
    requires y == if Addressee(x.sessions[i], slot, resource) then SendSession(x, i, data).x else x
    requires first == if Addressee(x.sessions[i], slot, resource) && x.sessions[i].slot == s && x.sessions[i].conn == c
                      then [DataFrame(c, [0x90, 2, i / 256 % 256, i % 256] + data)] else []
    ensures Sound(y) && HasConn(y.tl, s, c) && y.sessions == x.sessions && y.calls == x.calls && Gained(x.tl, y.tl, s, c, first)
  {
    hide SendData, DataFrame;
    var q := x.tl.At(s, c).queue;
    assert q + [] == q;
    SendDataExactly(x.tl, x.sessions[i].slot, x.sessions[i].conn, DataSpdu(i, data));
  }

  lemma GainedOn(t: Tl, u: Tl, v: Tl, s: nat, c: nat, ms: seq<seq<byte>>, more: seq<seq<byte>>)
    requires Gained(t, u, s, c, ms) && Gained(u, v, s, c, more)
    ensures Gained(t, v, s, c, ms + more)
  {
    Regroup(t.At(s, c).queue, ms, more);
  }
}
