/** What every legal action of the transport layer keeps, every run of both layers keeps; and from that the
 *  safety of the transport layer over all runs. */
module StackRuns {
  import opened Common
  import opened Transport
  import opened TransportKeeps
  import opened TransportSafety
  import opened Sessions

  /** `good` holds of the network, and the same slots are registered. */
  ghost predicate Still(good: Net -> bool, x: Stack, y: Stack) {
    good(y.tl.net) && SameHandles(x.tl, y.tl)
  }

  lemma SpduKeeps(good: Net -> bool, x: Stack, a: App, d: seq<byte>, s: byte, c: byte)
    requires Sound(x) && Kept(good) && good(x.tl.net)
    ensures Still(good, x, Spdu(x, a, d, s, c))
  {
    forall data: seq<byte> ensures good(SendData(x.tl, s, c, data).t.net) && SameHandles(x.tl, SendData(x.tl, s, c, data).t) {
      SendKeeps(good, x.tl, s, c, data);
    }
  }

  lemma CallbackKeeps(good: Net -> bool, x: Stack, a: App, u: Upcall)
    requires Sound(x) && Kept(good) && good(x.tl.net)
    ensures Still(good, x, Callback(x, a, u))
  {
    if u.Data? { SpduKeeps(good, x, a, u.data, u.s, u.c); }
  }

  lemma {:induction false} CallbacksKeep(good: Net -> bool, x: Stack, app: nat -> App, told: seq<Upcall>, i: nat)
    requires Sound(x) && i <= |told| && Kept(good) && good(x.tl.net)
    ensures Still(good, x, Callbacks(x, app, told, i))
    decreases |told| - i
  {
    if i < |told| {
      CallbackKeeps(good, x, app(i), told[i]);
      CallbacksKeep(good, Callback(x, app(i), told[i]), app, told, i + 1);
    }
  }

  lemma {:induction false} ProcessKeeps(good: Net -> bool, x: Stack, w: nat -> bool, app: nat -> App, s: nat,
                                        p: seq<byte>)
    requires Sound(x) && s < |x.tl.net.slots| && x.tl.net.slots[s].handle != -1
    requires Kept(good) && good(x.tl.net)
    ensures Still(good, x, ProcessData(x, w, app, s, p).x)
    decreases |p|
  {
    if p != [] {
      var y := ParseTpdu(p);
      if y.Tpdu? && y.c < x.tl.maxConns {
        TpduKeeps(good, x.tl, w, s, y.tag, y.c, y.data);
        var t := HandleTpdu(x.tl, w, s, y.tag, y.c, y.data).t;
        CallbacksKeep(good, x.(tl := t), app, t.net.told, |x.tl.net.told|);
        var r := Receive(x, w, app, s, y.tag, y.c, y.data);
        if r.code >= 0 { ProcessKeeps(good, r.x, w, app, s, p[y.size..]); }
      }
    }
  }

  lemma PollSlotKeeps(good: Net -> bool, x: Stack, w: nat -> bool, app: nat -> App, rx: Rx, tick: nat -> Tick, s: nat)
    requires Sound(x) && s < |x.tl.net.slots| && Kept(good) && good(x.tl.net)
    ensures Still(good, x, PollSlot(x, w, app, rx, tick, s).x)
  {
    var slots := x.tl.net.slots;
    if slots[s].handle != -1 {
      if rx.Readable? && rx.data != [] {
        var d := if slots[s].number == rx.number then s else Route(slots, slots[s].handle, rx.number, 0);
        if d < |slots| { ProcessKeeps(good, x, w, app, d, rx.data); }
      }
      var r := ReadSlot(x, w, app, rx, s);
      if r.code >= 0 { PollConnsKeep(good, r.x.tl, w, tick, s, 0); }
    }
  }

  lemma {:induction false} PollSlotsKeep(good: Net -> bool, x: Stack, w: nat -> bool, app: nat -> App, rx: nat -> Rx,
                                         tick: nat -> nat -> Tick, s: nat)
    requires Sound(x) && s <= |x.tl.net.slots| && Kept(good) && good(x.tl.net)
    ensures Still(good, x, PollSlots(x, w, app, rx, tick, s).x)
    decreases |x.tl.net.slots| - s
  {
    if s < |x.tl.net.slots| {
      PollSlotKeeps(good, x, w, app, rx(s), tick(s), s);
      var r := PollSlot(x, w, app, rx(s), tick(s), s);
      if r.code >= 0 { PollSlotsKeep(good, r.x, w, app, rx, tick, s + 1); }
    }
  }

  lemma {:induction false} BroadcastKeeps(good: Net -> bool, x: Stack, slot: int, resource: nat, data: seq<byte>,
                                          i: nat)
    requires Sound(x) && i <= |x.sessions| && Kept(good) && good(x.tl.net)
    ensures Still(good, x, Broadcast(x, slot, resource, data, i))
    decreases |x.sessions| - i
  {
    if i < |x.sessions| {
      var e := x.sessions[i];
      SendKeeps(good, x.tl, e.slot, e.conn, DataSpdu(i, data));
      var y := if e.state == Open && (slot == -1 || slot == e.slot) && e.resource == resource
               then SendSession(x, i, data).x else x;
      BroadcastKeeps(good, y, slot, resource, data, i + 1);
    }
  }

  lemma StepKeeps(good: Net -> bool, x: Stack, w: nat -> bool, app: nat -> App, e: Event)
    requires Sound(x) && Kept(good) && good(x.tl.net)
    ensures good(Step(x, w, app, e).tl.net)
  {
    match e
    case DoRegister(handle, number) => RegisterKeeps(good, x.tl, handle, number);
    case DoDestroy(s) =>
      DestroyKeeps(good, x.tl, s);
      var t := DestroySlot(x.tl, s);
      CallbacksKeep(good, x.(tl := t), app, t.net.told, |x.tl.net.told|);
    case DoTlSend(s, c, data) => SendKeeps(good, x.tl, s, c, data);
    case DoNewTc(s) => NewKeeps(good, x.tl, s);
    case DoDelTc(s, c) => DelKeeps(good, x.tl, s, c);
    case DoPoll(polled, rx, tick) => if polled { PollSlotsKeep(good, x, w, app, rx, tick, 0); }
    case DoCreateSession(slot, c, resource, callback) =>
      SendKeeps(good, x.tl, slot % 256, c,
        [ST_CREATE_SESSION, 6] + Be32(resource) + [Hi(FreeSession(x.sessions, 1)), Lo(FreeSession(x.sessions, 1))]);
    case DoDestroySession(n) =>
      if n < |x.sessions| {
        SendKeeps(good, x.tl, x.sessions[n].slot, x.sessions[n].conn, [ST_CLOSE_SESSION_REQ, 2, Hi(n), Lo(n)]);
      }
    case DoSend(n, vector) =>
      if n < |x.sessions| {
        SendKeeps(good, x.tl, x.sessions[n].slot, x.sessions[n].conn, DataSpdu(n, Flatten(vector)));
      }
    case DoBroadcast(slot, resource, data) => BroadcastKeeps(good, x, slot, resource, data, 0);
  }

  /** The induction principle: what every legal action keeps, every run keeps. */
  lemma {:induction false} RunKeeps(good: Net -> bool, x: Stack, w: nat -> bool, app: nat -> App, es: seq<Event>)
    requires Sound(x) && Kept(good) && good(x.tl.net)
    ensures good(Run(x, w, app, es).tl.net)
    decreases |es|
  {
    if es != [] {
      StepKeeps(good, x, w, app, es[0]);
      RunKeeps(good, Step(x, w, app, es[0]), w, app, es[1..]);
    }
  }

  /* ---- The transport layer in every run ---- */

  /** The network after a run from new layers. */
  function After(maxSlots: nat, maxConns: nat, junk: seq<Session>, w: nat -> bool, app: nat -> App, es: seq<Event>): Net
    requires maxSlots < 256 && maxConns < 256
  {
    Run(CreateStack(maxSlots, maxConns, junk), w, app, es).tl.net
  }

  /** Every run keeps the state invariant. */
  lemma StateInvariant(maxSlots: nat, maxConns: nat, junk: seq<Session>, w: nat -> bool, app: nat -> App,
                       es: seq<Event>)
    requires maxSlots < 256 && maxConns < 256
    ensures Inv(After(maxSlots, maxConns, junk, w, app, es))
  {
    InvKept();
    RunKeeps(Inv, CreateStack(maxSlots, maxConns, junk), w, app, es);
  }

  /** Sent plus still queued is exactly what was queued, in order, in every run. */
  lemma FirstInFirstOut(maxSlots: nat, maxConns: nat, junk: seq<Session>, w: nat -> bool, app: nat -> App,
                        es: seq<Event>,
                        s: byte, c: byte)
    requires s < maxSlots < 256 && c < maxConns < 256
    ensures var n := After(maxSlots, maxConns, junk, w, app, es);
      && s < |n.slots| && c < |n.slots[s].conns|
      && QueuedSince(n.acts, s, c) == SentSince(n.acts, s, c) + n.slots[s].conns[c].queue
  {
    FifoKept(s, c);
    RunKeeps((n: Net) => Fifo(n, s, c), CreateStack(maxSlots, maxConns, junk), w, app, es);
  }

  /** Between a successful write and the next attempt the module has answered or the slot was destroyed. */
  lemma StopAndWait(maxSlots: nat, maxConns: nat, junk: seq<Session>, w: nat -> bool, app: nat -> App, es: seq<Event>,
                    s: byte, c: byte, i: nat, j: nat)
    requires s < maxSlots < 256 && c < maxConns < 256
    requires var acts := After(maxSlots, maxConns, junk, w, app, es).acts;
      i < j < |acts| && Asks(acts[i], s, c) && TriesToAsk(acts[j], s, c)
    ensures var acts := After(maxSlots, maxConns, junk, w, app, es).acts;
      exists m :: i < m < j && Answers(acts[m], s, c)
  {
    StopWaitKept(s, c);
    RunKeeps((n: Net) => StopWait(n, s, c), CreateStack(maxSlots, maxConns, junk), w, app, es);
    var acts := After(maxSlots, maxConns, junk, w, app, es).acts;
    if forall m :: i < m < j ==> !Answers(acts[m], s, c) {
      UnansweredStaysOutstanding(acts, s, c, i, j);
    }
  }

  /** Once T_DELETE_T_C has been attempted, no T_DATA_LAST is attempted before a T_CREATE_T_C, in any run. */
  lemma NoDataAfterDelete(maxSlots: nat, maxConns: nat, junk: seq<Session>, w: nat -> bool, app: nat -> App,
                          es: seq<Event>,
                          s: byte, c: byte, j: nat)
    requires s < maxSlots < 256 && c < maxConns < 256
    requires var acts := After(maxSlots, maxConns, junk, w, app, es).acts;
      j < |acts| && Attempts(acts[j], s, c, T_DATA_LAST)
    ensures !Quarantined(After(maxSlots, maxConns, junk, w, app, es).acts[..j], s, c)
  {
    DeletionSafeKept(s, c);
    RunKeeps((n: Net) => DeletionSafe(n, s, c), CreateStack(maxSlots, maxConns, junk), w, app, es);
  }

  /* ---- Connections that cannot be used again ---- */

  /** A deletion is queued, but the message is gone. */
  ghost predicate Stranded(n: Net, s: byte, c: byte) {
    s < |n.slots| && c < |n.slots[s].conns| && n.slots[s].conns[c].state == DeleteQueued && n.slots[s].conns[c].queue == []
  }

  /** Stranded, or the slot was destroyed by an action after the first `from`. */
  ghost predicate StrandedSince(n: Net, s: byte, c: byte, from: nat) {
    from <= |n.acts| && (Stranded(n, s, c) || Destroyed(s) in n.acts[from..])
  }

  /** A failed write of T_DELETE_T_C still takes the message off the queue: of a deletion that stands at the head of
   *  the queue the next poll strands the connection exactly when it attempts the write and the write fails. */
  lemma FailedDeleteStrands(t: Tl, w: nat -> bool, s: byte, c: byte)
    requires WellFormed(t) && s < |t.net.slots| && c < t.maxConns && Inv(t.net)
    requires t.At(s, c).state == DeleteQueued && t.At(s, c).queue != [] && IsTag(t.At(s, c).queue[0], T_DELETE_T_C)
    ensures Stranded(PollQueue(t, w, s, c).t.net, s, c) <==> !t.At(s, c).waiting && !t.Next(w)
  {
    assert GoodSlot(t.net.slots[s]) && GoodConn(t.At(s, c), c);
    if !t.At(s, c).waiting { ApplyAt(t.net, SentQueued(s, c, t.At(s, c).queue[0], t.Next(w)), s, c); }
  }

  lemma StrandedKept(s: byte, c: byte, from: nat)
    ensures Kept((n: Net) => StrandedSince(n, s, c, from))
  {
    forall n: Net, a: Act | StrandedSince(n, s, c, from) && Legal(n, a) ensures StrandedSince(Apply(n, a), s, c, from) {
      assert (n.acts + [a])[from..] == n.acts[from..] + [a];
      if Stranded(n, s, c) && a != Destroyed(s) { ApplyAt(n, a, s, c); }
    }
  }

  /** Nothing but the destruction of its slot ever frees a stranded connection. */
  lemma StrandedForGood(x: Stack, w: nat -> bool, app: nat -> App, es: seq<Event>, s: byte, c: byte)
    requires Sound(x) && Stranded(x.tl.net, s, c)
    ensures var n := Run(x, w, app, es).tl.net;
      |x.tl.net.acts| <= |n.acts| && (Stranded(n, s, c) || Destroyed(s) in n.acts[|x.tl.net.acts|..])
  {
    var from := |x.tl.net.acts|;
    StrandedKept(s, c, from);
    RunKeeps((n: Net) => StrandedSince(n, s, c, from), x, w, app, es);
  }

  /* ---- Deletions that are never attempted ---- */

  /** A deletion is queued while the host waits: what it waits for is accepted on active connections only. */
  ghost predicate Locked(n: Net, s: byte, c: byte) {
    s < |n.slots| && c < |n.slots[s].conns| && n.slots[s].conns[c].state == DeleteQueued && n.slots[s].conns[c].waiting
  }

  /** `en50221_tl_del_tc` locks the connection exactly when the host is waiting on it: for the answer to a message or
   *  a poll, or to a deletion under way, which the call accepts, too. */
  lemma DeleteLocksExactly(t: Tl, s: byte, c: byte)
    requires WellFormed(t) && s < |t.net.slots| && c < t.maxConns && DelTc(t, s, c).code == 0
    ensures Locked(DelTc(t, s, c).t.net, s, c) <==> t.At(s, c).waiting
  {
    ApplyAt(t.net, QueuedDelete(s, c), s, c);
  }

  /** The poll after `en50221_tl_del_tc` attempts the deletion exactly when the host is not waiting and no older
   *  message is queued. */
  lemma DeleteAttemptedExactly(t: Tl, w: nat -> bool, s: byte, c: byte)
    requires WellFormed(t) && s < |t.net.slots| && c < t.maxConns && Inv(t.net) && DelTc(t, s, c).code == 0
    ensures var u := DelTc(t, s, c).t;
      var acts := PollQueue(u, w, s, c).t.net.acts;
      (|acts| > |u.net.acts| && Attempts(acts[|u.net.acts|], s, c, T_DELETE_T_C))
      <==> !t.At(s, c).waiting && t.At(s, c).queue == []
  {
    var k := t.At(s, c);
    assert GoodSlot(t.net.slots[s]) && GoodConn(k, c);
    ApplyAt(t.net, QueuedDelete(s, c), s, c);
    if k.queue != [] { assert !IsTag(k.queue[0], T_DELETE_T_C); }
  }

  /** An older message in front locks the connection exactly when its write succeeds. */
  lemma MessageInFrontLocks(t: Tl, w: nat -> bool, s: byte, c: byte)
    requires WellFormed(t) && s < |t.net.slots| && c < t.maxConns && t.At(s, c).state == DeleteQueued
    requires !t.At(s, c).waiting && t.At(s, c).queue != [] && !IsTag(t.At(s, c).queue[0], T_DELETE_T_C)
    ensures Locked(PollQueue(t, w, s, c).t.net, s, c) <==> t.Next(w)
  {
    ApplyAt(t.net, SentQueued(s, c, t.At(s, c).queue[0], t.Next(w)), s, c);
  }

  /** Two deletions in a row, all writes successful: the connection is locked. */
  lemma SecondDeleteLocks(t: Tl, w: nat -> bool, s: byte, c: byte)
    requires WellFormed(t) && s < |t.net.slots| && c < t.maxConns && t.net.slots[s].handle != -1
    requires t.At(s, c).state == Active && !t.At(s, c).waiting && t.At(s, c).queue == []
    requires forall i :: w(i)
    ensures var u := PollQueue(DelTc(t, s, c).t, w, s, c).t;
      DelTc(u, s, c).code == 0 && Locked(DelTc(u, s, c).t.net, s, c)
  {
    ApplyAt(t.net, QueuedDelete(s, c), s, c);
    var t1 := DelTc(t, s, c).t;
    ApplyAt(t1.net, SentQueued(s, c, DeleteFrame(c), t1.Next(w)), s, c);
    var u := PollQueue(t1, w, s, c).t;
    ApplyAt(u.net, QueuedDelete(s, c), s, c);
  }

  /** On a locked connection every TPDU but a request for a connection is refused, T_D_T_C_REPLY among them, and a
   *  poll does nothing, or fails each time the wait has run out. */
  lemma LockedRefuses(t: Tl, w: nat -> bool, s: byte, c: byte, tag: byte, data: seq<byte>, tick: Tick)
    requires WellFormed(t) && s < |t.net.slots| && c < t.maxConns && Locked(t.net, s, c)
    ensures tag != T_REQUEST_T_C ==>
      HandleTpdu(t, w, s, tag, c, data) == Result(t.FailOn(s, ERR_BADCAMDATA), -1)
    ensures PollConn(t, w, tick, s, c) == if tick.timedOut then Result(t.FailOn(s, ERR_TIMEOUT), -1) else Result(t, 0)
  {
  }

  /** Actions that end the wait of a locked connection: its slot is destroyed, or the module asks for another
   *  connection on this one and the answer is written. */
  predicate Releases(a: Act, s: byte, c: byte) {
    a == Destroyed(s) || a == Refused(s, c, true) || (a.Offered? && a.s == s && a.c == c && a.ok)
  }

  /** Locked with this queue, or released by an action after the first `from`. */
  ghost predicate LockedSince(n: Net, s: byte, c: byte, from: nat, queue: seq<seq<byte>>) {
    from <= |n.acts|
    && ((Locked(n, s, c) && n.slots[s].conns[c].queue == queue) || exists a :: a in n.acts[from..] && Releases(a, s, c))
  }

  lemma LockedKept(s: byte, c: byte, from: nat, queue: seq<seq<byte>>)
    ensures Kept((n: Net) => LockedSince(n, s, c, from, queue))
  {
    forall n: Net, a: Act | LockedSince(n, s, c, from, queue) && Legal(n, a) ensures LockedSince(Apply(n, a), s, c, from, queue) {
      var acts := n.acts + [a];
      assert acts[from..] == n.acts[from..] + [a];
      if Locked(n, s, c) && n.slots[s].conns[c].queue == queue {
        if Releases(a, s, c) {
          assert a in acts[from..];
        } else {
          ApplyAt(n, a, s, c);
        }
      } else {
        var b :| b in n.acts[from..] && Releases(b, s, c);
        assert b in acts[from..];
      }
    }
  }

  /** In every run a locked connection stays locked, its queue as it is and so its deletion never attempted, until
   *  it is released. */
  lemma LockedForGood(x: Stack, w: nat -> bool, app: nat -> App, es: seq<Event>, s: byte, c: byte)
    requires Sound(x) && Locked(x.tl.net, s, c)
    ensures var n := Run(x, w, app, es).tl.net;
      && |x.tl.net.acts| <= |n.acts|
      && ((Locked(n, s, c) && n.slots[s].conns[c].queue == x.tl.net.slots[s].conns[c].queue)
          || exists a :: a in n.acts[|x.tl.net.acts|..] && Releases(a, s, c))
  {
    var from, queue := |x.tl.net.acts|, x.tl.net.slots[s].conns[c].queue;
    LockedKept(s, c, from, queue);
    RunKeeps((n: Net) => LockedSince(n, s, c, from, queue), x, w, app, es);
  }

  /** A connection the host opens is announced to the module by the next poll exactly when the host is not
   *  waiting on it and no older message is in front of the T_CREATE_T_C. */
  lemma ReopenAnnounced(t: Tl, w: nat -> bool, s: byte, d: byte)
    requires WellFormed(t) && s < |t.net.slots| && d < t.maxConns && NewTc(t, s).code == d
    ensures var u := NewTc(t, s).t;
      var acts := PollQueue(u, w, s, d).t.net.acts;
      (|acts| > |u.net.acts| && Attempts(acts[|u.net.acts|], s, d, T_CREATE_T_C))
      <==> (!t.At(s, d).waiting && (t.At(s, d).queue == [] || IsTag(t.At(s, d).queue[0], T_CREATE_T_C)))
  {
    var u := NewTc(t, s).t;
    ApplyAt(t.net, QueuedCreate(s, d), s, d);
    var q := t.At(s, d).queue;
    assert u.At(s, d).queue == q + [CreateFrame(d)];
    if q != [] { assert u.At(s, d).queue[0] == q[0]; }
  }

  /** A request that times out frees the connection but leaves the host waiting on it, so the connection is
   *  not announced when the host opens it again. */
  lemma TimeoutLocksOut(t: Tl, w: nat -> bool, s: byte, c: byte)
    requires WellFormed(t) && s < |t.net.slots| && c < t.maxConns
    requires t.At(s, c).waiting && (t.At(s, c).state == InCreation || t.At(s, c).state == InDeletion)
    ensures var u := PollConn(t, w, Tick(false, true), s, c).t;
      && u.At(s, c).state == Idle && u.At(s, c).waiting && LockedOut(u.net, s, c)
      && (NewTc(u, s).code == c ==>
            PollQueue(NewTc(u, s).t, w, s, c) == Result(NewTc(u, s).t, 0))
  {
    ApplyAt(t.net, TimedOut(s, c), s, c);
    var u := PollConn(t, w, Tick(false, true), s, c).t;
    if NewTc(u, s).code == c { ApplyAt(u.net, QueuedCreate(s, c), s, c); }
  }

  /** So does a deletion that the module confirms: its answer frees the connection and leaves the host waiting. */
  lemma DeletionLocksOut(t: Tl, w: nat -> bool, s: byte, c: byte, data: seq<byte>)
    requires WellFormed(t) && s < |t.net.slots| && c < t.maxConns
    requires t.At(s, c).waiting && t.At(s, c).state == InDeletion
    ensures var r := HandleTpdu(t, w, s, T_D_T_C_REPLY, c, data);
      && r.code == 0 && LockedOut(r.t.net, s, c)
      && (NewTc(r.t, s).code == c ==>
            PollQueue(NewTc(r.t, s).t, w, s, c) == Result(NewTc(r.t, s).t, 0))
  {
    ApplyAt(t.net, DeleteAcked(s, c), s, c);
    var u := HandleTpdu(t, w, s, T_D_T_C_REPLY, c, data).t;
    if NewTc(u, s).code == c { ApplyAt(u.net, QueuedCreate(s, c), s, c); }
  }

  /** The host waits on a connection that is not open. */
  ghost predicate LockedOut(n: Net, s: byte, c: byte) {
    && s < |n.slots| && c < |n.slots[s].conns| && n.slots[s].conns[c].waiting
    && (n.slots[s].conns[c].state == Idle || n.slots[s].conns[c].state == InCreation)
  }

  /** Its slot is destroyed, the module confirms a creation, or a request of the module gets its answer written. */
  predicate Frees(a: Act, s: byte, c: byte) {
    a == Destroyed(s) || a == Opened(s, c) || a == Refused(s, c, true) || a == Created(s, c, true)
    || (a.Offered? && a.s == s && a.c == c && a.ok)
  }

  /** Polling attempts no write before the connection is freed. */
  ghost predicate SilentUntilFreed(acts: seq<Act>, s: byte, c: byte) {
    forall j :: 0 <= j < |acts| && TriesToAsk(acts[j], s, c) ==> exists m :: 0 <= m < j && Frees(acts[m], s, c)
  }

  ghost predicate SilentSince(n: Net, s: byte, c: byte, from: nat) {
    && from <= |n.acts| && SilentUntilFreed(n.acts[from..], s, c)
    && (LockedOut(n, s, c) || exists m :: 0 <= m < |n.acts[from..]| && Frees(n.acts[from..][m], s, c))
  }

  lemma SilentStep(n: Net, a: Act, s: byte, c: byte, from: nat)
    requires SilentSince(n, s, c, from) && Legal(n, a)
    ensures SilentSince(Apply(n, a), s, c, from)
  {
    var acts, more := n.acts[from..], n.acts[from..] + [a];
    assert (n.acts + [a])[from..] == more;
    assert more[|acts|] == a && forall m :: 0 <= m < |acts| ==> more[m] == acts[m];
    if LockedOut(n, s, c) {
      ApplyAt(n, a, s, c);
      assert !TriesToAsk(a, s, c);
    }
  }

  /** In every run, as long as nothing frees it, no message queued for such a connection is attempted, its
   *  T_CREATE_T_C among them, however often the host opens it and polls. */
  lemma LockedOutForGood(x: Stack, w: nat -> bool, app: nat -> App, es: seq<Event>, s: byte, c: byte)
    requires Sound(x) && LockedOut(x.tl.net, s, c)
    ensures var n := Run(x, w, app, es).tl.net;
      && |x.tl.net.acts| <= |n.acts|
      && SilentUntilFreed(n.acts[|x.tl.net.acts|..], s, c)
      && (LockedOut(n, s, c) || exists a :: a in n.acts[|x.tl.net.acts|..] && Frees(a, s, c))
  {
    var from := |x.tl.net.acts|;
    forall n: Net, a: Act | SilentSince(n, s, c, from) && Legal(n, a) ensures SilentSince(Apply(n, a), s, c, from) {
      SilentStep(n, a, s, c, from);
    }
    RunKeeps((n: Net) => SilentSince(n, s, c, from), x, w, app, es);
  }
}
