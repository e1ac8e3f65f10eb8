/** Safety of the transport layer over all runs. */
module TransportSafety {
  import opened Common
  import opened Transport
  import opened TransportKeeps

  /** Connection `c` of slot `s`, before and after an action. */
  ghost predicate Becomes(k: Conn, k': Conn, s: nat, c: nat, a: Act) {
    k' == if a.s == s then TouchConn(k, c, a) else k
  }

  lemma ApplyAt(n: Net, a: Act, s: nat, c: nat)
    requires s < |n.slots| && c < |n.slots[s].conns|
    ensures |Apply(n, a).slots| == |n.slots| && |Apply(n, a).slots[s].conns| == |n.slots[s].conns|
    ensures Becomes(n.slots[s].conns[c], Apply(n, a).slots[s].conns[c], s, c, a)
  {
  }

  /** Behind `PollQueue` nothing is left to send unless something is awaited. */
  lemma QueueDone(t: Tl, w: nat -> bool, s: byte, j: byte)
    requires WellFormed(t) && s < |t.net.slots| && j < t.maxConns
    ensures var r := PollQueue(t, w, s, j);
      r.code >= 0 ==> var q := r.t.At(s, j); q.waiting || q.state != Active || q.queue == []
  {
    var q := t.At(s, j);
    if q.queue != [] { ApplyAt(t.net, SentQueued(s, j, q.queue[0], t.Next(w)), s, j); }
  }

  /** Whether connection `c` of slot `s` is in the state in which `a` is taken. */
  ghost predicate LegalAt(k: Conn, s: nat, c: nat, a: Act) {
    && (a.s == s && !a.Registered? && !a.Destroyed? && !a.Offered? && a.c == c ==> LegalOwn(k, a))
    && (a.s == s && a.Offered? && a.d == c ==> k.state == Idle)
  }

  /* ---- The state invariant ---- */

  ghost predicate GoodConn(k: Conn, c: nat) {
    && (k.state == Idle || k.state == InCreation || k.state == InDeletion ==> k.chain.None?)
    && k.chainLen == (if k.chain.None? then 0 else |k.chain.value|)
    && (k.state == InDeletion ==> k.queue == [])
    && (forall i :: 0 <= i < |k.queue| && IsTag(k.queue[i], T_DELETE_T_C) ==>
          k.state == DeleteQueued && i == |k.queue| - 1)
    && (c == 0 ==> k.state == Idle)
  }

  ghost predicate GoodSlot(x: Slot) {
    && (forall c :: 0 <= c < |x.conns| ==> GoodConn(x.conns[c], c))
    && (x.handle == -1 ==> forall c :: 0 <= c < |x.conns| ==> x.conns[c].state == Idle && x.conns[c].queue == [])
  }

  ghost predicate Inv(n: Net) {
    forall s :: 0 <= s < |n.slots| ==> GoodSlot(n.slots[s])
  }

  lemma GoodConnKept(k: Conn, c: nat, a: Act)
    requires GoodConn(k, c)
    requires a.Registered? || a.Destroyed? || a.Offered? || (a.c == c ==> LegalOwn(k, a))
    requires a.Offered? && a.d == c ==> k.state == Idle
    ensures GoodConn(TouchConn(k, c, a), c)
  {
  }

  lemma GoodSlotKept(x: Slot, n: Net, a: Act)
    requires a.s < |n.slots| && x == n.slots[a.s] && GoodSlot(x) && Legal(n, a)
    ensures GoodSlot(TouchSlot(x, a))
  {
    forall c | 0 <= c < |x.conns| ensures GoodConn(TouchConn(x.conns[c], c, a), c) {
      GoodConnKept(x.conns[c], c, a);
    }
  }

  lemma InvKept()
    ensures Kept(Inv)
  {
    forall n: Net, a: Act | Inv(n) && Legal(n, a) ensures Inv(Apply(n, a)) {
      GoodSlotKept(n.slots[a.s], n, a);
    }
  }

  /* ---- First in, first out ---- */

  /** The message an action appends to the queue of connection `c`. */
  function Queues(a: Act, s: byte, c: byte): Option<seq<byte>> {
    if a == QueuedCreate(s, c) then Some(CreateFrame(c))
    else if a == QueuedDelete(s, c) then Some(DeleteFrame(c))
    else if a.QueuedData? && a.s == s && a.c == c then Some(DataFrame(c, a.data))
    else None
  }

  /** The messages queued for a connection since its slot was last destroyed, oldest first. */
  ghost function QueuedSince(acts: seq<Act>, s: byte, c: byte): seq<seq<byte>> {
    if acts == [] then [] else
      var before := QueuedSince(acts[..|acts| - 1], s, c);
      var a := acts[|acts| - 1];
      if a == Destroyed(s) then []
      else if Queues(a, s, c).Some? then before + [Queues(a, s, c).value]
      else before
  }

  /** The queued messages that polling attempted to write since the slot was last destroyed. */
  ghost function SentSince(acts: seq<Act>, s: byte, c: byte): seq<seq<byte>> {
    if acts == [] then [] else
      var before := SentSince(acts[..|acts| - 1], s, c);
      var a := acts[|acts| - 1];
      if a == Destroyed(s) then []
      else if a.SentQueued? && a.s == s && a.c == c then before + [a.msg]
      else before
  }

  ghost predicate Fifo(n: Net, s: byte, c: byte) {
    s < |n.slots| && c < |n.slots[s].conns| ==>
      QueuedSince(n.acts, s, c) == SentSince(n.acts, s, c) + n.slots[s].conns[c].queue
  }

  lemma FifoStep(acts: seq<Act>, k: Conn, k': Conn, s: byte, c: byte, a: Act)
    requires Becomes(k, k', s, c, a) && LegalAt(k, s, c, a)
    requires QueuedSince(acts, s, c) == SentSince(acts, s, c) + k.queue
    ensures QueuedSince(acts + [a], s, c) == SentSince(acts + [a], s, c) + k'.queue
  {
    assert (acts + [a])[..|acts|] == acts;
    if a.SentQueued? && a.s == s && a.c == c {
      assert SentSince(acts, s, c) + k.queue == (SentSince(acts, s, c) + [k.queue[0]]) + k.queue[1..];
    } else if Queues(a, s, c).Some? {
      var msg := Queues(a, s, c).value;
      assert (SentSince(acts, s, c) + k.queue) + [msg] == SentSince(acts, s, c) + (k.queue + [msg]);
    }
  }

  lemma FifoKept(s: byte, c: byte)
    ensures Kept((n: Net) => Fifo(n, s, c))
  {
    forall n: Net, a: Act | Fifo(n, s, c) && Legal(n, a) ensures Fifo(Apply(n, a), s, c) {
      if s < |n.slots| && c < |n.slots[s].conns| {
        ApplyAt(n, a, s, c);
        FifoStep(n.acts, n.slots[s].conns[c], Apply(n, a).slots[s].conns[c], s, c, a);
      }
    }
  }

  /* ---- Stop and wait ---- */

  /** A successful write that makes the host wait for the module. */
  predicate Asks(a: Act, s: byte, c: byte) {
    a.s == s && (a.SentQueued? || a.SentPoll?) && a.c == c && a.ok
  }

  /** Polling attempts to write, a queued message or a poll. */
  predicate TriesToAsk(a: Act, s: byte, c: byte) {
    a.s == s && (a.SentQueued? || a.SentPoll?) && a.c == c
  }

  /** The module answers on the connection, or the slot is destroyed. */
  predicate Answers(a: Act, s: byte, c: byte) {
    a == Destroyed(s)
    || (a.s == s && (a.Opened? || a.GotMore? || a.GotLast? || a.Quiet?) && a.c == c)
    || (a.s == s && (a.Refused? || a.Offered?) && a.c == c && a.ok)
  }

  /** The last question is not answered yet. */
  ghost predicate Outstanding(acts: seq<Act>, s: byte, c: byte) {
    acts != [] &&
    var a := acts[|acts| - 1];
    (Asks(a, s, c) || (!Answers(a, s, c) && Outstanding(acts[..|acts| - 1], s, c)))
  }

  /** No attempt is made while a question is outstanding. */
  ghost predicate Waits(acts: seq<Act>, s: byte, c: byte) {
    forall j :: 0 <= j < |acts| && TriesToAsk(acts[j], s, c) ==> !Outstanding(acts[..j], s, c)
  }

  ghost predicate StopWait(n: Net, s: byte, c: byte) {
    && s < |n.slots| && c < |n.slots[s].conns|
    && Waits(n.acts, s, c)
    && (Outstanding(n.acts, s, c) ==> n.slots[s].conns[c].waiting)
  }

  lemma StopWaitStep(acts: seq<Act>, k: Conn, k': Conn, s: byte, c: byte, a: Act)
    requires Becomes(k, k', s, c, a) && LegalAt(k, s, c, a)
    requires Waits(acts, s, c) && (Outstanding(acts, s, c) ==> k.waiting)
    ensures Waits(acts + [a], s, c) && (Outstanding(acts + [a], s, c) ==> k'.waiting)
  {
    WaitsAppend(acts, s, c, a);
    assert (acts + [a])[..|acts|] == acts;
  }

  lemma WaitsAppend(acts: seq<Act>, s: byte, c: byte, a: Act)
    requires Waits(acts, s, c)
    ensures Waits(acts + [a], s, c) <==> (TriesToAsk(a, s, c) ==> !Outstanding(acts, s, c))
  {
    var more := acts + [a];
    assert forall j :: 0 <= j <= |acts| ==> more[..j] == acts[..j];
    assert acts[..|acts|] == acts && more[|acts|] == a;
  }

  lemma StopWaitKept(s: byte, c: byte)
    ensures Kept((n: Net) => StopWait(n, s, c))
  {
    forall n: Net, a: Act | StopWait(n, s, c) && Legal(n, a) ensures StopWait(Apply(n, a), s, c) {
      ApplyAt(n, a, s, c);
      StopWaitStep(n.acts, n.slots[s].conns[c], Apply(n, a).slots[s].conns[c], s, c, a);
    }
  }

  lemma {:induction false} UnansweredStaysOutstanding(acts: seq<Act>, s: byte, c: byte, i: nat, j: nat)
    requires i < j <= |acts| && Asks(acts[i], s, c)
    requires forall m :: i < m < j ==> !Answers(acts[m], s, c)
    ensures Outstanding(acts[..j], s, c)
    decreases j
  {
    assert acts[..j][..j - 1] == acts[..j - 1];
    if j > i + 1 { UnansweredStaysOutstanding(acts, s, c, i, j - 1); }
  }

  /* ---- Deletion ---- */

  /** The host has attempted T_DELETE_T_C on the connection, and no T_CREATE_T_C since. */
  ghost predicate Quarantined(acts: seq<Act>, s: byte, c: byte) {
    acts != [] &&
    var a := acts[|acts| - 1];
    (Attempts(a, s, c, T_DELETE_T_C)
     || (!Attempts(a, s, c, T_CREATE_T_C) && Quarantined(acts[..|acts| - 1], s, c)))
  }

  /** Some T_CREATE_T_C is queued. */
  ghost predicate HasCreate(q: seq<seq<byte>>) {
    exists i :: 0 <= i < |q| && IsTag(q[i], T_CREATE_T_C)
  }

  /** Every T_DATA_LAST in the queue has a T_CREATE_T_C in front of it. */
  ghost predicate CreateFirst(q: seq<seq<byte>>) {
    forall i :: 0 <= i < |q| && IsTag(q[i], T_DATA_LAST) ==> HasCreate(q[..i])
  }

  ghost predicate QuietConn(k: Conn) {
    CreateFirst(k.queue) && (k.state == InCreation || k.state == Active ==> HasCreate(k.queue))
  }

  /** No T_DATA_LAST was attempted in quarantine. */
  ghost predicate NoDataInQuarantine(acts: seq<Act>, s: byte, c: byte) {
    forall j :: 0 <= j < |acts| && Attempts(acts[j], s, c, T_DATA_LAST) ==> !Quarantined(acts[..j], s, c)
  }

  ghost predicate DeletionSafe(n: Net, s: byte, c: byte) {
    && s < |n.slots| && c < |n.slots[s].conns|
    && Inv(n)
    && NoDataInQuarantine(n.acts, s, c)
    && (Quarantined(n.acts, s, c) ==> QuietConn(n.slots[s].conns[c]))
  }

  lemma HasCreateAppend(q: seq<seq<byte>>, msg: seq<byte>)
    requires HasCreate(q) || IsTag(msg, T_CREATE_T_C)
    ensures HasCreate(q + [msg])
  {
    if HasCreate(q) {
      var i :| 0 <= i < |q| && IsTag(q[i], T_CREATE_T_C);
      assert (q + [msg])[i] == q[i];
    } else {
      assert (q + [msg])[|q|] == msg;
    }
  }

  lemma CreateFirstAppend(q: seq<seq<byte>>, msg: seq<byte>)
    requires CreateFirst(q) && (IsTag(msg, T_DATA_LAST) ==> HasCreate(q))
    ensures CreateFirst(q + [msg])
  {
    forall i | 0 <= i < |q + [msg]| && IsTag((q + [msg])[i], T_DATA_LAST) ensures HasCreate((q + [msg])[..i]) {
      assert (q + [msg])[..i] == q[..i];
      if i == |q| { assert q[..i] == q; }
    }
  }

  /** Taking a head that is not T_CREATE_T_C off the queue keeps the queue in order. */
  lemma CreateFirstTail(q: seq<seq<byte>>)
    requires q != [] && CreateFirst(q) && !IsTag(q[0], T_CREATE_T_C)
    ensures !IsTag(q[0], T_DATA_LAST)
    ensures CreateFirst(q[1..]) && (HasCreate(q) ==> HasCreate(q[1..]))
  {
    assert !HasCreate(q[..0]);
    forall i | 0 <= i < |q[1..]| && IsTag(q[1..][i], T_DATA_LAST) ensures HasCreate(q[1..][..i]) {
      assert HasCreate(q[..i + 1]);
      var j :| 0 <= j < i + 1 && IsTag(q[..i + 1][j], T_CREATE_T_C);
      assert q[1..][..i][j - 1] == q[j];
    }
    if HasCreate(q) {
      var j :| 0 <= j < |q| && IsTag(q[j], T_CREATE_T_C);
      assert q[1..][j - 1] == q[j];
    }
  }

  lemma QuietKept(k: Conn, c: nat, a: Act)
    requires GoodConn(k, c) && QuietConn(k) && !a.Registered? && !a.Destroyed? && !a.Offered? && LegalOwn(k, a)
    requires !(Packet(a).Some? && IsTag(Packet(a).value, T_CREATE_T_C))
    ensures QuietConn(TouchOwn(k, a))
    ensures !(Packet(a).Some? && IsTag(Packet(a).value, T_DATA_LAST))
  {
    match a
    case QueuedData(_, x, data) =>
      HasCreateAppend(k.queue, DataFrame(x, data));
      CreateFirstAppend(k.queue, DataFrame(x, data));
    case QueuedCreate(_, x) =>
      HasCreateAppend(k.queue, CreateFrame(x));
      CreateFirstAppend(k.queue, CreateFrame(x));
    case QueuedDelete(_, x) =>
      CreateFirstAppend(k.queue, DeleteFrame(x));
    case SentQueued(_, _, _, _) =>
      CreateFirstTail(k.queue);
    case _ =>
  }

  lemma NoDataAppend(acts: seq<Act>, s: byte, c: byte, a: Act)
    requires NoDataInQuarantine(acts, s, c)
    ensures NoDataInQuarantine(acts + [a], s, c) <==>
      (Attempts(a, s, c, T_DATA_LAST) ==> !Quarantined(acts, s, c))
  {
    var more := acts + [a];
    assert forall j :: 0 <= j <= |acts| ==> more[..j] == acts[..j];
    assert acts[..|acts|] == acts && more[|acts|] == a;
  }

  lemma DeletionSafeStep(acts: seq<Act>, k: Conn, k': Conn, s: byte, c: byte, a: Act)
    requires Becomes(k, k', s, c, a) && LegalAt(k, s, c, a) && GoodConn(k, c)
    requires Quarantined(acts, s, c) ==> QuietConn(k)
    ensures Quarantined(acts + [a], s, c) ==> QuietConn(k')
    ensures Attempts(a, s, c, T_DATA_LAST) ==> !Quarantined(acts, s, c)
  {
    assert (acts + [a])[..|acts|] == acts;
    if a.s == s && !a.Registered? && !a.Destroyed? && !a.Offered? && a.c == c {
      if Attempts(a, s, c, T_DELETE_T_C) {
        assert k'.queue == [];
      } else if !Attempts(a, s, c, T_CREATE_T_C) && Quarantined(acts, s, c) {
        QuietKept(k, c, a);
      }
    }
  }

  lemma DeletionSafeKept(s: byte, c: byte)
    ensures Kept((n: Net) => DeletionSafe(n, s, c))
  {
    InvKept();
    forall n: Net, a: Act | DeletionSafe(n, s, c) && Legal(n, a) ensures DeletionSafe(Apply(n, a), s, c) {
      assert Inv(Apply(n, a));
      assert GoodSlot(n.slots[s]);
      ApplyAt(n, a, s, c);
      DeletionSafeStep(n.acts, n.slots[s].conns[c], Apply(n, a).slots[s].conns[c], s, c, a);
      NoDataAppend(n.acts, s, c, a);
    }
  }
}
