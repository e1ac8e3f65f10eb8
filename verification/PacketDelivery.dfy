/** Delivery packet by packet: APDUs arrive as they were sent, however a module cuts the SPDUs into TPDUs and these into
 *  link packets, whatever status, requests and other data it sends in between, and whatever the host does meanwhile. */
module PacketDelivery {
  import opened Common
  import opened Transport
  import opened TransportKeeps
  import opened TransportSafety
  import opened Sessions
  import opened Delivery
  import opened Reassembly
  import opened RunDelivery
  import opened ConnectionMoves
  import StackRuns
  import HostCalls

  /* ---- One packet ---- */

  /** Session `n` is open on the active connection `c` of slot `s`. */
  ghost predicate Live(x: Stack, s: byte, c: byte, n: nat) {
    && Serves(x, s, c, n) && Inv(x.tl.net)
    && s < |x.tl.net.slots| && c < x.tl.maxConns && x.tl.At(s, c).state == Active
  }

  /** From `x` to `y` these pieces hand session `n` exactly the APDUs for it that they complete; unless they close the
   *  session, it lives on with the rest of the last chain held. */
  ghost predicate Carries(x: Stack, y: Stack, s: byte, c: byte, n: nat, ps: seq<Piece>)
    requires Live(x, s, c, n)
  {
    var held := Held(x.tl.At(s, c));
    (forall p <- Payloads(ps, held) :: !Closes(p, n)) ==>
      && Fits(x, y) && Live(y, s, c, n) && Held(y.tl.At(s, c)) == Leftover(ps, held)
      && ApdusOf(y.calls, n) == ApdusOf(x.calls, n) + Delivered(Payloads(ps, held), n)
  }

  lemma InUse(x: Stack, s: byte, c: byte, n: nat)
    requires Live(x, s, c, n)
    ensures x.tl.net.slots[s].handle != -1 && Upright(x.tl, s, c)
  {
    assert GoodSlot(x.tl.net.slots[s]);
  }

  lemma MovedCarries(x: Stack, y: Stack, s: byte, c: byte, n: nat, ps: seq<Piece>)
    requires Live(x, s, c, n) && Inv(y.tl.net) && Moves(x.tl, y.tl, s, c, ps) && Hands(x, y, s, c, n)
    requires Chained(y.tl.net, s, c, |x.tl.net.acts|, |x.tl.net.told|, Held(x.tl.At(s, c)))
    ensures Carries(x, y, s, c, n, ps)
  {
    var acts, us := y.tl.net.acts[|x.tl.net.acts|..], y.tl.net.told[|x.tl.net.told|..];
    hide Inv, Ends, Handed, Delivered, Payloads, Pieces, Leftover, Held, Harmless, Foretold, GoodConn;
    if forall p <- Payloads(ps, Held(x.tl.At(s, c))) :: !Closes(p, n) { NothingEnds(us, acts, s, c, n); }
  }

  /** A packet accepted as a whole hands session `n` exactly the APDUs for it that its chains complete, whatever else
   *  is in it, and leaves the rest of the last chain held. */
  lemma PacketDelivers(x: Stack, w: nat -> bool, app: nat -> App, s: byte, ts: seq<Pdu>, c: byte, n: nat)
    requires Live(x, s, c, n) && Fitting(ts, x.tl.maxConns) && Unending(ts, c)
    requires ProcessData(x, w, app, s, Wire(ts)).code == 0
    ensures var y := ProcessData(x, w, app, s, Wire(ts)).x;
      Carries(x, y, s, c, n, PiecesIn(ts, c))
  {
    var y := ProcessData(x, w, app, s, Wire(ts)).x;
    var taken := ProcessMoves(x, w, app, s, ts, s, c);
    ProcessHands(x, w, app, s, Wire(ts), s, c, n);
    ChainStart(x.tl, s, c);
    InUse(x, s, c, n);
    var from, heard, held := |x.tl.net.acts|, |x.tl.net.told|, Held(x.tl.At(s, c));
    ChainsKept(s, c, from, heard, held);
    StackRuns.ProcessKeeps((m: Net) => Chained(m, s, c, from, heard, held), x, w, app, s, Wire(ts));
    InvKept();
    StackRuns.ProcessKeeps(Inv, x, w, app, s, Wire(ts));
    MovedCarries(x, y, s, c, n, PiecesIn(ts, c));
  }

  /* ---- Turns ---- */

  /** What `en50221_tl_poll` does when it comes to slot `k`, when a packet with this CAM number is read, or none when
   *  the list is empty; or a call of the host. */
  datatype Turn =
    | Visit(k: byte, number: byte, packet: seq<Pdu>, tick: nat -> Tick)
    | Call(e: Event)

  function Read(v: Turn): Rx
    requires v.Visit?
  {
    if v.packet == [] then Nothing else Readable(v.number, Wire(v.packet))
  }

  /** The slot the packet is for, or the number of slots when there is none. */
  function Target(x: Stack, v: Turn): nat
    requires v.Visit? && v.k < |x.tl.net.slots|
  {
    var slots := x.tl.net.slots;
    if v.packet == [] || slots[v.k].handle == -1 then |slots|
    else if slots[v.k].number == v.number then v.k
    else Route(slots, slots[v.k].handle, v.number, 0)
  }

  predicate InRange(v: Turn, slots: nat) { v.Visit? ==> v.k < slots }

  function Take(x: Stack, w: nat -> bool, app: nat -> App, v: Turn): (y: Stack)
    requires Sound(x) && InRange(v, |x.tl.net.slots|)
    ensures Fits(x, y)
  {
    match v
    case Visit(k, _, _, tick) => PollSlot(x, w, app, Read(v), tick, k).x
    case Call(e) => Step(x, w, app, e)
  }

  /** A turn that does not end the session or its connection: no TPDU of any module ends a connection of its number,
   *  and the host does not close the session, delete the connection or destroy the slot. */
  ghost predicate Lets(v: Turn, s: byte, c: byte, n: nat, maxConns: nat) {
    match v
    case Visit(_, _, packet, _) => Fitting(packet, maxConns) && Unending(packet, c)
    case Call(e) => !e.DoPoll? && e != DoDestroySession(n) && e != DoDestroy(s) && e != DoDelTc(s, c)
  }

  /** The TPDUs that are read for slot `s`. */
  function PdusAt(x: Stack, v: Turn, s: byte): seq<Pdu>
    requires InRange(v, |x.tl.net.slots|)
  {
    if v.Visit? && Target(x, v) == s then v.packet else []
  }

  /** What is read for slot `s` is accepted as a whole. */
  ghost predicate AcceptedAt(x: Stack, w: nat -> bool, app: nat -> App, v: Turn, s: byte)
    requires Sound(x) && InRange(v, |x.tl.net.slots|) && s < |x.tl.net.slots|
  {
    ProcessData(x, w, app, s, Wire(PdusAt(x, v, s))).code == 0
  }

  /** One turn: its packet moves the connection by its pieces, up to the first TPDU refused. */
  lemma TurnMoves(x: Stack, w: nat -> bool, app: nat -> App, v: Turn, s: byte, c: byte, n: nat)
    returns (taken: seq<Pdu>)
    requires Live(x, s, c, n) && InRange(v, |x.tl.net.slots|) && Lets(v, s, c, n, x.tl.maxConns)
    ensures taken <= PdusAt(x, v, s) && (AcceptedAt(x, w, app, v, s) ==> taken == PdusAt(x, v, s))
    ensures Moves(x.tl, Take(x, w, app, v).tl, s, c, PiecesIn(taken, c))
  {
    InUse(x, s, c, n);
    match v
    case Visit(_, _, _, _) => taken := VisitMoves(x, w, app, v, s, c);
    case Call(e) =>
      CallMoves(x, w, app, e, s, c);
      taken := [];
  }

  lemma VisitMoves(x: Stack, w: nat -> bool, app: nat -> App, v: Turn, s: byte, c: byte) returns (taken: seq<Pdu>)
    requires Upright(x.tl, s, c) && v.Visit? && v.k < |x.tl.net.slots|
    requires Fitting(v.packet, x.tl.maxConns) && Unending(v.packet, c)
    ensures taken <= PdusAt(x, v, s) && (AcceptedAt(x, w, app, v, s) ==> taken == PdusAt(x, v, s))
    ensures Moves(x.tl, PollSlot(x, w, app, Read(v), v.tick, v.k).x.tl, s, c, PiecesIn(taken, c))
  {
    assert WellFormed(x.tl) && s < |x.tl.net.slots|;
    hide Moves, Upright, ProcessData, PollConns, Wire, PiecesIn, Fitting, Unending;
    var d := Target(x, v);
    SomethingToRead(v);
    taken := [];
    Stays(x.tl, s, c);
    NoPieces(c);
    if d < |x.tl.net.slots| {
      var taken' := ProcessMoves(x, w, app, d, v.packet, s, c);
      if d == s { taken := taken'; }
    }
    if x.tl.net.slots[v.k].handle != -1 {
      var r := ReadSlot(x, w, app, Read(v), v.k);
      assert Moves(x.tl, r.x.tl, s, c, PiecesIn(taken, c));
      if r.code >= 0 {
        PollsMove(x.tl, r.x.tl, w, v.tick, v.k, s, c, PiecesIn(taken, c));
      }
    }
  }

  lemma SomethingToRead(v: Turn)
    requires v.Visit?
    ensures v.packet != [] ==> Wire(v.packet) != []
    ensures Wire([]) == []
  {
  }

  lemma NoPieces(c: byte)
    ensures PiecesIn([], c) == []
  {
  }

  /* ---- Delivery over turns ---- */

  lemma TurnHands(x: Stack, w: nat -> bool, app: nat -> App, v: Turn, s: byte, c: byte, n: nat)
    requires Sound(x) && InRange(v, |x.tl.net.slots|) && Lets(v, s, c, n, x.tl.maxConns)
    ensures Hands(x, Take(x, w, app, v), s, c, n)
  {
    match v
    case Visit(k, _, _, tick) => PollSlotHands(x, w, app, Read(v), tick, k, s, c, n);
    case Call(e) => StepHands(x, w, app, e, s, c, n);
  }

  lemma TurnKeeps(good: Net -> bool, x: Stack, w: nat -> bool, app: nat -> App, v: Turn)
    requires Sound(x) && InRange(v, |x.tl.net.slots|) && Kept(good) && good(x.tl.net)
    ensures good(Take(x, w, app, v).tl.net)
  {
    match v
    case Visit(k, _, _, tick) => StackRuns.PollSlotKeeps(good, x, w, app, Read(v), tick, k);
    case Call(e) => StackRuns.StepKeeps(good, x, w, app, e);
  }

  lemma TurnDelivers(x: Stack, w: nat -> bool, app: nat -> App, v: Turn, s: byte, c: byte, n: nat)
    requires Live(x, s, c, n) && InRange(v, |x.tl.net.slots|) && Lets(v, s, c, n, x.tl.maxConns) && AcceptedAt(x, w, app, v, s)
    ensures Carries(x, Take(x, w, app, v), s, c, n, PiecesIn(PdusAt(x, v, s), c))
  {
    hide Take, Carries, Moves, Hands, Chained, Inv;
    var _ := TurnMoves(x, w, app, v, s, c, n);
    TurnHands(x, w, app, v, s, c, n);
    ChainStart(x.tl, s, c);
    var from, heard, held := |x.tl.net.acts|, |x.tl.net.told|, Held(x.tl.At(s, c));
    ChainsKept(s, c, from, heard, held);
    TurnKeeps((m: Net) => Chained(m, s, c, from, heard, held), x, w, app, v);
    InvKept();
    TurnKeeps(Inv, x, w, app, v);
    MovedCarries(x, Take(x, w, app, v), s, c, n, PiecesIn(PdusAt(x, v, s), c));
  }

  lemma {:induction false} PiecesInAppend(ts: seq<Pdu>, us: seq<Pdu>, c: byte)
    ensures PiecesIn(ts + us, c) == PiecesIn(ts, c) + PiecesIn(us, c)
  {
    if ts == [] {
      assert ts + us == us;
    } else {
      assert (ts + us)[1..] == ts[1..] + us;
      PiecesInAppend(ts[1..], us, c);
      UnfoldPieces(ts + us, c);
    }
  }

  /** Two stretches one after the other. */
  lemma CarriesOn(x: Stack, y: Stack, z: Stack, s: byte, c: byte, n: nat, ps: seq<Piece>, qs: seq<Piece>)
    requires Live(x, s, c, n) && Carries(x, y, s, c, n, ps) && (Live(y, s, c, n) ==> Carries(y, z, s, c, n, qs))
    ensures Carries(x, z, s, c, n, ps + qs)
  {
    var held := Held(x.tl.At(s, c));
    var first, second := Payloads(ps, held), Payloads(qs, Leftover(ps, held));
    PayloadsAppend(ps, qs, held);
    DeliveredAppend(first, second, n);
    hide Live, Closes, Payloads, Leftover, Held, Delivered, ApdusOf;
    if forall p <- first + second :: !Closes(p, n) {
      forall p | p in first ensures !Closes(p, n) { assert p in first + second; }
      forall p | p in second ensures !Closes(p, n) { assert p in first + second; }
      Regroup(ApdusOf(x.calls, n), Delivered(first, n), Delivered(second, n));
    }
  }

  ghost function Turns(x: Stack, w: nat -> bool, app: nat -> App, vs: seq<Turn>): (y: Stack)
    requires Sound(x) && AllInRange(vs, |x.tl.net.slots|)
    ensures Fits(x, y)
    decreases |vs|
  {
    if vs == [] then x else Turns(Take(x, w, app, vs[0]), w, app, vs[1..])
  }

  predicate AllInRange(vs: seq<Turn>, slots: nat) { forall i :: 0 <= i < |vs| ==> InRange(vs[i], slots) }

  ghost predicate AllLet(vs: seq<Turn>, s: byte, c: byte, n: nat, maxConns: nat) {
    forall i :: 0 <= i < |vs| ==> Lets(vs[i], s, c, n, maxConns)
  }

  /** All TPDUs read for slot `s`. */
  ghost function AllPdus(x: Stack, w: nat -> bool, app: nat -> App, vs: seq<Turn>, s: byte): seq<Pdu>
    requires Sound(x) && AllInRange(vs, |x.tl.net.slots|)
    decreases |vs|
  {
    if vs == [] then [] else PdusAt(x, vs[0], s) + AllPdus(Take(x, w, app, vs[0]), w, app, vs[1..], s)
  }

  ghost predicate Accepted(x: Stack, w: nat -> bool, app: nat -> App, vs: seq<Turn>, s: byte)
    requires Sound(x) && AllInRange(vs, |x.tl.net.slots|) && s < |x.tl.net.slots|
    decreases |vs|
  {
    vs == [] || (AcceptedAt(x, w, app, vs[0], s) && Accepted(Take(x, w, app, vs[0]), w, app, vs[1..], s))
  }

  /** Session `n` is handed exactly the APDUs sent to it, in order, however its module cuts the SPDUs into chains and the
   *  chains into packets, by whatever slot of the device these are read, whatever status, requests and data for other
   *  sessions and connections stand between them, and whatever other modules send and the host does meanwhile, as
   *  long as what is read for the slot is accepted. */
  lemma {:induction false} VisitsDeliver(x: Stack, w: nat -> bool, app: nat -> App, vs: seq<Turn>, s: byte, c: byte,
                                         n: nat)
    requires Live(x, s, c, n) && AllInRange(vs, |x.tl.net.slots|) && AllLet(vs, s, c, n, x.tl.maxConns)
    requires Accepted(x, w, app, vs, s)
    ensures Carries(x, Turns(x, w, app, vs), s, c, n, PiecesIn(AllPdus(x, w, app, vs, s), c))
    decreases |vs|
  {
    if vs == [] {
      assert Delivered([], n) == [] && ApdusOf(x.calls, n) + [] == ApdusOf(x.calls, n);
    } else {
      var v, more := vs[0], vs[1..];
      var y := Take(x, w, app, v);
      var here := PdusAt(x, v, s);
      hide Carries, Live, Take;
      TurnDelivers(x, w, app, v, s, c, n);
      if Live(y, s, c, n) { VisitsDeliver(y, w, app, more, s, c, n); }
      var there := AllPdus(y, w, app, more, s);
      CarriesOn(x, y, Turns(y, w, app, more), s, c, n, PiecesIn(here, c), PiecesIn(there, c));
      PiecesInAppend(here, there, c);
    }
  }

  /** A whole poll is a visit to every slot in turn, or up to the first that fails. */
  lemma {:induction false} PollIsVisits(x: Stack, w: nat -> bool, app: nat -> App, rx: nat -> Rx,
                                        tick: nat -> nat -> Tick,
                                        all: seq<Turn>, k: nat) returns (m: nat)
    requires Sound(x) && k <= |all| == |x.tl.net.slots|
    requires forall i :: 0 <= i < |all| ==> all[i].Visit? && all[i].k == i && all[i].tick == tick(i) && rx(i) == Read(all[i])
    ensures k <= m <= |all| && AllInRange(all[k..m], |x.tl.net.slots|)
    ensures var r := PollSlots(x, w, app, rx, tick, k);
      r.x == Turns(x, w, app, all[k..m]) && (r.code >= 0 ==> m == |all|)
    decreases |all| - k
  {
    hide PollSlot;
    if k == |all| {
      m := k;
    } else {
      var r := PollSlot(x, w, app, rx(k), tick(k), k);
      assert InRange(all[k], |x.tl.net.slots|) && r.x == Take(x, w, app, all[k]);
      if r.code < 0 {
        m := k + 1;
        assert all[k..m] == [all[k]] && all[k..m][1..] == [];
      } else {
        m := PollIsVisits(r.x, w, app, rx, tick, all, k + 1);
        assert all[k..m][0] == all[k] && all[k..m][1..] == all[k + 1..m];
      }
    }
  }

  /* ---- Acceptance ---- */

  /** A TPDU of connection `c` that an active connection accepts: a piece, a status, or a request for a connection; for
   *  the last, and for a status that says there is data, the host's answer must be written. */
  ghost predicate Answerable(t: Pdu, c: byte, w: nat -> bool) {
    && t.c == c
    && (t.tag == T_DATA_MORE || t.tag == T_DATA_LAST
        || (t.tag == T_SB && |t.data| == 1 && (t.data[0] < 0x80 || forall i: nat :: w(i)))
        || (t.tag == T_REQUEST_T_C && forall i: nat :: w(i)))
  }

  ghost predicate AllAnswerable(ts: seq<Pdu>, c: byte, w: nat -> bool) {
    forall i :: 0 <= i < |ts| ==> Answerable(ts[i], c, w)
  }

  /** Packets with such TPDUs only are accepted. */
  lemma {:induction false} OwnPacketAccepted(x: Stack, w: nat -> bool, app: nat -> App, s: byte, ts: seq<Pdu>, c: byte)
    requires Upright(x.tl, s, c) && Fitting(ts, x.tl.maxConns) && AllAnswerable(ts, c, w)
    ensures ProcessData(x, w, app, s, Wire(ts)).code == 0
    decreases |ts|
  {
    if ts != [] {
      var t, more := ts[0], ts[1..];
      assert Answerable(t, c, w);
      ProcessFirst(x, w, app, s, ts);
      TpduAccepted(x.tl, w, s, t, c);
      hide HandleTpdu, ProcessData, Moves, Upright, Wire;
      ReceiveMoves(x, w, app, s, t.tag, t.c, t.data, s, c);
      var r := Receive(x, w, app, s, t.tag, t.c, t.data);
      MovedUpright(x.tl, r.x.tl, s, c, PieceIn(t.tag, t.data));
      OwnPacketAccepted(r.x, w, app, s, more, c);
    }
  }

  lemma TpduAccepted(t: Tl, w: nat -> bool, s: byte, p: Pdu, c: byte)
    requires Upright(t, s, c) && p.c < t.maxConns && Answerable(p, c, w)
    ensures HandleTpdu(t, w, s, p.tag, p.c, p.data).code == 0
  {
  }

  /** Turns in which only such packets are read for slot `s` are accepted. */
  lemma {:induction false} OwnVisitsAccepted(x: Stack, w: nat -> bool, app: nat -> App, vs: seq<Turn>, s: byte,
                                             c: byte, n: nat)
    requires Live(x, s, c, n) && AllInRange(vs, |x.tl.net.slots|) && AllLet(vs, s, c, n, x.tl.maxConns)
    requires AllAnswerable(AllPdus(x, w, app, vs, s), c, w)
    requires forall p <- Payloads(PiecesIn(AllPdus(x, w, app, vs, s), c), Held(x.tl.At(s, c))) :: !Closes(p, n)
    ensures Accepted(x, w, app, vs, s)
    decreases |vs|
  {
    if vs != [] {
      var v, more := vs[0], vs[1..];
      var y := Take(x, w, app, v);
      var here, there := PdusAt(x, v, s), AllPdus(y, w, app, more, s);
      OwnTurnAccepted(x, w, app, v, here, there, s, c, n);
      OwnVisitsAccepted(y, w, app, more, s, c, n);
    }
  }

  lemma OwnTurnAccepted(x: Stack, w: nat -> bool, app: nat -> App, v: Turn, here: seq<Pdu>, there: seq<Pdu>, s: byte,
                        c: byte, n: nat)
    requires Live(x, s, c, n) && InRange(v, |x.tl.net.slots|) && Lets(v, s, c, n, x.tl.maxConns)
    requires here == PdusAt(x, v, s) && AllAnswerable(here + there, c, w)
    requires forall p <- Payloads(PiecesIn(here + there, c), Held(x.tl.At(s, c))) :: !Closes(p, n)
    ensures AcceptedAt(x, w, app, v, s)
    ensures var y := Take(x, w, app, v);
      && Live(y, s, c, n) && AllAnswerable(there, c, w) && Held(y.tl.At(s, c)) == Leftover(PiecesIn(here, c), Held(x.tl.At(s, c)))
      && forall p <- Payloads(PiecesIn(there, c), Held(y.tl.At(s, c))) :: !Closes(p, n)
  {
    hide Take, PiecesIn, Payloads, Leftover, Closes;
    forall i | 0 <= i < |here| ensures Answerable(here[i], c, w) { assert here[i] == (here + there)[i]; }
    forall i | 0 <= i < |there| ensures Answerable(there[i], c, w) { assert there[i] == (here + there)[|here| + i]; }
    InUse(x, s, c, n);
    OwnPacketAccepted(x, w, app, s, here, c);
    TurnDelivers(x, w, app, v, s, c, n);
    PiecesInAppend(here, there, c);
    PayloadsAppend(PiecesIn(here, c), PiecesIn(there, c), Held(x.tl.At(s, c)));
  }

  lemma LastPiece(data: seq<byte>, c: byte, n: nat, held: seq<byte>, apdus: seq<seq<byte>>)
    requires n < 0x10000 && held + data == DataSpdu(n, Flatten(apdus)) && forall a <- apdus :: IsApdu(a)
    ensures var ps := PiecesIn([Pdu(T_DATA_LAST, c, data)], c);
      && Leftover(ps, held) == [] && (forall p <- Payloads(ps, held) :: !Closes(p, n))
      && Delivered(Payloads(ps, held), n) == if data == [] then [] else apdus
  {
    UnfoldPieces([Pdu(T_DATA_LAST, c, data)], c);
    assert [Last(data)] + [] == [Last(data)] && [Last(data)][1..] == [];
    SpduHolds(n, apdus, n);
    assert Delivered([held + data], n) == apdus + [];
  }

  /** An empty last piece loses the chain: the APDUs are handed up exactly when the last piece is not empty. */
  lemma EmptyLastDropsChain(x: Stack, w: nat -> bool, app: nat -> App, s: byte, data: seq<byte>, c: byte, n: nat,
                            apdus: seq<seq<byte>>)
    requires Live(x, s, c, n) && |data| + 1 < 0x10000 && apdus != [] && forall a <- apdus :: IsApdu(a)
    requires Held(x.tl.At(s, c)) + data == DataSpdu(n, Flatten(apdus))
    ensures var y := ProcessData(x, w, app, s, Wire([Pdu(T_DATA_LAST, c, data)])).x;
      && Live(y, s, c, n) && Held(y.tl.At(s, c)) == []
      && (ApdusOf(y.calls, n) == ApdusOf(x.calls, n) + apdus <==> data != [])
  {
    var ts, held := [Pdu(T_DATA_LAST, c, data)], Held(x.tl.At(s, c));
    InUse(x, s, c, n);
    hide ProcessData, Wire, Live, Upright, Held;
    OwnPacketAccepted(x, w, app, s, ts, c);
    PacketDelivers(x, w, app, s, ts, c, n);
    LastPiece(data, c, n, held, apdus);
  }

  /* ---- Both ends ---- */

  /** The payloads with APDUs for session `n`. */
  function Addressed(ps: seq<seq<byte>>, n: nat): seq<seq<byte>> {
    if ps == [] then [] else (if Names(ps[0], ST_SESSION_NUMBER, n) then [ps[0]] else []) + Addressed(ps[1..], n)
  }

  /** All the others hold nothing for it. */
  lemma {:induction false} OnlyAddressed(ps: seq<seq<byte>>, n: nat)
    ensures Delivered(Addressed(ps, n), n) == Delivered(ps, n)
  {
    if ps != [] {
      var rest := Addressed(ps[1..], n);
      OnlyAddressed(ps[1..], n);
      if Names(ps[0], ST_SESSION_NUMBER, n) {
        assert Addressed(ps, n) == [ps[0]] + rest && ([ps[0]] + rest)[1..] == rest;
      } else {
        assert Addressed(ps, n) == rest && [] + Delivered(ps[1..], n) == Delivered(ps[1..], n);
      }
    }
  }

  lemma {:induction false} SpdusHold(n: nat, spdus: seq<seq<seq<byte>>>)
    requires n < 0x10000 && forall apdus <- spdus :: forall a <- apdus :: IsApdu(a)
    ensures Delivered(Spdus(n, spdus), n) == Flatten(spdus)
  {
    if spdus != [] {
      assert spdus[0] in spdus && forall apdus <- spdus[1..] :: apdus in spdus;
      SpduHolds(n, spdus[0], n);
      SpdusHold(n, spdus[1..]);
      assert Spdus(n, spdus)[1..] == Spdus(n, spdus[1..]);
    }
  }

  /** End to end, packet by packet: on a session open on an active connection one host can send any number of SPDUs, and
   *  what it queues are the messages with them; and whenever a module sends these SPDUs on, with whatever others
   *  between them, in whatever chains and packets, to a host that polls and is called meanwhile, that host's session
   *  callback gets exactly the APDUs that were sent, in the order in which they were sent. */
  lemma EndToEnd(a: Stack, b: Stack, w: nat -> bool, app: nat -> App, vs: seq<Turn>, s: byte, n: nat,
                 spdus: seq<seq<seq<byte>>>)
    requires HostCalls.CanSend(a, n) && forall apdus <- spdus :: forall x <- apdus :: IsApdu(x)
    requires var c := a.sessions[n].conn;
      && Live(b, s, c, n) && AllInRange(vs, |b.tl.net.slots|) && AllLet(vs, s, c, n, b.tl.maxConns)
      && (Accepted(b, w, app, vs, s) || AllAnswerable(AllPdus(b, w, app, vs, s), c, w))
      && var ps := Payloads(PiecesIn(AllPdus(b, w, app, vs, s), c), Held(b.tl.At(s, c)));
         Addressed(ps, n) == Spdus(n, spdus) && forall p <- ps :: !Closes(p, n)
    ensures SendAll(a, n, spdus).code == 0
    ensures QueueOf(SendAll(a, n, spdus).x, n) == QueueOf(a, n) + Frames(a.sessions[n].conn, Spdus(n, spdus))
    ensures ApdusOf(Turns(b, w, app, vs).calls, n) == ApdusOf(b.calls, n) + Flatten(spdus)
  {
    var c := a.sessions[n].conn;
    HostCalls.SendAllTaken(a, n, spdus);
    SendAllQueues(a, n, spdus);
    if !Accepted(b, w, app, vs, s) { OwnVisitsAccepted(b, w, app, vs, s, c, n); }
    VisitsDeliver(b, w, app, vs, s, c, n);
    OnlyAddressed(Payloads(PiecesIn(AllPdus(b, w, app, vs, s), c), Held(b.tl.At(s, c))), n);
    SpdusHold(n, spdus);
  }

  lemma {:induction false} SpdusAddressed(n: nat, spdus: seq<seq<seq<byte>>>)
    requires n < 0x10000
    ensures Addressed(Spdus(n, spdus), n) == Spdus(n, spdus) && forall p <- Spdus(n, spdus) :: !Closes(p, n)
  {
    if spdus != [] {
      SpdusAddressed(n, spdus[1..]);
      assert Spdus(n, spdus)[1..] == Spdus(n, spdus[1..]);
    }
  }

  /** The TPDUs `ms`, with statuses that say there is no data in between. */
  predicate WithStatus(ts: seq<Pdu>, ms: seq<Pdu>, c: byte) {
    if ts == [] then ms == []
    else if ts[0].tag == T_SB then ts[0].c == c && |ts[0].data| == 1 && ts[0].data[0] < 0x80 && WithStatus(ts[1..], ms, c)
    else ms != [] && ts[0] == ms[0] && WithStatus(ts[1..], ms[1..], c)
  }

  /** The messages as they were queued, with the statuses a module adds, are one such way: they are read as packets on
   *  connection `c`, accepted whatever the outcome of writes, and carry just the SPDUs. */
  lemma {:induction false} MessagesAsPackets(ts: seq<Pdu>, c: byte, n: nat, maxConns: nat,
                                             spdus: seq<seq<seq<byte>>>, w: nat -> bool)
    requires WithStatus(ts, Pdus(c, n, spdus), c) && c < maxConns && n < 0x10000
    requires forall i :: 0 <= i < |spdus| ==> |Flatten(spdus[i])| + 5 < 0x10000
    ensures Fitting(ts, maxConns) && Unending(ts, c) && AllAnswerable(ts, c, w)
    ensures Payloads(PiecesIn(ts, c), []) == Spdus(n, spdus)
  {
    if ts != [] {
      var t, more := ts[0], ts[1..];
      UnfoldPieces(ts, c);
      if t.tag == T_SB {
        MessagesAsPackets(more, c, n, maxConns, spdus, w);
        assert [] + PiecesIn(more, c) == PiecesIn(more, c);
      } else {
        assert Pdus(c, n, spdus)[1..] == Pdus(c, n, spdus[1..]);
        MessagesAsPackets(more, c, n, maxConns, spdus[1..], w);
        var first := DataSpdu(n, Flatten(spdus[0]));
        assert t == Pdu(T_DATA_LAST, c, first);
        assert PiecesIn(ts, c)[1..] == PiecesIn(more, c) && [] + first == first;
        assert Spdus(n, spdus) == [first] + Spdus(n, spdus[1..]);
      }
      AlsoFirst(t, more, c, maxConns, w);
      assert ts == [t] + more;
    }
  }

  lemma AlsoFirst(t: Pdu, more: seq<Pdu>, c: byte, maxConns: nat, w: nat -> bool)
    requires Fitting(more, maxConns) && Unending(more, c) && AllAnswerable(more, c, w)
    requires |t.data| + 1 < 0x10000 && t.c == c < maxConns && t.tag != T_DELETE_T_C && Answerable(t, c, w)
    ensures var ts := [t] + more; Fitting(ts, maxConns) && Unending(ts, c) && AllAnswerable(ts, c, w)
  {
  }

  /** Every message alone is a packet. */
  lemma MessageIsPacket(c: byte, n: nat, spdus: seq<seq<seq<byte>>>, i: nat)
    requires i < |spdus|
    ensures Wire([Pdus(c, n, spdus)[i]]) == Frames(c, Spdus(n, spdus))[i]
  {
    var t := Pdus(c, n, spdus)[i];
    assert [t][1..] == [] && Frame(t.tag, t.c, t.data) + [] == Frame(t.tag, t.c, t.data);
  }
}
