/** Chains of T_DATA_MORE and T_DATA_LAST: what the transport layer hands up from a connection, in every run. */
module Reassembly {
  import opened Common
  import opened Transport
  import opened TransportKeeps
  import opened TransportSafety
  import opened Sessions
  import opened Delivery
  import StackRuns

  /* ---- Pieces ---- */

  /** What the host takes of a chain, or the end of everything held. */
  datatype Piece = More(data: seq<byte>) | Last(data: seq<byte>) | Drop

  /** The payloads completed, when `held` has already arrived: an empty last piece completes nothing. */
  function Payloads(ps: seq<Piece>, held: seq<byte>): seq<seq<byte>> {
    if ps == [] then []
    else match ps[0]
      case More(data) => Payloads(ps[1..], held + data)
      case Last(data) => (if data == [] then [] else [held + data]) + Payloads(ps[1..], [])
      case Drop => Payloads(ps[1..], [])
  }

  /** What is left over in the end. */
  function Leftover(ps: seq<Piece>, held: seq<byte>): seq<byte> {
    if ps == [] then held
    else match ps[0]
      case More(data) => Leftover(ps[1..], held + data)
      case Last(_) => Leftover(ps[1..], [])
      case Drop => Leftover(ps[1..], [])
  }

  lemma {:induction false} PayloadsAppend(ps: seq<Piece>, qs: seq<Piece>, held: seq<byte>)
    ensures Payloads(ps + qs, held) == Payloads(ps, held) + Payloads(qs, Leftover(ps, held))
    ensures Leftover(ps + qs, held) == Leftover(qs, Leftover(ps, held))
  {
    if ps == [] {
      assert ps + qs == qs;
    } else {
      assert (ps + qs)[1..] == ps[1..] + qs;
      var next := if ps[0].More? then held + ps[0].data else [];
      PayloadsAppend(ps[1..], qs, next);
      if ps[0].Last? && ps[0].data != [] {
        Regroup([held + ps[0].data], Payloads(ps[1..], next), Payloads(qs, Leftover(ps, held)));
      }
    }
  }

  /** The piece an action takes on connection `c` of slot `s`. */
  function PieceOf(a: Act, s: byte, c: byte): seq<Piece> {
    if a.s != s then []
    else match a
      case Destroyed(_) => [Drop]
      case GotMore(_, d, data) => if d == c then [More(data)] else []
      case GotLast(_, d, data) => if d == c then [Last(data)] else []
      case QueuedCreate(_, d) => if d == c then [Drop] else []
      case Created(_, d, _) => if d == c then [Drop] else []
      case CamDeleted(_, d, _) => if d == c then [Drop] else []
      case Offered(_, _, d, _) => if d == c then [Drop] else []
      case SentQueued(_, d, msg, ok) => if d == c && ok && IsTag(msg, T_DELETE_T_C) then [Drop] else []
      case _ => []
  }

  function Pieces(acts: seq<Act>, s: byte, c: byte): seq<Piece> {
    if acts == [] then [] else Pieces(acts[..|acts| - 1], s, c) + PieceOf(acts[|acts| - 1], s, c)
  }

  lemma PiecesAdd(acts: seq<Act>, a: Act, s: byte, c: byte)
    ensures Pieces(acts + [a], s, c) == Pieces(acts, s, c) + PieceOf(a, s, c)
  {
    assert (acts + [a])[..|acts|] == acts;
  }

  lemma {:induction false} PiecesAppend(xs: seq<Act>, ys: seq<Act>, s: byte, c: byte)
    ensures Pieces(xs + ys, s, c) == Pieces(xs, s, c) + Pieces(ys, s, c)
    decreases |ys|
  {
    if ys == [] {
      assert xs + ys == xs;
    } else {
      var init := ys[..|ys| - 1];
      assert xs + ys == (xs + init) + [ys[|ys| - 1]];
      PiecesAdd(xs + init, ys[|ys| - 1], s, c);
      PiecesAppend(xs, init, s, c);
      Regroup(Pieces(xs, s, c), Pieces(init, s, c), PieceOf(ys[|ys| - 1], s, c));
    }
  }

  /* ---- Every run ---- */

  /** A close that is told follows from an action that closes. */
  predicate Foretold(u: Upcall, acts: seq<Act>) {
    && (u.ConnectionClose? ==> CamDeleted(u.s, u.c, true) in acts)
    && (u.SlotClose? ==> Destroyed(u.s) in acts)
  }

  /** Since the first `from` actions and the first `heard` upcalls, when `held` was held, what the connection handed
   *  up are the chains taken, and what it holds is left over. */
  ghost predicate Chained(n: Net, s: byte, c: byte, from: nat, heard: nat, held: seq<byte>) {
    && s < |n.slots| && c < |n.slots[s].conns| && from <= |n.acts| && heard <= |n.told|
    && GoodConn(n.slots[s].conns[c], c)
    && Held(n.slots[s].conns[c]) == Leftover(Pieces(n.acts[from..], s, c), held)
    && Handed(n.told[heard..], s, c) == Payloads(Pieces(n.acts[from..], s, c), held)
    && forall u <- n.told[heard..] :: Foretold(u, n.acts[from..])
  }

  lemma ConnChains(k: Conn, k': Conn, s: byte, c: byte, a: Act)
    requires Becomes(k, k', s, c, a) && GoodConn(k, c) && LegalAt(k, s, c, a)
    ensures GoodConn(k', c) && Held(k') == Leftover(PieceOf(a, s, c), Held(k))
  {
    if a.s == s { GoodConnKept(k, c, a); }
  }

  lemma ToldChains(n: Net, a: Act, s: byte, c: byte)
    requires Legal(n, a) && s < |n.slots| && c < |n.slots[s].conns|
    ensures Handed(Told(n, a), s, c) == Payloads(PieceOf(a, s, c), Held(n.slots[s].conns[c]))
    ensures forall u <- Told(n, a) :: Foretold(u, [a])
  {
    hide Handed, Payloads;
    var told, ps, held := Told(n, a), PieceOf(a, s, c), Held(n.slots[s].conns[c]);
    assert |told| <= 1 && |ps| <= 1;
    LoneUpcall(told, s, c);
    LonePiece(ps, held);
  }

  lemma LoneUpcall(us: seq<Upcall>, s: byte, c: byte)
    requires |us| <= 1
    ensures Handed(us, s, c) == if us != [] && us[0].Data? && us[0].s == s && us[0].c == c then [us[0].data] else []
  {
  }

  lemma LonePiece(ps: seq<Piece>, held: seq<byte>)
    requires |ps| <= 1
    ensures Payloads(ps, held) == if ps != [] && ps[0].Last? && ps[0].data != [] then [held + ps[0].data] else []
  {
  }

  lemma ChainsKept(s: byte, c: byte, from: nat, heard: nat, held: seq<byte>)
    ensures Kept((n: Net) => Chained(n, s, c, from, heard, held))
  {
    forall n: Net, a: Act | Chained(n, s, c, from, heard, held) && Legal(n, a)
      ensures Chained(Apply(n, a), s, c, from, heard, held)
    {
      ChainStep(n, a, s, c, from, heard, held);
    }
  }

  lemma ChainStep(n: Net, a: Act, s: byte, c: byte, from: nat, heard: nat, held: seq<byte>)
    requires Chained(n, s, c, from, heard, held) && Legal(n, a)
    ensures Chained(Apply(n, a), s, c, from, heard, held)
  {
    hide TouchSlot, TouchConn, GoodConn, Held, Handed, Told, Pieces, PieceOf, Payloads, Leftover, Foretold;
    ApplyAt(n, a, s, c);
    assert LegalAt(n.slots[s].conns[c], s, c, a);
    ConnChains(n.slots[s].conns[c], Apply(n, a).slots[s].conns[c], s, c, a);
    ToldChains(n, a, s, c);
    LogsGrow(n.acts[from..], a, n.told[heard..], Told(n, a), s, c, held, Held(n.slots[s].conns[c]));
    assert (n.acts + [a])[from..] == n.acts[from..] + [a];
    assert (n.told + Told(n, a))[heard..] == n.told[heard..] + Told(n, a);
  }

  lemma LogsGrow(acts: seq<Act>, a: Act, us: seq<Upcall>, news: seq<Upcall>, s: byte, c: byte,
                 held: seq<byte>, now: seq<byte>)
    requires now == Leftover(Pieces(acts, s, c), held) && Handed(us, s, c) == Payloads(Pieces(acts, s, c), held)
    requires Handed(news, s, c) == Payloads(PieceOf(a, s, c), now)
    requires (forall u <- us :: Foretold(u, acts)) && forall u <- news :: Foretold(u, [a])
    ensures Handed(us + news, s, c) == Payloads(Pieces(acts + [a], s, c), held)
    ensures Leftover(PieceOf(a, s, c), now) == Leftover(Pieces(acts + [a], s, c), held)
    ensures forall u <- us + news :: Foretold(u, acts + [a])
  {
    PiecesAdd(acts, a, s, c);
    PayloadsAppend(Pieces(acts, s, c), PieceOf(a, s, c), held);
    HandedAppend(us, news, s, c);
  }

  /** In every run, from any moment on, what is handed up from a connection are exactly the chains taken there. */
  lemma RunChains(x: Stack, w: nat -> bool, app: nat -> App, es: seq<Event>, s: byte, c: byte)
    requires Sound(x) && Inv(x.tl.net) && s < |x.tl.net.slots| && c < x.tl.maxConns
    ensures Chained(Run(x, w, app, es).tl.net, s, c, |x.tl.net.acts|, |x.tl.net.told|, Held(x.tl.At(s, c)))
  {
    var from, heard, held := |x.tl.net.acts|, |x.tl.net.told|, Held(x.tl.At(s, c));
    ChainStart(x.tl, s, c);
    ChainsKept(s, c, from, heard, held);
    StackRuns.RunKeeps((n: Net) => Chained(n, s, c, from, heard, held), x, w, app, es);
  }

  lemma ChainStart(t: Tl, s: byte, c: byte)
    requires WellFormed(t) && Inv(t.net) && s < |t.net.slots| && c < t.maxConns
    ensures Chained(t.net, s, c, |t.net.acts|, |t.net.told|, Held(t.At(s, c)))
  {
    assert GoodSlot(t.net.slots[s]);
    assert t.net.acts[|t.net.acts|..] == [] && t.net.told[|t.net.told|..] == [];
  }
}
