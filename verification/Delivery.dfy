/** What the octets between the layers mean: TPDUs in a packet, SPDUs in TPDUs, APDUs in SPDUs; and what an SPDU does
 *  to a session in use. */
module Delivery {
  import opened Common
  import opened Transport
  import opened TransportSafety
  import opened Sessions
  import SessionSafety
  import Asn1

  /* ---- Framing ---- */

  datatype Pdu = Pdu(tag: byte, c: byte, data: seq<byte>)

  /** The TPDUs as they lie in a packet. */
  function Wire(ts: seq<Pdu>): seq<byte> {
    if ts == [] then [] else Frame(ts[0].tag, ts[0].c, ts[0].data) + Wire(ts[1..])
  }

  lemma ParseFrame(tag: byte, c: byte, data: seq<byte>, rest: seq<byte>)
    requires |data| + 1 < 0x10000
    ensures ParseTpdu(Frame(tag, c, data) + rest) == Tpdu(tag, c, data, |Frame(tag, c, data)|)
    ensures (Frame(tag, c, data) + rest)[|Frame(tag, c, data)|..] == rest
  {
    var len := Asn1.Encode(|data| + 1);
    var tail := [c] + data + rest;
    var p := Frame(tag, c, data) + rest;
    assert p == [tag] + (len + tail);
    assert p[1..] == len + tail;
    Asn1.RoundTrip(|data| + 1, tail);
    assert p[1 + |len|] == tail[0];
    assert p[|len| + 2..|len| + 1 + (|data| + 1)] == data;
  }

  /** A whole APDU: a three-octet tag, a length field, and as many octets as it says. */
  predicate IsApdu(a: seq<byte>) { ApduLength(a) == Some(|a|) }

  /** Every APDU built with `asn_1_encode` is one. */
  lemma BuiltApdu(tag: seq<byte>, body: seq<byte>)
    requires |tag| == 3 && |body| < 0x10000
    ensures IsApdu(tag + Asn1.Encode(|body|) + body)
  {
    Asn1.RoundTrip(|body|, body);
    assert (tag + Asn1.Encode(|body|) + body)[3..] == Asn1.Encode(|body|) + body;
  }

  lemma ApduPrefix(a: seq<byte>, rest: seq<byte>)
    requires IsApdu(a)
    ensures ApduLength(a + rest) == Some(|a|)
  {
    Asn1.DecodeSound(a[3..]);
    assert (a + rest)[3..] == a[3..] + rest;
  }

  /** Splitting recovers exactly the APDUs that were put together. */
  lemma {:induction false} SplitFlatten(apdus: seq<seq<byte>>)
    requires forall a :: a in apdus ==> IsApdu(a)
    ensures SplitApdus(Flatten(apdus)) == apdus
  {
    if apdus != [] {
      var a, rest := apdus[0], Flatten(apdus[1..]);
      ApduPrefix(a, rest);
      SplitFlatten(apdus[1..]);
      assert (a + rest)[..|a|] == a && (a + rest)[|a|..] == rest;
    }
  }

  /* ---- Sessions ---- */

  /** Session `n` is open on connection `c` of slot `s`, and its resource has a callback. */
  ghost predicate Serves(x: Stack, s: byte, c: byte, n: nat) {
    && Sound(x) && n < |x.sessions| && n < 0x10000
    && x.sessions[n].state == Open && x.sessions[n].slot == s && x.sessions[n].conn == c && x.sessions[n].callback
  }

  /** An SPDU with this tag that names session `n`. */
  predicate Names(p: seq<byte>, tag: byte, n: nat) {
    |p| >= 4 && p[0] == tag && p[1] == 2 && Be16(p[2], p[3]) == n
  }

  /** The APDUs an SPDU holds for session `n`. */
  function ApdusIn(p: seq<byte>, n: nat): seq<seq<byte>> {
    if Names(p, ST_SESSION_NUMBER, n) then SplitApdus(p[4..]) else []
  }

  /** The module closes session `n`. */
  predicate Closes(p: seq<byte>, n: nat) { Names(p, ST_CLOSE_SESSION_REQ, n) }

  /** The SPDU with APDUs for session `n` holds these APDUs for it and none for other sessions, and closes nothing. */
  lemma SpduHolds(n: nat, apdus: seq<seq<byte>>, m: nat)
    requires n < 0x10000 && forall a <- apdus :: IsApdu(a)
    ensures var p := DataSpdu(n, Flatten(apdus)); ApdusIn(p, m) == (if m == n then apdus else []) && !Closes(p, m)
  {
    var p := DataSpdu(n, Flatten(apdus));
    assert p[4..] == Flatten(apdus) && Be16(Hi(n), Lo(n)) == n;
    SplitFlatten(apdus);
  }

  /** The APDUs handed to session `n`. */
  function ApdusOf(calls: seq<Call>, n: nat): seq<seq<byte>> {
    if calls == [] then []
    else ApdusOf(calls[..|calls| - 1], n)
         + (if calls[|calls| - 1].Apdu? && calls[|calls| - 1].session == n then [calls[|calls| - 1].apdu] else [])
  }

  lemma ApdusSay(calls: seq<Call>, call: Call, n: nat)
    ensures ApdusOf(calls + [call], n) == ApdusOf(calls, n) + if call.Apdu? && call.session == n then [call.apdu] else []
  {
    assert (calls + [call])[..|calls|] == calls;
  }

  lemma {:induction false} SayApdusOf(x: Stack, m: nat, apdus: seq<seq<byte>>, n: nat)
    requires m < |x.sessions|
    ensures ApdusOf(SayApdus(x, m, apdus).calls, n) == ApdusOf(x.calls, n) + if m == n then apdus else []
    decreases |apdus|
  {
    if apdus != [] {
      var call := Apdu(x.sessions[m].slot, m, x.sessions[m].resource, apdus[0]);
      ApdusSay(x.calls, call, n);
      SayApdusOf(x.Say(call), m, apdus[1..], n);
      Regroup(ApdusOf(x.calls, n), [apdus[0]], apdus[1..]);
    }
  }

  /** An SPDU with APDUs for session `n` hands exactly these to it and none to others, and changes nothing else. */
  lemma SpduDelivers(x: Stack, a: App, s: byte, c: byte, n: nat, apdus: seq<seq<byte>>, m: nat)
    requires Serves(x, s, c, n) && forall a <- apdus :: IsApdu(a)
    ensures var y := Spdu(x, a, DataSpdu(n, Flatten(apdus)), s, c);
      && y.tl == x.tl && y.sessions == x.sessions
      && ApdusOf(y.calls, m) == ApdusOf(x.calls, m) + if m == n then apdus else []
  {
    var d := DataSpdu(n, Flatten(apdus));
    assert d[1..][3..] == Flatten(apdus) && Be16(Hi(n), Lo(n)) == n;
    SplitFlatten(apdus);
    SayApdusOf(x, n, apdus, m);
  }

  /** Session `n` serves on, and has been handed these APDUs on the way from `x` to `y`. */
  ghost predicate Gets(x: Stack, y: Stack, s: byte, c: byte, n: nat, apdus: seq<seq<byte>>) {
    Serves(y, s, c, n) && ApdusOf(y.calls, n) == ApdusOf(x.calls, n) + apdus
  }

  /** The session is gone, without having been handed anything. */
  ghost predicate Lost(x: Stack, y: Stack, n: nat) {
    n < |y.sessions| && y.sessions[n].state == Free && ApdusOf(y.calls, n) == ApdusOf(x.calls, n)
  }

  /** Calls other than `Apdu`, one or two. */
  lemma OtherCalls(calls: seq<Call>, n: nat)
    ensures forall a: Call :: !a.Apdu? ==> ApdusOf(calls + [a], n) == ApdusOf(calls, n)
    ensures forall a: Call, b: Call :: !a.Apdu? && !b.Apdu? ==> ApdusOf(calls + [a] + [b], n) == ApdusOf(calls, n)
  {
    forall a: Call | !a.Apdu? ensures ApdusOf(calls + [a], n) == ApdusOf(calls, n) { ApdusSay(calls, a, n); }
    forall a: Call, b: Call | !a.Apdu? && !b.Apdu? ensures ApdusOf(calls + [a] + [b], n) == ApdusOf(calls, n) {
      ApdusSay(calls, a, n);
      ApdusSay(calls + [a], b, n);
    }
  }

  lemma PackageGives(x: Stack, d: seq<byte>, k: byte, e: byte, s: byte, c: byte, n: nat)
    requires Serves(x, s, c, n)
    ensures Gets(x, Package(x, d, k, e), s, c, n, if (k, e) == (s, c) then ApdusIn([ST_SESSION_NUMBER] + d, n) else [])
  {
    if |d| >= 3 && d[0] == 2 {
      var m := Be16(d[1], d[2]);
      assert ([ST_SESSION_NUMBER] + d)[4..] == d[3..];
      if m < |x.sessions| { SayApdusOf(x, m, SplitApdus(d[3..]), n); }
    }
  }

  lemma CloseRequestEnds(x: Stack, a: App, d: seq<byte>, k: byte, e: byte, s: byte, c: byte, n: nat)
    requires Serves(x, s, c, n)
    ensures var y := CloseRequest(x, a, d, k, e);
      if (k, e) == (s, c) && Closes([ST_CLOSE_SESSION_REQ] + d, n) then Lost(x, y, n) else Gets(x, y, s, c, n, [])
  {
    OtherCalls(x.calls, n);
    hide Send, ApdusOf;
  }

  lemma OpenRequestSpares(x: Stack, a: App, d: seq<byte>, k: byte, e: byte, s: byte, c: byte, n: nat)
    requires Serves(x, s, c, n)
    ensures Gets(x, OpenRequest(x, a, d, k, e), s, c, n, [])
  {
    OtherCalls(x.calls, n);
    hide AfterLookup, ApdusOf;
    if |d| >= 5 && d[0] == 4 {
      var y := if a.found then x.Say(Lookup(k, Word32(d[1], d[2], d[3], d[4]))) else x;
      AfterLookupSpares(y, a, k, e, s, c, n);
    }
  }

  lemma AfterLookupSpares(x: Stack, a: App, k: byte, e: byte, s: byte, c: byte, n: nat)
    requires Serves(x, s, c, n)
    ensures Gets(x, AfterLookup(x, a, k, e), s, c, n, [])
  {
    OtherCalls(x.calls, n);
    hide Send, ApdusOf, OpenResponse;
  }

  /** An SPDU hands session `n` the APDUs it holds for it, or closes it, when it comes on the session's own connection;
   *  nothing else happens to the session. */
  lemma SpduGives(x: Stack, a: App, p: seq<byte>, k: byte, d: byte, s: byte, c: byte, n: nat)
    requires Serves(x, s, c, n)
    ensures var y := Spdu(x, a, p, k, d);
      if (k, d) == (s, c) && Closes(p, n) then Lost(x, y, n)
      else Gets(x, y, s, c, n, if (k, d) == (s, c) then ApdusIn(p, n) else [])
  {
    if p != [] {
      assert p == [p[0]] + p[1..];
      OtherCalls(x.calls, n);
      if p[0] == ST_OPEN_SESSION_REQ { OpenRequestSpares(x, a, p[1..], k, d, s, c, n); }
      else if p[0] == ST_CLOSE_SESSION_REQ { CloseRequestEnds(x, a, p[1..], k, d, s, c, n); }
      else if p[0] == ST_SESSION_NUMBER { PackageGives(x, p[1..], k, d, s, c, n); }
    }
  }

  /** What the upper layer is told ends the session: its slot is closed, a connection with the number of its own, in
   *  whatever slot, or the session itself. */
  predicate Ends(u: Upcall, s: byte, c: byte, n: nat) {
    match u
    case ConnectionClose(_, d) => d == c
    case SlotClose(k) => k == s
    case Data(k, d, p) => k == s && d == c && Closes(p, n)
    case _ => false
  }

  /** The payloads handed up from a connection. */
  function Handed(us: seq<Upcall>, s: byte, c: byte): seq<seq<byte>> {
    if us == [] then []
    else (if us[0].Data? && us[0].s == s && us[0].c == c then [us[0].data] else []) + Handed(us[1..], s, c)
  }

  /** The APDUs in them for session `n`. */
  function Delivered(ps: seq<seq<byte>>, n: nat): seq<seq<byte>> {
    if ps == [] then [] else ApdusIn(ps[0], n) + Delivered(ps[1..], n)
  }

  lemma {:induction false} HandedAppend(us: seq<Upcall>, vs: seq<Upcall>, s: byte, c: byte)
    ensures Handed(us + vs, s, c) == Handed(us, s, c) + Handed(vs, s, c)
  {
    if us == [] {
      assert us + vs == vs;
    } else {
      assert (us + vs)[1..] == us[1..] + vs;
      HandedAppend(us[1..], vs, s, c);
    }
  }

  lemma {:induction false} DeliveredAppend(ps: seq<seq<byte>>, qs: seq<seq<byte>>, n: nat)
    ensures Delivered(ps + qs, n) == Delivered(ps, n) + Delivered(qs, n)
  {
    if ps == [] {
      assert ps + qs == qs;
    } else {
      assert (ps + qs)[1..] == ps[1..] + qs;
      DeliveredAppend(ps[1..], qs, n);
      Regroup(ApdusIn(ps[0], n), Delivered(ps[1..], n), Delivered(qs, n));
    }
  }

  lemma CloseAllGives(x: Stack, callback: bool, slot: bool, id: byte, s: byte, c: byte, n: nat)
    requires Serves(x, s, c, n)
    ensures var y := CloseAll(x, callback, slot, id, 0);
      if (if slot then id == s else id == c) then Lost(x, y, n) else Gets(x, y, s, c, n, [])
  {
    CloseAllApdus(x, callback, slot, id, 0, n);
    SessionSafety.CloseAllSessions(x, callback, slot, id, 0);
  }

  /** The session survives exactly what does not end it, and is handed exactly the APDUs for it. */
  lemma CallbackGives(x: Stack, a: App, u: Upcall, s: byte, c: byte, n: nat)
    requires Serves(x, s, c, n)
    ensures var y := Callback(x, a, u);
      && (Serves(y, s, c, n) <==> !Ends(u, s, c, n))
      && ApdusOf(y.calls, n) == ApdusOf(x.calls, n) + if Ends(u, s, c, n) then [] else Delivered(Handed([u], s, c), n)
  {
    hide CloseAll, Spdu, ApdusIn, Closes;
    match u
    case ConnectionOpen(k, d) => ApdusSay(x.calls, TcConnect(k, d), n);
    case CamConnectionOpen(k, d) => ApdusSay(x.calls, TcCamConnect(k, d), n);
    case ConnectionClose(_, d) => CloseAllGives(x, a.callback, false, d, s, c, n);
    case SlotClose(k) => CloseAllGives(x, a.callback, true, k, s, c, n);
    case Data(k, d, p) =>
      SpduGives(x, a, p, k, d, s, c, n);
      assert Delivered([p], n) == ApdusIn(p, n) + [];
  }

  lemma {:induction false} CloseAllApdus(x: Stack, callback: bool, slot: bool, d: byte, i: nat, n: nat)
    requires i <= |x.sessions|
    ensures ApdusOf(CloseAll(x, callback, slot, d, i).calls, n) == ApdusOf(x.calls, n)
    decreases |x.sessions| - i
  {
    if i < |x.sessions| {
      ApdusSay(x.calls, Close(x.sessions[i].slot, i, x.sessions[i].resource), n);
      CloseAllApdus(CloseOne(x, callback, slot, d, i), callback, slot, d, i + 1, n);
    }
  }

  /* ---- Both ends ---- */

  /** Sends one SPDU after the other on session `n`. */
  function SendAll(x: Stack, n: nat, spdus: seq<seq<seq<byte>>>): (r: Outcome)
    requires Sound(x)
    ensures Fits(x, r.x) && r.x.sessions == x.sessions
    decreases |spdus|
  {
    if spdus == [] then Outcome(x, 0)
    else
      var r := SendSession(x, n, Flatten(spdus[0]));
      if r.code != 0 then r else SendAll(r.x, n, spdus[1..])
  }

  /** The TPDUs that carry the SPDUs on connection `c`. */
  function Pdus(c: byte, n: nat, spdus: seq<seq<seq<byte>>>): (r: seq<Pdu>)
    ensures |r| == |spdus|
    ensures forall i :: 0 <= i < |r| ==> r[i] == Pdu(T_DATA_LAST, c, DataSpdu(n, Flatten(spdus[i])))
  {
    if spdus == [] then [] else [Pdu(T_DATA_LAST, c, DataSpdu(n, Flatten(spdus[0])))] + Pdus(c, n, spdus[1..])
  }

  /** The queue of the session's connection. */
  ghost function QueueOf(x: Stack, n: nat): seq<seq<byte>>
    requires Sound(x) && n < |x.sessions| && x.sessions[n].slot < |x.tl.net.slots| && x.sessions[n].conn < x.tl.maxConns
  {
    x.tl.At(x.sessions[n].slot, x.sessions[n].conn).queue
  }

  /** The SPDUs as octets, and the messages that carry them. */
  function Spdus(n: nat, spdus: seq<seq<seq<byte>>>): (r: seq<seq<byte>>)
    ensures |r| == |spdus|
  {
    seq(|spdus|, i requires 0 <= i < |spdus| => DataSpdu(n, Flatten(spdus[i])))
  }

  function Frames(c: byte, payloads: seq<seq<byte>>): (r: seq<seq<byte>>)
    ensures |r| == |payloads|
  {
    seq(|payloads|, i requires 0 <= i < |payloads| => DataFrame(c, payloads[i]))
  }

  /** What is sent on a session is queued message by message. */
  lemma {:induction false} SendAllQueues(x: Stack, n: nat, spdus: seq<seq<seq<byte>>>)
    requires Sound(x) && n < |x.sessions| && x.sessions[n].slot < |x.tl.net.slots| && x.sessions[n].conn < x.tl.maxConns
    requires SendAll(x, n, spdus).code == 0
    ensures QueueOf(SendAll(x, n, spdus).x, n) == QueueOf(x, n) + Frames(x.sessions[n].conn, Spdus(n, spdus))
    decreases |spdus|
  {
    if spdus != [] {
      var c, d := x.sessions[n].conn, DataSpdu(n, Flatten(spdus[0]));
      var y := SendSession(x, n, Flatten(spdus[0])).x;
      ApplyAt(x.tl.net, QueuedData(x.sessions[n].slot, c, d), x.sessions[n].slot, c);
      assert QueueOf(y, n) == QueueOf(x, n) + [DataFrame(c, d)];
      SendAllQueues(y, n, spdus[1..]);
      var more := Frames(c, Spdus(n, spdus[1..]));
      Regroup(QueueOf(x, n), [DataFrame(c, d)], more);
      assert Frames(c, Spdus(n, spdus)) == [DataFrame(c, d)] + more;
    }
  }
}
