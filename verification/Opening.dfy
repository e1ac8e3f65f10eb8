/** What the session layer makes of every SPDU, in octets: how a session is opened for a module, and closed. */
module Opening {
  import opened Common
  import opened Transport
  import opened Sessions
  import opened Delivery
  import opened HostCalls

  /* ---- A reader of the response ---- */

  /** What a module reads in the response to its request for a session (0x92). */
  datatype OpenAnswer = OpenAnswer(status: byte, resource: nat, number: nat)

  function ReadOpenAnswer(spdu: seq<byte>): Option<OpenAnswer> {
    if |spdu| == 9 && spdu[0] == 0x92 && spdu[1] == 7 then Some(OpenAnswer(spdu[2], Word(spdu[3..7]), Word(spdu[7..]))) else None
  }

  lemma ResponseReads(status: int, resource: nat, n: nat)
    requires resource < 0x1_0000_0000 && n < 0x10000
    ensures ReadOpenAnswer(OpenResponse(status, resource, n)) == Some(OpenAnswer(status % 256, resource, n))
  {
    var spdu := OpenResponse(status, resource, n);
    assert spdu[3..7] == Be32(resource) && spdu[7..] == [Hi(n), Lo(n)];
    WordOf32(resource);
    WordOf16(n);
  }

  /* ---- A request for a session ---- */

  /** The lookup finds the resource and lets it be used. */
  predicate Offers(a: App) { a.found && a.status == 0 }

  /** A session is set apart for the module. */
  ghost predicate Allotted(x: Stack, a: App, n: nat) { Offers(a) && FirstFree(x.sessions, n) }

  /** The application has a session callback and it does not object. */
  predicate Willing(a: App) { a.callback && !a.busy }

  /** The status the module is told, by its cause. */
  ghost function StatusTold(x: Stack, a: App): byte {
    if !a.found || a.status == -1 then 0xF0
    else if a.status == -2 then 0xF2
    else if a.status == -3 then 0xF1
    else if a.status != 0 then a.status % 256
    else if !exists n :: FirstFree(x.sessions, n) then 0xF0
    else if !a.callback then 0xF1
    else if a.busy then 0xF3
    else 0
  }

  /** The octets 0x91, 4 and a resource, with anything behind. */
  predicate AsksToOpen(p: seq<byte>) { |p| >= 6 && p[0] == 0x91 && p[1] == 4 }

  lemma WordIs32(b0: byte, b1: byte, b2: byte, b3: byte)
    ensures Word([b0, b1, b2, b3]) == Word32(b0, b1, b2, b3)
  {
    var b := [b0, b1, b2, b3];
    assert b[..3] == [b0, b1, b2] && [b0, b1, b2][..2] == [b0, b1] && [b0, b1][..1] == [b0] && [b0][..0] == [];
    assert Word([b0]) == b0;
    assert Word([b0, b1]) == b0 as nat * 256 + b1;
    assert Word([b0, b1, b2]) == (b0 as nat * 256 + b1) * 256 + b2;
  }

  /** The session the response names: the one allotted, or 0xFFFF. */
  ghost function NumberTold(x: Stack, a: App): nat {
    if Offers(a) && FreeSession(x.sessions, 1) < |x.sessions| then FreeSession(x.sessions, 1) else 0xFFFF
  }

  /** The connection can take an answer. */
  predicate CanAnswer(t: Tl, s: byte, c: byte) { HasConn(t, s, c) && t.At(s, c).state == Active }

  /** What the session callback is asked and told. */
  ghost function CallsMade(x: Stack, a: App, s: byte, c: byte): seq<Call> {
    var n := NumberTold(x, a);
    if !Allotted(x, a, n) || !a.callback then []
    else if a.busy || !CanAnswer(x.tl, s, c) then [CamConnecting(s, n, a.resource)]
    else [CamConnecting(s, n, a.resource), CamConnected(s, n, a.resource)]
  }

  /** The answer is queued on the connection, if that can take one, and the network is otherwise the same. */
  ghost predicate Answered(x: Stack, y: Stack, s: byte, c: byte, answer: OpenAnswer) {
    if CanAnswer(x.tl, s, c)
    then exists spdu :: ReadOpenAnswer(spdu) == Some(answer) && Queues(x.tl, y.tl, s, c, x.tl.At(s, c), DataFrame(c, spdu))
    else y.tl.net == x.tl.net
  }

  /** No session is in use that was not, and those that were are the same. */
  predicate NothingTaken(x: Stack, y: Stack) {
    && |y.sessions| == |x.sessions|
    && forall k :: 0 <= k < |x.sessions| ==>
         if x.sessions[k].state == Free then y.sessions[k].state == Free else y.sessions[k] == x.sessions[k]
  }

  /** All that happens once the lookup has answered. */
  ghost predicate Decided(x: Stack, y: Stack, a: App, s: byte, c: byte) {
    var n := NumberTold(x, a);
    && Answered(x, y, s, c, OpenAnswer(StatusTold(x, a), a.resource, n))
    && (if Allotted(x, a, n) && Willing(a) && CanAnswer(x.tl, s, c)
        then y.sessions == x.sessions[n := Session(Open, a.resource, s, c, a.handler)]
        else NothingTaken(x, y))
    && y.calls == x.calls + CallsMade(x, a, s, c)
  }

  lemma AnswerQueued(x: Stack, s: byte, c: byte, status: int, resource: nat, n: nat)
    requires Sound(x) && resource < 0x1_0000_0000 && n < 0x10000
    ensures var r := Send(x, s, c, OpenResponse(status, resource, n));
      && Answered(x, r.x, s, c, OpenAnswer(status % 256, resource, n)) && (r.code == 0 <==> CanAnswer(x.tl, s, c))
  {
    hide SendData, DataFrame, OpenResponse;
    ResponseReads(status, resource, n);
    SendDataExactly(x.tl, s, c, OpenResponse(status, resource, n));
  }

  lemma FreeFound(sessions: seq<Session>)
    ensures var n := FreeSession(sessions, 1);
      && (n < |sessions| ==> FirstFree(sessions, n)) && forall k :: FirstFree(sessions, k) ==> k == n
  {
  }

  lemma AfterLookupExactly(x: Stack, a: App, s: byte, c: byte)
    requires Sound(x) && a.resource < 0x1_0000_0000 && |x.sessions| <= 0x10000
    ensures Decided(x, AfterLookup(x, a, s, c), a, s, c)
  {
    hide Send, Answered, CanAnswer;
    var n := FreeSession(x.sessions, 1);
    FreeFound(x.sessions);
    assert x.calls + [] == x.calls;
    if LookupStatus(a) != S_STATUS_OPEN {
      AnswerQueued(x, s, c, LookupStatus(a), a.resource, 0xFFFF);
    } else if n >= |x.sessions| {
      AnswerQueued(x.Fail(ERR_OUTOFSESSIONS), s, c, S_STATUS_CLOSE_NO_RES, a.resource, 0xFFFF);
      SameAnswered(x, x.Fail(ERR_OUTOFSESSIONS), AfterLookup(x, a, s, c), s, c, OpenAnswer(0xF0, a.resource, 0xFFFF));
    } else {
      AcceptExactly(x, a, n, s, c);
    }
  }

  /** Only the transport layer matters to the answer. */
  lemma SameAnswered(x: Stack, z: Stack, y: Stack, s: byte, c: byte, answer: OpenAnswer)
    requires z.tl == x.tl
    ensures CanAnswer(z.tl, s, c) == CanAnswer(x.tl, s, c) && Answered(z, y, s, c, answer) == Answered(x, y, s, c, answer)
  {
  }

  lemma AcceptExactly(x: Stack, a: App, n: nat, s: byte, c: byte)
    requires Sound(x) && a.resource < 0x1_0000_0000 && |x.sessions| <= 0x10000 && Allotted(x, a, n)
    ensures Decided(x, Accept(x, a, n, s, c), a, s, c)
  {
    hide Send, Answered, CanAnswer;
    FreeFound(x.sessions);
    var x1 := x.(sessions := x.sessions[n := Session(Opening, a.resource, s, c, a.handler)]);
    var x2 := if a.callback then x1.Say(CamConnecting(s, n, a.resource)) else x1;
    var status := if !a.callback then S_STATUS_CLOSE_RES_UNAVAILABLE
                  else if a.busy then S_STATUS_CLOSE_RES_BUSY else S_STATUS_OPEN;
    AnswerQueued(x2, s, c, status, a.resource, n);
    SameAnswered(x, x2, Send(x2, s, c, OpenResponse(status, a.resource, n)).x, s, c, OpenAnswer(status % 256, a.resource, n));
    SameAnswered(x, x2, Accept(x, a, n, s, c), s, c, OpenAnswer(status % 256, a.resource, n));
    SameNet(x, Send(x2, s, c, OpenResponse(status, a.resource, n)).x, Accept(x, a, n, s, c), s, c,
            OpenAnswer(status % 256, a.resource, n));
  }

  lemma SameNet(x: Stack, y: Stack, z: Stack, s: byte, c: byte, answer: OpenAnswer)
    requires z.tl == y.tl
    ensures Answered(x, z, s, c, answer) == Answered(x, y, s, c, answer)
  {
  }

  /** Every request is answered on its connection when that is active, with the status for its cause, the resource the
   *  lookup gave and the number of the session set apart. The session is open exactly when the lookup gives 0, one is
   *  free, the session callback exists and does not object, and the answer could be queued; otherwise no session is in
   *  use that was not. */
  lemma OpenExactly(x: Stack, a: App, p: seq<byte>, s: byte, c: byte)
    requires Sound(x) && AsksToOpen(p) && a.resource < 0x1_0000_0000 && |x.sessions| <= 0x10000
    ensures var looked := if a.found then x.Say(Lookup(s, Word(p[2..6]))) else x;
      Decided(looked, Spdu(x, a, p, s, c), a, s, c)
  {
    var d := p[1..];
    assert p[2..6] == [d[1], d[2], d[3], d[4]];
    WordIs32(d[1], d[2], d[3], d[4]);
    hide AfterLookup, Decided;
    AfterLookupExactly(if a.found then x.Say(Lookup(s, Word32(d[1], d[2], d[3], d[4]))) else x, a, s, c);
  }

  /** A session opened for a module serves it under the number in the response: APDUs the module sends in an SPDU with
   *  that number (0x90) on the same connection are handed to just this session. */
  lemma OpenedServes(x: Stack, a: App, p: seq<byte>, s: byte, c: byte, answer: OpenAnswer, b: App, apdus: seq<seq<byte>>, m: nat)
    requires Sound(x) && AsksToOpen(p) && a.resource < 0x1_0000_0000 && |x.sessions| <= 0x10000 && a.handler
    requires Willing(a) && Allotted(x, a, answer.number) && CanAnswer(x.tl, s, c)
    requires answer == OpenAnswer(0, a.resource, answer.number) && forall d <- apdus :: IsApdu(d)
    ensures var y := Spdu(x, a, p, s, c);
      var z := Spdu(y, b, [0x90, 2, answer.number / 256 % 256, answer.number % 256] + Flatten(apdus), s, c);
      && Answered(x, y, s, c, answer) && y.sessions[answer.number] == Session(Open, a.resource, s, c, true)
      && ApdusOf(z.calls, m) == ApdusOf(y.calls, m) + if m == answer.number then apdus else []
  {
    hide Spdu, Answered, CanAnswer;
    FreeFound(x.sessions);
    OpenExactly(x, a, p, s, c);
    var n, y := answer.number, Spdu(x, a, p, s, c);
    var looked := if a.found then x.Say(Lookup(s, Word(p[2..6]))) else x;
    SameAnswered(x, looked, y, s, c, answer);
    assert Serves(y, s, c, n);
    SpduDelivers(y, b, s, c, n, apdus, m);
  }

  /* ---- The other SPDUs ---- */

  /** The session is bound to this connection and in one of these states. */
  predicate BoundHere(x: Stack, n: nat, s: byte, c: byte, states: set<SessionState>) {
    n < |x.sessions| && x.sessions[n].slot == s && x.sessions[n].conn == c && x.sessions[n].state in states
  }

  /** These octets are queued on the connection, if it can take an answer. */
  ghost predicate QueuesAnswer(x: Stack, y: Stack, s: byte, c: byte, spdu: seq<byte>) {
    if CanAnswer(x.tl, s, c) then Queues(x.tl, y.tl, s, c, x.tl.At(s, c), DataFrame(c, spdu)) else y.tl.net == x.tl.net
  }

  /** A request to close (0x95, 2 and a number): the session of that number goes exactly when it is open or being closed
   *  on this connection; the answer is 0x96, 3, a status and the number. */
  lemma CloseRequestExactly(x: Stack, a: App, p: seq<byte>, s: byte, c: byte)
    requires Sound(x) && |p| >= 4 && p[0] == 0x95 && p[1] == 2
    ensures var y, n := Spdu(x, a, p, s, c), Word(p[2..4]);
      var known := BoundHere(x, n, s, c, {Open, Closing});
      && QueuesAnswer(x, y, s, c, [0x96, 3, if known then 0 else 0xF0, p[2], p[3]])
      && y.sessions == (if known then x.sessions[n := x.sessions[n].(state := Free)] else x.sessions)
      && y.calls == x.calls + if known && a.callback then [Close(s, n, x.sessions[n].resource)] else []
  {
    var d := p[1..];
    assert p[2..4] == [d[1], d[2]];
    WordOf2(d[1], d[2]);
    var n := Be16(d[1], d[2]);
    var known := BoundHere(x, n, s, c, {Open, Closing});
    hide SendData, DataFrame, Word;
    SendDataExactly(x.tl, s, c, [ST_CLOSE_SESSION_RES, 3, if known then 0x00 else 0xF0, d[1], d[2]]);
    assert x.calls + [] == x.calls;
  }

  lemma WordOf2(hi: byte, lo: byte)
    ensures Word([hi, lo]) == Be16(hi, lo)
  {
    var b := [hi, lo];
    assert b[..1] == [hi] && [hi][..0] == [];
    assert Word([hi]) == hi;
  }

  /** The response to a request of the host (0x94, 7 and at least seven octets, the number read from the fifth of them
   *  on): a session waiting for it on this connection is open when the first octet is 0, and free otherwise. */
  lemma CreateResponseExactly(x: Stack, a: App, p: seq<byte>, s: byte, c: byte)
    requires Sound(x) && |p| >= 9 && p[0] == 0x94 && p[1] == 7
    ensures var y, n := Spdu(x, a, p, s, c), Word(p[6..8]);
      var known := BoundHere(x, n, s, c, {Opening});
      && y.tl == x.tl
      && y.sessions == (if known then x.sessions[n := x.sessions[n].(state := if p[2] == 0 then Open else Free)] else x.sessions)
      && y.calls == x.calls + if !known || !a.callback then []
                              else if p[2] == 0 then [Connected(s, n, x.sessions[n].resource)]
                              else [ConnectFail(s, n, x.sessions[n].resource)]
  {
    var d := p[1..];
    assert p[6..8] == [d[5], d[6]];
    WordOf2(d[5], d[6]);
    hide Word;
    assert x.calls + [] == x.calls;
  }

  /** The response to the host's request to close (0x96, 4 and at least three octets, the number in the second and the
   *  third): a session being closed on this connection is free. */
  lemma CloseResponseExactly(x: Stack, a: App, p: seq<byte>, s: byte, c: byte)
    requires Sound(x) && |p| >= 6 && p[0] == 0x96 && p[1] == 4
    ensures var y, n := Spdu(x, a, p, s, c), Word(p[3..5]);
      && y.tl == x.tl && y.calls == x.calls
      && y.sessions == (if BoundHere(x, n, s, c, {Closing}) then x.sessions[n := x.sessions[n].(state := Free)] else x.sessions)
  {
    var d := p[1..];
    assert p[3..5] == [d[2], d[3]];
    WordOf2(d[2], d[3]);
  }

  /** An SPDU that is none of these, is too short or has another length octet, changes nothing. */
  predicate Known(p: seq<byte>) {
    && |p| >= 2
    && ((p[0] == 0x90 && p[1] == 2 && |p| >= 4) || (p[0] == 0x91 && p[1] == 4 && |p| >= 6) || (p[0] == 0x94 && p[1] == 7 && |p| >= 9)
        || (p[0] == 0x95 && p[1] == 2 && |p| >= 4) || (p[0] == 0x96 && p[1] == 4 && |p| >= 6))
  }

  lemma OthersIgnored(x: Stack, a: App, p: seq<byte>, s: byte, c: byte)
    requires Sound(x) && !Known(p)
    ensures Spdu(x, a, p, s, c) == x
  {
  }

  /** Data for a session that is not open on this connection, or has no callback, changes nothing. */
  lemma StrayDataIgnored(x: Stack, a: App, p: seq<byte>, s: byte, c: byte)
    requires Sound(x) && |p| >= 4 && p[0] == 0x90 && p[1] == 2
    requires var n := Word(p[2..4]); !BoundHere(x, n, s, c, {Open}) || !x.sessions[n].callback
    ensures Spdu(x, a, p, s, c) == x
  {
    var d := p[1..];
    assert p[2..4] == [d[1], d[2]];
    WordOf2(d[1], d[2]);
  }
}
