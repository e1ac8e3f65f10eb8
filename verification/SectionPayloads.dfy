/** Sections carried in transport payloads: any number of them in a payload and any number of payloads for one, with
 *  the loop in which the caller feeds what is left of a payload (test/libucsi/testucsi.c). */
module SectionPayloads {
  import opened Common
  import opened SectionBuf

  /* ---- The caller's loop ---- */

  /** Feeds a payload, starting over after every section and after every error. */
  function Feed(b: Buf, p: seq<byte>, start: bool): (r: Out)
    requires Good(b) && !Done(b) && (start ==> p != [])
    ensures Good(r.b) && !Done(r.b) && r.b.max == b.max
    decreases |p|
  {
    if p == [] then Out(b, [])
    else
      var r := AddPayload(b, p, start);
      Progress(b, p, start);
      if r.status == Complete then Before(Some(r.b.data), Feed(Reset(r.b), p[r.used..], false))
      else Feed(if r.status == Pending then r.b else Reset(r.b), p[r.used..], false)
  }

  /** Every call consumes something. */
  lemma Progress(b: Buf, p: seq<byte>, start: bool)
    requires Good(b) && !Done(b) && p != []
    ensures var r := AddPayload(b, p, start); r.used > 0 && (r.status == Pending ==> !Done(r.b))
  {
    hide Add, Padding, SectionLen;
    if !start {
      assert p[0..] == p;
      AddProgresses(b, p);
    } else if 1 + p[0] <= |p| {
      AddProgresses(b.(waitPdu := false), p[1 + p[0]..]);
    }
  }

  lemma AddProgresses(b: Buf, p: seq<byte>)
    requires Good(b) && !Done(b)
    ensures p != [] ==> Add(b, p).used > 0
    ensures Add(b, p).status == Pending ==> !Done(Add(b, p).b)
  {
    AddIsPush(b, p);
  }

  /** Inside a unit the loop does what it does on plain fragments, unless a section is too large. */
  lemma {:induction false} FeedIsDrain(b: Buf, p: seq<byte>)
    requires Good(b) && !Done(b) && !b.waitPdu && !Stuck(Drain(b, p).b)
    ensures Feed(b, p, false) == Drain(b, p)
    decreases |p|
  {
    if p != [] {
      assert p[0..] == p;
      AddIsPush(b, p);
      var r := Add(b, p);
      Progress(b, p, false);
      if r.status == Complete {
        FeedIsDrain(Reset(r.b), p[r.used..]);
      } else {
        assert p[|p|..] == [];
      }
    }
  }

  /** At the start of a unit with nothing held, what stands in front of the pointer's target is skipped. */
  lemma FeedFirst(b: Buf, p: seq<byte>, rest: seq<byte>)
    requires Good(b) && b.data == [] && p != [] && 1 + p[0] <= |p| && rest == p[1 + p[0]..]
    requires !Stuck(Drain(b.(waitPdu := false), rest).b)
    ensures Feed(b, p, true) == Drain(b.(waitPdu := false), rest)
  {
    var b1 := b.(waitPdu := false);
    DrainCall(b1, rest, Add(b1, rest));
    FirstCall(b, p, rest, Add(b1, rest));
    FeedBehind(b, p, true, AddPayload(b, p, true), b1, rest, Add(b1, rest));
  }

  /** A call on a payload that does what a call on its rest does, and so all the others. */
  lemma FeedBehind(b: Buf, p: seq<byte>, start: bool, r: Result, b1: Buf, rest: seq<byte>, r1: Result)
    requires Good(b) && !Done(b) && p != [] && r == AddPayload(b, p, start)
    requires Good(b1) && !Done(b1) && !b1.waitPdu && r1 == Add(b1, rest) && !Stuck(Drain(b1, rest).b)
    requires r1.status == Pending ==> r.used == |p|
    requires r.b == r1.b && r.status == r1.status != TooBig && p[r.used..] == rest[r1.used..]
    ensures Feed(b, p, start) == Drain(b1, rest)
  {
    DrainCall(b1, rest, r1);
    if r1.status == Complete {
      FeedComplete(b, p, start, r);
      Onward(Reset(r.b), rest[r1.used..], Some(r.b.data), Feed(b, p, start), Drain(b1, rest));
    } else {
      FeedPending(b, p, start, r);
    }
  }

  lemma Onward(b: Buf, t: seq<byte>, s: Option<seq<byte>>, fed: Out, drained: Out)
    requires Good(b) && !Done(b) && !b.waitPdu && !Stuck(drained.b)
    requires fed == Before(s, Feed(b, t, false)) && drained == Before(s, Drain(b, t))
    ensures fed == drained
  {
    FeedIsDrain(b, t);
  }

  lemma FirstCall(b: Buf, p: seq<byte>, rest: seq<byte>, r: Result)
    requires Good(b) && b.data == [] && p != [] && 1 + p[0] <= |p| && rest == p[1 + p[0]..]
    requires r == Add(b.(waitPdu := false), rest) && r.status != TooBig
    ensures AddPayload(b, p, true) == Result(r.b, 1 + p[0] + r.used, r.status)
  {
    hide Add, Padding;
  }

  lemma FeedComplete(b: Buf, p: seq<byte>, start: bool, r: Result)
    requires Good(b) && !Done(b) && p != [] && r == AddPayload(b, p, start) && r.status == Complete
    ensures Feed(b, p, start) == Before(Some(r.b.data), Feed(Reset(r.b), p[r.used..], false))
  {
    hide AddPayload;
  }

  lemma FeedPending(b: Buf, p: seq<byte>, start: bool, r: Result)
    requires Good(b) && !Done(b) && p != [] && r == AddPayload(b, p, start) && r.status == Pending && r.used == |p|
    ensures Feed(b, p, start) == Out(r.b, [])
  {
    Progress(b, p, start);
    hide AddPayload;
    assert p[r.used..] == [];
  }

  lemma DrainCall(b: Buf, frag: seq<byte>, r: Result)
    requires Good(b) && !Done(b) && r == Add(b, frag) && !Stuck(Drain(b, frag).b)
    ensures r.status == Complete || (r.status == Pending && r.used == |frag|)
    ensures Drain(b, frag) == if r.status == Complete then Before(Some(r.b.data), Drain(Reset(r.b), frag[r.used..]))
                              else Out(r.b, [])
  {
    AddIsPush(b, frag);
    if frag == [] { assert frag[0..] == frag; }
  }

  /** With a section held, what stands in front of the pointer's target completes it. */
  lemma FeedEnd(b: Buf, pre: seq<byte>, rest: seq<byte>)
    requires Good(b) && !Done(b) && !b.waitPdu && b.data != [] && |pre| < 256 && Whole(b.data + pre, b.max)
    requires !Stuck(Drain(Reset(b), rest).b)
    ensures Feed(b, [|pre|] + pre + rest, true) == Before(Some(b.data + pre), Drain(Reset(b), rest))
  {
    var p := [|pre|] + pre + rest;
    assert p[1..1 + p[0]] == pre && p[1 + |pre|..] == rest;
    assert b.(waitPdu := false) == b;
    PointerMustFit(b, p);
    Progress(b, p, true);
    FeedIsDrain(Reset(b), rest);
    AddIsWhole(b, pre);
  }

  /* ---- Payloads ---- */

  /** A payload: one in which a section starts has a pointer to the first start, behind the octets `pre`. */
  datatype Payload = Payload(start: bool, pre: seq<byte>, rest: seq<byte>) {
    predicate Valid() { |pre| < 256 && (!start ==> pre == []) }

    function Octets(): seq<byte>
      requires Valid()
    {
      if start then [|pre|] + pre + rest else rest
    }
  }

  lemma StartOctets(p: Payload)
    requires p.Valid() && p.start
    ensures var o := p.Octets(); o != [] && o[0] == |p.pre| && 1 + |p.pre| <= |o| && o[1 + |p.pre|..] == p.rest
  {
  }

  predicate AllValid(ps: seq<Payload>) { forall p <- ps :: p.Valid() }

  function FeedAll(b: Buf, ps: seq<Payload>): (r: Out)
    requires Good(b) && !Done(b) && AllValid(ps)
    ensures Good(r.b) && !Done(r.b) && r.b.max == b.max
    decreases |ps|
  {
    if ps == [] then Out(b, [])
    else
      assert ps[0] in ps && forall p <- ps[1..] :: p in ps;
      var r := Feed(b, ps[0].Octets(), ps[0].start);
      var q := FeedAll(r.b, ps[1..]);
      Out(q.b, r.sections + q.sections)
  }

  /** The octets of the sections and the padding between them. */
  function Carried(ps: seq<Payload>): seq<byte> {
    if ps == [] then [] else ps[0].pre + ps[0].rest + Carried(ps[1..])
  }

  /** The pointers are where the sections start: in front of each there is the end of the section begun before, or
   *  padding when none is. */
  predicate Placed(b: Buf, ps: seq<Payload>)
    requires Good(b) && !Done(b)
    decreases |ps|
  {
    ps == [] || (
      && ps[0].Valid()
      && (ps[0].start ==> if b.data == [] then forall k :: 0 <= k < |ps[0].pre| ==> ps[0].pre[k] == PAD
                          else Whole(b.data + ps[0].pre, b.max))
      && Placed(PushAll(b, ps[0].pre + ps[0].rest).b, ps[1..]))
  }

  lemma {:induction false} PushKeepsWait(b: Buf, s: seq<byte>)
    requires Good(b) && !Done(b)
    ensures PushAll(b, s).b.waitPdu == b.waitPdu
    decreases |s|
  {
    if s != [] { PushKeepsWait(Push(b, s[0]).0, s[1..]); }
  }

  /** What is stuck stays stuck. */
  lemma StuckStays(b: Buf, s: seq<byte>, t: seq<byte>)
    requires Good(b) && !Done(b) && !Stuck(PushAll(b, s + t).b)
    ensures !Stuck(PushAll(b, s).b)
  {
    PushAllAppend(b, s, t);
    StillStuck(PushAll(b, s).b, t);
  }

  lemma StillStuck(b: Buf, t: seq<byte>)
    requires Good(b) && !Done(b)
    ensures Stuck(b) ==> Stuck(PushAll(b, t).b)
  {
    if Stuck(b) { PushStuck(b, t); }
  }

  /** One payload does what its octets do one by one. */
  lemma FeedIsPush(b: Buf, p: Payload)
    requires Good(b) && !Done(b) && !b.waitPdu && Placed(b, [p]) && !Stuck(PushAll(b, p.pre + p.rest).b)
    ensures Feed(b, p.Octets(), p.start) == PushAll(b, p.pre + p.rest)
  {
    assert b.(waitPdu := false) == b;
    PushAllAppend(b, p.pre, p.rest);
    if !p.start {
      assert p.pre + p.rest == p.rest;
      DrainIsPush(b, p.rest);
      FeedIsDrain(b, p.rest);
    } else if b.data == [] {
      PushPadding(b, p.pre);
      DrainIsPush(b, p.rest);
      StartOctets(p);
      FeedFirst(b, p.Octets(), p.rest);
    } else {
      WholePushed(b, p.pre);
      DrainIsPush(Reset(b), p.rest);
      FeedEnd(b, p.pre, p.rest);
    }
  }

  lemma WholePushed(b: Buf, pre: seq<byte>)
    requires Good(b) && !Done(b) && b.data != [] && Whole(b.data + pre, b.max)
    ensures PushAll(b, pre) == Out(Reset(b), [b.data + pre])
  {
    AddIsWhole(b, pre);
    AddIsPush(b, pre);
    assert pre[..|pre|] == pre;
  }

  lemma {:induction false} FeedAllIsPush(b: Buf, ps: seq<Payload>)
    requires Good(b) && !Done(b) && !b.waitPdu && AllValid(ps) && Placed(b, ps) && !Stuck(PushAll(b, Carried(ps)).b)
    ensures FeedAll(b, ps) == PushAll(b, Carried(ps))
    decreases |ps|
  {
    if ps != [] {
      var p, more := ps[0], ps[1..];
      assert p in ps && forall q <- more :: q in ps;
      var here := p.pre + p.rest;
      StuckStays(b, here, Carried(more));
      PushAllAppend(b, here, Carried(more));
      PushKeepsWait(b, here);
      assert Placed(b, [p]);
      FeedIsPush(b, p);
      FeedAllIsPush(PushAll(b, here).b, more);
    }
  }

  /** Payloads before the first start are ignored. */
  lemma {:induction false} LeadIgnored(b: Buf, lead: seq<Payload>, ps: seq<Payload>)
    requires Good(b) && !Done(b) && b.waitPdu && AllValid(lead + ps) && forall p <- lead :: !p.start
    ensures AllValid(ps) && FeedAll(b, lead + ps) == FeedAll(b, ps)
    decreases |lead|
  {
    assert forall p <- ps :: p in lead + ps;
    if lead == [] {
      assert lead + ps == ps;
    } else {
      var all := lead + ps;
      assert all[1..] == lead[1..] + ps && all[0] == lead[0] && lead[0] in lead;
      assert forall p <- all[1..] :: p in all;
      LeadIgnored(b, lead[1..], ps);
      assert Feed(b, lead[0].Octets(), false) == Out(b, []) by { Waits(b, lead[0].rest); }
    }
  }

  lemma Waits(b: Buf, p: seq<byte>)
    requires Good(b) && !Done(b) && b.waitPdu
    ensures Feed(b, p, false) == Out(b, [])
  {
    assert p[|p|..] == [];
  }

  /** Any list of sections that fit, with any padding between them, cut into any payloads with the pointers where the
   *  sections start, several sections in a payload or several payloads for a section, comes out as it went in; a
   *  receiver that comes in late gets it from the first start on. */
  lemma PayloadsSurvive(max: nat, lead: seq<Payload>, junk: seq<byte>, rest: seq<byte>, ps: seq<Payload>,
                        gaps: seq<nat>, sections: seq<seq<byte>>, tail: nat)
    requires HDR <= max && |gaps| == |sections| && forall i :: 0 <= i < |sections| ==> Fits(sections[i], max)
    requires |junk| < 256 && AllValid(lead) && AllValid(ps) && forall p <- lead :: !p.start
    requires rest + Carried(ps) == Stream(gaps, sections, tail)
    requires Placed(PushAll(Init(max, false), rest).b, ps)
    ensures AllValid(lead + ([Payload(true, junk, rest)] + ps))
    ensures FeedAll(Init(max, true), lead + ([Payload(true, junk, rest)] + ps)) == Out(Init(max, false), sections)
  {
    var b, first := Init(max, false), Payload(true, junk, rest);
    StreamComesOut(b, gaps, sections, tail);
    StuckStays(b, rest, Carried(ps));
    PushAllAppend(b, rest, Carried(ps));
    PushKeepsWait(b, rest);
    DrainIsPush(b, rest);
    StartOctets(first);
    FeedFirst(Init(max, true), first.Octets(), rest);
    FeedAllIsPush(PushAll(b, rest).b, ps);
    var all := [first] + ps;
    assert all[1..] == ps;
    LeadIgnored(Init(max, true), lead, all);
  }
}
