/** The section buffer on all inputs, good and bad: what every call reports, consumes and waits for. */
module SectionErrors {
  import opened Common
  import opened SectionBuf
  import opened SectionPayloads

  /** A call reports a whole section, one that is too large, or that more is to come, as the buffer it leaves shows; unless
   *  a section is complete everything is consumed. */
  lemma AddReports(b: Buf, frag: seq<byte>)
    requires Good(b)
    ensures var r := Add(b, frag);
      && (r.status == Complete <==> Done(r.b)) && (r.status == TooBig <==> Stuck(r.b)) && r.status != Invalid
      && (Done(b) ==> r == Result(b, 0, Complete)) && (r.status != Complete ==> r.used == |frag|)
  {
    if !Done(b) { AddIsPush(b, frag); }
  }

  /** On an empty buffer octets 0xff are passed over; the twelve low bits of the second and third octet behind them say
   *  how many octets of the section follow the first three. It is complete when they are there, refused at once when the
   *  whole would be larger than the buffer, and what is there is kept otherwise. */
  lemma NewSectionReports(b: Buf, padding: seq<byte>, s: seq<byte>)
    requires Good(b) && b.data == [] && (forall x <- padding :: x == 0xff) && |s| >= 3 && s[0] != 0xff
    ensures var n, r := 3 + (s[1] as nat * 256 + s[2] as nat) % 0x1000, Add(b, padding + s);
      r.status == (if n > b.max then TooBig else if |s| >= n then Complete else Pending)
      && r.used == |padding| + (if n <= b.max && |s| >= n then n else |s|)
      && r.b.data == (if n > b.max then s[..3] else if |s| >= n then s[..n] else s)
  {
    NewSectionTaken(b, s);
    assert forall k :: 0 <= k < |padding| ==> padding[k] in padding;
    AddSkipsPadding(b, padding, s);
  }

  lemma NewSectionTaken(b: Buf, s: seq<byte>)
    requires Good(b) && b.data == [] && |s| >= 3 && s[0] != 0xff
    ensures var n, r := 3 + (s[1] as nat * 256 + s[2] as nat) % 0x1000, Add(b, s);
      r.status == (if n > b.max then TooBig else if |s| >= n then Complete else Pending)
      && r.used == (if n <= b.max && |s| >= n then n else |s|)
      && r.b.data == (if n > b.max then s[..3] else if |s| >= n then s[..n] else s)
  {
    assert !Done(b);
    assert Padding(s) == 0 && s[0..] == s;
    var h, t := s[..3], s[3..];
    var n := SectionLen(h);
    assert n == 3 + (s[1] as nat * 256 + s[2] as nat) % 0x1000;
    assert [] + h == h;
    hide SectionLen;
    if |s| >= n { assert h + t[..n - 3] == s[..n]; } else { assert h + t[..|t|] == s; }
  }

  /** A payload in which no unit starts: nothing of it is looked at while the buffer waits for a unit; otherwise it is
   *  taken like a fragment, and if the section is too large the buffer waits for the next unit from then on. */
  lemma PlainReports(b: Buf, p: seq<byte>)
    requires Good(b)
    ensures var r, q := AddPayload(b, p, false), Add(b, p);
      && (Done(b) ==> r == Result(b, 0, Complete))
      && (!Done(b) && b.waitPdu ==> r == Result(b, |p|, Pending))
      && (!Done(b) && !b.waitPdu ==>
            && r.used == q.used && r.status == q.status && r.b == q.b.(waitPdu := r.b.waitPdu)
            && (r.b.waitPdu <==> Stuck(r.b)))
  {
    assert p[0..] == p;
    AddReports(b, p);
  }

  /** A payload in which a unit starts: a pointer past its end is refused and the buffer waits for the next unit. */
  lemma BadPointerRefused(b: Buf, p: seq<byte>)
    requires Good(b) && !Done(b) && p != [] && 1 + p[0] as nat > |p|
    ensures AddPayload(b, p, true) == Result(b.(waitPdu := true), |p|, Invalid)
  {
  }

  /** With nothing held, the octets from the pointer's target on are taken like a fragment. */
  lemma FreshStartReports(b: Buf, p: seq<byte>, n: nat)
    requires Good(b) && b.data == [] && p != [] && n == 1 + p[0] as nat <= |p|
    ensures var r, q := AddPayload(b, p, true), Add(b.(waitPdu := false), p[n..]);
      r.used == n + q.used && r.status == q.status && r.b == q.b.(waitPdu := Stuck(q.b))
  {
    AddReports(b.(waitPdu := false), p[n..]);
    hide Add, Stuck;
  }

  /** With a section held, the octets in front of the target must complete it; if they do not, or if the section is too
   *  large, the buffer waits for the next unit. */
  lemma HeldStartReports(b: Buf, p: seq<byte>, n: nat)
    requires Good(b) && !Done(b) && b.data != [] && p != [] && n == 1 + p[0] as nat <= |p|
    ensures var r, q := AddPayload(b, p, true), Add(b.(waitPdu := false), p[1..n]);
      && r.used == 1 + q.used && r.b == q.b.(waitPdu := r.status != Complete)
      && r.status == if Whole(b.data + p[1..n], b.max) then Complete else TooBig
  {
    PointerMustFit(b, p);
    hide Add, Whole;
  }

  /** Once a section is too large nothing is taken before the next unit, whatever plain payloads come, and the unit after
   *  them is taken as by a new buffer. */
  lemma OversizeDropped(b: Buf, p: seq<byte>, lead: seq<Payload>, ps: seq<Payload>)
    requires Good(b) && !Done(b) && !b.waitPdu && p != [] && Stuck(Add(b, p).b)
    requires AllValid(lead + ps) && forall q <- lead :: !q.start
    ensures Feed(b, p, false) == Out(Init(b.max, true), [])
    ensures AllValid(ps) && FeedAll(Init(b.max, true), lead + ps) == FeedAll(Init(b.max, true), ps)
  {
    PlainReports(b, p);
    AddReports(b, p);
    assert p[|p|..] == [];
    LeadIgnored(Init(b.max, true), lead, ps);
  }
}
