/** The section assembler (libucsi/section_buf.c): sections of a program-specific-information stream put together
 *  again from fragments of any size (section 2.4.4 of ISO/IEC 13818-1). */
module SectionBuf {
  import opened Common

  const HDR := 3
  const PAD: byte := 0xff

  datatype Status = Pending | Complete | TooBig | Invalid

  /** `struct section_buf`; `data` is the part of the buffer that is filled (`count` octets). */
  datatype Buf = Buf(max: nat, data: seq<byte>, len: nat, header: bool, waitPdu: bool)

  /** What a call leaves behind, how many octets it consumed, and the status it reports. */
  datatype Result = Result(b: Buf, used: nat, status: Status)

  /** The total length a section header announces. */
  function SectionLen(d: seq<byte>): nat
    requires |d| >= HDR
  {
    HDR + (d[1] as nat % 16) * 256 + d[2]
  }

  /** What `section_buf_init` and the functions below keep. */
  predicate Good(b: Buf) {
    && HDR <= b.max && |b.data| <= b.max
    && (if b.header then HDR <= |b.data| <= b.len <= b.max && b.len == SectionLen(b.data)
        else if |b.data| < HDR then b.len == HDR
        else |b.data| == HDR && b.len == SectionLen(b.data) > b.max)
  }

  predicate Done(b: Buf) { b.header && b.len == |b.data| }

  /** The header announced more than the buffer holds. */
  predicate Stuck(b: Buf) { !b.header && |b.data| == HDR }

  function Min(x: int, y: int): int { if x < y then x else y }

  /** `section_buf_init`, for a maximum it accepts. */
  function Init(max: nat, waitPdu: bool): (b: Buf)
    requires HDR <= max
    ensures Good(b)
  {
    Buf(max, [], HDR, false, waitPdu)
  }

  /** `section_buf_reset` */
  function Reset(b: Buf): Buf
    requires Good(b)
  {
    Init(b.max, b.waitPdu)
  }

  /** The number of padding octets in front. */
  function Padding(frag: seq<byte>): (n: nat)
    ensures n <= |frag|
    ensures forall k :: 0 <= k < n ==> frag[k] == PAD
    ensures n < |frag| ==> frag[n] != PAD
  {
    if frag == [] || frag[0] != PAD then 0 else 1 + Padding(frag[1..])
  }

  /** `section_buf_add` */
  function Add(b: Buf, frag: seq<byte>): (r: Result)
    requires Good(b)
    ensures Good(r.b) && r.used <= |frag| && r.b.max == b.max && r.b.waitPdu == b.waitPdu
  {
    if Done(b) then Result(b, 0, Complete)
    else
      var skipped := if b.data == [] then Padding(frag) else 0;
      var rest := frag[skipped..];
      if b.data == [] && rest == [] then Result(b, skipped, Pending)
      else if b.header then Fill(b, rest, skipped)
      else Begin(b, rest, skipped)
  }

  /** The middle part of `section_buf_add`: the header. */
  function Begin(b: Buf, rest: seq<byte>, used: nat): (r: Result)
    requires Good(b) && !b.header
    ensures Good(r.b) && r.b.max == b.max && r.b.waitPdu == b.waitPdu
    ensures used <= r.used <= used + |rest|
  {
    var n := Min(HDR - |b.data|, |rest|);
    var d := b.data + rest[..n];
    if |d| != HDR then Result(b.(data := d), used + n, Pending)
    else
      var b1 := b.(data := d, len := SectionLen(d));
      if b1.len > b.max then Result(b1, used + |rest|, TooBig)
      else Fill(b1.(header := true), rest[n..], used + n)
  }

  /** The last part of `section_buf_add`: the octets behind the header. */
  function Fill(b: Buf, rest: seq<byte>, used: nat): (r: Result)
    requires Good(b) && b.header
    ensures Good(r.b) && r.b.max == b.max && r.b.waitPdu == b.waitPdu
    ensures used <= r.used <= used + |rest|
  {
    var n := Min(b.len - |b.data|, |rest|);
    var b1 := b.(data := b.data + rest[..n]);
    Result(b1, used + n, if Done(b1) then Complete else Pending)
  }

  /** `section_buf_add_transport_payload` */
  function AddPayload(b: Buf, p: seq<byte>, pduStart: bool): (r: Result)
    requires Good(b) && (pduStart ==> p != [])
    ensures Good(r.b) && r.used <= |p| && r.b.max == b.max
  {
    if Done(b) then Result(b, 0, Complete)
    else if b.waitPdu && !pduStart then Result(b, |p|, Pending)
    else if !pduStart then Accumulate(b, p, 0)
    else
      var b1 := b.(waitPdu := false);
      var offset := p[0];
      if offset + 1 > |p| then Result(b1.(waitPdu := true), |p|, Invalid)
      else if b.data != [] then Finish(b1, p, offset)
      else Accumulate(b1, p, 1 + offset)
  }

  /** A section has begun: it must end in front of the pointer's target. */
  function Finish(b: Buf, p: seq<byte>, offset: nat): (r: Result)
    requires Good(b) && offset + 1 <= |p|
    ensures Good(r.b) && r.used <= |p| && r.b.max == b.max
  {
    var r := Add(b, p[1..1 + offset]);
    if r.used != offset || r.b.len != |r.b.data| || r.status != Complete
    then Result(r.b.(waitPdu := true), 1 + r.used, TooBig)
    else Result(r.b, 1 + r.used, Complete)
  }

  /** The last part of it: plain accumulation from position `from` of the payload. */
  function Accumulate(b: Buf, p: seq<byte>, from: nat): (r: Result)
    requires Good(b) && from <= |p|
    ensures Good(r.b) && r.used <= |p| && r.b.max == b.max
  {
    var r := Add(b, p[from..]);
    Result(if r.status == TooBig then r.b.(waitPdu := true) else r.b, from + r.used, r.status)
  }

  /* ---- One octet at a time ---- */

  /** Where a machine that starts over after every section stands, and the sections it has put out. */
  datatype Out = Out(b: Buf, sections: seq<seq<byte>>)

  /** The assembler as a machine that takes single octets. */
  function Push(b: Buf, x: byte): (r: (Buf, Option<seq<byte>>))
    requires Good(b) && !Done(b)
    ensures Good(r.0) && !Done(r.0) && r.0.max == b.max
  {
    if Stuck(b) || (b.data == [] && x == PAD) then (b, None)
    else
      var d := b.data + [x];
      if b.header then
        if |d| == b.len then (Reset(b), Some(d)) else (b.(data := d), None)
      else if |d| < HDR then (b.(data := d), None)
      else
        var b1 := b.(data := d, len := SectionLen(d));
        if b1.len > b.max then (b1, None)
        else if b1.len == HDR then (Reset(b), Some(d))
        else (b1.(header := true), None)
  }

  /** A section put out in front of the others. */
  function Before(s: Option<seq<byte>>, o: Out): Out {
    if s.None? then o else o.(sections := [s.value] + o.sections)
  }

  function PushAll(b: Buf, s: seq<byte>): (r: Out)
    requires Good(b) && !Done(b)
    ensures Good(r.b) && !Done(r.b) && r.b.max == b.max
    decreases |s|
  {
    if s == [] then Out(b, [])
    else var r := Push(b, s[0]); Before(r.1, PushAll(r.0, s[1..]))
  }

  lemma {:induction false} PushAllAppend(b: Buf, s: seq<byte>, t: seq<byte>)
    requires Good(b) && !Done(b)
    ensures var m := PushAll(b, s); var n := PushAll(m.b, t);
      PushAll(b, s + t) == Out(n.b, m.sections + n.sections)
    decreases |s|
  {
    hide Push, Good, Done;
    if s == [] {
      assert s + t == t;
      var n := PushAll(b, t);
      assert [] + n.sections == n.sections;
    } else {
      var r := Push(b, s[0]);
      PushAllAppend(r.0, s[1..], t);
      assert (s + t)[1..] == s[1..] + t;
      var m := PushAll(r.0, s[1..]);
      if r.1.Some? { Regroup([r.1.value], m.sections, PushAll(m.b, t).sections); }
    }
  }

  lemma PushOne(b: Buf, x: byte)
    requires Good(b) && !Done(b)
    ensures PushAll(b, [x]) == Out(Push(b, x).0, if Push(b, x).1.None? then [] else [Push(b, x).1.value])
  {
    assert PushAll(Push(b, x).0, [x][1..]) == Out(Push(b, x).0, []);
  }

  /** Octets that put nothing out, and more. */
  lemma PushRest(b: Buf, s: seq<byte>, mid: Buf, t: seq<byte>)
    requires Good(b) && !Done(b) && PushAll(b, s) == Out(mid, [])
    ensures PushAll(b, s + t) == PushAll(mid, t)
  {
    PushAllAppend(b, s, t);
    assert [] + PushAll(mid, t).sections == PushAll(mid, t).sections;
  }

  /** Octets that put nothing out, and one more. */
  lemma PushLast(b: Buf, s: seq<byte>, mid: Buf, x: byte)
    requires Good(b) && !Done(b) && PushAll(b, s) == Out(mid, [])
    ensures PushAll(b, s + [x]) == Out(Push(mid, x).0, if Push(mid, x).1.None? then [] else [Push(mid, x).1.value])
  {
    PushRest(b, s, mid, [x]);
    PushOne(mid, x);
  }

  /* ---- The caller's loop ---- */

  /** Feeds a fragment, starting over after every section, as the callers of `section_buf_add` do. */
  function Drain(b: Buf, frag: seq<byte>): (r: Out)
    requires Good(b) && !Done(b)
    ensures Good(r.b) && !Done(r.b) && r.b.max == b.max
    decreases |frag|
  {
    if frag == [] then Out(b, [])
    else
      var r := Add(b, frag);
      if r.status != Complete then Out(r.b, [])
      else
        CompleteConsumes(b, frag);
        Before(Some(r.b.data), Drain(Reset(r.b), frag[r.used..]))
  }

  lemma CompleteConsumes(b: Buf, frag: seq<byte>)
    requires Good(b) && !Done(b) && Add(b, frag).status == Complete
    ensures Add(b, frag).used > 0
  {
  }

  function DrainAll(b: Buf, frags: seq<seq<byte>>): (r: Out)
    requires Good(b) && !Done(b)
    ensures Good(r.b) && !Done(r.b) && r.b.max == b.max
    decreases |frags|
  {
    if frags == [] then Out(b, [])
    else
      var r := Drain(b, frags[0]);
      var q := DrainAll(r.b, frags[1..]);
      Out(q.b, r.sections + q.sections)
  }

  lemma {:induction false} PushPadding(b: Buf, s: seq<byte>)
    requires Good(b) && b.data == [] && forall k :: 0 <= k < |s| ==> s[k] == PAD
    ensures PushAll(b, s) == Out(b, [])
    decreases |s|
  {
    if s != [] { PushPadding(b, s[1..]); }
  }

  lemma {:induction false} PushStuck(b: Buf, s: seq<byte>)
    requires Good(b) && Stuck(b)
    ensures PushAll(b, s) == Out(b, [])
    decreases |s|
  {
    if s != [] { PushStuck(b, s[1..]); }
  }

  /** Octets behind the header, fewer than are missing. */
  lemma {:induction false} PushBody(b: Buf, s: seq<byte>)
    requires Good(b) && b.header && |b.data| + |s| < b.len
    ensures PushAll(b, s) == Out(b.(data := b.data + s), [])
    decreases |s|
  {
    if s == [] {
      assert b.data + s == b.data;
    } else {
      PushBody(b.(data := b.data + [s[0]]), s[1..]);
      assert (b.data + [s[0]]) + s[1..] == b.data + s;
    }
  }

  /** Octets of a header that stays incomplete. */
  lemma {:induction false} PushHeader(b: Buf, s: seq<byte>)
    requires Good(b) && !b.header && |b.data| + |s| < HDR && (b.data == [] && s != [] ==> s[0] != PAD)
    ensures PushAll(b, s) == Out(b.(data := b.data + s), [])
    decreases |s|
  {
    if s == [] {
      assert b.data + s == b.data;
    } else {
      PushHeader(b.(data := b.data + [s[0]]), s[1..]);
      assert (b.data + [s[0]]) + s[1..] == b.data + s;
    }
  }

  /** Pushing the octets `s` leads where the call that consumed them led: after a whole section to a new start with
   *  the section put out, and otherwise to the state the call left. */
  ghost predicate LikeCall(b: Buf, s: seq<byte>, r: Result)
    requires Good(b) && !Done(b) && Good(r.b)
  {
    && r.used == |s|
    && (r.status == Complete ==> PushAll(b, s) == Out(Reset(r.b), [r.b.data]))
    && (r.status != Complete ==> !Done(r.b) && PushAll(b, s) == Out(r.b, []))
  }

  /** Octets missing from the section, all of them or some. */
  lemma FillIsPush(b: Buf, rest: seq<byte>)
    requires Good(b) && b.header && !Done(b)
    ensures var r := Fill(b, rest, 0);
      r.used <= |rest| && LikeCall(b, rest[..r.used], r) && (r.status != Complete ==> r.used == |rest|)
  {
    var n := b.len - |b.data|;
    if |rest| < n {
      assert rest[..|rest|] == rest;
      PushBody(b, rest);
    } else {
      PushBody(b, rest[..n - 1]);
      var b1 := b.(data := b.data + rest[..n - 1]);
      PushLast(b, rest[..n - 1], b1, rest[n - 1]);
      PutLast(b.data, rest[..n]);
      assert rest[..n][..n - 1] == rest[..n - 1];
    }
  }

  /** What pushing does behind a prefix that puts nothing out, it does with the prefix. */
  lemma BehindPrefix(b: Buf, s: seq<byte>, mid: Buf, t: seq<byte>, r: Result)
    requires Good(b) && !Done(b) && PushAll(b, s) == Out(mid, [])
    requires Good(r.b) && LikeCall(mid, t, r)
    ensures LikeCall(b, s + t, Result(r.b, |s| + r.used, r.status))
  {
    PushRest(b, s, mid, t);
  }

  /** The last octet of the header decides. */
  lemma HeaderComplete(b: Buf, h: seq<byte>)
    requires Good(b) && !b.header && !Stuck(b) && |b.data| + |h| == HDR && (b.data == [] ==> h[0] != PAD)
    ensures var d := b.data + h;
      var b1 := b.(data := d, len := SectionLen(d));
      PushAll(b, h) == if b1.len > b.max then Out(b1, [])
                       else if b1.len == HDR then Out(Reset(b), [d])
                       else Out(b1.(header := true), [])
  {
    var m := |h| - 1;
    PushHeader(b, h[..m]);
    var b0 := b.(data := b.data + h[..m]);
    PushLast(b, h[..m], b0, h[m]);
    PutLast(b.data, h);
  }

  /** The result of `section_buf_add` for a fragment that begins with the rest of a header. */
  function AfterHeader(b: Buf, h: seq<byte>, body: seq<byte>): (r: Result)
    requires Good(b) && !b.header && !Stuck(b) && |b.data| + |h| == HDR
    ensures Good(r.b) && |h| <= r.used <= |h| + |body|
  {
    var d := b.data + h;
    var b1 := b.(data := d, len := SectionLen(d));
    if b1.len > b.max then Result(b1, |h| + |body|, TooBig) else Fill(b1.(header := true), body, |h|)
  }

  lemma AfterHeaderIsPush(b: Buf, h: seq<byte>, body: seq<byte>)
    requires Good(b) && !b.header && !Stuck(b) && |b.data| + |h| == HDR && (b.data == [] ==> h[0] != PAD)
    ensures var r := AfterHeader(b, h, body);
      LikeCall(b, h + body[..r.used - |h|], r) && (r.status != Complete ==> r.used == |h| + |body|)
  {
    HeaderComplete(b, h);
    var d := b.data + h;
    var b1 := b.(data := d, len := SectionLen(d));
    if b1.len > b.max {
      assert body[..|body|] == body;
      PushStuck(b1, body);
      BehindPrefix(b, h, b1, body, Result(b1, |body|, TooBig));
    } else if b1.len == HDR {
      TakeAndDrop(d, body);
      TakeAndDrop(h, body);
      assert h + body[..0] == h;
    } else {
      var b2 := b1.(header := true);
      var r := Fill(b2, body, 0);
      FillIsPush(b2, body);
      BehindPrefix(b, h, b2, body[..r.used], r);
    }
  }

  /** `section_buf_add` does to the octets it consumes what pushing them does. */
  lemma AddIsPush(b: Buf, frag: seq<byte>)
    requires Good(b) && !Done(b)
    ensures var r := Add(b, frag);
      LikeCall(b, frag[..r.used], r) && (r.status != Complete ==> r.used == |frag|)
  {
    assert frag[0..] == frag && frag[..|frag|] == frag;
    if Stuck(b) {
      PushStuck(b, frag);
      assert b.data + frag[..0] == b.data;
    } else if b.header {
      FillIsPush(b, frag);
    } else if b.data != [] {
      AddHeaderIsPush(b, frag);
    } else {
      AddPaddedIsPush(b, frag);
    }
  }

  lemma AddHeaderIsPush(b: Buf, frag: seq<byte>)
    requires Good(b) && !b.header && !Stuck(b) && (b.data == [] ==> frag != [] && frag[0] != PAD)
    ensures var r := Add(b, frag);
      LikeCall(b, frag[..r.used], r) && (r.status != Complete ==> r.used == |frag|)
  {
    assert b.data == [] ==> Padding(frag) == 0;
    assert frag[0..] == frag && frag[..|frag|] == frag;
    var m := HDR - |b.data|;
    if |frag| < m {
      PushHeader(b, frag);
    } else {
      AfterHeaderIsPush(b, frag[..m], frag[m..]);
      AddIsAfterHeader(b, frag, m);
      TakeInTwo(frag, m, Add(b, frag).used);
    }
  }

  lemma AddIsAfterHeader(b: Buf, frag: seq<byte>, m: nat)
    requires Good(b) && !b.header && !Stuck(b) && (b.data == [] ==> frag != [] && frag[0] != PAD)
    requires m == HDR - |b.data| <= |frag|
    ensures Add(b, frag) == AfterHeader(b, frag[..m], frag[m..])
  {
    assert b.data == [] ==> Padding(frag) == 0;
    assert frag[0..] == frag;
  }

  lemma AddPaddedIsPush(b: Buf, frag: seq<byte>)
    requires Good(b) && b.data == []
    ensures var r := Add(b, frag);
      LikeCall(b, frag[..r.used], r) && (r.status != Complete ==> r.used == |frag|)
  {
    if Padding(frag) == |frag| {
      PushPadding(b, frag);
      assert frag[..|frag|] == frag && frag[|frag|..] == [];
    } else {
      var n := Padding(frag);
      assert frag == frag[..n] + frag[n..];
      SectionBehindPadding(b, frag[..n], frag[n..]);
    }
  }

  predicate AllPadding(s: seq<byte>) { forall k :: 0 <= k < |s| ==> s[k] == PAD }

  lemma SectionBehindPadding(b: Buf, pad: seq<byte>, rest: seq<byte>)
    requires Good(b) && b.data == [] && AllPadding(pad) && rest != [] && rest[0] != PAD
    ensures var r := Add(b, pad + rest);
      LikeCall(b, (pad + rest)[..r.used], r) && (r.status != Complete ==> r.used == |pad + rest|)
  {
    PushPadding(b, pad);
    hide Add, LikeCall, PushAll, AllPadding;
    AddHeaderIsPush(b, rest);
    AddSkipsPadding(b, pad, rest);
    BehindPadding(b, pad, rest, Add(b, rest));
  }

  lemma BehindPadding(b: Buf, pad: seq<byte>, rest: seq<byte>, r: Result)
    requires Good(b) && !Done(b) && PushAll(b, pad) == Out(b, [])
    requires Good(r.b) && r.used <= |rest| && LikeCall(b, rest[..r.used], r)
    ensures LikeCall(b, (pad + rest)[..|pad| + r.used], Result(r.b, |pad| + r.used, r.status))
  {
    hide LikeCall, PushAll;
    BehindPrefix(b, pad, b, rest[..r.used], r);
    assert (pad + rest)[..|pad| + r.used] == pad + rest[..r.used];
  }

  lemma AddSkipsPadding(b: Buf, pad: seq<byte>, rest: seq<byte>)
    requires Good(b) && b.data == [] && AllPadding(pad) && rest != [] && rest[0] != PAD
    ensures var r := Add(b, rest); Add(b, pad + rest) == Result(r.b, |pad| + r.used, r.status)
  {
    var frag, n := pad + rest, |pad|;
    assert frag[n] == rest[0] && forall k :: 0 <= k < n ==> frag[k] == pad[k];
    assert Padding(frag) == n && Padding(rest) == 0;
    assert frag[n..] == rest && rest[0..] == rest;
  }

  lemma DrainStep(b: Buf, front: seq<byte>, back: seq<byte>, r: Result)
    requires Good(b) && !Done(b) && Good(r.b) && LikeCall(b, front, r) && r.status == Complete
    ensures PushAll(b, front + back) == Before(Some(r.b.data), PushAll(Reset(r.b), back))
  {
    PushAllAppend(b, front, back);
  }

  lemma PushNothing(b: Buf)
    requires Good(b) && !Done(b)
    ensures PushAll(b, []) == Out(b, [])
  {
  }

  lemma {:induction false} DrainIsPush(b: Buf, frag: seq<byte>)
    requires Good(b) && !Done(b)
    ensures Drain(b, frag) == PushAll(b, frag)
    decreases |frag|
  {
    hide Add, PushAll;
    if frag == [] {
      PushNothing(b);
    } else {
      AddIsPush(b, frag);
      var r := Add(b, frag);
      assert frag[..|frag|] == frag;
      if r.status == Complete {
        CompleteConsumes(b, frag);
        DrainIsPush(Reset(r.b), frag[r.used..]);
        DrainStep(b, frag[..r.used], frag[r.used..], r);
        assert frag == frag[..r.used] + frag[r.used..];
      }
    }
  }

  /** However a stream is cut, the sections found and the state reached are those of the whole stream. */
  lemma {:induction false} CutsDoNotMatter(b: Buf, frags: seq<seq<byte>>)
    requires Good(b) && !Done(b)
    ensures DrainAll(b, frags) == PushAll(b, Flatten(frags))
    decreases |frags|
  {
    if frags != [] {
      DrainIsPush(b, frags[0]);
      CutsDoNotMatter(Drain(b, frags[0]).b, frags[1..]);
      PushAllAppend(b, frags[0], Flatten(frags[1..]));
    }
  }

  /* ---- Streams of sections ---- */

  /** A section that fits: its header announces its length, and it does not begin like padding. */
  predicate Fits(s: seq<byte>, max: nat) {
    |s| >= HDR && s[0] != PAD && |s| == SectionLen(s) <= max
  }

  /** `gaps[i]` octets of padding in front of section `i`, and `tail` of them at the end. */
  function Stream(gaps: seq<nat>, sections: seq<seq<byte>>, tail: nat): seq<byte>
    requires |gaps| == |sections|
  {
    if sections == [] then seq(tail, _ => PAD)
    else seq(gaps[0], _ => PAD) + sections[0] + Stream(gaps[1..], sections[1..], tail)
  }

  lemma SectionComesOut(b: Buf, s: seq<byte>)
    requires Good(b) && b.data == [] && Fits(s, b.max)
    ensures PushAll(b, s) == Out(Reset(b), [s])
  {
    hide PushAll, Push;
    var h, body := s[..HDR], s[HDR..];
    assert b.data + h == h && SectionLen(h) == SectionLen(s) && h + body == s && body[..|body|] == body;
    AfterHeaderIsPush(b, h, body);
    var r := AfterHeader(b, h, body);
    assert r.status == Complete && r.used == |s| && r.b.data == s;
  }

  lemma {:induction false} StreamComesOut(b: Buf, gaps: seq<nat>, sections: seq<seq<byte>>, tail: nat)
    requires Good(b) && b.data == [] && |gaps| == |sections|
    requires forall i :: 0 <= i < |sections| ==> Fits(sections[i], b.max)
    ensures PushAll(b, Stream(gaps, sections, tail)) == Out(Reset(b), sections)
    decreases |sections|
  {
    if sections == [] {
      PushPadding(b, seq(tail, _ => PAD));
    } else {
      var gap, rest := seq(gaps[0], _ => PAD), Stream(gaps[1..], sections[1..], tail);
      PushPadding(b, gap);
      SectionComesOut(b, sections[0]);
      StreamComesOut(b, gaps[1..], sections[1..], tail);
      PushAllAppend(b, sections[0], rest);
      PushAllAppend(b, gap, sections[0] + rest);
      Regroup(gap, sections[0], rest);
      assert [sections[0]] + sections[1..] == sections;
    }
  }

  /** Any list of sections, with any padding between them and cut into any fragments, comes out as it went in. */
  lemma SectionsSurvive(max: nat, waitPdu: bool, gaps: seq<nat>, sections: seq<seq<byte>>, tail: nat, frags: seq<seq<byte>>)
    requires HDR <= max && |gaps| == |sections| && forall i :: 0 <= i < |sections| ==> Fits(sections[i], max)
    requires Flatten(frags) == Stream(gaps, sections, tail)
    ensures DrainAll(Init(max, waitPdu), frags) == Out(Init(max, waitPdu), sections)
  {
    CutsDoNotMatter(Init(max, waitPdu), frags);
    StreamComesOut(Init(max, waitPdu), gaps, sections, tail);
  }

  /* ---- Transport payloads ---- */

  /** `d` is exactly one section, and it fits. */
  predicate Whole(d: seq<byte>, max: nat) { |d| >= HDR && |d| == SectionLen(d) <= max }

  /** At a payload that starts a new unit, with a section begun, the section is complete exactly when the octets in
   *  front of the pointer's target are those that were missing, and it fits; otherwise it is an error, and the
   *  buffer waits for the next unit. */
  lemma PointerMustFit(b: Buf, p: seq<byte>)
    requires Good(b) && !Done(b) && b.data != [] && p != [] && p[0] + 1 <= |p|
    ensures var d := b.data + p[1..1 + p[0]];
      var r := AddPayload(b, p, true);
      && (r.status == Complete <==> Whole(d, b.max))
      && (r.status == Complete ==> r.b.data == d && r.used == 1 + (p[0] as nat) && !r.b.waitPdu)
      && (r.status != Complete ==> r.status == TooBig && r.b.waitPdu)
  {
    AddIsWhole(b.(waitPdu := false), p[1..1 + p[0]]);
  }

  /** A fragment behind a section begun completes it, and no more, exactly when both make a whole section. */
  lemma AddIsWhole(b: Buf, frag: seq<byte>)
    requires Good(b) && !Done(b) && b.data != []
    ensures var r := Add(b, frag); var d := b.data + frag;
      && (r.status == Complete && r.used == |frag| <==> Whole(d, b.max))
      && (r.status == Complete ==> Done(r.b) && (r.used == |frag| ==> r.b.data == d))
  {
    var d := b.data + frag;
    assert frag[0..] == frag;
    if |d| >= HDR { assert SectionLen(d[..HDR]) == SectionLen(d); }
    if b.header {
      assert b.data[..HDR] == d[..HDR] && SectionLen(b.data[..HDR]) == SectionLen(b.data);
      FillIsWhole(b, frag);
    } else if !Stuck(b) && |d| >= HDR {
      var n := HDR - |b.data|;
      assert b.data + frag[..n] == d[..HDR];
      var b1 := b.(data := d[..HDR], len := SectionLen(d));
      if b1.len <= b.max {
        FillIsWhole(b1.(header := true), frag[n..]);
        assert d[..HDR] + frag[n..] == d;
      }
    }
  }

  lemma FillIsWhole(b: Buf, rest: seq<byte>)
    requires Good(b) && b.header
    ensures var r := Fill(b, rest, 0);
      && (r.status == Complete <==> |b.data + rest| >= b.len)
      && (r.used == |rest| <==> |b.data + rest| <= b.len)
      && (r.used == |rest| ==> r.b.data == b.data + rest)
  {
  }

  /** The first `n` octets of a section are held. */
  ghost predicate Holds(b: Buf, s: seq<byte>, n: nat) {
    && Good(b) && !b.waitPdu && Fits(s, b.max) && n < |s| && b.data == s[..n] && (n >= HDR ==> b.header)
  }

  /** The next octets of the section are taken, up to its end and no further. */
  lemma AddPart(b: Buf, s: seq<byte>, n: nat, m: nat, rest: seq<byte>)
    requires Holds(b, s, n) && n <= m <= |s| && (m < |s| ==> rest == [])
    ensures var r := Add(b, s[n..m] + rest);
      && r.used == m - n
      && (if m < |s| then r.status == Pending && Holds(r.b, s, m)
          else r.status == Complete && r.b == b.(data := s, len := |s|, header := true))
  {
    var frag := s[n..m] + rest;
    assert frag[0..] == frag;
    assert SectionLen(s[..HDR]) == SectionLen(s);
    if b.header {
      assert SectionLen(b.data[..HDR]) == SectionLen(b.data) && b.data[..HDR] == s[..HDR];
      FillPart(b, s, n, m, rest, 0);
    } else {
      AddHeaderPart(b, s, n, m, rest);
    }
  }

  lemma AddHeaderPart(b: Buf, s: seq<byte>, n: nat, m: nat, rest: seq<byte>)
    requires Holds(b, s, n) && !b.header && n <= m <= |s| && (m < |s| ==> rest == [])
    ensures var r := Add(b, s[n..m] + rest);
      && r.used == m - n
      && (if m < |s| then r.status == Pending && Holds(r.b, s, m)
          else r.status == Complete && r.b == b.(data := s, len := |s|, header := true))
  {
    var frag := s[n..m] + rest;
    assert frag[0..] == frag;
    assert n == 0 && frag != [] ==> frag[0] == s[0];
    assert SectionLen(s[..HDR]) == SectionLen(s);
    if m < HDR {
      CutSlice(s, n, m, m, rest);
    } else {
      var k := HDR - n;
      CutSlice(s, n, HDR, m, rest);
      FillPart(b.(data := s[..HDR], len := |s|, header := true), s, HDR, m, rest, k);
    }
  }

  lemma FillPart(b: Buf, s: seq<byte>, n: nat, m: nat, rest: seq<byte>, used: nat)
    requires Good(b) && b.header && Fits(s, b.max) && HDR <= n <= m <= |s| && (m < |s| ==> rest == [])
    requires b.data == s[..n] && b.len == |s|
    ensures var r := Fill(b, s[n..m] + rest, used);
      r == Result(b.(data := s[..m]), used + (m - n), if m < |s| then Pending else Complete)
  {
    assert (s[n..m] + rest)[..m - n] == s[n..m];
    assert s[..n] + s[n..m] == s[..m];
  }

  /** The payload that starts the unit: a pointer, the end of the unit before, and the beginning of the section. */
  lemma StartPayload(b: Buf, junk: seq<byte>, s: seq<byte>, m: nat, rest: seq<byte>)
    requires Good(b) && b.data == [] && Fits(s, b.max) && |junk| < 256 && m <= |s| && (m < |s| ==> rest == [])
    ensures var r := AddPayload(b, [|junk|] + junk + (s[..m] + rest), true);
      && r.used == 1 + |junk| + m
      && (if m < |s| then r.status == Pending && Holds(r.b, s, m) else r.status == Complete && r.b.data == s)
  {
    var p := [|junk|] + junk + (s[..m] + rest);
    var b1 := b.(waitPdu := false);
    assert p[1 + |junk|..] == s[..m] + rest && s[0..m] == s[..m] && s[..0] == [];
    AddPart(b1, s, 0, m, rest);
  }

  /** A payload in the middle, or the one in which the section ends. */
  lemma PlainPayload(b: Buf, s: seq<byte>, n: nat, m: nat, rest: seq<byte>)
    requires Holds(b, s, n) && n <= m <= |s| && (m < |s| ==> rest == [])
    ensures var r := AddPayload(b, s[n..m] + rest, false);
      && r.used == m - n
      && (if m < |s| then r.status == Pending && Holds(r.b, s, m) else r.status == Complete && r.b.data == s)
  {
    AddPart(b, s, n, m, rest);
    assert (s[n..m] + rest)[0..] == s[n..m] + rest;
  }

  /** The section ends in front of the pointer's target of the next unit. */
  lemma EndBeforePointer(b: Buf, s: seq<byte>, n: nat, rest: seq<byte>)
    requires Holds(b, s, n) && n > 0 && |s| - n < 256
    ensures var r := AddPayload(b, [|s| - n] + s[n..] + rest, true);
      r.used == 1 + (|s| - n) && r.status == Complete && r.b.data == s
  {
    var p := [|s| - n] + s[n..] + rest;
    assert p[1..1 + p[0]] == s[n..|s|] + [];
    AddPart(b, s, n, |s|, []);
    assert s[n..|s|] == s[n..];
  }

  /** Feeds payloads that start no unit, until one completes a section. */
  function AddPlain(b: Buf, payloads: seq<seq<byte>>): (r: Result)
    requires Good(b) && payloads != []
    ensures Good(r.b)
    decreases |payloads|
  {
    var r := AddPayload(b, payloads[0], false);
    if r.status != Pending || |payloads| == 1 then r else AddPlain(r.b, payloads[1..])
  }

  lemma {:induction false} PlainPayloads(b: Buf, s: seq<byte>, n: nat, middle: seq<seq<byte>>, last: seq<byte>, rest: seq<byte>)
    requires Holds(b, s, n) && s[n..] == Flatten(middle) + last && last != []
    ensures var r := AddPlain(b, middle + [last + rest]);
      r.status == Complete && r.b.data == s && r.used == |last|
    decreases |middle|
  {
    hide AddPayload, SectionLen, Fits;
    var fed := middle + [last + rest];
    if middle == [] {
      LastPiece(s, n, last);
      PlainPayload(b, s, n, |s|, rest);
    } else {
      var p := middle[0];
      var m := n + |p|;
      NextPiece(s, n, p, Flatten(middle[1..]), last);
      PlainPayload(b, s, n, m, []);
      assert fed[1..] == middle[1..] + [last + rest];
      PlainPayloads(AddPayload(b, p, false).b, s, m, middle[1..], last, rest);
    }
  }

  lemma LastPiece(s: seq<byte>, n: nat, last: seq<byte>)
    requires n <= |s| && s[n..] == [] + last
    ensures s[n..|s|] == last
  {
    assert s[n..|s|] == s[n..] && [] + last == last;
  }

  lemma NextPiece(s: seq<byte>, n: nat, p: seq<byte>, more: seq<byte>, last: seq<byte>)
    requires n <= |s| && s[n..] == (p + more) + last && last != []
    ensures var m := n + |p|; m < |s| && s[n..m] + [] == p && s[m..] == more + last
  {
    assert s[n..][..|p|] == p && s[n..][|p|..] == more + last;
  }

  lemma StartOnly(b: Buf, junk: seq<byte>, s: seq<byte>, m: nat, r: Result)
    requires Good(b) && b.data == [] && Fits(s, b.max) && |junk| < 256 && m < |s|
    requires r == AddPayload(b, [|junk|] + junk + s[..m], true)
    ensures r.status == Pending && r.used == 1 + |junk| + m && Holds(r.b, s, m)
  {
    hide AddPayload, SectionLen, Fits;
    assert s[..m] + [] == s[..m];
    StartPayload(b, junk, s, m, []);
  }

  /** A section that begins in a payload with a pointer and goes on in any plain payloads is rebuilt exactly, and
   *  the octets behind it are left for the next section. */
  lemma SpreadSection(b: Buf, junk: seq<byte>, s: seq<byte>, m: nat, middle: seq<seq<byte>>, last: seq<byte>, rest: seq<byte>)
    requires Good(b) && b.data == [] && Fits(s, b.max) && |junk| < 256
    requires m < |s| && s[m..] == Flatten(middle) + last && last != []
    ensures var start := AddPayload(b, [|junk|] + junk + s[..m], true);
      && start.status == Pending && start.used == 1 + |junk| + m
      && var r := AddPlain(start.b, middle + [last + rest]);
         r.status == Complete && r.b.data == s && r.used == |last|
  {
    hide AddPayload, SectionLen, Fits, Flatten, AddPlain;
    var start := AddPayload(b, [|junk|] + junk + s[..m], true);
    StartOnly(b, junk, s, m, start);
    PlainPayloads(start.b, s, m, middle, last, rest);
  }
}
