/** Packets as they come: which slot they are for, what TPDUs are in them, and the errors of reading them. */
module Receiving {
  import opened Common
  import opened Transport
  import opened Sessions
  import RunDelivery
  import Asn1

  /** A packet is for the first slot of the device that has the CAM number. */
  lemma {:induction false} RouteExactly(slots: seq<Slot>, handle: int, number: byte, i: nat)
    requires i <= |slots|
    ensures var r := Route(slots, handle, number, i);
      && (r < |slots| <==> exists k :: i <= k < |slots| && slots[k].handle == handle && slots[k].number == number)
      && forall k :: i <= k < r ==> slots[k].handle != handle || slots[k].number != number
    decreases |slots| - i
  {
    if i < |slots| { RouteExactly(slots, handle, number, i + 1); }
  }

  /** `p` begins with a TPDU of `size` octets: a tag, a length field with the number of octets behind it, the number of a
   *  connection, and data. */
  ghost predicate Begins(p: seq<byte>, tag: byte, c: byte, data: seq<byte>, size: nat) {
    size <= |p| && exists f: seq<byte> :: Asn1.Decode(f) == Asn1.Length(|data| + 1, |f|) && p[..size] == [tag] + f + [c] + data
  }

  /** What is parsed is exactly the TPDU at the front, if there is one. */
  lemma ParseExactly(p: seq<byte>, tag: byte, c: byte, data: seq<byte>, size: nat)
    requires p != []
    ensures ParseTpdu(p) == Tpdu(tag, c, data, size) <==> Begins(p, tag, c, data, size)
  {
    Asn1.DecodeSound(p[1..]);
    if ParseTpdu(p) == Tpdu(tag, c, data, size) {
      ParsedBegins(p, tag, c, data, size);
    }
    if Begins(p, tag, c, data, size) {
      var f: seq<byte> :| Asn1.Decode(f) == Asn1.Length(|data| + 1, |f|) && p[..size] == [tag] + f + [c] + data;
      BeginningParsed(p, tag, c, data, size, f);
    }
  }

  lemma ParsedBegins(p: seq<byte>, tag: byte, c: byte, data: seq<byte>, size: nat)
    requires p != [] && ParseTpdu(p) == Tpdu(tag, c, data, size)
    ensures Begins(p, tag, c, data, size)
  {
    Asn1.DecodeSound(p[1..]);
    var n := Asn1.Decode(p[1..]).size;
    var f := p[1..1 + n];
    Asn1.DecodeExactly(p[1..], |data| + 1, n);
    Asn1.DecodeExactly(f, |data| + 1, n);
    assert p[1..][..n] == f && f[..n] == f;
    assert p[..size] == [tag] + f + [c] + data;
  }

  lemma BeginningParsed(p: seq<byte>, tag: byte, c: byte, data: seq<byte>, size: nat, f: seq<byte>)
    requires size <= |p| && Asn1.Decode(f) == Asn1.Length(|data| + 1, |f|) && p[..size] == [tag] + f + [c] + data
    ensures ParseTpdu(p) == Tpdu(tag, c, data, size)
  {
    var tail := [c] + data + p[size..];
    assert p == [tag] + (f + tail);
    assert p[1..] == f + tail;
    Asn1.DecodeSound(f);
    assert p[1 + |f|] == c && p[|f| + 2..|f| + 1 + (|data| + 1)] == data;
  }

  ghost predicate NoTpdu(p: seq<byte>) {
    forall tag: byte, c: byte, data: seq<byte>, size: nat :: !Begins(p, tag, c, data, size)
  }

  lemma NothingParsed(p: seq<byte>)
    requires p != [] && NoTpdu(p)
    ensures ParseTpdu(p) == Malformed
  {
    var y := ParseTpdu(p);
    if y.Tpdu? { ParseExactly(p, y.tag, y.c, y.data, y.size); }
  }

  /** A packet that does not begin with a TPDU is bad data, and nothing but the error is changed; an empty packet is no
   *  error. */
  lemma BadPacketRefused(x: Stack, w: nat -> bool, app: nat -> App, s: nat, p: seq<byte>)
    requires Sound(x) && s < |x.tl.net.slots|
    ensures p == [] ==> ProcessData(x, w, app, s, p) == Outcome(x, 0)
    ensures p != [] && NoTpdu(p) ==>
      ProcessData(x, w, app, s, p) == Outcome(x.(tl := x.tl.(error := -7, errorSlot := s)), -1)
  {
    hide NoTpdu, ParseTpdu;
    if p != [] && NoTpdu(p) { NothingParsed(p); }
  }

  /** A TPDU for a connection that does not exist is refused. */
  lemma BadConnectionRefused(x: Stack, w: nat -> bool, app: nat -> App, s: nat, p: seq<byte>, tag: byte, c: byte,
                             data: seq<byte>, size: nat)
    requires Sound(x) && s < |x.tl.net.slots| && p != [] && Begins(p, tag, c, data, size) && c >= x.tl.maxConns
    ensures ProcessData(x, w, app, s, p) == Outcome(x.(tl := x.tl.(error := -5, errorSlot := s)), -1)
  {
    ParseExactly(p, tag, c, data, size);
    hide Begins, ParseTpdu;
  }

  /** A TPDU at the front is handled, and what it tells is handed on; then comes the rest, unless it failed. */
  lemma ProcessOne(x: Stack, w: nat -> bool, app: nat -> App, s: nat, p: seq<byte>, tag: byte, c: byte, data: seq<byte>, size: nat)
    requires Sound(x) && s < |x.tl.net.slots| && p != [] && Begins(p, tag, c, data, size) && c < x.tl.maxConns
    ensures var r := HandleTpdu(x.tl, w, s, tag, c, data);
      && |x.tl.net.told| <= |r.t.net.told|
      && ProcessData(x, w, app, s, p) ==
           if r.code < 0 then Outcome(x.(tl := r.t), r.code)
           else ProcessData(Callbacks(x.(tl := r.t), app, r.t.net.told, |x.tl.net.told|), w, app, s, p[size..])
  {
    ParseExactly(p, tag, c, data, size);
    RunDelivery.TpduTells(x.tl, w, s, tag, c, data);
  }

  /** What is read for a slot: nothing, or a packet for it or another slot of its device; a failure to poll or to read is
   *  noted, and so is a packet that is for no slot. */
  lemma ReadExactly(x: Stack, w: nat -> bool, app: nat -> App, rx: Rx, s: nat)
    requires Sound(x) && s < |x.tl.net.slots|
    ensures rx.Nothing? || (rx.Readable? && rx.data == []) ==> ReadSlot(x, w, app, rx, s) == Outcome(x, 0)
    ensures rx.PollError? || rx.ReadFailed? ==>
      ReadSlot(x, w, app, rx, s) == Outcome(x.(tl := x.tl.(error := -1, errorSlot := s)), -1)
    ensures rx.Readable? && rx.data != [] ==>
      var r, slots := ReadSlot(x, w, app, rx, s), x.tl.net.slots;
      if slots[s].number == rx.number then r == ProcessData(x, w, app, s, rx.data)
      else
        && (forall d :: FirstOf(slots, slots[s].handle, rx.number, d) ==> r == ProcessData(x, w, app, d, rx.data))
        && ((forall d :: !FirstOf(slots, slots[s].handle, rx.number, d)) ==> r == Outcome(x.(tl := x.tl.(error := -4)), -1))
  {
    hide ProcessData, Route, FirstOf, Sound;
    if rx.Readable? { RouteIsFirst(x.tl.net.slots, x.tl.net.slots[s].handle, rx.number); }
  }

  lemma RouteIsFirst(slots: seq<Slot>, handle: int, number: byte)
    ensures var r := Route(slots, handle, number, 0);
      (r < |slots| ==> FirstOf(slots, handle, number, r)) && forall d :: FirstOf(slots, handle, number, d) ==> d == r < |slots|
  {
    RouteExactly(slots, handle, number, 0);
  }

  /** The first slot of the device with the CAM number. */
  predicate FirstOf(slots: seq<Slot>, handle: int, number: byte, d: nat) {
    && d < |slots| && slots[d].handle == handle && slots[d].number == number
    && forall k :: 0 <= k < d ==> slots[k].handle != handle || slots[k].number != number
  }

  /** A slot in use is read and then its connections are polled; an error ends it. A free slot is passed over. */
  lemma PollSlotExactly(x: Stack, w: nat -> bool, app: nat -> App, rx: Rx, tick: nat -> Tick, s: nat)
    requires Sound(x) && s < |x.tl.net.slots|
    ensures var r, read := PollSlot(x, w, app, rx, tick, s), ReadSlot(x, w, app, rx, s);
      && (x.tl.net.slots[s].handle == -1 ==> r == Outcome(x, 0))
      && (x.tl.net.slots[s].handle != -1 && read.code < 0 ==> r == read)
      && (x.tl.net.slots[s].handle != -1 && read.code >= 0 ==>
            r.x == read.x.(tl := PollConns(read.x.tl, w, tick, s, 0).t) && r.code == PollConns(read.x.tl, w, tick, s, 0).code)
  {
  }

  /** From `x` on the slots from `s` on were polled one by one, with these outcomes, and only the last may have failed. */
  ghost predicate PolledInTurn(x: Stack, w: nat -> bool, app: nat -> App, rx: nat -> Rx, tick: nat -> nat -> Tick, s: nat,
                               os: seq<Outcome>)
    requires Sound(x)
    decreases |os|
  {
    os != [] ==>
      && s < |x.tl.net.slots| && os[0] == PollSlot(x, w, app, rx(s), tick(s), s)
      && (|os| > 1 ==> os[0].code >= 0)
      && PolledInTurn(os[0].x, w, app, rx, tick, s + 1, os[1..])
  }

  /** A poll takes every slot in turn, each as the one before left the layers, up to the first that fails, whose error it
   *  returns; a failure to wait is noted for no slot. */
  lemma PollExactly(x: Stack, w: nat -> bool, app: nat -> App, polled: bool, rx: nat -> Rx, tick: nat -> nat -> Tick)
    returns (os: seq<Outcome>)
    requires Sound(x)
    ensures var r := Poll(x, w, app, polled, rx, tick);
      && (!polled ==> r == Outcome(x.(tl := x.tl.(error := -1, errorSlot := -1)), -1))
      && (polled ==> PolledInTurn(x, w, app, rx, tick, 0, os) && Concluded(x, os, |x.tl.net.slots|, r))
  {
    os := [];
    if polled { os := SlotsInTurn(x, w, app, rx, tick, 0); }
  }

  /** The result is the last outcome, where it failed; otherwise all `n` slots were polled, and it is a success. */
  predicate Concluded(x: Stack, os: seq<Outcome>, n: nat, r: Outcome) {
    if os != [] && os[|os| - 1].code < 0 then r == os[|os| - 1]
    else |os| == n && r == Outcome(if os == [] then x else os[|os| - 1].x, 0)
  }

  lemma {:induction false} SlotsInTurn(x: Stack, w: nat -> bool, app: nat -> App, rx: nat -> Rx, tick: nat -> nat -> Tick, s: nat)
    returns (os: seq<Outcome>)
    requires Sound(x) && s <= |x.tl.net.slots|
    ensures PolledInTurn(x, w, app, rx, tick, s, os)
    ensures Concluded(x, os, |x.tl.net.slots| - s, PollSlots(x, w, app, rx, tick, s))
    decreases |x.tl.net.slots| - s
  {
    hide PollSlot;
    os := [];
    if s < |x.tl.net.slots| {
      var r := PollSlot(x, w, app, rx(s), tick(s), s);
      if r.code >= 0 { os := SlotsInTurn(r.x, w, app, rx, tick, s + 1); }
      assert ([r] + os)[1..] == os;
      os := [r] + os;
    }
  }
}
