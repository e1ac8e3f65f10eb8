/** The length field of every TPDU, SPDU and APDU (asn_1.c). */
module Asn1 {
  import opened Common

  datatype Decoded = Bad | Length(value: nat, size: nat)

  /** `asn_1_decode`: one, two or three octets; anything else is refused. */
  function Decode(a: seq<byte>): Decoded {
    if |a| < 1 then Bad
    else if a[0] < 0x80 then Length(a[0], 1)
    else if a[0] == 0x81 then
      if |a| < 2 then Bad else Length(a[1], 2)
    else if a[0] == 0x82 then
      if |a| < 3 then Bad else Length((a[1] as int) * 256 + a[2], 3)
    else Bad
  }

  /** What `asn_1_encode` stores when it has room for it. */
  function Encode(length: nat): (r: seq<byte>)
    requires length < 0x10000
    ensures 1 <= |r| <= 3
  {
    if length < 0x80 then [length]
    else if length < 0x100 then [0x81, length]
    else [0x82, length / 256, length % 256]
  }

  /** `asn_1_encode`: stores the field at `at`, given `room` octets, or stores nothing and fails. */
  method EncodeInto(length: nat, a: array<byte>, at: nat, room: nat) returns (size: int)
    requires length < 0x10000
    requires at + room <= a.Length
    modifies a
    ensures size == if |Encode(length)| <= room then |Encode(length)| else -1
    ensures size == -1 ==> a[..] == old(a[..])
    ensures size != -1 ==> a[at..at + size] == Encode(length)
    ensures forall k :: 0 <= k < a.Length && !(at <= k < at + room) ==> a[k] == old(a[k])
  {
    if length < 0x80 {
      if room < 1 { return -1; }
      a[at] := length;
      return 1;
    } else if length < 0x100 {
      if room < 2 { return -1; }
      a[at] := 0x81;
      a[at + 1] := length;
      return 2;
    } else {
      if room < 3 { return -1; }
      a[at] := 0x82;
      a[at + 1] := length / 256;
      a[at + 2] := length % 256;
      return 3;
    }
  }

  /** Every 16-bit length survives, whatever follows the field. */
  lemma RoundTrip(length: nat, rest: seq<byte>)
    requires length < 0x10000
    ensures Decode(Encode(length) + rest) == Length(length, |Encode(length)|)
  {
    var a := Encode(length) + rest;
    assert a[0] == Encode(length)[0];
    if length >= 0x80 { assert a[1] == Encode(length)[1]; }
  }

  /** A decoded field never runs past the data, and no shorter field means the same length. */
  lemma DecodeSound(a: seq<byte>)
    ensures Decode(a).Length? ==>
      && Decode(a).size <= |a| && Decode(a).value < 0x10000
      && |Encode(Decode(a).value)| <= Decode(a).size
    ensures forall rest: seq<byte> :: Decode(a).Length? ==> Decode(a + rest) == Decode(a)
  {
    forall rest: seq<byte> | Decode(a).Length? ensures Decode(a + rest) == Decode(a) {
      assert forall k :: 0 <= k < |a| ==> (a + rest)[k] == a[k];
    }
  }

  /** The number a field holds: its only octet, or the octets behind the first, the highest first. */
  function FieldValue(f: seq<byte>): nat
    requires 1 <= |f| <= 3
  {
    if |f| == 1 then f[0] else if |f| == 2 then f[1] else f[1] as nat * 256 + f[2]
  }

  /** A field is one octet below 0x80, or 0x81 and one octet, or 0x82 and two; everything else is refused. */
  predicate IsField(f: seq<byte>) {
    (|f| == 1 && f[0] < 0x80) || (2 <= |f| <= 3 && f[0] == 0x7f + |f|)
  }

  /** What is decoded is exactly a field at the front, if there is one. */
  lemma DecodeExactly(a: seq<byte>, value: nat, size: nat)
    ensures Decode(a) == Length(value, size) <==>
      1 <= size <= |a| && size <= 3 && IsField(a[..size]) && FieldValue(a[..size]) == value
    ensures Decode(a) == Bad <==> forall k :: 0 <= k <= |a| ==> !IsField(a[..k])
  {
    if |a| >= 1 {
      assert a[..1] == [a[0]];
      if |a| >= 2 { assert a[..2] == [a[0], a[1]]; }
      if |a| >= 3 { assert a[..3] == [a[0], a[1], a[2]]; }
    }
  }
}
