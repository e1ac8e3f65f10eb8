/** PSI sections decoded and encoded in place (libucsi/section.h), on a host that keeps the low octet of a word first. */
module Sections {
  import opened Crc32
  import CrcBits
  import opened CrcBursts

  /* ---- What stands in the octets ---- */

  /** `bswap16` at offset `i`. */
  function Swap16(s: seq<bv8>, i: nat): (r: seq<bv8>)
    requires i + 1 < |s|
    ensures |r| == |s|
  {
    s[i := s[i + 1]][i + 1 := s[i]]
  }

  /** The 12-bit `length` of the header, its two octets swapped into host order. */
  function Length(s: seq<bv8>): nat
    requires |s| >= 3
  {
    (s[2] & 0x0f) as int * 256 + s[1] as int
  }

  predicate SyntaxIndicator(s: seq<bv8>)
    requires |s| >= 3
  {
    s[2] & 0x80 != 0
  }

  /** A buffer that holds all of the section its header announces. */
  predicate Holds(s: seq<bv8>) {
    |s| >= 3 && 3 + Length(s) <= |s|
  }

  /** A buffer with room for the table extension behind the header, too. */
  predicate HoldsExt(s: seq<bv8>) {
    |s| >= 5 && Holds(s)
  }

  /** The section as transmitted. */
  function Wire(s: seq<bv8>): (r: seq<bv8>)
    requires Holds(s)
    ensures |r| == 3 + Length(s)
  {
    Swap16(s, 1)[..3 + Length(s)]
  }

  /** `section_check_crc` */
  predicate CheckOk(s: seq<bv8>)
    requires Holds(s)
  {
    Crc(CRC32_INIT, Wire(s)) == 0
  }

  function Put(s: seq<bv8>, at: nat, b: seq<bv8>): (r: seq<bv8>)
    requires at + |b| <= |s|
    ensures |r| == |s|
  {
    s[..at] + b + s[at + |b|..]
  }

  /** The check for the section in `s`, whose table extension is in wire order already. */
  function CheckFor(s: seq<bv8>): bv32
    requires Holds(s) && Length(s) >= 1
  {
    Crc(CRC32_INIT, Swap16(s, 1)[..Length(s) - 1])
  }

  /** `section_ext_decode`: whether it returns the section, and what is in the buffer then. */
  function ExtDecode(s: seq<bv8>, check: bool): (bool, seq<bv8>)
    requires HoldsExt(s)
  {
    if !SyntaxIndicator(s) || (check && !CheckOk(s)) then (false, s) else (true, Swap16(s, 3))
  }

  /** `section_ext_encode` */
  function ExtEncode(s: seq<bv8>, update: bool): (bool, seq<bv8>)
    requires HoldsExt(s) && (update ==> Length(s) >= 1)
  {
    if !SyntaxIndicator(s) then (false, s)
    else
      var e := Swap16(s, 3);
      if update then (true, Put(e, Length(s) - 1, BigEndian(CheckFor(e)))) else (true, e)
  }

  /* ---- The code on the buffer ---- */

  method BSwap16(buf: array<bv8>, i: nat)
    requires i + 1 < buf.Length
    modifies buf
    ensures buf[..] == Swap16(old(buf[..]), i)
  {
    buf[i], buf[i + 1] := buf[i + 1], buf[i];
  }

  method BSwap32(buf: array<bv8>, i: nat)
    requires i + 3 < buf.Length
    modifies buf
    ensures buf[..] == Put(old(buf[..]), i, old([buf[i + 3], buf[i + 2], buf[i + 1], buf[i]]))
  {
    buf[i], buf[i + 1], buf[i + 2], buf[i + 3] := buf[i + 3], buf[i + 2], buf[i + 1], buf[i];
  }

  /** `section_codec` */
  method Codec(buf: array<bv8>, len: nat) returns (ok: bool)
    requires len <= buf.Length
    modifies buf
    ensures buf[..] == if len < 3 then old(buf[..]) else Swap16(old(buf[..]), 1)
    ensures ok <==> len >= 3 && len == 3 + Length(buf[..])
  {
    if len < 3 {
      return false;
    }
    BSwap16(buf, 1);
    ok := len == 3 + ((buf[2] & 0x0f) as int * 256 + buf[1] as int);
  }

  lemma SwapTwice(s: seq<bv8>, i: nat)
    requires i + 1 < |s|
    ensures Swap16(Swap16(s, i), i) == s
  {
  }

  /** `section_check_crc`, which leaves the buffer as it was. */
  method CheckCrc(buf: array<bv8>) returns (ok: bool)
    requires Holds(buf[..])
    modifies buf
    ensures buf[..] == old(buf[..])
    ensures ok <==> CheckOk(buf[..])
  {
    var len := 3 + Length(buf[..]);
    SwapTwice(buf[..], 1);
    BSwap16(buf, 1);
    var crc := Crc32.Crc32(CRC32_INIT, buf, len);
    BSwap16(buf, 1);
    ok := crc == 0;
  }

  method DecodeExt(buf: array<bv8>, check: bool) returns (ok: bool)
    requires HoldsExt(buf[..])
    modifies buf
    ensures (ok, buf[..]) == ExtDecode(old(buf[..]), check)
  {
    if buf[2] & 0x80 == 0 {
      return false;
    }
    if check {
      var good := CheckCrc(buf);
      if !good {
        return false;
      }
    }
    BSwap16(buf, 3);
    ok := true;
  }

  /** Stores a word in host order and turns it round. */
  method StoreWord(buf: array<bv8>, at: nat, crc: bv32)
    requires at + 4 <= buf.Length
    modifies buf
    ensures buf[..] == Put(old(buf[..]), at, BigEndian(crc))
  {
    hide BigEndian;
    var b := BigEndian(crc);
    buf[at], buf[at + 1], buf[at + 2], buf[at + 3] := b[3], b[2], b[1], b[0];
    BSwap32(buf, at);
    assert b == [b[0], b[1], b[2], b[3]];
  }

  /** The check over all but the last four octets of the section in wire order. */
  method CrcOf(buf: array<bv8>) returns (crc: bv32)
    requires Holds(buf[..]) && Length(buf[..]) >= 1
    modifies buf
    ensures buf[..] == old(buf[..])
    ensures crc == CheckFor(buf[..])
  {
    var len := 3 + Length(buf[..]);
    SwapTwice(buf[..], 1);
    BSwap16(buf, 1);
    crc := Crc32.Crc32(CRC32_INIT, buf, len - 4);
    BSwap16(buf, 1);
  }

  method EncodeExt(buf: array<bv8>, update: bool) returns (ok: bool)
    requires HoldsExt(buf[..]) && (update ==> Length(buf[..]) >= 1)
    modifies buf
    ensures (ok, buf[..]) == ExtEncode(old(buf[..]), update)
  {
    hide BigEndian, Crc;
    if buf[2] & 0x80 == 0 {
      return false;
    }
    BSwap16(buf, 3);
    if update {
      var crc := CrcOf(buf);
      StoreWord(buf, Length(buf[..]) - 1, crc);
    }
    ok := true;
  }

  /* ---- What it is for ---- */

  /** Swapping the table extension, or storing the check, leaves the header alone. */
  lemma HeaderKept(s: seq<bv8>)
    requires HoldsExt(s)
    ensures HoldsExt(Swap16(s, 3)) && Length(Swap16(s, 3)) == Length(s)
  {
  }

  lemma PutKeepsHeader(s: seq<bv8>, at: nat, b: seq<bv8>)
    requires HoldsExt(s) && 5 <= at && at + |b| <= |s|
    ensures HoldsExt(Put(s, at, b)) && Length(Put(s, at, b)) == Length(s)
    ensures Put(s, at, b)[2] == s[2]
    ensures Swap16(Put(s, at, b), 3) == Put(Swap16(s, 3), at, b)
    ensures Swap16(Put(s, at, b), 1)[..at + |b|] == Swap16(s, 1)[..at] + b
  {
  }

  /** Encoding with the check and decoding with it succeed and give every octet back
      but the last four of the section, which hold the check. */
  lemma RoundTrip(s: seq<bv8>)
    requires HoldsExt(s) && SyntaxIndicator(s) && Length(s) >= 6
    ensures ExtEncode(s, true).0
    ensures var e := ExtEncode(s, true).1;
            HoldsExt(e) && ExtDecode(e, true) == (true, Put(s, Length(s) - 1, BigEndian(CheckFor(Swap16(s, 3)))))
  {
    hide BigEndian, Crc;
    var x := Swap16(s, 3);
    HeaderKept(s);
    var at, b := Length(s) - 1, BigEndian(CheckFor(x));
    PutKeepsHeader(x, at, b);
    SwapTwice(s, 3);
    CheckIsZero(CRC32_INIT, Swap16(x, 1)[..at], b);
  }

  /** A section passes exactly if its last four octets are the check of those before. */
  lemma CheckExact(s: seq<bv8>)
    requires Holds(s) && Length(s) >= 1
    ensures CheckOk(s) <==> Wire(s)[Length(s) - 1..] == BigEndian(CheckFor(s))
  {
    hide BigEndian, Crc;
    var w, at := Wire(s), Length(s) - 1;
    assert w[..at] == Swap16(s, 1)[..at] && w == w[..at] + w[at..];
    CheckIsZero(CRC32_INIT, w[..at], w[at..]);
  }

  /** Whatever happens to four consecutive octets of a good section, if its length still reads the same it is rejected. */
  lemma BurstRejected(s: seq<bv8>, t: seq<bv8>, head: seq<bv8>, v: seq<bv8>, w: seq<bv8>, tail: seq<bv8>)
    requires HoldsExt(s) && HoldsExt(t) && Length(s) == Length(t) && CheckOk(s)
    requires Wire(s) == head + v + tail && Wire(t) == head + w + tail && |v| == |w| <= 4 && v != w
    ensures !CheckOk(t) && ExtDecode(t, true) == (false, t)
  {
    hide Crc;
    BurstsAreSeen(CRC32_INIT, head, v, w, tail);
  }

  /** Whatever happens to 32 consecutive bits of a good section, wherever they begin, it is rejected if its length still
   *  reads the same. */
  lemma BitBurstRejected(s: seq<bv8>, t: seq<bv8>, head: seq<bool>, v: seq<bool>, w: seq<bool>, tail: seq<bool>)
    requires HoldsExt(s) && HoldsExt(t) && Length(s) == Length(t) && CheckOk(s)
    requires CrcBits.Bits(Wire(s)) == head + v + tail && CrcBits.Bits(Wire(t)) == head + w + tail
    requires |v| == |w| <= 32 && v != w
    ensures !CheckOk(t) && ExtDecode(t, true) == (false, t)
  {
    hide Crc, CrcBits.Bits;
    if head + v + tail == head + w + tail { DifferInside(head, v, w, tail); }
    CrcBits.BitBurstsAreSeen(CRC32_INIT, Wire(s), Wire(t), head, v, w, tail);
  }

  lemma DifferInside(head: seq<bool>, v: seq<bool>, w: seq<bool>, tail: seq<bool>)
    requires |v| == |w| && head + v + tail == head + w + tail
    ensures v == w
  {
    assert (head + v + tail)[|head|..|head| + |v|] == v && (head + w + tail)[|head|..|head| + |w|] == w;
  }
}
