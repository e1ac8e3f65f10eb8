/** The in-place section codec against the octets on the wire (section 2.4.4.11 of ISO/IEC 13818-1), for a host that keeps
 *  the low octet of a word first. */
module SectionOctets {
  import opened Crc32
  import opened CrcBursts
  import opened Sections

  /** A word as it is sent, and as the host keeps it. */
  function Sent(s: seq<bv8>, i: nat): nat
    requires i + 1 < |s|
  {
    s[i] as nat * 256 + s[i + 1] as nat
  }

  function Kept(s: seq<bv8>, i: nat): nat
    requires i + 1 < |s|
  {
    s[i + 1] as nat * 256 + s[i] as nat
  }

  /** The octets but for these places. */
  predicate SameBut(s: seq<bv8>, t: seq<bv8>, places: set<nat>) {
    |s| == |t| && forall i :: 0 <= i < |s| && i !in places ==> s[i] == t[i]
  }

  lemma TopBit(b: bv8)
    ensures b & 0x80 != 0 <==> b as nat >= 0x80
  {
  }

  lemma LowBits(b: bv8)
    ensures (b & 0x0f) as nat == b as nat % 16
  {
  }

  lemma Octet(b: bv8)
    ensures 0 <= b as int < 256
  {
  }

  lemma TwelveBits(hi: int, lo: int, low: int)
    requires 0 <= lo < 256 && low == hi % 16 && 0 <= hi < 256
    ensures low * 256 + lo == (hi * 256 + lo) % 0x1000 && (hi >= 0x80 <==> hi * 256 + lo >= 0x8000)
  {
    assert hi * 256 + lo == hi / 16 * 0x1000 + (low * 256 + lo);
  }

  lemma LengthIs(s: seq<bv8>, hi: bv8, lo: bv8, low: int, l: int)
    requires |s| >= 3 && s[2] == hi && s[1] == lo && low == (hi & 0x0f) as int && l == lo as int
    ensures Length(s) == low * 256 + l
  {
  }

  lemma IndicatorIs(s: seq<bv8>, hi: bv8, h: int)
    requires |s| >= 3 && s[2] == hi && h == hi as int
    ensures SyntaxIndicator(s) <==> h >= 0x80
  {
    TopBit(hi);
  }

  lemma HeaderWords(s: seq<bv8>, hi: bv8, lo: bv8, h: int, l: int)
    requires |s| >= 3 && s[2] == hi && s[1] == lo && h == hi as int && l == lo as int
    ensures Length(s) == (h * 256 + l) % 0x1000 && (SyntaxIndicator(s) <==> h * 256 + l >= 0x8000)
  {
    hide Length, SyntaxIndicator;
    Octet(hi);
    Octet(lo);
    LowBits(hi);
    LengthIs(s, hi, lo, (hi & 0x0f) as int, l);
    IndicatorIs(s, hi, h);
    TwelveBits(h, l, (hi & 0x0f) as int);
  }

  /** Decoding the header of a section as sent, `w`, keeps its second and third octets as a word of the host, finds the
   *  length in the low twelve bits of it and the syntax indicator in the topmost one. */
  lemma HeaderDecoded(w: seq<bv8>)
    requires |w| >= 3
    ensures var s := Swap16(w, 1);
      && SameBut(w, s, {1, 2}) && Kept(s, 1) == Sent(w, 1)
      && Length(s) == Sent(w, 1) % 0x1000 && (SyntaxIndicator(s) <==> Sent(w, 1) >= 0x8000)
  {
    hide Length, SyntaxIndicator;
    var s := Swap16(w, 1);
    assert s[1] == w[2] && s[2] == w[1];
    HeaderWords(s, w[1], w[2], w[1] as int, w[2] as int);
  }

  /** Decoding the table extension succeeds exactly when the syntax indicator is set and, if asked for, the check over the
   *  section as sent is zero; then the fourth and the fifth octet are a word of the host, and otherwise nothing is
   *  changed. */
  lemma ExtDecoded(w: seq<bv8>, check: bool)
    requires |w| >= 5 && 3 + Sent(w, 1) % 0x1000 <= |w|
    ensures var s := Swap16(w, 1);
      && HoldsExt(s)
      && var (ok, t) := ExtDecode(s, check);
         && (ok <==> Sent(w, 1) >= 0x8000 && (check ==> Crc(CRC32_INIT, w[..3 + Sent(w, 1) % 0x1000]) == 0))
         && SameBut(s, t, if ok then {3, 4} else {}) && (ok ==> Kept(t, 3) == Sent(w, 3))
  {
    hide Crc, SyntaxIndicator, Length;
    HeaderDecoded(w);
    SwapTwice(w, 1);
  }

  /** Encoding it succeeds exactly when the syntax indicator is set; then the word of the host is as it is sent, and with
   *  the update the last four octets of the section hold the check over those in front of them, the highest first. */
  lemma ExtEncoded(s: seq<bv8>, update: bool)
    requires HoldsExt(s) && Length(s) >= 6
    ensures var (ok, t) := ExtEncode(s, update);
      var n := 3 + Length(s);
      && (ok <==> SyntaxIndicator(s)) && (!ok ==> t == s)
      && (ok ==> |t| == |s| && Sent(t, 3) == Kept(s, 3)
                 && (forall i :: 0 <= i < |s| && i != 3 && i != 4 && (!update || i < n - 4 || i >= n) ==> t[i] == s[i]))
      && (ok && update ==> t[n - 4..n] == BigEndian(Crc(CRC32_INIT, Swap16(t, 1)[..n - 4])))
  {
    hide Crc, SyntaxIndicator, Length, BigEndian;
    var n, e := 3 + Length(s), Swap16(s, 3);
    assert Length(e) == Length(s) by { SameLength(s, e); }
    var (ok, t) := ExtEncode(s, update);
    if ok && update {
      assert t == e[..n - 4] + BigEndian(CheckFor(e)) + e[n..];
      assert Swap16(t, 1)[..n - 4] == Swap16(e, 1)[..n - 4];
    }
  }

  lemma SameLength(s: seq<bv8>, t: seq<bv8>)
    requires |s| >= 3 && |t| >= 3 && s[..3] == t[..3]
    ensures Length(s) == Length(t)
  {
    assert s[1] == s[..3][1] && s[2] == s[..3][2] && t[1] == t[..3][1] && t[2] == t[..3][2];
  }
}
