/** The check bit by bit: no change inside 32 consecutive bits goes unnoticed, at whatever bit it begins. */
module CrcBits {
  import opened Crc32

  /** The register after these bits. */
  function BitRun(crc: bv32, bits: seq<bool>): bv32
    decreases |bits|
  {
    if bits == [] then crc else Shift(BitRun(crc, bits[..|bits| - 1]), bits[|bits| - 1])
  }

  /** The bits of an octet, the highest first. */
  function OctetBits(b: bv8): (r: seq<bool>)
    ensures |r| == 8
  {
    [b & 0x80 != 0, b & 0x40 != 0, b & 0x20 != 0, b & 0x10 != 0, b & 0x08 != 0, b & 0x04 != 0, b & 0x02 != 0, b & 0x01 != 0]
  }

  function Bits(msg: seq<bv8>): (r: seq<bool>)
    ensures |r| == 8 * |msg|
    decreases |msg|
  {
    if msg == [] then [] else Bits(msg[..|msg| - 1]) + OctetBits(msg[|msg| - 1])
  }

  lemma {:induction false} BitRunAppend(crc: bv32, v: seq<bool>, w: seq<bool>)
    ensures BitRun(crc, v + w) == BitRun(BitRun(crc, v), w)
    decreases |w|
  {
    hide Shift;
    if w == [] {
      assert v + w == v;
    } else {
      BitRunAppend(crc, v, w[..|w| - 1]);
      assert (v + w)[..|v + w| - 1] == v + w[..|w| - 1];
    }
  }

  lemma FourBits(crc: bv32, p0: bool, p1: bool, p2: bool, p3: bool)
    ensures BitRun(crc, [p0, p1, p2, p3]) == ShiftFour(crc, p0, p1, p2, p3)
  {
    hide Shift;
    assert [p0, p1, p2, p3][..3] == [p0, p1, p2] && [p0, p1, p2][..2] == [p0, p1] && [p0, p1][..1] == [p0];
    assert BitRun(crc, [p0]) == Shift(crc, p0);
    assert BitRun(crc, [p0, p1]) == Shift(Shift(crc, p0), p1);
    assert BitRun(crc, [p0, p1, p2]) == Shift(Shift(Shift(crc, p0), p1), p2);
  }

  lemma EightBits(crc: bv32, p0: bool, p1: bool, p2: bool, p3: bool, p4: bool, p5: bool, p6: bool, p7: bool)
    ensures BitRun(crc, [p0, p1, p2, p3, p4, p5, p6, p7]) == ShiftFour(ShiftFour(crc, p0, p1, p2, p3), p4, p5, p6, p7)
  {
    hide ShiftFour, BitRun;
    assert [p0, p1, p2, p3, p4, p5, p6, p7] == [p0, p1, p2, p3] + [p4, p5, p6, p7];
    BitRunAppend(crc, [p0, p1, p2, p3], [p4, p5, p6, p7]);
    FourBits(crc, p0, p1, p2, p3);
    FourBits(ShiftFour(crc, p0, p1, p2, p3), p4, p5, p6, p7);
  }

  lemma OctetIsBits(crc: bv32, b: bv8)
    ensures ShiftByte(crc, b) == BitRun(crc, OctetBits(b))
  {
    hide ShiftFour, BitRun;
    EightBits(crc, b & 0x80 != 0, b & 0x40 != 0, b & 0x20 != 0, b & 0x10 != 0,
              b & 0x08 != 0, b & 0x04 != 0, b & 0x02 != 0, b & 0x01 != 0);
  }

  /** The check is the register after the bits of the message. */
  lemma {:induction false} CrcIsBits(crc: bv32, msg: seq<bv8>)
    ensures Crc(crc, msg) == BitRun(crc, Bits(msg))
    decreases |msg|
  {
    hide Step, ShiftByte, BitRun, OctetBits;
    if msg == [] {
      assert BitRun(crc, []) == crc by { NoBits(crc); }
    } else {
      var init, last := msg[..|msg| - 1], msg[|msg| - 1];
      CrcIsBits(crc, init);
      StepIsRegister(Crc(crc, init), last);
      OctetIsBits(Crc(crc, init), last);
      BitRunAppend(crc, Bits(init), OctetBits(last));
    }
  }

  lemma NoBits(crc: bv32)
    ensures BitRun(crc, []) == crc
  {
  }

  /* ---- Going back ---- */

  /** `d` moved up by `j` bits. */
  function Up(d: bv32, j: nat): bv32
    decreases j
  {
    if j == 0 then d else Up(d << 1, j - 1)
  }

  lemma UpOne(d: bv32, e: bv32, j: nat)
    requires e == d << 1
    ensures Up(d, j + 1) == Up(e, j)
  {
  }

  lemma {:induction false} UpTwice(d: bv32, i: nat, j: nat)
    ensures Up(d, i + j) == Up(Up(d, i), j)
    decreases i
  {
    if i > 0 { UpTwice(d << 1, i - 1, j); }
  }

  lemma NothingMoves(d: bv32, e: bv32)
    requires d == 0 && e == d << 1
    ensures e == 0
  {
  }

  lemma {:induction false} UpNothing(d: bv32, j: nat)
    requires d == 0
    ensures Up(d, j) == 0
    decreases j
  {
    if j > 0 {
      NothingMoves(d, d << 1);
      UpNothing(d << 1, j - 1);
    }
  }

  lemma AndMoves(d: bv32, e: bv32, f: bv32, d': bv32, e': bv32, f': bv32)
    requires f == d & e && d' == d << 1 && e' == e << 1 && f' == f << 1
    ensures f' == d' & e'
  {
  }

  lemma {:induction false} UpAnd(d: bv32, e: bv32, f: bv32, x: bv32, y: bv32, z: bv32, j: nat)
    requires f == d & e && x == Up(d, j) && y == Up(e, j) && z == Up(f, j)
    ensures z == x & y
    decreases j, 0
  {
    if j > 0 { UpAndBelow(d, e, f, d << 1, e << 1, f << 1, x, y, z, j - 1); }
  }

  lemma {:induction false} UpAndBelow(d: bv32, e: bv32, f: bv32, d': bv32, e': bv32, f': bv32, x: bv32, y: bv32,
                                      z: bv32, j: nat)
    requires f == d & e && d' == d << 1 && e' == e << 1 && f' == f << 1
    requires x == Up(d', j) && y == Up(e', j) && z == Up(f', j)
    ensures z == x & y
    decreases j, 1
  {
    hide Up;
    AndMoves(d, e, f, d', e', f');
    UpAnd(d', e', f', x, y, z, j);
  }

  lemma OneUpEight(d: bv32, e: bv32)
    requires (d == 0x1 && e == 0x100) || (d == 0x100 && e == 0x1_0000) || (d == 0x1_0000 && e == 0x100_0000)
    ensures Up(d, 8) == e
  {
    var a := d << 1; var b := a << 1; var c := b << 1; var f := c << 1;
    var g := f << 1; var h := g << 1; var i := h << 1; var k := i << 1;
    assert k == e;
    assert Up(k, 0) == k && Up(i, 1) == k && Up(h, 2) == k && Up(g, 3) == k && Up(f, 4) == k;
    assert Up(c, 5) == k && Up(b, 6) == k && Up(a, 7) == k;
  }

  lemma OneUpSeven(d: bv32)
    requires d == 0x100_0000
    ensures Up(d, 7) == 0x8000_0000
  {
    var a := d << 1; var b := a << 1; var c := b << 1; var f := c << 1;
    var g := f << 1; var h := g << 1; var i := h << 1;
    assert i == 0x8000_0000;
    assert Up(i, 0) == i && Up(h, 1) == i && Up(g, 2) == i && Up(f, 3) == i && Up(c, 4) == i;
    assert Up(b, 5) == i && Up(a, 6) == i;
  }

  /** The low bit reaches the top. */
  lemma OneToTheTop()
    ensures Up(1, 31) == 0x8000_0000
  {
    hide Up;
    OneUpEight(0x1, 0x100);
    OneUpEight(0x100, 0x1_0000);
    OneUpEight(0x1_0000, 0x100_0000);
    OneUpSeven(0x100_0000);
    UpTwice(1, 8, 23);
    UpTwice(0x100, 8, 15);
    UpTwice(0x1_0000, 8, 7);
  }

  lemma OneStays(d: bv32, e: bv32)
    requires e == d & 1 && e != 0
    ensures e == 1
  {
  }

  lemma NothingIn(f: bv32, d: bv32, e: bv32)
    requires f == d & e && d == 0
    ensures f == 0
  {
  }

  /** What vanishes when moved up by less than 32 has no low bit. */
  lemma LowBit(d: bv32, j: nat)
    requires j < 32 && Up(d, j) == 0
    ensures d & 1 == 0
  {
    hide Up;
    var e := d & 1;
    if e != 0 {
      OneStays(d, e);
      UpAnd(d, 1, e, Up(d, j), Up(1, j), Up(e, j), j);
      NothingIn(Up(e, j), Up(d, j), Up(1, j));
      UpTwice(1, j, 31 - j);
      UpNothing(Up(1, j), 31 - j);
      OneToTheTop();
    }
  }

  /** The difference of two registers, and the difference moved up by one bit. */
  predicate Differ(a: bv32, b: bv32, d: bv32) { d == a ^ b }
  predicate Doubled(d: bv32, e: bv32) { e == d << 1 }

  lemma DoubledDiffer(a: bv32, b: bv32, c: bv32, y: bv32, z: bv32, e: bv32)
    requires Doubled(a, y) && Doubled(b, z) && Differ(a, b, c) && Doubled(c, e)
    ensures Differ(y, z, e) && y & 1 == 0 && z & 1 == 0
  {
  }

  lemma OneFedBack(y: bv32, z: bv32, s: bv32, d: bv32)
    requires y & 1 == 0 && z & 1 == 0 && s == y ^ POLYNOMIAL && (Differ(s, z, d) || Differ(z, s, d))
    ensures d & 1 != 0
  {
  }

  lemma BothFedBack(y: bv32, z: bv32, s: bv32, t: bv32, d: bv32, e: bv32)
    requires s == y ^ POLYNOMIAL && t == z ^ POLYNOMIAL && Differ(s, t, d) && Differ(y, z, e)
    ensures d == e
  {
  }

  lemma NoneFedBack(y: bv32, z: bv32, d: bv32, e: bv32)
    requires Differ(y, z, d) && Differ(y, z, e)
    ensures d == e
  {
  }

  /** Whether the polynomial is fed back can be told from the low bit. */
  lemma FeedbackShows(y: bv32, z: bv32, s: bv32, t: bv32, d: bv32, e: bv32, x: bool, u: bool)
    requires y & 1 == 0 && z & 1 == 0 && Differ(s, t, d) && Differ(y, z, e) && d & 1 == 0
    requires s == (if x then y ^ POLYNOMIAL else y) && t == (if u then z ^ POLYNOMIAL else z)
    ensures x == u && d == e
  {
    hide Differ;
    if x && u {
      BothFedBack(y, z, s, t, d, e);
    } else if x {
      OneFedBack(y, z, s, d);
    } else if u {
      OneFedBack(z, y, t, d);
    } else {
      NoneFedBack(y, z, d, e);
    }
  }

  lemma FeedDoubled(c: bv32, bit: bool, y: bv32, s: bv32)
    requires s == Shift(c, bit) && Doubled(c, y)
    ensures s == if Top(c) != bit then y ^ POLYNOMIAL else y
  {
    Feed(c, bit, s);
  }

  lemma SameFeedback(a: bv32, p: bool, b: bv32, q: bool, y: bv32, z: bv32, s: bv32, t: bv32, c: bv32, d: bv32, e: bv32)
    requires s == Shift(a, p) && t == Shift(b, q) && Doubled(a, y) && Doubled(b, z)
    requires Differ(a, b, c) && Differ(s, t, d) && d & 1 == 0 && Doubled(c, e)
    ensures (Top(a) != p) == (Top(b) != q) && d == e
  {
    hide Shift, Top, Differ, Doubled;
    FeedDoubled(a, p, y, s);
    FeedDoubled(b, q, z, t);
    DoubledDiffer(a, b, c, y, z, e);
    FeedbackShows(y, z, s, t, d, e, Top(a) != p, Top(b) != q);
  }

  /** One turn back: the feedback was the same, and one bit less is known to agree. */
  lemma StepBack(a: bv32, p: bool, b: bv32, q: bool, s: bv32, t: bv32, c: bv32, d: bv32, j: nat)
    requires s == Shift(a, p) && t == Shift(b, q) && Differ(a, b, c) && Differ(s, t, d) && j < 32 && Up(d, j) == 0
    ensures (Top(a) != p) == (Top(b) != q) && Up(c, j + 1) == 0
  {
    hide Shift, Top, Up, Differ;
    LowBit(d, j);
    SameFeedback(a, p, b, q, a << 1, b << 1, s, t, c, d, c << 1);
    UpOne(c, c << 1, j);
  }

  lemma SameBit(a: bv32, p: bool, q: bool)
    requires (Top(a) != p) == (Top(a) != q)
    ensures p == q
  {
  }

  /** Up to 32 bits can be read back off the register. */
  lemma {:induction false} BitsBack(crc: bv32, v: seq<bool>, w: seq<bool>, d: bv32, j: nat)
    requires |v| == |w| && |v| + j <= 32 && Differ(BitRun(crc, v), BitRun(crc, w), d) && Up(d, j) == 0
    ensures v == w
    decreases |v|
  {
    hide Shift, Up, Top, Differ;
    if v != [] {
      var n := |v| - 1;
      var a, b := BitRun(crc, v[..n]), BitRun(crc, w[..n]);
      var c := Difference(a, b);
      StepBack(a, v[n], b, w[n], BitRun(crc, v), BitRun(crc, w), c, d, j);
      BitsBack(crc, v[..n], w[..n], c, j + 1);
      SameBit(a, v[n], w[n]);
      assert v == v[..n] + [v[n]] && w == w[..n] + [w[n]];
    }
  }

  function Difference(a: bv32, b: bv32): (d: bv32)
    ensures Differ(a, b, d)
  {
    a ^ b
  }

  function Double(d: bv32): (e: bv32)
    ensures Doubled(d, e)
  {
    d << 1
  }

  lemma SameUnderTop(a: bv32, b: bv32, c: bv32, e: bv32)
    requires Differ(a, b, c) && Doubled(c, e) && e == 0 && Top(a) == Top(b)
    ensures a == b
  {
  }

  lemma SameIsNothing(s: bv32, d: bv32)
    requires Differ(s, s, d)
    ensures d == 0 && d & 1 == 0
  {
  }

  lemma SameBefore(a: bv32, b: bv32, p: bool, s: bv32)
    requires s == Shift(a, p) && s == Shift(b, p)
    ensures a == b
  {
    hide *;
    var c, d := Difference(a, b), Difference(s, s);
    SameIsNothing(s, d);
    SameFeedback(a, p, b, p, Double(a), Double(b), s, s, c, d, Double(c));
    SameUnderTop(a, b, c, Double(c));
  }

  lemma {:induction false} BitsKeepDifference(a: bv32, b: bv32, tail: seq<bool>)
    requires BitRun(a, tail) == BitRun(b, tail)
    ensures a == b
    decreases |tail|
  {
    hide Shift;
    if tail != [] {
      var init := tail[..|tail| - 1];
      SameBefore(BitRun(a, init), BitRun(b, init), tail[|tail| - 1], BitRun(a, tail));
      BitsKeepDifference(a, b, init);
    }
  }

  lemma OctetFromBits(b: bv8, c: bv8)
    requires OctetBits(b) == OctetBits(c)
    ensures b == c
  {
    var p, q := OctetBits(b), OctetBits(c);
    assert p[0] == q[0] && p[1] == q[1] && p[2] == q[2] && p[3] == q[3];
    assert p[4] == q[4] && p[5] == q[5] && p[6] == q[6] && p[7] == q[7];
    EachBit(b, c);
  }

  lemma EachBit(b: bv8, c: bv8)
    requires (b & 0x80 != 0) == (c & 0x80 != 0) && (b & 0x40 != 0) == (c & 0x40 != 0)
    requires (b & 0x20 != 0) == (c & 0x20 != 0) && (b & 0x10 != 0) == (c & 0x10 != 0)
    requires (b & 0x08 != 0) == (c & 0x08 != 0) && (b & 0x04 != 0) == (c & 0x04 != 0)
    requires (b & 0x02 != 0) == (c & 0x02 != 0) && (b & 0x01 != 0) == (c & 0x01 != 0)
    ensures b == c
  {
  }

  lemma {:induction false} MessageFromBits(m: seq<bv8>, m': seq<bv8>)
    requires Bits(m) == Bits(m')
    ensures m == m'
    decreases |m|
  {
    hide OctetBits;
    assert |m| == |m'|;
    if m != [] {
      var k := |m| - 1;
      var x, y := Bits(m[..k]), Bits(m'[..k]);
      assert Bits(m)[..8 * k] == x && Bits(m')[..8 * k] == y;
      assert Bits(m)[8 * k..] == OctetBits(m[k]) && Bits(m')[8 * k..] == OctetBits(m'[k]);
      MessageFromBits(m[..k], m'[..k]);
      OctetFromBits(m[k], m'[k]);
      assert m == m[..k] + [m[k]] && m' == m'[..k] + [m'[k]];
    }
  }

  /** Messages whose bits differ only inside 32 consecutive ones, wherever these begin, have the same check exactly if
   *  they are equal. */
  lemma BitBurstsAreSeen(start: bv32, m: seq<bv8>, m': seq<bv8>, head: seq<bool>, v: seq<bool>, w: seq<bool>,
                         tail: seq<bool>)
    requires |v| == |w| <= 32 && Bits(m) == head + v + tail && Bits(m') == head + w + tail
    ensures Crc(start, m) == Crc(start, m') <==> m == m'
  {
    hide Crc, Bits, BitRun;
    if Crc(start, m) == Crc(start, m') {
      CrcIsBits(start, m);
      CrcIsBits(start, m');
      BitRunAppend(start, head + v, tail);
      BitRunAppend(start, head + w, tail);
      BitsKeepDifference(BitRun(start, head + v), BitRun(start, head + w), tail);
      BitRunAppend(start, head, v);
      BitRunAppend(start, head, w);
      var s := BitRun(BitRun(start, head), v);
      var d := Difference(s, s);
      SameIsNothing(s, d);
      UpNothing(d, 0);
      BitsBack(BitRun(start, head), v, w, d, 0);
      MessageFromBits(m, m');
    }
  }
}
