/** What the check of ISO/IEC 13818-1, Annex A, is bound to notice. */
module CrcBursts {
  import opened Crc32

  /** The table index with the given low octet. */
  function IndexOf(low: bv8): bv8 {
    (if low & 0x01 != 0 then 0xa9 else 0) ^ (if low & 0x02 != 0 then 0x57 else 0) ^
    (if low & 0x04 != 0 then 0xae else 0) ^ (if low & 0x08 != 0 then 0x59 else 0) ^
    (if low & 0x10 != 0 then 0xb2 else 0) ^ (if low & 0x20 != 0 then 0x61 else 0) ^
    (if low & 0x40 != 0 then 0xc3 else 0) ^ (if low & 0x80 != 0 then 0x82 else 0)
  }

  /** No two of the constants have the same low octet. */
  lemma IndexFound(i: bv8)
    ensures IndexOf((Table(i) & 0xff) as bv8) == i
  {
  }

  /** The index of the table entry used by a turn. */
  function Index(crc: bv32, b: bv8): bv8 { ((crc >> 24) & 0xff) as bv8 ^ b }

  /** `a` and `b` have the same `k` low octets. */
  predicate Agree(a: bv32, b: bv32, k: nat) {
    if k == 0 then true
    else if k == 1 then a & 0xff == b & 0xff
    else if k == 2 then a & 0xffff == b & 0xffff
    else if k == 3 then a & 0xff_ffff == b & 0xff_ffff
    else a == b
  }

  lemma AgreeLow(s: bv32, t: bv32, k: nat)
    requires k > 0 && Agree(s, t, k)
    ensures s & 0xff == t & 0xff
  {
  }

  /** The low octet after a turn is that of the table entry alone. */
  lemma LowOctet(crc: bv32, z: bv32, entry: bv32, st: bv32)
    requires z == crc << 8 && st == z ^ entry
    ensures st & 0xff == entry & 0xff
  {
  }

  lemma IndexKnown(crc: bv32, b: bv8, x: bv8, st: bv32, low: bv8)
    requires x == Index(crc, b) && st == Step(crc, b) && low == (st & 0xff) as bv8
    ensures IndexOf(low) == x
  {
    StepLooksUp(crc, b, x, Table(x), crc << 8, st);
    LowOctet(crc, crc << 8, Table(x), st);
    IndexFound(x);
  }

  lemma OneUnderShift(a: bv32, b: bv32, y: bv32, z: bv32, entry: bv32, s: bv32, t: bv32)
    requires y == a << 8 && z == b << 8 && s == y ^ entry && t == z ^ entry && s & 0xffff == t & 0xffff
    ensures a & 0xff == b & 0xff
  {
  }

  lemma TwoUnderShift(a: bv32, b: bv32, y: bv32, z: bv32, entry: bv32, s: bv32, t: bv32)
    requires y == a << 8 && z == b << 8 && s == y ^ entry && t == z ^ entry && s & 0xff_ffff == t & 0xff_ffff
    ensures a & 0xffff == b & 0xffff
  {
  }

  lemma ThreeUnderShift(a: bv32, b: bv32, y: bv32, z: bv32, entry: bv32, s: bv32, t: bv32)
    requires y == a << 8 && z == b << 8 && s == y ^ entry && t == z ^ entry && s == t
    ensures a & 0xff_ffff == b & 0xff_ffff
  {
  }

  /** A turn moves an agreement up by one octet. */
  lemma AgreeUnderShift(a: bv32, b: bv32, y: bv32, z: bv32, entry: bv32, s: bv32, t: bv32, k: nat)
    requires y == a << 8 && z == b << 8 && s == y ^ entry && t == z ^ entry && 0 < k <= 4 && Agree(s, t, k)
    ensures Agree(a, b, k - 1)
  {
    if k == 2 {
      OneUnderShift(a, b, y, z, entry, s, t);
    } else if k == 3 {
      TwoUnderShift(a, b, y, z, entry, s, t);
    } else if k == 4 {
      ThreeUnderShift(a, b, y, z, entry, s, t);
    }
  }

  lemma SameIndex(c: bv32, a: bv8, x: bv8, d: bv32, b: bv8, y: bv8, s: bv32, t: bv32, low: bv8)
    requires x == Index(c, a) && y == Index(d, b) && s == Step(c, a) && t == Step(d, b)
    requires low == (s & 0xff) as bv8 == (t & 0xff) as bv8
    ensures x == y
  {
    IndexKnown(c, a, x, s, low);
    IndexKnown(d, b, y, t, low);
  }

  lemma AgreeBack(c: bv32, a: bv8, d: bv32, b: bv8, x: bv8, entry: bv32, z: bv32, y: bv32, s: bv32, t: bv32, k: nat)
    requires x == Index(c, a) == Index(d, b) && s == Step(c, a) && t == Step(d, b) && entry == Table(x)
    requires y == c << 8 && z == d << 8 && 0 < k <= 4 && Agree(s, t, k)
    ensures Agree(c, d, k - 1)
  {
    hide Table, Step, Agree;
    StepLooksUp(c, a, x, entry, y, s);
    StepLooksUp(d, b, x, entry, z, t);
    AgreeUnderShift(c, d, y, z, entry, s, t, k);
  }

  /** What agrees after a turn used one table entry and agreed before it in all but the top octet looked at. */
  lemma StepBack(c: bv32, a: bv8, x: bv8, d: bv32, b: bv8, y: bv8, s: bv32, t: bv32, k: nat)
    requires x == Index(c, a) && y == Index(d, b) && s == Step(c, a) && t == Step(d, b)
    requires 0 < k <= 4 && Agree(s, t, k)
    ensures x == y && Agree(c, d, k - 1)
  {
    hide Table, Step, Agree;
    AgreeLow(s, t, k);
    SameIndex(c, a, x, d, b, y, s, t, (s & 0xff) as bv8);
    AgreeBack(c, a, d, b, x, Table(x), d << 8, c << 8, s, t, k);
  }

  lemma SameOctet(c: bv32, a: bv8, b: bv8)
    requires Index(c, a) == Index(c, b)
    ensures a == b
  {
  }

  lemma SameRegister(c: bv32, d: bv32, b: bv8)
    requires Index(c, b) == Index(d, b) && c & 0xff_ffff == d & 0xff_ffff
    ensures c == d
  {
  }

  /** Different registers stay different. */
  lemma StepInjective(c: bv32, d: bv32, b: bv8)
    requires Step(c, b) == Step(d, b)
    ensures c == d
  {
    hide Table, Step;
    StepBack(c, b, Index(c, b), d, b, Index(d, b), Step(c, b), Step(d, b), 4);
    SameRegister(c, d, b);
  }

  lemma {:induction false} TailKeepsDifference(c: bv32, d: bv32, tail: seq<bv8>)
    requires Crc(c, tail) == Crc(d, tail)
    ensures c == d
    decreases |tail|
  {
    if tail != [] {
      var init := tail[..|tail| - 1];
      StepInjective(Crc(c, init), Crc(d, init), tail[|tail| - 1]);
      TailKeepsDifference(c, d, init);
    }
  }

  /** Up to four octets can be read back off the register. */
  lemma {:induction false} WindowBack(c: bv32, v: seq<bv8>, w: seq<bv8>, k: nat)
    requires |v| == |w| <= k <= 4 && Agree(Crc(c, v), Crc(c, w), k)
    ensures v == w
    decreases |v|
  {
    hide Table, Step, Agree;
    if v != [] {
      var n := |v| - 1;
      var e, f := Crc(c, v[..n]), Crc(c, w[..n]);
      StepBack(e, v[n], Index(e, v[n]), f, w[n], Index(f, w[n]), Crc(c, v), Crc(c, w), k);
      WindowBack(c, v[..n], w[..n], k - 1);
      SameOctet(e, v[n], w[n]);
      assert v == v[..n] + [v[n]] && w == w[..n] + [w[n]];
    }
  }

  /** Messages that differ only inside four consecutive octets never have the same check,
      whatever stands before and behind. */
  lemma BurstsAreSeen(start: bv32, head: seq<bv8>, v: seq<bv8>, w: seq<bv8>, tail: seq<bv8>)
    requires |v| == |w| <= 4
    ensures Crc(start, head + v + tail) == Crc(start, head + w + tail) <==> v == w
  {
    if Crc(start, head + v + tail) == Crc(start, head + w + tail) {
      CrcAppend(start, head + v, tail);
      CrcAppend(start, head + w, tail);
      TailKeepsDifference(Crc(start, head + v), Crc(start, head + w), tail);
      CrcAppend(start, head, v);
      CrcAppend(start, head, w);
      WindowBack(Crc(start, head), v, w, 4);
    }
  }

  /** A register value as it is sent, the highest octet first. */
  function BigEndian(crc: bv32): (r: seq<bv8>)
    ensures |r| == 4
  {
    [((crc >> 24) & 0xff) as bv8, ((crc >> 16) & 0xff) as bv8, ((crc >> 8) & 0xff) as bv8, (crc & 0xff) as bv8]
  }

  /** An octet equal to the top of the register empties it. */
  lemma TopCancels(c: bv32, b: bv8, s: bv32)
    requires b == ((c >> 24) & 0xff) as bv8 && s == Step(c, b)
    ensures s == c << 8
  {
  }

  lemma NextOctets(c0: bv32, c1: bv32, c2: bv32, c3: bv32, b0: bv8, b1: bv8, b2: bv8, b3: bv8)
    requires c1 == c0 << 8 && c2 == c1 << 8 && c3 == c2 << 8 && BigEndian(c0) == [b0, b1, b2, b3]
    ensures b0 == ((c0 >> 24) & 0xff) as bv8 && b1 == ((c1 >> 24) & 0xff) as bv8
    ensures b2 == ((c2 >> 24) & 0xff) as bv8 && b3 == ((c3 >> 24) & 0xff) as bv8 && c3 << 8 == 0
  {
    var be := BigEndian(c0);
    assert b0 == be[0] && b1 == be[1] && b2 == be[2] && b3 == be[3];
  }

  lemma FourSteps(c0: bv32, b0: bv8, b1: bv8, b2: bv8, b3: bv8, c1: bv32, c2: bv32, c3: bv32, c4: bv32)
    requires c1 == Step(c0, b0) && c2 == Step(c1, b1) && c3 == Step(c2, b2) && c4 == Step(c3, b3)
    ensures Crc(c0, [b0, b1, b2, b3]) == c4
  {
    hide Table, Step;
    assert [] + [b0] == [b0] && [b0] + [b1] == [b0, b1] && [b0, b1] + [b2] == [b0, b1, b2];
    assert [b0, b1, b2] + [b3] == [b0, b1, b2, b3];
    OneStep(c0, [], b0);
    OneStep(c0, [b0], b1);
    OneStep(c0, [b0, b1], b2);
    OneStep(c0, [b0, b1, b2], b3);
  }

  lemma OneStep(c: bv32, msg: seq<bv8>, b: bv8)
    ensures Crc(c, msg + [b]) == Step(Crc(c, msg), b)
  {
    hide Step;
    assert (msg + [b])[..|msg|] == msg;
  }

  lemma OwnOctets(b0: bv8, b1: bv8, b2: bv8, b3: bv8, c0: bv32, c1: bv32, c2: bv32, c3: bv32, c4: bv32,
                  z1: bv32, z2: bv32, z3: bv32)
    requires c1 == Step(c0, b0) && c2 == Step(c1, b1) && c3 == Step(c2, b2) && c4 == Step(c3, b3)
    requires z1 == c0 << 8 && z2 == z1 << 8 && z3 == z2 << 8 && BigEndian(c0) == [b0, b1, b2, b3]
    ensures c4 == 0
  {
    hide Table, Step, BigEndian;
    NextOctets(c0, z1, z2, z3, b0, b1, b2, b3);
    TopCancels(c0, b0, c1);
    TopCancels(c1, b1, c2);
    TopCancels(c2, b2, c3);
    TopCancels(c3, b3, c4);
  }

  lemma OwnOctetsCancel(c: bv32)
    ensures Crc(c, BigEndian(c)) == 0
  {
    var b := BigEndian(c);
    var c1 := Step(c, b[0]);
    var c2 := Step(c1, b[1]);
    var c3 := Step(c2, b[2]);
    var c4 := Step(c3, b[3]);
    FourSteps(c, b[0], b[1], b[2], b[3], c1, c2, c3, c4);
    OwnOctets(b[0], b[1], b[2], b[3], c, c1, c2, c3, c4, c << 8, c << 8 << 8, c << 8 << 8 << 8);
  }

  /** A message with its check behind it has check zero, and no other four octets give that. */
  lemma CheckIsZero(start: bv32, msg: seq<bv8>, last: seq<bv8>)
    requires |last| == 4
    ensures Crc(start, msg + last) == 0 <==> last == BigEndian(Crc(start, msg))
  {
    var c := Crc(start, msg);
    CrcAppend(start, msg, last);
    OwnOctetsCancel(c);
    if Crc(start, msg + last) == 0 {
      WindowBack(c, last, BigEndian(c), 4);
    }
  }
}
