/** What a CA module reads in a CA_PMT object, and that moving descriptors does not change it. */
module CaPmtMeaning {
  import opened Common
  import opened CaPmt

  /* ---- A reader of the object, section 8.4.3.4 of EN 50221 ---- */

  datatype CaLoop = CaLoop(cmd: Option<byte>, descriptors: seq<Octets>)
  datatype Entry = Entry(streamType: byte, pid: nat, ca: CaLoop)
  datatype CaObject = CaObject(management: byte, programNumber: nat, version: nat, current: bool, ca: CaLoop, streams: seq<Entry>)

  function TwelveBits(high: byte, low: byte): nat { high as int % 16 * 256 + low as int }
  function ThirteenBits(high: byte, low: byte): nat { high as int % 32 * 256 + low as int }

  /** Descriptors one behind the other. */
  function ReadDescriptors(b: Octets): Option<seq<Octets>> {
    if b == [] then Some([])
    else if |b| < 2 || |b| < 2 + b[1] as int then None
    else
      match ReadDescriptors(b[2 + b[1] as int..])
      case None => None
      case Some(rest) => Some([b[..2 + b[1] as int]] + rest)
  }

  /** A command and descriptors of the given length in all; and what follows. */
  function ReadLoop(length: nat, b: Octets): (r: Option<(CaLoop, Octets)>)
    ensures r.Some? ==> |r.value.1| <= |b|
  {
    if length == 0 then Some((CaLoop(None, []), b))
    else if |b| < length then None
    else
      match ReadDescriptors(b[1..length])
      case None => None
      case Some(ds) => Some((CaLoop(Some(b[0]), ds), b[length..]))
  }

  function ReadStreams(b: Octets): Option<seq<Entry>> {
    if b == [] then Some([])
    else if |b| < 5 then None
    else
      match ReadLoop(TwelveBits(b[3], b[4]), b[5..])
      case None => None
      case Some((ca, rest)) =>
        match ReadStreams(rest)
        case None => None
        case Some(more) => Some([Entry(b[0], ThirteenBits(b[1], b[2]), ca)] + more)
  }

  function Read(b: Octets): Option<CaObject> {
    if |b| < 6 then None
    else
      match ReadLoop(TwelveBits(b[4], b[5]), b[6..])
      case None => None
      case Some((ca, rest)) =>
        match ReadStreams(rest)
        case None => None
        case Some(ss) => Some(CaObject(b[0], b[1] as int * 256 + b[2] as int, b[3] as int / 2 % 32, b[3] % 2 == 1, ca, ss))
  }

  /* ---- Round trip ---- */

  /** A whole descriptor: tag, length and as many octets. */
  predicate Whole(d: Octets) { |d| >= 2 && |d| == 2 + d[1] as int }
  predicate AllWhole(ds: seq<Octets>) { forall d <- ds :: Whole(d) }

  function Announced(cmd: byte, ds: seq<Octets>): CaLoop {
    CaLoop(if ds == [] then None else Some(cmd), ds)
  }

  function EntryOf(cmd: byte, s: CaStream): Entry {
    Entry(s.streamType, s.pid, Announced(cmd, s.descriptors))
  }

  function EntriesOf(cmd: byte, ss: seq<CaStream>): (r: seq<Entry>)
    ensures |r| == |ss|
  {
    seq(|ss|, i requires 0 <= i < |ss| => EntryOf(cmd, ss[i]))
  }

  /** The loop lengths fit into their twelve bits. */
  predicate Fits(ds: seq<Octets>, ss: seq<CaStream>) {
    LoopLength(ds) < 0x1000 && forall s <- ss :: LoopLength(s.descriptors) < 0x1000
  }

  predicate StreamsWhole(ss: seq<CaStream>) {
    forall s <- ss :: AllWhole(s.descriptors)
  }

  lemma {:induction false} DescriptorsReadBack(ds: seq<Octets>)
    requires AllWhole(ds)
    ensures ReadDescriptors(Flatten(ds)) == Some(ds)
  {
    if ds != [] {
      DescriptorsReadBack(ds[1..]);
      var d, rest := ds[0], Flatten(ds[1..]);
      assert d in ds;
      TakeAndDrop(d, rest);
      assert Flatten(ds) == d + rest;
      assert ds == [d] + ds[1..];
    }
  }

  lemma WholeSum(ds: seq<Octets>)
    requires AllWhole(ds)
    ensures ds == [] <==> Sum(ds) == 0
  {
    if ds != [] {
      assert ds[|ds| - 1] in ds;
    }
  }

  lemma LoopReadBack(cmd: byte, ds: seq<Octets>, rest: Octets)
    requires AllWhole(ds)
    ensures ReadLoop(LoopLength(ds), LoopOctets(cmd, LoopLength(ds), ds) + rest) == Some((Announced(cmd, ds), rest))
  {
    WholeSum(ds);
    LoopSizes(cmd, ds);
    if ds == [] {
      assert [] + rest == rest;
    } else {
      var o := LoopOctets(cmd, LoopLength(ds), ds);
      TakeAndDrop(o, rest);
      assert (o + rest)[1..|o|] == Flatten(ds);
      DescriptorsReadBack(ds);
    }
  }

  lemma NumbersReadBack(length: nat, pid: pid)
    requires length < 0x1000
    ensures TwelveBits(Nibble(length), Low(length)) == length && ThirteenBits(pid / 256 % 32, Low(pid)) == pid
  {
    hide TwelveBits, ThirteenBits, Nibble, Low;
    TwelveReadBack(length);
    ThirteenReadBack(pid);
  }

  lemma TwelveReadBack(length: nat)
    requires length < 0x1000
    ensures TwelveBits(Nibble(length), Low(length)) == length
  {
  }

  lemma ThirteenReadBack(pid: pid)
    ensures ThirteenBits(pid / 256 % 32, Low(pid)) == pid
  {
  }

  /** Splits off the five octets before a loop. */
  lemma FiveAndLoop(h: Octets, o: Octets, rest: Octets)
    requires |h| == 5
    ensures var b := (h + o) + rest; |b| >= 5 && b[..5] == h && b[5..] == o + rest
  {
  }

  lemma StreamReadBack(cmd: byte, s: CaStream, rest: Octets, more: seq<Entry>)
    requires AllWhole(s.descriptors) && s.length == LoopLength(s.descriptors) < 0x1000
    requires ReadStreams(rest) == Some(more)
    ensures ReadStreams(StreamOctets(cmd, s) + rest) == Some([EntryOf(cmd, s)] + more)
  {
    hide LoopLength, LoopOctets, ReadLoop, TwelveBits, ThirteenBits, Nibble, Low;
    var h := [s.streamType, s.pid / 256 % 32, Low(s.pid), Nibble(s.length), Low(s.length)];
    var o := LoopOctets(cmd, s.length, s.descriptors);
    var b := StreamOctets(cmd, s) + rest;
    FiveAndLoop(h, o, rest);
    assert b[0] == b[..5][0] && b[1] == b[..5][1] && b[2] == b[..5][2] && b[3] == b[..5][3] && b[4] == b[..5][4];
    NumbersReadBack(s.length, s.pid);
    LoopReadBack(cmd, s.descriptors, rest);
  }

  /** The octets of a list of streams, from the front. */
  lemma {:induction false} StreamsFromFront(cmd: byte, s: CaStream, ss: seq<CaStream>)
    ensures StreamsOctets(cmd, [s] + ss) == StreamOctets(cmd, s) + StreamsOctets(cmd, ss)
    decreases |ss|
  {
    hide StreamOctets;
    if ss == [] {
      assert [s] + ss == [s] && [s][..0] == [];
    } else {
      var init, last := ss[..|ss| - 1], ss[|ss| - 1];
      StreamsFromFront(cmd, s, init);
      assert ([s] + ss)[..|ss|] == [s] + init;
      Regroup(StreamOctets(cmd, s), StreamsOctets(cmd, init), StreamOctets(cmd, last));
    }
  }

  lemma NoStreams(cmd: byte)
    ensures StreamsOctets(cmd, []) == [] && ReadStreams([]) == Some([])
  {
  }

  lemma {:induction false} StreamsReadBack(cmd: byte, ss: seq<CaStream>)
    requires StreamsWhole(ss) && Fits([], ss)
    ensures ReadStreams(StreamsOctets(cmd, Measured(ss))) == Some(EntriesOf(cmd, ss))
  {
    hide StreamOctets, StreamsOctets, ReadStreams, LoopLength;
    if ss == [] {
      NoStreams(cmd);
    } else {
      var s, rest := Measured(ss)[0], ss[1..];
      assert ss[0] in ss;
      assert Measured(ss) == [s] + Measured(rest);
      StreamsReadBack(cmd, rest);
      StreamsFromFront(cmd, s, Measured(rest));
      StreamReadBack(cmd, s, StreamsOctets(cmd, Measured(rest)), EntriesOf(cmd, rest));
      assert EntriesOf(cmd, ss) == [EntryOf(cmd, s)] + EntriesOf(cmd, rest);
    }
  }

  /** A CA module reads the header, the streams and the descriptors that were written. */
  lemma ObjectReadBack(management: byte, cmd: byte, pmt: Pmt, ds: seq<Octets>, ss: seq<CaStream>)
    requires AllWhole(ds) && StreamsWhole(ss) && Fits(ds, ss)
    ensures Read(ObjectOctets(management, cmd, pmt, ds, Measured(ss))) ==
            Some(CaObject(management, pmt.programNumber, pmt.version, pmt.current, Announced(cmd, ds), EntriesOf(cmd, ss)))
  {
    hide LoopLength, LoopOctets, StreamsOctets, ReadLoop, ReadStreams, TwelveBits, Nibble, Low, Header;
    var h, o := Header(management, pmt, LoopLength(ds)), LoopOctets(cmd, LoopLength(ds), ds);
    var rest := StreamsOctets(cmd, Measured(ss));
    HeaderReadBack(management, pmt, LoopLength(ds));
    Regroup(h, o, rest);
    TakeAndDrop(h, o + rest);
    assert forall k :: 0 <= k < 6 ==> (h + (o + rest))[k] == h[k];
    LoopReadBack(cmd, ds, rest);
    EmptyLoop();
    StreamsReadBack(cmd, ss);
  }

  lemma HeaderReadBack(management: byte, pmt: Pmt, length: nat)
    requires length < 0x1000
    ensures var h := Header(management, pmt, length);
            && |h| == 6 && h[0] == management && h[1] as int * 256 + h[2] as int == pmt.programNumber
            && h[3] as int / 2 % 32 == pmt.version && (h[3] % 2 == 1) == pmt.current
            && TwelveBits(h[4], h[5]) == length
  {
  }

  lemma {:induction false} ReadDescriptorsSound(b: Octets, ds: seq<Octets>)
    requires ReadDescriptors(b) == Some(ds)
    ensures Flatten(ds) == b
    decreases |b|
  {
    if b != [] {
      var n := 2 + b[1] as int;
      ReadDescriptorsSound(b[n..], ds[1..]);
      assert b == b[..n] + b[n..];
    }
  }

  lemma LoopReadOnlyIfExact(cmd: byte, length: nat, b: Octets, ds: seq<Octets>, rest: Octets)
    requires AllWhole(ds) && ReadLoop(length, b) == Some((Announced(cmd, ds), rest))
    ensures length == LoopLength(ds)
  {
    if length != 0 {
      ReadDescriptorsSound(b[1..length], ds);
      FlattenSize(ds);
      WholeSum(ds);
    }
  }

  lemma TwelveBitsWrap(length: nat)
    ensures TwelveBits(Nibble(length), Low(length)) == length % 0x1000
  {
    assert length % 0x1000 == length / 256 % 16 * 256 + length % 256;
  }

  lemma {:induction false} StreamsReadOnlyIfFit(cmd: byte, ss: seq<CaStream>)
    requires StreamsWhole(ss) && ReadStreams(StreamsOctets(cmd, Measured(ss))) == Some(EntriesOf(cmd, ss))
    ensures forall s <- ss :: LoopLength(s.descriptors) < 0x1000
  {
    hide LoopLength, LoopOctets, ReadLoop, TwelveBits, ThirteenBits, Nibble, Low, StreamsOctets;
    if ss != [] {
      var s, tail := Measured(ss)[0], ss[1..];
      assert ss[0] in ss && Measured(ss) == [s] + Measured(tail);
      StreamsFromFront(cmd, s, Measured(tail));
      var h := [s.streamType, s.pid / 256 % 32, Low(s.pid), Nibble(s.length), Low(s.length)];
      var o, more := LoopOctets(cmd, s.length, s.descriptors), StreamsOctets(cmd, Measured(tail));
      var b := StreamOctets(cmd, s) + more;
      FiveAndLoop(h, o, more);
      assert b[3] == b[..5][3] && b[4] == b[..5][4];
      TwelveBitsWrap(s.length);
      var ca := ReadLoop(s.length % 0x1000, o + more).value;
      assert ca.0 == EntriesOf(cmd, ss)[0].ca;
      LoopReadOnlyIfExact(cmd, s.length % 0x1000, o + more, s.descriptors, ca.1);
      LoopReadBack(cmd, s.descriptors, more);
      assert EntriesOf(cmd, ss)[1..] == EntriesOf(cmd, tail);
      StreamsReadOnlyIfFit(cmd, tail);
    }
  }

  /** A module reads what was written exactly if every loop fits into the twelve bits of its length. */
  lemma ObjectReadBackExactly(management: byte, cmd: byte, pmt: Pmt, ds: seq<Octets>, ss: seq<CaStream>)
    requires AllWhole(ds) && StreamsWhole(ss)
    ensures Read(ObjectOctets(management, cmd, pmt, ds, Measured(ss))) ==
            Some(CaObject(management, pmt.programNumber, pmt.version, pmt.current, Announced(cmd, ds), EntriesOf(cmd, ss)))
            <==> Fits(ds, ss)
  {
    if Fits(ds, ss) {
      ObjectReadBack(management, cmd, pmt, ds, ss);
    } else if Read(ObjectOctets(management, cmd, pmt, ds, Measured(ss))) ==
              Some(CaObject(management, pmt.programNumber, pmt.version, pmt.current, Announced(cmd, ds), EntriesOf(cmd, ss))) {
      ObjectReadOnlyIfFits(management, cmd, pmt, ds, ss);
    }
  }

  lemma ObjectReadOnlyIfFits(management: byte, cmd: byte, pmt: Pmt, ds: seq<Octets>, ss: seq<CaStream>)
    requires AllWhole(ds) && StreamsWhole(ss)
    requires Read(ObjectOctets(management, cmd, pmt, ds, Measured(ss))) ==
             Some(CaObject(management, pmt.programNumber, pmt.version, pmt.current, Announced(cmd, ds), EntriesOf(cmd, ss)))
    ensures Fits(ds, ss)
  {
    hide LoopLength, LoopOctets, StreamsOctets, ReadLoop, ReadStreams, TwelveBits, Nibble, Low, EntriesOf;
    var h, o := Header(management, pmt, LoopLength(ds)), LoopOctets(cmd, LoopLength(ds), ds);
    var rest := StreamsOctets(cmd, Measured(ss));
    Regroup(h, o, rest);
    TakeAndDrop(h, o + rest);
    assert forall k :: 0 <= k < 6 ==> (h + (o + rest))[k] == h[k];
    TwelveBitsWrap(LoopLength(ds));
    var ca := ReadLoop(LoopLength(ds) % 0x1000, o + rest).value;
    LoopReadOnlyIfExact(cmd, LoopLength(ds) % 0x1000, o + rest, ds, ca.1);
    LoopReadBack(cmd, ds, rest);
    StreamsReadOnlyIfFit(cmd, ss);
  }

  /* ---- Moving the descriptors ---- */

  /** The CA descriptors that apply to a stream: its own, or else those of the programme. */
  function Effective(programme: seq<Octets>, own: seq<Octets>): seq<Octets> {
    if own == [] then programme else own
  }

  /** Moving the descriptors leaves the streams and what applies to each of them. */
  lemma MovingKeepsMeaning(ss: seq<CaStream>)
    ensures var (ds, ts) := Moved([], ss);
            |ts| == |ss| && forall i :: 0 <= i < |ss| ==>
              && ts[i].streamType == ss[i].streamType && ts[i].pid == ss[i].pid
              && Effective(ds, ts[i].descriptors) == Effective([], ss[i].descriptors)
  {
    if Alike(ss) {
      assert forall i :: 0 <= i < |ss| ==> Cleared(ss)[i].descriptors == [];
    }
  }

  lemma {:induction false} AlikeLengths(ss: seq<CaStream>, ds: seq<Octets>)
    requires forall i :: 0 <= i < |ss| ==> ss[i].descriptors == ds
    ensures ss != [] ==> StreamsLength(ss) >= StreamsLength(Cleared(ss)) + LoopLength(ds)
    ensures |ss| >= 2 && LoopLength(ds) > 0 ==> StreamsLength(ss) > StreamsLength(Cleared(ss)) + LoopLength(ds)
    ensures LoopLength(ds) == 0 ==> StreamsLength(ss) == StreamsLength(Cleared(ss))
  {
    hide LoopLength;
    EmptyLoop();
    if ss != [] {
      var n := |ss| - 1;
      assert Cleared(ss)[..n] == Cleared(ss[..n]);
      AlikeLengths(ss[..n], ds);
    }
  }

  lemma EmptyLoop()
    ensures LoopLength([]) == 0
  {
  }

  /** Some stream carries CA descriptors. */
  predicate Carries(s: CaStream) { s.descriptors != [] }

  /** The object never grows by the move, and gets shorter exactly when there are at least two streams
      that all carry the same descriptors. */
  lemma MovingShortens(ss: seq<CaStream>)
    requires StreamsWhole(ss)
    ensures var (ds, ts) := Moved([], ss);
            && TotalLength(ds, ts) <= TotalLength([], ss)
            && (TotalLength(ds, ts) < TotalLength([], ss) <==> Alike(ss) && |ss| >= 2 && Carries(ss[0]))
  {
    EmptyLoop();
    if Alike(ss) {
      AlikeLengths(ss, ss[0].descriptors);
      assert ss[0] in ss;
      WholeSum(ss[0].descriptors);
      if |ss| == 1 {
        var ts := Cleared(ss);
        assert ss[..0] == [] && ts[..0] == [];
        assert StreamsLength(ss) == 5 + LoopLength(ss[0].descriptors) && StreamsLength(ts) == 5;
      }
    }
  }

  /** The source asks for less where it says what it wants: streams without any CA descriptor stand in the way. */
  lemma BareStreamPreventsMove(ss: seq<CaStream>, i: nat, j: nat)
    requires i < |ss| && j < |ss| && Carries(ss[i]) && !Carries(ss[j])
    ensures Moved([], ss) == ([], ss)
  {
  }

  /* ---- From the programme map to the module ---- */

  lemma {:induction false} CaOfWhole(ds: seq<Descriptor>)
    ensures AllWhole(CaOf(ds))
  {
    if ds != [] {
      CaOfWhole(ds[..|ds| - 1]);
    }
  }

  lemma ListsWhole(pmt: Pmt, move: bool)
    ensures var (ds, ss) := Lists(pmt, move); AllWhole(ds) && StreamsWhole(ss)
  {
    CaOfWhole(pmt.descriptors);
    var ss := StreamsOf(pmt.streams);
    forall i | 0 <= i < |ss|
      ensures AllWhole(ss[i].descriptors)
    {
      CaOfWhole(pmt.streams[i].descriptors);
    }
  }

  /** What a module reads agrees with the programme map: the same programme, the same streams in the same order,
      and for each the CA descriptors that apply to it. */
  predicate SameMeaning(pmt: Pmt, o: CaObject) {
    && o.programNumber == pmt.programNumber && o.version == pmt.version && o.current == pmt.current
    && |o.streams| == |pmt.streams|
    && forall i :: 0 <= i < |pmt.streams| ==>
         && o.streams[i].streamType == pmt.streams[i].streamType && o.streams[i].pid == pmt.streams[i].pid
         && Effective(o.ca.descriptors, o.streams[i].ca.descriptors) ==
            Effective(CaOf(pmt.descriptors), CaOf(pmt.streams[i].descriptors))
  }

  /** The octets of a descriptor loop of the programme map. */
  function RawSize(ds: seq<Descriptor>): nat {
    if ds == [] then 0 else RawSize(ds[..|ds| - 1]) + 2 + |ds[|ds| - 1].data|
  }

  function RawStreams(ss: seq<PmtStream>): nat {
    if ss == [] then 0 else RawStreams(ss[..|ss| - 1]) + 5 + RawSize(ss[|ss| - 1].descriptors)
  }

  const SECTION_MAX := 0xfff + 3

  /** A map that `mpeg_pmt_section_codec` lets through: header, loops, streams and check are a section, and the
   *  length of a section has twelve bits. */
  predicate FromSection(pmt: Pmt) { 12 + RawSize(pmt.descriptors) + RawStreams(pmt.streams) + 4 <= SECTION_MAX }

  lemma {:induction false} CaOfSize(ds: seq<Descriptor>)
    ensures Sum(CaOf(ds)) <= RawSize(ds)
  {
    if ds != [] {
      var init, d := ds[..|ds| - 1], ds[|ds| - 1];
      CaOfSize(init);
      if d.tag == CA_TAG {
        var all := CaOf(init) + [Encoded(d)];
        assert all[..|all| - 1] == CaOf(init);
      } else {
        assert CaOf(init) + [] == CaOf(init);
      }
    }
  }

  lemma {:induction false} StreamRaw(ss: seq<PmtStream>, i: nat)
    requires i < |ss|
    ensures RawSize(ss[i].descriptors) <= RawStreams(ss)
    decreases |ss|
  {
    if i < |ss| - 1 { StreamRaw(ss[..|ss| - 1], i); }
  }

  /** Every such map fits: no loop of the object needs more than twelve bits for its length. */
  lemma SectionsFit(pmt: Pmt, move: bool)
    requires FromSection(pmt)
    ensures var (ds, ss) := Lists(pmt, move); Fits(ds, ss)
  {
    hide CaOf, RawSize, RawStreams, Sum;
    CaOfSize(pmt.descriptors);
    EmptyLoop();
    var ss := StreamsOf(pmt.streams);
    forall i | 0 <= i < |ss|
      ensures LoopLength(ss[i].descriptors) < 0x1000
    {
      StreamRaw(pmt.streams, i);
      CaOfSize(pmt.streams[i].descriptors);
    }
  }

  /** Whether or not descriptors are moved, the module learns what the programme map says. */
  lemma FormattedMeansPmt(management: byte, cmd: byte, pmt: Pmt, move: bool)
    requires FromSection(pmt)
    ensures var r := Read(Formatted(management, cmd, pmt, move));
            r.Some? && r.value.management == management && SameMeaning(pmt, r.value)
  {
    hide ObjectOctets, Read, Measured, Fits, CaOf, Moved, FromSection;
    var (ds, ss) := Lists(pmt, move);
    SectionsFit(pmt, move);
    ListsWhole(pmt, move);
    ObjectReadBack(management, cmd, pmt, ds, ss);
    MovingKeepsMeaning(StreamsOf(pmt.streams));
  }
}
