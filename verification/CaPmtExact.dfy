/** The CA_PMT object of a programme map, down to its octets: which descriptors stand where, and when moving them saves
 *  room. */
module CaPmtExact {
  import opened Common
  import opened CaPmt
  import opened CaPmtMeaning

  /* ---- CA descriptors ---- */

  /** A CA descriptor is one with tag 9, and is passed on with its tag and its length octet. */
  lemma CaDescriptorKept(d: Descriptor)
    ensures CaOf([d]) == if d.tag == 9 then [[9, |d.data|] + d.data] else []
  {
    assert [d][..0] == [] && CaOf([]) == [];
  }

  /** Those of a loop are passed on in order, wherever they stand between others. */
  lemma {:induction false} CaDescriptorsInOrder(ds: seq<Descriptor>, es: seq<Descriptor>)
    ensures CaOf(ds + es) == CaOf(ds) + CaOf(es)
    decreases |es|
  {
    if es == [] {
      assert ds + es == ds && CaOf(ds) + [] == CaOf(ds);
    } else {
      var init, d := es[..|es| - 1], es[|es| - 1];
      assert (ds + es)[..|ds + es| - 1] == ds + init;
      CaDescriptorsInOrder(ds, init);
      Regroup(CaOf(ds), CaOf(init), if d.tag == CA_TAG then [Encoded(d)] else []);
    }
  }

  /* ---- The object ---- */

  /** The descriptors of the first stream are those of the programme, too: they are wanted there, it has none of its own,
   *  and all streams, at least one, have the same. */
  predicate Shared(pmt: Pmt, move: bool) {
    && move && CaOf(pmt.descriptors) == [] && pmt.streams != []
    && forall i :: 0 <= i < |pmt.streams| ==> CaOf(pmt.streams[i].descriptors) == CaOf(pmt.streams[0].descriptors)
  }

  /** What a reader finds for a stream of the map. */
  function EntryFor(cmd: byte, s: PmtStream, ds: seq<Octets>): Entry { Entry(s.streamType, s.pid, Announced(cmd, ds)) }

  /** What a reader finds in the object of a map that came in a section: with move set and no CA descriptors of the
   *  programme, they stand at programme level and in no stream exactly when all streams have the same; in every other
   *  case every loop holds just those of its loop in the map. */
  lemma FormattedExactly(management: byte, cmd: byte, pmt: Pmt, move: bool)
    requires FromSection(pmt)
    ensures var r := Read(Formatted(management, cmd, pmt, move));
      && r.Some? && r.value.management == management && r.value.programNumber == pmt.programNumber
      && r.value.version == pmt.version && r.value.current == pmt.current && |r.value.streams| == |pmt.streams|
      && r.value.ca == Announced(cmd, if Shared(pmt, move) then CaOf(pmt.streams[0].descriptors) else CaOf(pmt.descriptors))
      && forall i :: 0 <= i < |pmt.streams| ==>
           r.value.streams[i] ==
             EntryFor(cmd, pmt.streams[i], if Shared(pmt, move) then [] else CaOf(pmt.streams[i].descriptors))
  {
    hide ObjectOctets, Read, Measured, Fits, CaOf, FromSection;
    var (ds, ss) := Lists(pmt, move);
    SectionsFit(pmt, move);
    ListsWhole(pmt, move);
    ObjectReadBack(management, cmd, pmt, ds, ss);
    SharedIsAlike(pmt, move);
  }

  lemma SharedIsAlike(pmt: Pmt, move: bool)
    ensures Shared(pmt, move) <==> move && CaOf(pmt.descriptors) == [] && Alike(StreamsOf(pmt.streams))
  {
    hide CaOf;
    var ss := StreamsOf(pmt.streams);
    if Alike(ss) {
      forall i | 0 <= i < |pmt.streams| ensures CaOf(pmt.streams[i].descriptors) == CaOf(pmt.streams[0].descriptors) {
        assert ss[i].descriptors == ss[0].descriptors;
      }
    }
  }

  /** The object with move set is never longer, and is shorter exactly when there are no CA descriptors of the programme
   *  and at least two streams, which all have the same, at least one. */
  lemma MovingSavesExactly(management: byte, cmd: byte, pmt: Pmt)
    ensures var m, n := |Formatted(management, cmd, pmt, true)|, |Formatted(management, cmd, pmt, false)|;
      && m <= n
      && (m < n <==> Shared(pmt, true) && |pmt.streams| >= 2 && CaOf(pmt.streams[0].descriptors) != [])
  {
    hide ObjectOctets, Measured, CaOf, TotalLength;
    var (ds, ss) := Lists(pmt, true);
    var (es, ts) := Lists(pmt, false);
    LengthExact(management, cmd, pmt, ds, ss);
    LengthExact(management, cmd, pmt, es, ts);
    ListsWhole(pmt, false);
    MovingShortens(StreamsOf(pmt.streams));
    SharedIsAlike(pmt, true);
  }

  /* ---- Bits that mean nothing ---- */

  /** The reserved bits of every stream are clear. */
  predicate StreamsClear(b: Octets) {
    b == []
    || (|b| >= 5 && b[1] < 32 && b[3] < 16
        && var r := ReadLoop(TwelveBits(b[3], b[4]), b[5..]); r.Some? && StreamsClear(r.value.1))
  }

  lemma StreamClear(cmd: byte, s: CaStream, rest: Octets)
    requires AllWhole(s.descriptors) && s.length == LoopLength(s.descriptors) < 0x1000 && StreamsClear(rest)
    ensures StreamsClear(StreamOctets(cmd, s) + rest)
  {
    hide LoopLength, LoopOctets, ReadLoop, TwelveBits;
    var h := [s.streamType, s.pid / 256 % 32, Low(s.pid), Nibble(s.length), Low(s.length)];
    var o := LoopOctets(cmd, s.length, s.descriptors);
    var b := StreamOctets(cmd, s) + rest;
    FiveAndLoop(h, o, rest);
    assert b[1] == b[..5][1] && b[3] == b[..5][3] && b[4] == b[..5][4];
    TwelveReadBack(s.length);
    LoopReadBack(cmd, s.descriptors, rest);
  }

  lemma {:induction false} AllStreamsClear(cmd: byte, ss: seq<CaStream>)
    requires StreamsWhole(ss) && Fits([], ss)
    ensures StreamsClear(StreamsOctets(cmd, Measured(ss)))
  {
    hide StreamOctets, StreamsOctets, StreamsClear, LoopLength;
    if ss == [] {
      NoStreams(cmd);
      assert StreamsClear([]) by { NothingClear(); }
    } else {
      var s, rest := Measured(ss)[0], ss[1..];
      assert ss[0] in ss;
      assert Measured(ss) == [s] + Measured(rest);
      AllStreamsClear(cmd, rest);
      StreamsFromFront(cmd, s, Measured(rest));
      StreamClear(cmd, s, StreamsOctets(cmd, Measured(rest)));
    }
  }

  lemma NothingClear()
    ensures StreamsClear([])
  {
  }

  /** In front stand six octets: the list management, the programme, the version and the current bit, and the length of
   *  the loop; all reserved bits are clear. */
  lemma HeaderExactly(management: byte, cmd: byte, pmt: Pmt, move: bool)
    requires FromSection(pmt)
    ensures var o := Formatted(management, cmd, pmt, move);
      && |o| >= 6
      && o[..4] == [management, pmt.programNumber / 256, pmt.programNumber % 256, pmt.version * 2 + if pmt.current then 1 else 0]
      && o[4] < 16
      && var r := ReadLoop(TwelveBits(o[4], o[5]), o[6..]); r.Some? && StreamsClear(r.value.1)
  {
    var (ds, ss) := Lists(pmt, move);
    SectionsFit(pmt, move);
    ListsWhole(pmt, move);
    hide LoopLength, LoopOctets, StreamsOctets, ReadLoop, StreamsClear, TwelveBits, CaOf, FromSection, Lists;
    var h, l := Header(management, pmt, LoopLength(ds)), LoopOctets(cmd, LoopLength(ds), ds);
    var rest := StreamsOctets(cmd, Measured(ss));
    EmptyLoop();
    TwelveReadBack(LoopLength(ds));
    LoopReadBack(cmd, ds, rest);
    AllStreamsClear(cmd, ss);
    Regroup(h, l, rest);
    TakeAndDrop(h, l + rest);
    assert forall k :: 0 <= k < 6 ==> (h + (l + rest))[k] == h[k];
  }
}
