/** The CA_PMT object made out of a programme map (en50221_app_ca.c), section 8.4.3.4 of EN 50221. */
module CaPmt {
  import opened Common

  const CA_TAG: byte := 0x09

  /* ---- The programme map, and the lists made of it ---- */

  /** A descriptor of the programme map. */
  datatype RawDescriptor = Descriptor(tag: byte, data: seq<byte>) {
    predicate Valid() { |data| < 256 }
  }
  type Descriptor = d: RawDescriptor | d.Valid() witness Descriptor(0, [])

  type pid = x: int | 0 <= x < 0x2000
  type version = x: int | 0 <= x < 32
  type word = x: int | 0 <= x < 0x1_0000

  datatype PmtStream = PmtStream(streamType: byte, pid: pid, descriptors: seq<Descriptor>)
  datatype Pmt = Pmt(programNumber: word, version: version, current: bool,
                     descriptors: seq<Descriptor>, streams: seq<PmtStream>)

  /** The octets of a whole descriptor. */
  type Octets = seq<byte>

  /** `ca_pmt_stream` */
  datatype CaStream = CaStream(streamType: byte, pid: pid, descriptors: seq<Octets>, count: nat, length: nat)

  function Encoded(d: Descriptor): (r: Octets)
  {
    [d.tag, |d.data|] + d.data
  }

  /** The CA descriptors of a loop, in order. */
  function CaOf(ds: seq<Descriptor>): (r: seq<Octets>) {
    if ds == [] then []
    else
      var d := ds[|ds| - 1];
      CaOf(ds[..|ds| - 1]) + if d.tag == CA_TAG then [Encoded(d)] else []
  }

  function StreamOf(s: PmtStream): CaStream {
    CaStream(s.streamType, s.pid, CaOf(s.descriptors), |CaOf(s.descriptors)|, 0)
  }

  function StreamsOf(ss: seq<PmtStream>): (r: seq<CaStream>)
    ensures |r| == |ss|
  {
    seq(|ss|, i requires 0 <= i < |ss| => StreamOf(ss[i]))
  }

  /** All streams have the same descriptors. */
  predicate Alike(ss: seq<CaStream>) {
    ss != [] && forall i :: 0 <= i < |ss| ==> ss[i].descriptors == ss[0].descriptors
  }

  function Cleared(ss: seq<CaStream>): (r: seq<CaStream>)
    ensures |r| == |ss|
  {
    seq(|ss|, i requires 0 <= i < |ss| => ss[i].(descriptors := [], count := 0))
  }

  /** `en50221_ca_try_move_pmt_descriptors` */
  function Moved(ds: seq<Octets>, ss: seq<CaStream>): (seq<Octets>, seq<CaStream>) {
    if Alike(ss) then (ss[0].descriptors, Cleared(ss)) else (ds, ss)
  }

  /* ---- Lengths ---- */

  function Sum(ds: seq<Octets>): nat {
    if ds == [] then 0 else Sum(ds[..|ds| - 1]) + |ds[|ds| - 1]|
  }

  /** A descriptor loop with the command identifier before it. */
  function LoopLength(ds: seq<Octets>): nat {
    if Sum(ds) == 0 then 0 else Sum(ds) + 1
  }

  function StreamsLength(ss: seq<CaStream>): nat {
    if ss == [] then 0 else StreamsLength(ss[..|ss| - 1]) + 5 + LoopLength(ss[|ss| - 1].descriptors)
  }

  function TotalLength(ds: seq<Octets>, ss: seq<CaStream>): nat {
    6 + LoopLength(ds) + StreamsLength(ss)
  }

  function Measured(ss: seq<CaStream>): (r: seq<CaStream>)
    ensures |r| == |ss|
  {
    seq(|ss|, i requires 0 <= i < |ss| => ss[i].(length := LoopLength(ss[i].descriptors)))
  }

  /* ---- The object ---- */

  function Low(x: nat): byte { x % 256 }
  function Nibble(x: nat): byte { x / 256 % 16 }

  function LoopOctets(cmd: byte, length: nat, ds: seq<Octets>): Octets {
    if length == 0 then [] else [cmd] + Flatten(ds)
  }

  function StreamOctets(cmd: byte, s: CaStream): Octets {
    [s.streamType, s.pid / 256 % 32, Low(s.pid), Nibble(s.length), Low(s.length)] + LoopOctets(cmd, s.length, s.descriptors)
  }

  function StreamsOctets(cmd: byte, ss: seq<CaStream>): Octets {
    if ss == [] then [] else StreamsOctets(cmd, ss[..|ss| - 1]) + StreamOctets(cmd, ss[|ss| - 1])
  }

  function Header(management: byte, pmt: Pmt, length: nat): Octets {
    [management, pmt.programNumber / 256, Low(pmt.programNumber),
     pmt.version * 2 + (if pmt.current then 1 else 0), Nibble(length), Low(length)]
  }

  function ObjectOctets(management: byte, cmd: byte, pmt: Pmt, ds: seq<Octets>, ss: seq<CaStream>): Octets {
    Header(management, pmt, LoopLength(ds)) + LoopOctets(cmd, LoopLength(ds), ds) + StreamsOctets(cmd, ss)
  }

  /** The lists `en50221_ca_format_pmt` sends. */
  function Lists(pmt: Pmt, move: bool): (seq<Octets>, seq<CaStream>) {
    var ds, ss := CaOf(pmt.descriptors), StreamsOf(pmt.streams);
    if ds == [] && move then Moved(ds, ss) else (ds, ss)
  }

  /** `en50221_ca_format_pmt` with a buffer large enough. */
  function Formatted(management: byte, cmd: byte, pmt: Pmt, move: bool): Octets {
    var (ds, ss) := Lists(pmt, move);
    ObjectOctets(management, cmd, pmt, ds, Measured(ss))
  }

  /* ---- The code ---- */

  /** `en50221_ca_extract_pmt_descriptors` */
  method ExtractDescriptors(ds: seq<Descriptor>) returns (out: seq<Octets>)
    ensures out == CaOf(ds)
  {
    out := [];
    for i := 0 to |ds|
      invariant out == CaOf(ds[..i])
    {
      if ds[i].tag == CA_TAG {
        out := out + [Encoded(ds[i])];
      }
      assert ds[..i + 1][..i] == ds[..i];
    }
    assert ds[..|ds|] == ds;
  }

  /** `en50221_ca_extract_streams` */
  method ExtractStreams(streams: seq<PmtStream>) returns (out: seq<CaStream>)
    ensures out == StreamsOf(streams)
  {
    out := [];
    for i := 0 to |streams|
      invariant |out| == i && forall k :: 0 <= k < i ==> out[k] == StreamOf(streams[k])
    {
      var cur := streams[i];
      var made := CaStream(cur.streamType, cur.pid, [], 0, 0);
      for j := 0 to |cur.descriptors|
        invariant made == CaStream(cur.streamType, cur.pid, CaOf(cur.descriptors[..j]), |CaOf(cur.descriptors[..j])|, 0)
      {
        var d := cur.descriptors[j];
        if d.tag == CA_TAG {
          made := made.(descriptors := made.descriptors + [Encoded(d)], count := made.count + 1);
        }
        assert cur.descriptors[..j + 1][..j] == cur.descriptors[..j];
      }
      assert cur.descriptors[..|cur.descriptors|] == cur.descriptors;
      out := out + [made];
    }
  }

  /** Every stream knows how many descriptors it has. */
  predicate Counted(ss: seq<CaStream>) {
    forall s <- ss :: s.count == |s.descriptors|
  }

  /** `en50221_ca_try_move_pmt_descriptors` */
  method TryMove(ds: seq<Octets>, ss: seq<CaStream>) returns (pmt: seq<Octets>, streams: seq<CaStream>)
    requires Counted(ss)
    ensures pmt == Moved(ds, ss).0 && streams == Moved(ds, ss).1
  {
    pmt, streams := ds, ss;
    if ss == [] {
      return;
    }
    var first := ss[0];
    for i := 1 to |ss|
      invariant forall k :: 0 <= k < i ==> ss[k].descriptors == first.descriptors
    {
      assert ss[i] in ss && ss[0] in ss;
      if ss[i].count != first.count {
        return;
      }
      for j := 0 to |ss[i].descriptors|
        invariant ss[i].descriptors[..j] == first.descriptors[..j]
      {
        if ss[i].descriptors[j] != first.descriptors[j] {
          return;
        }
      }
    }
    pmt := first.descriptors;
    for i := 0 to |ss|
      invariant |streams| == |ss| && forall k :: i <= k < |ss| ==> streams[k] == ss[k]
      invariant forall k :: 0 <= k < i ==> streams[k] == Cleared(ss)[k]
    {
      streams := streams[i := streams[i].(descriptors := [], count := 0)];
    }
  }

  method LoopSize(ds: seq<Octets>) returns (length: nat)
    ensures length == LoopLength(ds)
  {
    length := 0;
    for i := 0 to |ds|
      invariant length == Sum(ds[..i])
    {
      length := length + |ds[i]|;
      assert ds[..i + 1][..i] == ds[..i];
    }
    assert ds[..|ds|] == ds;
    if length != 0 {
      length := length + 1;
    }
  }

  /** `en50221_ca_calculate_length` */
  method CalculateLength(ds: seq<Octets>, ss: seq<CaStream>)
    returns (total: nat, length: nat, streams: seq<CaStream>)
    ensures length == LoopLength(ds) && total == TotalLength(ds, ss) && streams == Measured(ss)
  {
    total := 6;
    length := LoopSize(ds);
    total := total + length;
    streams := ss;
    for i := 0 to |ss|
      invariant |streams| == |ss| && forall k :: i <= k < |ss| ==> streams[k] == ss[k]
      invariant forall k :: 0 <= k < i ==> streams[k] == Measured(ss)[k]
      invariant total == 6 + LoopLength(ds) + StreamsLength(ss[..i])
    {
      var size := LoopSize(ss[i].descriptors);
      streams := streams[i := streams[i].(length := size)];
      total := total + (5 + size);
      assert ss[..i + 1][..i] == ss[..i];
    }
    assert ss[..|ss|] == ss;
  }

  /** Writes octets at a position, as the assignments with `data_pos++` and `memcpy` do. */
  method Write(data: array<byte>, pos: nat, b: Octets) returns (next: nat)
    requires pos + |b| <= data.Length
    modifies data
    ensures next == pos + |b|
    ensures data[..next] == old(data[..pos]) + b && data[next..] == old(data[next..])
  {
    for i := 0 to |b|
      invariant data[..pos] == old(data[..pos]) && data[pos..pos + i] == b[..i]
      invariant data[pos + i..] == old(data[pos + i..])
    {
      data[pos + i] := b[i];
    }
    next := pos + |b|;
  }

  method WriteLoop(data: array<byte>, pos: nat, cmd: byte, length: nat, ds: seq<Octets>) returns (next: nat)
    requires length == LoopLength(ds) && pos + length <= data.Length
    modifies data
    ensures next == pos + length
    ensures data[..next] == old(data[..pos]) + LoopOctets(cmd, length, ds) && data[next..] == old(data[next..])
  {
    LoopSizes(cmd, ds);
    next := pos;
    if length != 0 {
      next := Write(data, next, [cmd]);
      for i := 0 to |ds|
        invariant next == pos + 1 + Sum(ds[..i]) <= pos + length
        invariant data[..next] == old(data[..pos]) + ([cmd] + Flatten(ds[..i])) && data[next..] == old(data[next..])
      {
        SumMonotone(ds, i + 1);
        FlattenSnoc(ds, i);
        Regroup(old(data[..pos]), [cmd] + Flatten(ds[..i]), ds[i]);
        Regroup([cmd], Flatten(ds[..i]), ds[i]);
        next := Write(data, next, ds[i]);
      }
      assert ds[..|ds|] == ds;
    }
  }

  /** What is written has the size that was worked out. */
  lemma {:induction false} FlattenSize(ds: seq<Octets>)
    ensures |Flatten(ds)| == Sum(ds)
  {
    if ds != [] {
      assert ds[..|ds| - 1 + 1] == ds;
      FlattenSnoc(ds, |ds| - 1);
      FlattenSize(ds[..|ds| - 1]);
    }
  }

  lemma FlattenSnoc(ds: seq<Octets>, i: nat)
    requires i < |ds|
    ensures Flatten(ds[..i + 1]) == Flatten(ds[..i]) + ds[i]
    ensures Sum(ds[..i + 1]) == Sum(ds[..i]) + |ds[i]|
  {
    assert ds[..i + 1] == ds[..i] + [ds[i]] && ds[..i + 1][..i] == ds[..i];
    FlattenAppend(ds[..i], [ds[i]]);
    assert Flatten([ds[i]]) == ds[i];
  }

  lemma LoopSizes(cmd: byte, ds: seq<Octets>)
    ensures |LoopOctets(cmd, LoopLength(ds), ds)| == LoopLength(ds)
  {
    FlattenSize(ds);
  }

  lemma {:induction false} SumMonotone(ds: seq<Octets>, i: nat)
    requires i <= |ds|
    ensures Sum(ds[..i]) <= Sum(ds)
    decreases |ds|
  {
    if i < |ds| {
      SumMonotone(ds[..|ds| - 1], i);
      assert ds[..|ds| - 1][..i] == ds[..i];
    } else {
      assert ds[..i] == ds;
    }
  }

  lemma StreamSize(cmd: byte, s: CaStream)
    requires s.length == LoopLength(s.descriptors)
    ensures |StreamOctets(cmd, s)| == 5 + s.length
  {
    LoopSizes(cmd, s.descriptors);
  }

  lemma {:induction false} StreamsSize(cmd: byte, ss: seq<CaStream>)
    ensures |StreamsOctets(cmd, Measured(ss))| == StreamsLength(ss)
  {
    if ss != [] {
      var m := Measured(ss);
      StreamsSize(cmd, ss[..|ss| - 1]);
      assert m[..|m| - 1] == Measured(ss[..|ss| - 1]);
      StreamSize(cmd, m[|m| - 1]);
    }
  }

  /** The length worked out before is the number of octets of the object. */
  lemma LengthExact(management: byte, cmd: byte, pmt: Pmt, ds: seq<Octets>, ss: seq<CaStream>)
    ensures |ObjectOctets(management, cmd, pmt, ds, Measured(ss))| == TotalLength(ds, ss)
  {
    LoopSizes(cmd, ds);
    StreamsSize(cmd, ss);
  }

  lemma {:induction false} StreamsLengthMonotone(ss: seq<CaStream>, i: nat)
    requires i <= |ss|
    ensures StreamsLength(ss[..i]) <= StreamsLength(ss)
    decreases |ss|
  {
    if i < |ss| {
      StreamsLengthMonotone(ss[..|ss| - 1], i);
      assert ss[..|ss| - 1][..i] == ss[..i];
    } else {
      assert ss[..i] == ss;
    }
  }

  method WriteStream(data: array<byte>, pos: nat, cmd: byte, s: CaStream) returns (next: nat)
    requires s.length == LoopLength(s.descriptors) && pos + 5 + s.length <= data.Length
    modifies data
    ensures next == pos + 5 + s.length
    ensures data[..next] == old(data[..pos]) + StreamOctets(cmd, s) && data[next..] == old(data[next..])
  {
    StreamSize(cmd, s);
    next := Write(data, pos, [s.streamType, s.pid / 256 % 32, Low(s.pid), Nibble(s.length), Low(s.length)]);
    next := WriteLoop(data, next, cmd, s.length, s.descriptors);
    assert data[..next] == old(data[..pos]) + StreamOctets(cmd, s);
  }

  /** The loop over the streams. */
  method WriteStreams(data: array<byte>, pos: nat, cmd: byte, ghost ss: seq<CaStream>, ms: seq<CaStream>) returns (next: nat)
    requires ms == Measured(ss) && pos + StreamsLength(ss) <= data.Length
    modifies data
    ensures next == pos + StreamsLength(ss)
    ensures data[..next] == old(data[..pos]) + StreamsOctets(cmd, ms) && data[next..] == old(data[next..])
  {
    hide StreamOctets, LoopLength;
    next := pos;
    for i := 0 to |ms|
      invariant next == pos + StreamsLength(ss[..i]) <= data.Length
      invariant data[..next] == old(data[..pos]) + StreamsOctets(cmd, ms[..i]) && data[next..] == old(data[next..])
    {
      assert ss[..i + 1][..i] == ss[..i] && ms[..i + 1][..i] == ms[..i];
      StreamsLengthMonotone(ss, i + 1);
      Regroup(old(data[..pos]), StreamsOctets(cmd, ms[..i]), StreamOctets(cmd, ms[i]));
      next := WriteStream(data, next, cmd, ms[i]);
    }
    assert ss[..|ss|] == ss && ms[..|ms|] == ms;
  }

  lemma ExtractedCounted(streams: seq<PmtStream>)
    ensures Counted(StreamsOf(streams))
  {
  }

  lemma HeaderSizes(management: byte, cmd: byte, pmt: Pmt, ds: seq<Octets>, ss: seq<CaStream>)
    ensures |Header(management, pmt, LoopLength(ds))| == 6
    ensures TotalLength(ds, ss) == 6 + LoopLength(ds) + StreamsLength(ss)
  {
  }

  /** `en50221_ca_format_pmt`: the size of the object, or -1 when the buffer is too small for it;
      nothing behind the object is touched. */
  method FormatPmt(pmt: Pmt, data: array<byte>, dataLength: nat, move: bool, management: byte, cmd: byte) returns (result: int)
    requires dataLength <= data.Length
    modifies data
    ensures var o := Formatted(management, cmd, pmt, move);
            if |o| <= dataLength then result == |o| && data[..|o|] == o && data[|o|..] == old(data[|o|..])
            else result == -1 && data[..] == old(data[..])
  {
    hide Header, LoopOctets, StreamsOctets, CaOf, StreamsOf, Moved, LoopLength, StreamsLength, Measured;
    var ds := ExtractDescriptors(pmt.descriptors);
    var ss := ExtractStreams(pmt.streams);
    ExtractedCounted(pmt.streams);
    if ds == [] && move {
      ds, ss := TryMove(ds, ss);
    }
    var total, length, ms := CalculateLength(ds, ss);
    LengthExact(management, cmd, pmt, ds, ss);
    if total > dataLength {
      return -1;
    }
    HeaderSizes(management, cmd, pmt, ds, ss);
    ghost var before := data[..];
    var pos := Write(data, 0, Header(management, pmt, length));
    SameTails(data[..], before, pos, total);
    pos := WriteLoop(data, pos, cmd, length, ds);
    SameTails(data[..], before, pos, total);
    pos := WriteStreams(data, pos, cmd, ss, ms);
    result := pos;
  }
}
