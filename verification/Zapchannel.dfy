/** The zap channel file (dvbcfg_zapchannel.c). */
module Zapchannel {
  import opened CfgText

  /* ---- Settings ---- */

  const INVERSION_AUTO := 2
  const FEC_AUTO := 9

  const INVERSIONS := Entry("INVERSION_ON", 1, Entry("INVERSION_OFF", 0, Entry("INVERSION_AUTO", INVERSION_AUTO, End)))

  const FECS :=
    Entry("FEC_1_2", 1, Entry("FEC_2_3", 2, Entry("FEC_3_4", 3, Entry("FEC_4_5", 4, Entry("FEC_5_6", 5,
    Entry("FEC_6_7", 6, Entry("FEC_7_8", 7, Entry("FEC_8_9", 8, Entry("FEC_AUTO", FEC_AUTO, Entry("FEC_NONE", 0, End))))))))))

  const DVBC_MODULATIONS :=
    Entry("QAM_16", 0, Entry("QAM_32", 1, Entry("QAM_64", 2, Entry("QAM_128", 3, Entry("QAM_256", 4, Entry("QAM_AUTO", 5, End))))))

  const BANDWIDTHS :=
    Entry("BANDWIDTH_6_MHZ", 2, Entry("BANDWIDTH_7_MHZ", 1, Entry("BANDWIDTH_8_MHZ", 0, Entry("BANDWIDTH_AUTO", 3, End))))

  const CONSTELLATIONS :=
    Entry("QAM_16", 1, Entry("QAM_32", 2, Entry("QAM_64", 3, Entry("QAM_128", 4, Entry("QAM_256", 5, Entry("QPSK", 0,
    Entry("QAM_AUTO", 6, End)))))))

  const TRANSMISSION_MODES :=
    Entry("TRANSMISSION_MODE_2K", 0, Entry("TRANSMISSION_MODE_8K", 1, Entry("TRANSMISSION_MODE_AUTO", 2, End)))

  const GUARD_INTERVALS :=
    Entry("GUARD_INTERVAL_1_32", 0, Entry("GUARD_INTERVAL_1_16", 1, Entry("GUARD_INTERVAL_1_8", 2,
    Entry("GUARD_INTERVAL_1_4", 3, Entry("GUARD_INTERVAL_AUTO", 4, End)))))

  const HIERARCHIES :=
    Entry("HIERARCHY_1", 1, Entry("HIERARCHY_2", 2, Entry("HIERARCHY_4", 3, Entry("HIERARCHY_AUTO", 4, Entry("HIERARCHY_NONE", 0, End)))))

  const ATSC_MODULATIONS :=
    Entry("8VSB", 2, Entry("16VSB", 3, Entry("QAM_64", 0, Entry("QAM_256", 1, End))))

  /* ---- Channels ---- */

  datatype Tuning =
    | Atsc(modulation: nat)
    | Dvbc(symbolRate: UInt32, fec: nat, modulation: nat)
    | Dvbs(polarization: char, diseqcSwitch: Int32, symbolRate: UInt32, fec: nat)
    | Dvbt(bandwidth: nat, highFec: nat, lowFec: nat, constellation: nat, mode: nat, guard: nat, hierarchy: nat)

  /** `dvbcfg_zapchannel`, with what its frontend type makes use of. */
  datatype Channel = Channel(name: string, frequency: UInt32, inversion: nat, tuning: Tuning,
                             videoPid: Int32, audioPid: Int32, serviceId: Int32)

  /* ---- Saving ---- */

  /** What `%s` prints for a setting; a null pointer shows as `(null)`. */
  function Shown(setting: nat, t: Table): string {
    match NameOf(setting, t)
    case None => "(null)"
    case Some(n) => n
  }

  function ToLower(c: char): char {
    if 'A' <= c <= 'Z' then (c as int - 'A' as int + 'a' as int) as char else c
  }

  function Pids(c: Channel): string {
    Field(IntText(c.videoPid), Field(IntText(c.audioPid), IntText(c.serviceId)))
  }

  /** What stands behind the frequency. */
  function Settings(c: Channel): string {
    match c.tuning
    case Atsc(modulation) => Field(Shown(modulation, ATSC_MODULATIONS), Pids(c))
    case Dvbc(rate, fec, modulation) =>
      Field(Shown(c.inversion, INVERSIONS), Field(IntText(Signed(rate)), Field(Shown(fec, FECS),
      Field(Shown(modulation, DVBC_MODULATIONS), Pids(c)))))
    case Dvbs(polarization, switch, rate, _) =>
      Field([ToLower(polarization)], Field(IntText(switch), Field(IntText(rate / 1000), Pids(c))))
    case Dvbt(bandwidth, high, low, constellation, mode, guard, hierarchy) =>
      Field(Shown(c.inversion, INVERSIONS), Field(Shown(bandwidth, BANDWIDTHS), Field(Shown(high, FECS),
      Field(Shown(low, FECS), Field(Shown(constellation, CONSTELLATIONS), Field(Shown(mode, TRANSMISSION_MODES),
      Field(Shown(guard, GUARD_INTERVALS), Field(Shown(hierarchy, HIERARCHIES), Pids(c)))))))))
  }

  function ShownFrequency(c: Channel): Int32 {
    if c.tuning.Dvbs? then c.frequency / 1000 else Signed(c.frequency)
  }

  /** One line of the file, without its end. */
  function LineOf(c: Channel): string {
    Field(c.name, Field(IntText(ShownFrequency(c)), Settings(c)))
  }

  function Saved(cs: seq<Channel>): string {
    if cs == [] then "" else Saved(cs[..|cs| - 1]) + LineOf(cs[|cs| - 1]) + "\n"
  }

  /** `dvbcfg_zapchannel_save`, for a callback that supplies `cs` and then ends with `last`. */
  method Save(cs: seq<Channel>, last: int) returns (ret: int, file: string)
    requires last != 0
    ensures file == Saved(cs) && ret == if last < 0 then 0 else last
  {
    hide LineOf;
    file := "";
    for i := 0 to |cs|
      invariant file == Saved(cs[..i])
    {
      file := file + LineOf(cs[i]) + "\n";
      assert cs[..i + 1][..i] == cs[..i];
    }
    assert cs[..|cs|] == cs;
    ret := if last < 0 then 0 else last;
  }

  /* ---- Parsing ---- */

  predicate At(text: string, w: string, k: nat) { k + |w| <= |text| && text[k..k + |w|] == w }

  /** `strstr` */
  predicate Contains(text: string, w: string) {
    exists k :: 0 <= k <= |text| && At(text, w, k)
  }

  datatype FrontendType = DvbS | DvbC | DvbT | AtscType

  /** The frontend type guessed from what stands behind the frequency. */
  function Guess(text: string): FrontendType {
    if Contains(text, ":FEC_") then
      if Contains(text, ":HIERARCHY_") then DvbT else DvbC
    else if Contains(text, "VSB:") || Contains(text, "QAM_") then AtscType
    else DvbS
  }

  /** The frontend specific fields: frequency, inversion and tuning. */
  function ParseTuning(kind: FrontendType, frequency: UInt32, text: string): Parsed<(UInt32, nat, Tuning)> {
    match kind
    case AtscType =>
      var (modulation, text) :- ParseSetting(text, ATSC_MODULATIONS);
      Parsed((frequency, INVERSION_AUTO, Atsc(modulation)), text)
    case DvbC =>
      var (inversion, text) :- ParseSetting(text, INVERSIONS);
      var (rate, text) :- ParseInt(text);
      var (fec, text) :- ParseSetting(text, FECS);
      var (modulation, text) :- ParseSetting(text, DVBC_MODULATIONS);
      Parsed((frequency, inversion, Dvbc(Unsigned(rate), fec, modulation)), text)
    case DvbS =>
      var (c, text) :- ParseChar(text);
      var polarization := ToLower(c);
      if polarization !in "hvlr" then Failed
      else
        var (switch, text) :- ParseInt(text);
        var (rate, text) :- ParseInt(text);
        Parsed((Unsigned(frequency * 1000), INVERSION_AUTO, Dvbs(polarization, switch, Unsigned(rate * 1000), FEC_AUTO)), text)
    case DvbT =>
      var (inversion, text) :- ParseSetting(text, INVERSIONS);
      var (bandwidth, text) :- ParseSetting(text, BANDWIDTHS);
      var (high, text) :- ParseSetting(text, FECS);
      var (low, text) :- ParseSetting(text, FECS);
      var (constellation, text) :- ParseSetting(text, CONSTELLATIONS);
      var (mode, text) :- ParseSetting(text, TRANSMISSION_MODES);
      var (guard, text) :- ParseSetting(text, GUARD_INTERVALS);
      var (hierarchy, text) :- ParseSetting(text, HIERARCHIES);
      Parsed((frequency, inversion, Dvbt(bandwidth, high, low, constellation, mode, guard, hierarchy)), text)
  }

  /** Everything behind the name. */
  function ParseRest(name: string, text: string): Found<Channel> {
    match ParseInt(text)
    case Failed => None
    case Parsed(value, text) =>
      match ParseTuning(Guess(text), Unsigned(value), text)
      case Failed => None
      case Parsed((frequency, inversion, tuning), text) =>
        match ParseInt(text)
        case Failed => None
        case Parsed(video, text) =>
          match ParseInt(text)
          case Failed => None
          case Parsed(audio, text) =>
            var service := match ParseInt(text) case Failed => 0 case Parsed(v, _) => v;
            Some(Channel(name, frequency, inversion, tuning, video, audio, service))
  }

  /** The line up to a comment or its end. */
  function Body(line: string): string {
    if line == "" || line[0] == '\n' || line[0] == '#' then "" else [line[0]] + Body(line[1..])
  }

  datatype LineResult = Skipped | Beyond | Delivered(channel: Channel)

  const NAME_SIZE := 128

  /** One line. Without a separator in it the name ends at the null character put over the comment or the line end,
      and parsing goes on behind that; if nothing was overwritten, it goes on beyond the buffer. */
  function ParseLine(line: string): LineResult {
    var body := Body(line);
    if |Token(body)| + 1 > NAME_SIZE then Skipped
    else if ':' !in body && |body| >= |line| then Beyond
    else
      var rest := if ':' in body then Behind(body) else line[|body| + 1..];
      match ParseRest(Token(body), rest)
      case None => Skipped
      case Some(c) => Delivered(c)
  }

  /** `getline`: the first line with its end. */
  function FirstLine(file: string): (r: string)
    ensures |r| <= |file| && (file != "" ==> r != "")
  {
    if file == "" then "" else if file[0] == '\n' then "\n" else [file[0]] + FirstLine(file[1..])
  }

  /** The channels handed to the callback, whose `k`-th answer is `answer(k)`, and the value returned.
      `None` for a line that is parsed beyond the buffer. */
  function ParseFile(file: string, answer: nat -> int, k: nat): Found<(seq<Channel>, int)>
    decreases |file|
  {
    if file == "" then Some(([], 0))
    else
      var line := FirstLine(file);
      match ParseLine(line)
      case Beyond => None
      case Skipped => ParseFile(file[|line|..], answer, k)
      case Delivered(c) =>
        if answer(k) != 0 then Some(([c], if answer(k) < 0 then 0 else answer(k)))
        else
          match ParseFile(file[|line|..], answer, k + 1)
          case None => None
          case Some((cs, ret)) => Some(([c] + cs, ret))
  }

  /** `dvbcfg_zapchannel_parse` */
  method Parse(file: string, answer: nat -> int) returns (r: Found<(seq<Channel>, int)>)
    ensures r.Some? == ParseFile(file, answer, 0).Some?
    ensures r.Some? ==> r.value.0 == ParseFile(file, answer, 0).value.0 && r.value.1 == ParseFile(file, answer, 0).value.1
  {
    hide ParseLine, FirstLine;
    var pos := 0;
    var seen: seq<Channel> := [];
    while pos < |file|
      invariant pos <= |file|
      invariant var whole, more := ParseFile(file, answer, 0), ParseFile(file[pos..], answer, |seen|);
                && whole.Some? == more.Some?
                && (whole.Some? ==> whole.value.0 == seen + more.value.0 && whole.value.1 == more.value.1)
    {
      var line := FirstLine(file[pos..]);
      assert file[pos..][|line|..] == file[pos + |line|..];
      match ParseLine(line) {
        case Beyond =>
          return None;
        case Skipped =>
        case Delivered(c) =>
          var ret := answer(|seen|);
          if ret != 0 {
            return Some((seen + [c], if ret < 0 then 0 else ret));
          }
          seen := seen + [c];
      }
      pos := pos + |line|;
    }
    r := Some((seen, 0));
  }
}
