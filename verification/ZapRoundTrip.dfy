/** Channels saved to a file and parsed again. */
module ZapRoundTrip {
  import opened CfgText
  import opened Zapchannel

  /* ---- The tables ---- */

  predicate Lacks(s: string, c: char) { c !in s }

  predicate NamesLack(t: Table, c: char) { t.Entry? ==> Lacks(t.name, c) && NamesLack(t.more, c) }

  predicate NamesStart(t: Table, w: string) { t.Entry? ==> w <= t.name && NamesStart(t.more, w) }

  predicate Listed(v: nat, t: Table) { NameOf(v, t).Some? }

  lemma {:induction false} ShownLacks(v: nat, t: Table, c: char)
    requires Listed(v, t) && NamesLack(t, c)
    ensures Lacks(Shown(v, t), c)
  {
    if v != t.value {
      ShownLacks(v, t.more, c);
    }
  }

  lemma {:induction false} ShownStarts(v: nat, t: Table, w: string)
    requires Listed(v, t) && NamesStart(t, w)
    ensures w <= Shown(v, t)
  {
    if v != t.value {
      ShownStarts(v, t.more, w);
    }
  }

  /** No separator, comment or line end. */
  predicate PlainChar(c: char) { c > '#' && c != ':' }
  predicate Plain(s: string) { forall c <- s :: PlainChar(c) }

  predicate NamesPlain(t: Table) { t.Entry? ==> Plain(t.name) && NamesPlain(t.more) }

  /** A table whose names are plain and can be told apart. */
  predicate Sound(t: Table) { Distinct(t) && NamesPlain(t) }

  lemma {:induction false} ShownPlain(v: nat, t: Table)
    requires Listed(v, t) && NamesPlain(t)
    ensures Plain(Shown(v, t))
  {
    if v != t.value {
      ShownPlain(v, t.more);
    }
  }

  lemma FecsDistinct()
    ensures Distinct(FECS)
  {
  }

  lemma LastFecsPlain()
    ensures NamesPlain(FECS.more.more.more.more.more)
  {
  }

  lemma FecsPlain()
    ensures NamesPlain(FECS)
  {
    LastFecsPlain();
  }

  lemma FecsSound()
    ensures Sound(FECS)
  {
    hide Distinct, NamesPlain;
    FecsDistinct();
    FecsPlain();
  }

  lemma InversionsSound()
    ensures Sound(INVERSIONS)
  {
  }

  lemma DvbcModulationsSound()
    ensures Sound(DVBC_MODULATIONS)
  {
  }

  lemma BandwidthsDistinct()
    ensures Distinct(BANDWIDTHS)
  {
  }

  lemma LastBandwidthsPlain()
    ensures NamesPlain(BANDWIDTHS.more.more)
  {
  }

  lemma BandwidthsPlain()
    ensures NamesPlain(BANDWIDTHS)
  {
    LastBandwidthsPlain();
  }

  lemma BandwidthsSound()
    ensures Sound(BANDWIDTHS)
  {
    hide Distinct, NamesPlain;
    BandwidthsDistinct();
    BandwidthsPlain();
  }

  lemma ConstellationsSound()
    ensures Sound(CONSTELLATIONS)
  {
  }

  lemma TransmissionModesDistinct()
    ensures Distinct(TRANSMISSION_MODES)
  {
  }

  lemma TransmissionModesPlain()
    ensures NamesPlain(TRANSMISSION_MODES)
  {
  }

  lemma TransmissionModesSound()
    ensures Sound(TRANSMISSION_MODES)
  {
    hide Distinct, NamesPlain;
    TransmissionModesDistinct();
    TransmissionModesPlain();
  }

  lemma GuardIntervalsDistinct()
    ensures Distinct(GUARD_INTERVALS)
  {
  }

  lemma LastGuardIntervalPlain()
    ensures NamesPlain(GUARD_INTERVALS.more.more.more.more)
  {
  }

  lemma LastGuardIntervalsPlain()
    ensures NamesPlain(GUARD_INTERVALS.more.more.more)
  {
    LastGuardIntervalPlain();
  }

  lemma GuardIntervalsPlain()
    ensures NamesPlain(GUARD_INTERVALS)
  {
    LastGuardIntervalsPlain();
  }

  lemma GuardIntervalsSound()
    ensures Sound(GUARD_INTERVALS)
  {
    hide Distinct, NamesPlain;
    GuardIntervalsDistinct();
    GuardIntervalsPlain();
  }

  lemma HierarchiesDistinct()
    ensures Distinct(HIERARCHIES)
  {
  }

  lemma HierarchiesPlain()
    ensures NamesPlain(HIERARCHIES)
  {
  }

  lemma HierarchiesSound()
    ensures Sound(HIERARCHIES)
  {
    hide Distinct, NamesPlain;
    HierarchiesDistinct();
    HierarchiesPlain();
  }

  lemma AtscModulationsSound()
    ensures Sound(ATSC_MODULATIONS)
  {
  }

  lemma FecsStart()
    ensures NamesStart(FECS, "FEC_")
  {
  }

  lemma HierarchiesStart()
    ensures NamesStart(HIERARCHIES, "HIERARCHY_")
  {
  }

  lemma NoHierarchyInversions()
    ensures NamesLack(INVERSIONS, 'H')
  {
  }

  lemma NoHierarchyFecs()
    ensures NamesLack(FECS, 'H')
  {
  }

  lemma NoHierarchyModulations()
    ensures NamesLack(DVBC_MODULATIONS, 'H')
  {
  }

  lemma NoFecModulations()
    ensures NamesLack(ATSC_MODULATIONS, 'F')
  {
  }

  lemma ShownReads(v: nat, t: Table, rest: string)
    requires Sound(t) && Listed(v, t)
    ensures ParseSetting(Field(Shown(v, t), rest), t) == Parsed(v, rest)
  {
    ShownPlain(v, t);
    FieldSplits(Shown(v, t), rest);
    NamesDiffer(v, t);
  }

  lemma TablesSound()
    ensures Sound(INVERSIONS) && Sound(FECS) && Sound(DVBC_MODULATIONS) && Sound(BANDWIDTHS) && Sound(CONSTELLATIONS)
    ensures Sound(TRANSMISSION_MODES) && Sound(GUARD_INTERVALS) && Sound(HIERARCHIES) && Sound(ATSC_MODULATIONS)
  {
    hide Sound;
    InversionsSound();
    FecsSound();
    DvbcModulationsSound();
    BandwidthsSound();
    ConstellationsSound();
    TransmissionModesSound();
    GuardIntervalsSound();
    HierarchiesSound();
    AtscModulationsSound();
  }

  /* ---- The frontend type ---- */

  /** Channels whose settings are in the tables: all that a line can deliver. */
  predicate Tunable(c: Channel) {
    match c.tuning
    case Atsc(modulation) => c.inversion == INVERSION_AUTO && Listed(modulation, ATSC_MODULATIONS)
    case Dvbc(_, fec, modulation) => Listed(c.inversion, INVERSIONS) && Listed(fec, FECS) && Listed(modulation, DVBC_MODULATIONS)
    case Dvbs(polarization, _, _, fec) => c.inversion == INVERSION_AUTO && fec == FEC_AUTO && polarization in "hvlr"
    case Dvbt(bandwidth, high, low, constellation, mode, guard, hierarchy) =>
      && Listed(c.inversion, INVERSIONS) && Listed(bandwidth, BANDWIDTHS) && Listed(high, FECS) && Listed(low, FECS)
      && Listed(constellation, CONSTELLATIONS) && Listed(mode, TRANSMISSION_MODES)
      && Listed(guard, GUARD_INTERVALS) && Listed(hierarchy, HIERARCHIES)
  }

  function TypeOf(t: Tuning): FrontendType {
    match t
    case Atsc(_) => AtscType
    case Dvbc(_, _, _) => DvbC
    case Dvbs(_, _, _, _) => DvbS
    case Dvbt(_, _, _, _, _, _, _) => DvbT
  }

  lemma MissingChar(text: string, w: string, c: char)
    requires c in w && Lacks(text, c)
    ensures !Contains(text, w)
  {
    forall k | 0 <= k <= |text| && k + |w| <= |text|
      ensures !At(text, w, k)
    {
      assert c !in text[k..k + |w|];
    }
  }

  lemma ContainedBehind(f: string, rest: string, w: string)
    requires Contains(rest, w)
    ensures Contains(Field(f, rest), w)
  {
    var k: nat :| k <= |rest| && At(rest, w, k);
    var at := |f| + 1 + k;
    assert Field(f, rest)[at..at + |w|] == rest[k..k + |w|];
    assert At(Field(f, rest), w, at);
  }

  /** A field that starts with `w` stands behind a separator. */
  lemma ContainedStart(f: string, g: string, rest: string, v: string, w: string)
    requires v <= g && w == ":" + v
    ensures Contains(Field(f, Field(g, rest)), w)
  {
    var text := Field(f, Field(g, rest));
    assert text[|f|..|f| + |w|] == w;
    assert At(text, w, |f|);
  }

  /** The field at the front ends in a separator. */
  lemma ContainedFront(f: string, rest: string, k: nat, w: string)
    requires At(f + ":", w, k)
    ensures Contains(Field(f, rest), w)
  {
    assert Field(f, rest)[k..k + |w|] == (f + ":")[k..k + |w|];
    assert At(Field(f, rest), w, k);
  }

  lemma IntLacks(v: int, c: char)
    requires !NumberChar(c)
    ensures Lacks(IntText(v), c)
  {
    IntTextChars(v);
  }

  lemma PidsLack(ch: Channel, c: char)
    requires !NumberChar(c) && c != ':'
    ensures Lacks(Pids(ch), c)
  {
    IntLacks(ch.videoPid, c);
    IntLacks(ch.audioPid, c);
    IntLacks(ch.serviceId, c);
  }

  lemma GuessAtsc(c: Channel)
    requires c.tuning.Atsc? && Tunable(c)
    ensures Guess(Settings(c)) == AtscType
  {
    var f, rest := Shown(c.tuning.modulation, ATSC_MODULATIONS), Pids(c);
    NoFecModulations();
    ShownLacks(c.tuning.modulation, ATSC_MODULATIONS, 'F');
    PidsLack(c, 'F');
    MissingChar(Settings(c), ":FEC_", 'F');
    AtscMarks();
    ShownMarks(c.tuning.modulation, ATSC_MODULATIONS);
    if At(f + ":", "VSB:", 1) {
      ContainedFront(f, rest, 1, "VSB:");
    } else if At(f + ":", "VSB:", 2) {
      ContainedFront(f, rest, 2, "VSB:");
    } else {
      ContainedFront(f, rest, 0, "QAM_");
    }
  }

  predicate Marks(f: string) { At(f + ":", "VSB:", 1) || At(f + ":", "VSB:", 2) || At(f + ":", "QAM_", 0) }

  predicate NamesMark(t: Table) { t.Entry? ==> Marks(t.name) && NamesMark(t.more) }

  lemma AtscMarks()
    ensures NamesMark(ATSC_MODULATIONS)
  {
  }

  lemma {:induction false} ShownMarks(v: nat, t: Table)
    requires Listed(v, t) && NamesMark(t)
    ensures Marks(Shown(v, t))
  {
    if v != t.value {
      ShownMarks(v, t.more);
    }
  }

  lemma GuessDvbs(c: Channel)
    requires c.tuning.Dvbs? && Tunable(c)
    ensures Guess(Settings(c)) == DvbS
  {
    forall w <- ['F', 'V', 'Q']
      ensures Lacks(Settings(c), w)
    {
      IntLacks(c.tuning.diseqcSwitch, w);
      IntLacks(c.tuning.symbolRate / 1000, w);
      PidsLack(c, w);
    }
    MissingChar(Settings(c), ":FEC_", 'F');
    MissingChar(Settings(c), "VSB:", 'V');
    MissingChar(Settings(c), "QAM_", 'Q');
  }

  lemma GuessDvbc(c: Channel)
    requires c.tuning.Dvbc? && Tunable(c)
    ensures Guess(Settings(c)) == DvbC
  {
    var t := c.tuning;
    var rate, fec, modulation := IntText(Signed(t.symbolRate)), Shown(t.fec, FECS), Shown(t.modulation, DVBC_MODULATIONS);
    var inversion := Shown(c.inversion, INVERSIONS);
    FecsStart();
    ShownStarts(t.fec, FECS, "FEC_");
    ContainedStart(rate, fec, Field(modulation, Pids(c)), "FEC_", ":FEC_");
    ContainedBehind(inversion, Field(rate, Field(fec, Field(modulation, Pids(c)))), ":FEC_");
    NoHierarchyInversions();
    NoHierarchyFecs();
    NoHierarchyModulations();
    ShownLacks(c.inversion, INVERSIONS, 'H');
    ShownLacks(t.fec, FECS, 'H');
    ShownLacks(t.modulation, DVBC_MODULATIONS, 'H');
    IntLacks(Signed(t.symbolRate), 'H');
    PidsLack(c, 'H');
    MissingChar(Settings(c), ":HIERARCHY_", 'H');
  }

  /** The fields of a DVB-T channel from the constellation on. */
  function DvbtTail(c: Channel): string
    requires c.tuning.Dvbt?
  {
    var t := c.tuning;
    Field(Shown(t.constellation, CONSTELLATIONS), Field(Shown(t.mode, TRANSMISSION_MODES),
    Field(Shown(t.guard, GUARD_INTERVALS), Field(Shown(t.hierarchy, HIERARCHIES), Pids(c)))))
  }

  lemma TailShowsHierarchy(c: Channel)
    requires c.tuning.Dvbt? && Tunable(c)
    ensures Contains(DvbtTail(c), ":HIERARCHY_")
  {
    hide Shown;
    var t := c.tuning;
    var guard, hierarchy := Shown(t.guard, GUARD_INTERVALS), Shown(t.hierarchy, HIERARCHIES);
    var mode, w := Shown(t.mode, TRANSMISSION_MODES), ":HIERARCHY_";
    HierarchiesStart();
    ShownStarts(t.hierarchy, HIERARCHIES, "HIERARCHY_");
    ContainedStart(guard, hierarchy, Pids(c), "HIERARCHY_", w);
    ContainedBehind(mode, Field(guard, Field(hierarchy, Pids(c))), w);
    ContainedBehind(Shown(t.constellation, CONSTELLATIONS), Field(mode, Field(guard, Field(hierarchy, Pids(c)))), w);
  }

  lemma GuessDvbt(c: Channel)
    requires c.tuning.Dvbt? && Tunable(c)
    ensures Guess(Settings(c)) == DvbT
  {
    hide Shown, Contains;
    var t := c.tuning;
    var inversion, bandwidth := Shown(c.inversion, INVERSIONS), Shown(t.bandwidth, BANDWIDTHS);
    var high, low, w := Shown(t.highFec, FECS), Shown(t.lowFec, FECS), ":HIERARCHY_";
    FecsStart();
    ShownStarts(t.highFec, FECS, "FEC_");
    ContainedStart(bandwidth, high, Field(low, DvbtTail(c)), "FEC_", ":FEC_");
    ContainedBehind(inversion, Field(bandwidth, Field(high, Field(low, DvbtTail(c)))), ":FEC_");
    TailShowsHierarchy(c);
    ContainedBehind(low, DvbtTail(c), w);
    ContainedBehind(high, Field(low, DvbtTail(c)), w);
    ContainedBehind(bandwidth, Field(high, Field(low, DvbtTail(c))), w);
    ContainedBehind(inversion, Field(bandwidth, Field(high, Field(low, DvbtTail(c)))), w);
  }

  /** The frontend type is found again from the text alone. */
  lemma TypeGuessed(c: Channel)
    requires Tunable(c)
    ensures Guess(Settings(c)) == TypeOf(c.tuning)
  {
    match c.tuning
    case Atsc(_) => GuessAtsc(c);
    case Dvbc(_, _, _) => GuessDvbc(c);
    case Dvbs(_, _, _, _) => GuessDvbs(c);
    case Dvbt(_, _, _, _, _, _, _) => GuessDvbt(c);
  }

  /* ---- A line ---- */

  /** DVB-S files hold thousands only. */
  function Rounded(c: Channel): Channel {
    match c.tuning
    case Dvbs(polarization, switch, rate, fec) =>
      c.(frequency := c.frequency / 1000 * 1000, tuning := Dvbs(polarization, switch, rate / 1000 * 1000, fec))
    case _ => c
  }

  lemma SignedUnsigned(x: UInt32)
    ensures Unsigned(Signed(x)) == x
  {
  }

  lemma ThousandsKept(x: UInt32)
    ensures x / 1000 < 0x8000_0000 && Unsigned(x / 1000 * 1000) == x / 1000 * 1000 && Signed(x / 1000) == x / 1000
  {
  }

  lemma AtscReads(c: Channel, f: UInt32)
    requires c.tuning.Atsc? && Tunable(c)
    ensures ParseTuning(AtscType, f, Settings(c)) == Parsed((f, c.inversion, c.tuning), Pids(c))
  {
    hide Shown, ParseSetting;
    AtscModulationsSound();
    ShownReads(c.tuning.modulation, ATSC_MODULATIONS, Pids(c));
  }

  lemma DvbcReads(c: Channel, f: UInt32)
    requires c.tuning.Dvbc? && Tunable(c)
    ensures ParseTuning(DvbC, f, Settings(c)) == Parsed((f, c.inversion, c.tuning), Pids(c))
  {
    hide Shown, ParseSetting, ParseInt, Sound;
    var t := c.tuning;
    TablesSound();
    var more := Field(Shown(t.modulation, DVBC_MODULATIONS), Pids(c));
    ShownReads(t.modulation, DVBC_MODULATIONS, Pids(c));
    ShownReads(t.fec, FECS, more);
    IntFieldReads(Signed(t.symbolRate), Field(Shown(t.fec, FECS), more));
    SignedUnsigned(t.symbolRate);
    ShownReads(c.inversion, INVERSIONS, Field(IntText(Signed(t.symbolRate)), Field(Shown(t.fec, FECS), more)));
  }

  lemma DvbsReads(c: Channel)
    requires c.tuning.Dvbs? && Tunable(c)
    ensures var r := Rounded(c);
            ParseTuning(DvbS, Unsigned(c.frequency / 1000), Settings(c)) == Parsed((r.frequency, r.inversion, r.tuning), Pids(c))
  {
    hide ParseInt;
    var t := c.tuning;
    assert ToLower(t.polarization) == t.polarization;
    var more := Field(IntText(t.symbolRate / 1000), Pids(c));
    ThousandsKept(t.symbolRate);
    ThousandsKept(c.frequency);
    IntFieldReads(t.symbolRate / 1000, Pids(c));
    IntFieldReads(t.diseqcSwitch, more);
    FieldSplits([t.polarization], Field(IntText(t.diseqcSwitch), more));
  }

  lemma DvbtReads(c: Channel, f: UInt32)
    requires c.tuning.Dvbt? && Tunable(c)
    ensures ParseTuning(DvbT, f, Settings(c)) == Parsed((f, c.inversion, c.tuning), Pids(c))
  {
    hide Shown, ParseSetting, Sound;
    var t := c.tuning;
    TablesSound();
    var s1 := Field(Shown(t.hierarchy, HIERARCHIES), Pids(c));
    var s2 := Field(Shown(t.guard, GUARD_INTERVALS), s1);
    var s3 := Field(Shown(t.mode, TRANSMISSION_MODES), s2);
    var s4 := Field(Shown(t.constellation, CONSTELLATIONS), s3);
    var s5 := Field(Shown(t.lowFec, FECS), s4);
    var s6 := Field(Shown(t.highFec, FECS), s5);
    var s7 := Field(Shown(t.bandwidth, BANDWIDTHS), s6);
    ShownReads(t.hierarchy, HIERARCHIES, Pids(c));
    ShownReads(t.guard, GUARD_INTERVALS, s1);
    ShownReads(t.mode, TRANSMISSION_MODES, s2);
    ShownReads(t.constellation, CONSTELLATIONS, s3);
    ShownReads(t.lowFec, FECS, s4);
    ShownReads(t.highFec, FECS, s5);
    ShownReads(t.bandwidth, BANDWIDTHS, s6);
    ShownReads(c.inversion, INVERSIONS, s7);
  }

  lemma TuningReads(c: Channel)
    requires Tunable(c)
    ensures var r := Rounded(c);
            ParseTuning(TypeOf(c.tuning), Unsigned(ShownFrequency(c)), Settings(c)) ==
            Parsed((r.frequency, r.inversion, r.tuning), Pids(c))
  {
    hide ParseTuning, Settings, Pids;
    SignedUnsigned(c.frequency);
    ThousandsKept(c.frequency);
    match c.tuning
    case Atsc(_) => AtscReads(c, c.frequency);
    case Dvbc(_, _, _) => DvbcReads(c, c.frequency);
    case Dvbs(_, _, _, _) => DvbsReads(c);
    case Dvbt(_, _, _, _, _, _, _) => DvbtReads(c, c.frequency);
  }

  /** All of a line behind the name. */
  function RestOf(c: Channel): string { Field(IntText(ShownFrequency(c)), Settings(c)) }

  lemma RestReads(c: Channel)
    requires Tunable(c)
    ensures ParseRest(c.name, RestOf(c)) == Some(Rounded(c))
  {
    hide ParseInt, ParseTuning, Settings, Guess, ShownFrequency, Tunable;
    IntFieldReads(ShownFrequency(c), Settings(c));
    TypeGuessed(c);
    TuningReads(c);
    IntFieldReads(c.videoPid, Field(IntText(c.audioPid), IntText(c.serviceId)));
    IntFieldReads(c.audioPid, IntText(c.serviceId));
    LastIntReads(c.serviceId);
  }

  /** No comment and no line end. */
  predicate Quiet(s: string) { Lacks(s, '#') && Lacks(s, '\n') }

  predicate CleanName(n: string) { |n| < NAME_SIZE && Lacks(n, ':') && Quiet(n) }

  lemma FieldQuiet(f: string, rest: string)
    requires Quiet(f) && Quiet(rest)
    ensures Quiet(Field(f, rest))
  {
  }

  lemma ShownQuiet(v: nat, t: Table)
    requires Listed(v, t) && Sound(t)
    ensures Quiet(Shown(v, t))
  {
    ShownPlain(v, t);
  }

  lemma IntQuiet(v: int)
    ensures Quiet(IntText(v))
  {
    IntLacks(v, '#');
    IntLacks(v, '\n');
  }

  lemma PidsQuiet(c: Channel)
    ensures Quiet(Pids(c))
  {
    PidsLack(c, '#');
    PidsLack(c, '\n');
  }

  lemma SettingsQuiet(c: Channel)
    requires Tunable(c)
    ensures Quiet(Settings(c))
  {
    hide Shown, Pids, Quiet, Field, Sound;
    TablesSound();
    PidsQuiet(c);
    match c.tuning
    case Atsc(m) =>
      ShownQuiet(m, ATSC_MODULATIONS);
      FieldQuiet(Shown(m, ATSC_MODULATIONS), Pids(c));
    case Dvbc(rate, fec, m) =>
      ShownQuiet(c.inversion, INVERSIONS);
      IntQuiet(Signed(rate));
      ShownQuiet(fec, FECS);
      ShownQuiet(m, DVBC_MODULATIONS);
      var s1 := Field(Shown(m, DVBC_MODULATIONS), Pids(c));
      var s2 := Field(Shown(fec, FECS), s1);
      FieldQuiet(Shown(m, DVBC_MODULATIONS), Pids(c));
      FieldQuiet(Shown(fec, FECS), s1);
      FieldQuiet(IntText(Signed(rate)), s2);
      FieldQuiet(Shown(c.inversion, INVERSIONS), Field(IntText(Signed(rate)), s2));
    case Dvbs(p, switch, rate, _) =>
      IntQuiet(switch);
      IntQuiet(rate / 1000);
      PolarizationQuiet(p);
      var s1 := Field(IntText(rate / 1000), Pids(c));
      FieldQuiet(IntText(rate / 1000), Pids(c));
      FieldQuiet(IntText(switch), s1);
      FieldQuiet([ToLower(p)], Field(IntText(switch), s1));
    case Dvbt(bandwidth, high, low, constellation, mode, guard, hierarchy) =>
      ShownQuiet(c.inversion, INVERSIONS);
      ShownQuiet(bandwidth, BANDWIDTHS);
      ShownQuiet(high, FECS);
      ShownQuiet(low, FECS);
      ShownQuiet(constellation, CONSTELLATIONS);
      ShownQuiet(mode, TRANSMISSION_MODES);
      ShownQuiet(guard, GUARD_INTERVALS);
      ShownQuiet(hierarchy, HIERARCHIES);
      var s1 := Field(Shown(hierarchy, HIERARCHIES), Pids(c));
      var s2 := Field(Shown(guard, GUARD_INTERVALS), s1);
      var s3 := Field(Shown(mode, TRANSMISSION_MODES), s2);
      var s4 := Field(Shown(constellation, CONSTELLATIONS), s3);
      var s5 := Field(Shown(low, FECS), s4);
      var s6 := Field(Shown(high, FECS), s5);
      var s7 := Field(Shown(bandwidth, BANDWIDTHS), s6);
      FieldQuiet(Shown(hierarchy, HIERARCHIES), Pids(c));
      FieldQuiet(Shown(guard, GUARD_INTERVALS), s1);
      FieldQuiet(Shown(mode, TRANSMISSION_MODES), s2);
      FieldQuiet(Shown(constellation, CONSTELLATIONS), s3);
      FieldQuiet(Shown(low, FECS), s4);
      FieldQuiet(Shown(high, FECS), s5);
      FieldQuiet(Shown(bandwidth, BANDWIDTHS), s6);
      FieldQuiet(Shown(c.inversion, INVERSIONS), s7);
  }

  lemma PolarizationQuiet(p: char)
    requires p in "hvlr"
    ensures Quiet([ToLower(p)])
  {
  }

  lemma LineQuiet(c: Channel)
    requires CleanName(c.name) && Tunable(c)
    ensures Quiet(RestOf(c)) && Quiet(LineOf(c))
  {
    hide Settings, Field, Tunable;
    SettingsQuiet(c);
    IntQuiet(ShownFrequency(c));
    FieldQuiet(IntText(ShownFrequency(c)), Settings(c));
    FieldQuiet(c.name, RestOf(c));
  }

  lemma {:induction false} BodyEnds(s: string, t: string)
    requires Quiet(s) && (t == "" || t[0] == '\n' || t[0] == '#')
    ensures Body(s + t) == s
  {
    if s == "" {
      assert s + t == t;
    } else {
      assert (s + t)[1..] == s[1..] + t;
      BodyEnds(s[1..], t);
    }
  }

  /** A saved channel is delivered again, whatever its frontend type; only the rates of DVB-S lose what is below a thousand. */
  lemma LineReads(c: Channel)
    requires CleanName(c.name) && Tunable(c)
    ensures ParseLine(LineOf(c) + "\n") == Delivered(Rounded(c))
  {
    hide ParseRest, Settings, Tunable, Rounded;
    LineQuiet(c);
    BodyEnds(LineOf(c), "\n");
    FieldSplits(c.name, RestOf(c));
    RestReads(c);
  }

  /* ---- Exactly which channels survive ---- */

  lemma {:induction false} ValueListed(name: string, t: Table)
    ensures ValueOf(name, t).Some? ==> Listed(ValueOf(name, t).value, t)
  {
    if t.Entry? && name != t.name {
      ValueListed(name, t.more);
    }
  }

  lemma SettingListed(text: string, t: Table)
    ensures ParseSetting(text, t).Parsed? ==> Listed(ParseSetting(text, t).value, t)
  {
    ValueListed(Token(text), t);
  }

  /** Tunable, as a statement about what is parsed behind the frequency. */
  predicate TunableParts(inversion: nat, t: Tuning) {
    Tunable(Channel("", 0, inversion, t, 0, 0, 0))
  }

  lemma TuningTunable(kind: FrontendType, f: UInt32, text: string)
    ensures var r := ParseTuning(kind, f, text); r.Parsed? ==> TunableParts(r.value.1, r.value.2)
  {
    hide NameOf, ParseInt, ParseSetting, Listed;
    forall s: string, t: Table
      ensures ParseSetting(s, t).Parsed? ==> Listed(ParseSetting(s, t).value, t)
    {
      SettingListed(s, t);
    }
  }

  lemma {:induction false} BodyQuiet(line: string)
    ensures Quiet(Body(line)) && |Body(line)| <= |line|
  {
    if line != "" && line[0] != '\n' && line[0] != '#' {
      BodyQuiet(line[1..]);
    }
  }

  lemma {:induction false} TokenQuiet(text: string)
    requires Quiet(text)
    ensures Quiet(Token(text))
  {
    if text != "" && text[0] != ':' {
      assert forall c <- text[1..] :: c in text;
      TokenQuiet(text[1..]);
    }
  }

  /** Whatever is in a line, a channel delivered from it has a clean name and settings of its type. */
  lemma DeliveredTunable(line: string, c: Channel)
    requires ParseLine(line) == Delivered(c)
    ensures CleanName(c.name) && Tunable(c)
  {
    hide ParseTuning, ParseInt, Guess;
    var body := Body(line);
    BodyQuiet(line);
    TokenQuiet(body);
    var rest := if ':' in body then Behind(body) else line[|body| + 1..];
    var text := ParseInt(rest).rest;
    TuningTunable(Guess(text), Unsigned(ParseInt(rest).value), text);
  }

  /** A channel that a file can hold: a clean name, settings of its type, thousands for DVB-S. */
  predicate Canonical(c: Channel) { CleanName(c.name) && Tunable(c) && Rounded(c) == c }

  /** A channel comes back from its line exactly if it is canonical. */
  lemma SurvivesExactly(c: Channel)
    ensures ParseLine(LineOf(c) + "\n") == Delivered(c) <==> Canonical(c)
  {
    hide ParseLine, LineOf, Tunable, Rounded, CleanName;
    if ParseLine(LineOf(c) + "\n") == Delivered(c) {
      DeliveredTunable(LineOf(c) + "\n", c);
      LineReads(c);
    } else if Canonical(c) {
      LineReads(c);
    }
  }

  /* ---- A file ---- */

  lemma {:induction false} FirstLineEnds(s: string, rest: string)
    requires Lacks(s, '\n')
    ensures FirstLine(s + "\n" + rest) == s + "\n"
  {
    if s == "" {
      assert s + "\n" + rest == "\n" + rest;
    } else {
      assert (s + "\n" + rest)[1..] == s[1..] + "\n" + rest;
      FirstLineEnds(s[1..], rest);
    }
  }

  lemma {:induction false} SavedFromFront(c: Channel, cs: seq<Channel>)
    ensures Saved([c] + cs) == LineOf(c) + "\n" + Saved(cs)
    decreases |cs|
  {
    hide LineOf;
    if cs == [] {
      assert [c] + cs == [c] && [c][..0] == [];
    } else {
      var init := cs[..|cs| - 1];
      assert ([c] + cs)[..|cs|] == [c] + init;
      SavedFromFront(c, init);
    }
  }

  predicate AllCanonical(cs: seq<Channel>) { forall c <- cs :: Canonical(c) }

  /** A saved file parses to the list of channels saved, if they are canonical and the callback takes them all. */
  lemma {:induction false} FileRoundTrip(cs: seq<Channel>, answer: nat -> int, k: nat)
    requires AllCanonical(cs) && forall j: nat :: answer(j) == 0
    ensures ParseFile(Saved(cs), answer, k) == Some((cs, 0))
    decreases |cs|
  {
    hide LineOf, ParseLine, Tunable, Rounded, CleanName;
    if cs != [] {
      var c, more := cs[0], cs[1..];
      assert c in cs && cs == [c] + more;
      SavedFromFront(c, more);
      CanonicalQuiet(c);
      FirstLineEnds(LineOf(c), Saved(more));
      SurvivesExactly(c);
      var line := LineOf(c) + "\n";
      assert (line + Saved(more))[|line|..] == Saved(more);
      FileRoundTrip(more, answer, k + 1);
    }
  }

  lemma CanonicalQuiet(c: Channel)
    requires Canonical(c)
    ensures Lacks(LineOf(c), '\n')
  {
    LineQuiet(c);
  }

  /* ---- Comments ---- */

  /** Behind the first separator of a line a comment is dropped. */
  lemma CommentDropped(body: string, comment: string)
    requires Quiet(body) && ':' in body
    ensures ParseLine(body + "#" + comment) == ParseLine(body + "\n")
  {
    BodyEnds(body, "#" + comment);
    BodyEnds(body, "\n");
    assert body + "#" + comment == body + ("#" + comment);
  }

  /** In front of it the comment is taken for the rest of the line. */
  lemma CommentParsed(c: Channel)
    requires CleanName(c.name) && Tunable(c)
    ensures ParseLine(c.name + "#" + RestOf(c)) == Delivered(Rounded(c))
  {
    hide ParseRest, RestOf, Tunable, Rounded;
    BodyEnds(c.name, "#" + RestOf(c));
    assert c.name + "#" + RestOf(c) == c.name + ("#" + RestOf(c));
    var line := c.name + "#" + RestOf(c);
    assert line[|c.name| + 1..] == RestOf(c);
    assert c.name[..|c.name|] == c.name;
    FirstColon(c.name, |c.name|);
    RestReads(c);
  }

  /** A comment makes no difference to a line, whatever it says, exactly if a separator stands in front of it, or
      the name in front of it is too long for the line to be taken at all. */
  lemma CommentsMatterExactly(body: string)
    requires Quiet(body)
    ensures (forall comment: string :: ParseLine(body + "#" + comment) == ParseLine(body + "\n"))
      <==> ':' in body || |body| >= NAME_SIZE
  {
    if ':' in body {
      forall comment: string { CommentDropped(body, comment); }
    } else {
      assert body[..|body|] == body;
      FirstColon(body, |body|);
      BodyEnds(body, "\n");
      if |body| >= NAME_SIZE {
        forall comment: string ensures ParseLine(body + "#" + comment) == ParseLine(body + "\n") {
          BodyEnds(body, "#" + comment);
          assert body + "#" + comment == body + ("#" + comment);
        }
      } else {
        var c := Channel(body, 0, INVERSION_AUTO, Dvbs('h', 0, 0, FEC_AUTO), 0, 0, 0);
        CommentParsed(c);
        NothingBehind(body);
        assert ParseLine(body + "#" + RestOf(c)) != ParseLine(body + "\n");
      }
    }
  }

  /** A name alone is no channel. */
  lemma NothingBehind(body: string)
    requires Quiet(body) && ':' !in body && |body| < NAME_SIZE
    ensures ParseLine(body + "\n") == Skipped
  {
    BodyEnds(body, "\n");
    assert body[..|body|] == body;
    FirstColon(body, |body|);
    var line := body + "\n";
    assert line[|body| + 1..] == "";
    assert ParseInt("") == Failed;
  }
}
