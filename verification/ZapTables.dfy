/** The setting tables of the channel file against the enumerations of the frontend (libdvbapi/dvbfe.h). */
module ZapTables {
  import opened CfgText
  import opened Zapchannel

  /* ---- The enumerators, in their order ---- */

  const INVERSION_NAMES := ["INVERSION_OFF", "INVERSION_ON", "INVERSION_AUTO"]
  const FEC_NAMES :=
    ["FEC_NONE", "FEC_1_2", "FEC_2_3", "FEC_3_4", "FEC_4_5", "FEC_5_6", "FEC_6_7", "FEC_7_8", "FEC_8_9", "FEC_AUTO"]
  const CONSTELLATION_NAMES := ["QPSK", "QAM_16", "QAM_32", "QAM_64", "QAM_128", "QAM_256", "QAM_AUTO"]
  const DVBC_MODULATION_NAMES := ["QAM_16", "QAM_32", "QAM_64", "QAM_128", "QAM_256", "QAM_AUTO"]
  const ATSC_MODULATION_NAMES := ["QAM_64", "QAM_256", "8VSB", "16VSB"]
  const TRANSMISSION_MODE_NAMES := ["TRANSMISSION_MODE_2K", "TRANSMISSION_MODE_8K", "TRANSMISSION_MODE_AUTO"]
  const BANDWIDTH_NAMES := ["BANDWIDTH_8_MHZ", "BANDWIDTH_7_MHZ", "BANDWIDTH_6_MHZ", "BANDWIDTH_AUTO"]
  const GUARD_INTERVAL_NAMES :=
    ["GUARD_INTERVAL_1_32", "GUARD_INTERVAL_1_16", "GUARD_INTERVAL_1_8", "GUARD_INTERVAL_1_4", "GUARD_INTERVAL_AUTO"]
  const HIERARCHY_NAMES := ["HIERARCHY_NONE", "HIERARCHY_1", "HIERARCHY_2", "HIERARCHY_4", "HIERARCHY_AUTO"]

  /* ---- The tables ---- */

  /** Every entry is an enumerator under its own name. */
  predicate AllNamed(t: Table, names: seq<string>) {
    t.Entry? ==> t.value < |names| && names[t.value] == t.name && AllNamed(t.more, names)
  }

  /** A name stands for the place of its enumerator. */
  ghost predicate Agrees(t: Table, names: seq<string>) {
    && (forall v: nat :: NameOf(v, t) == if v < |names| then Some(names[v]) else None)
    && (forall v :: 0 <= v < |names| ==> ValueOf(names[v], t) == Some(v))
  }

  predicate Unequal(names: seq<string>) { forall i, j :: 0 <= i < j < |names| ==> names[i] != names[j] }

  /** The values of the entries. */
  function Values(t: Table): set<nat> { if t.End? then {} else {t.value} + Values(t.more) }

  lemma {:induction false} NamedValue(t: Table, names: seq<string>, v: nat)
    requires AllNamed(t, names)
    ensures v in Values(t) ==> v < |names|
    ensures NameOf(v, t) == if v in Values(t) then Some(names[v]) else None
  {
    if t.Entry? { NamedValue(t.more, names, v); }
  }

  lemma {:induction false} ValueNamed(t: Table, names: seq<string>, v: nat)
    requires AllNamed(t, names) && Unequal(names) && v in Values(t) && v < |names|
    ensures ValueOf(names[v], t) == Some(v)
  {
    if v != t.value {
      assert names[v] != names[t.value];
      ValueNamed(t.more, names, v);
    }
  }

  lemma NamedAgrees(t: Table, names: seq<string>)
    requires AllNamed(t, names) && Unequal(names) && forall v :: 0 <= v < |names| ==> v in Values(t)
    ensures Agrees(t, names)
  {
    forall v: nat ensures NameOf(v, t) == if v < |names| then Some(names[v]) else None { NamedValue(t, names, v); }
    forall v | 0 <= v < |names| ensures ValueOf(names[v], t) == Some(v) { ValueNamed(t, names, v); }
  }

  lemma InversionsAgree()
    ensures Agrees(INVERSIONS, INVERSION_NAMES)
  {
    NamedAgrees(INVERSIONS, INVERSION_NAMES);
  }

  lemma LastFecsNamed()
    ensures AllNamed(FECS.more.more.more.more.more, FEC_NAMES)
  {
  }

  lemma FecsNamed()
    ensures AllNamed(FECS, FEC_NAMES)
  {
    LastFecsNamed();
  }

  lemma FecNamesUnequal()
    ensures Unequal(FEC_NAMES)
  {
  }

  lemma FecsComplete()
    ensures Values(FECS) == {0, 1, 2, 3, 4, 5, 6, 7, 8, 9}
  {
  }

  lemma FecsAgree()
    ensures Agrees(FECS, FEC_NAMES)
  {
    hide AllNamed, Unequal, Values, Agrees;
    FecsNamed();
    FecNamesUnequal();
    FecsComplete();
    NamedAgrees(FECS, FEC_NAMES);
  }

  lemma ConstellationsAgree()
    ensures Agrees(CONSTELLATIONS, CONSTELLATION_NAMES)
  {
    NamedAgrees(CONSTELLATIONS, CONSTELLATION_NAMES);
  }

  lemma DvbcModulationsAgree()
    ensures Agrees(DVBC_MODULATIONS, DVBC_MODULATION_NAMES)
  {
    NamedAgrees(DVBC_MODULATIONS, DVBC_MODULATION_NAMES);
  }

  lemma AtscModulationsAgree()
    ensures Agrees(ATSC_MODULATIONS, ATSC_MODULATION_NAMES)
  {
    NamedAgrees(ATSC_MODULATIONS, ATSC_MODULATION_NAMES);
  }

  lemma TransmissionModesAgree()
    ensures Agrees(TRANSMISSION_MODES, TRANSMISSION_MODE_NAMES)
  {
    NamedAgrees(TRANSMISSION_MODES, TRANSMISSION_MODE_NAMES);
  }

  lemma BandwidthsAgree()
    ensures Agrees(BANDWIDTHS, BANDWIDTH_NAMES)
  {
    NamedAgrees(BANDWIDTHS, BANDWIDTH_NAMES);
  }

  lemma GuardIntervalsAgree()
    ensures Agrees(GUARD_INTERVALS, GUARD_INTERVAL_NAMES)
  {
    NamedAgrees(GUARD_INTERVALS, GUARD_INTERVAL_NAMES);
  }

  lemma HierarchiesAgree()
    ensures Agrees(HIERARCHIES, HIERARCHY_NAMES)
  {
    NamedAgrees(HIERARCHIES, HIERARCHY_NAMES);
  }

  /** In every table a name stands for just the enumerator of that name, and every enumerator is there but
   *  DVBFE_ATSC_MOD_AUTO. */
  lemma TablesAgree()
    ensures Agrees(INVERSIONS, INVERSION_NAMES) && Agrees(FECS, FEC_NAMES) && Agrees(CONSTELLATIONS, CONSTELLATION_NAMES)
    ensures Agrees(DVBC_MODULATIONS, DVBC_MODULATION_NAMES) && Agrees(ATSC_MODULATIONS, ATSC_MODULATION_NAMES)
    ensures Agrees(TRANSMISSION_MODES, TRANSMISSION_MODE_NAMES) && Agrees(BANDWIDTHS, BANDWIDTH_NAMES)
    ensures Agrees(GUARD_INTERVALS, GUARD_INTERVAL_NAMES) && Agrees(HIERARCHIES, HIERARCHY_NAMES)
    ensures NameOf(INVERSION_AUTO, INVERSIONS) == Some("INVERSION_AUTO") && NameOf(FEC_AUTO, FECS) == Some("FEC_AUTO")
  {
    hide Agrees;
    InversionsAgree();
    FecsAgree();
    ConstellationsAgree();
    DvbcModulationsAgree();
    AtscModulationsAgree();
    TransmissionModesAgree();
    BandwidthsAgree();
    GuardIntervalsAgree();
    HierarchiesAgree();
    assert NameOf(FEC_AUTO, FECS) == Some("FEC_AUTO") by { AutoNamed(); }
  }

  lemma AutoNamed()
    ensures NameOf(FEC_AUTO, FECS) == Some("FEC_AUTO")
  {
    FecsAgree();
  }
}
