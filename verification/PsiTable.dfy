/** Which sections of a table are still wanted (`section_ext_useful` of libucsi/section.h). */
module PsiTable {
  import opened Common

  /** The fields of a `section_ext` that are looked at; the version has five bits. */
  type version = x: int | 0 <= x < 32
  datatype Ext = Ext(version: version, number: byte, last: byte)

  /** `psi_table_state`; the version is 0xff after a reset. */
  datatype State = State(version: byte, next: nat, complete: bool, newTable: bool)

  const NO_VERSION: byte := 0xff

  function Useful(t: State, s: Ext): (bool, State) {
    if s.version == t.version && t.complete then (false, t)
    else if s.version != t.version then
      if s.number != 0 then (false, t)
      else (true, State(s.version, 1, s.last < 1, true))
    else if s.number == t.next then
      (true, t.(newTable := false, next := t.next + 1, complete := t.complete || s.last < t.next + 1))
    else (false, t)
  }

  class TableState {
    var versionNumber: byte
    var nextSectionNumber: nat
    var complete: bool
    var newTable: bool

    function Value(): State
      reads this
    {
      State(versionNumber, nextSectionNumber, complete, newTable)
    }

    /** `psi_table_state_reset` */
    method Reset()
      modifies this
      ensures Value() == old(Value()).(version := NO_VERSION)
    {
      versionNumber := NO_VERSION;
    }

    method ExtUseful(section: Ext) returns (useful: bool)
      modifies this
      ensures (useful, Value()) == Useful(old(Value()), section)
    {
      if section.version == versionNumber && complete {
        return false;
      }
      if section.version != versionNumber {
        if section.number != 0 {
          return false;
        }
        nextSectionNumber := 0;
        complete := false;
        versionNumber := section.version;
        newTable := true;
      } else if section.number == nextSectionNumber {
        newTable := false;
      } else {
        return false;
      }
      nextSectionNumber := nextSectionNumber + 1;
      if section.last < nextSectionNumber {
        complete := true;
      }
      useful := true;
    }
  }

  function After(t: State, run: seq<Ext>): State {
    if run == [] then t else Useful(After(t, run[..|run| - 1]), run[|run| - 1]).1
  }

  /** The useful sections of a run since the last one that began a table. */
  function Collected(t: State, run: seq<Ext>): seq<Ext> {
    if run == [] then []
    else
      var before, s := run[..|run| - 1], run[|run| - 1];
      var (useful, u) := Useful(After(t, before), s);
      if !useful then Collected(t, before) else if u.newTable then [s] else Collected(t, before) + [s]
  }

  /** `got` is the front of one table, in order, and stops where the table does. */
  predicate Front(t: State, got: seq<Ext>) {
    && t.next == |got| && t.version < 32
    && (forall i :: 0 <= i < |got| ==> got[i].version == t.version && got[i].number == i)
    && (forall i :: 0 <= i < |got| - 1 ==> got[i].last > i)
    && |got| > 0 && (t.complete <==> got[|got| - 1].last < |got|)
  }

  /** From a reset on, whatever sections come, in whatever order and of whatever versions, those reported useful
      since the table began are its sections 0, 1, 2 and so on without gap or repetition, and the table is
      complete exactly when the last of them is the last it has. */
  lemma {:induction false} TablesInOrder(t: State, run: seq<Ext>)
    requires t.version == NO_VERSION
    ensures After(t, run).version == NO_VERSION ==> After(t, run) == t && Collected(t, run) == []
    ensures After(t, run).version != NO_VERSION ==> Front(After(t, run), Collected(t, run))
  {
    if run != [] {
      TablesInOrder(t, run[..|run| - 1]);
    }
  }

  /** Of a run that began with a reset the next section is useful exactly if it has the number that is missing: 0 when
      its version is not that of the table being collected, else the number of sections collected, unless the last of
      them was the last of the table. Only one of another version is marked as the beginning of a table. */
  lemma UsefulExactly(t: State, run: seq<Ext>, s: Ext)
    requires t.version == NO_VERSION
    ensures var got := Collected(t, run);
      var same := got != [] && got[0].version == s.version;
      var (useful, u) := Useful(After(t, run), s);
      && (useful <==> s.number == (if same then |got| else 0) && (same ==> got[|got| - 1].last >= |got|))
      && (useful ==> Collected(t, run + [s]) == (if same then got + [s] else [s]) && (u.newTable <==> !same))
      && (!useful ==> Collected(t, run + [s]) == got && u == After(t, run))
  {
    hide After, Collected;
    TablesInOrder(t, run);
    CollectedNext(t, run, s);
  }

  lemma CollectedNext(t: State, run: seq<Ext>, s: Ext)
    ensures var got, (useful, u) := Collected(t, run), Useful(After(t, run), s);
      Collected(t, run + [s]) == if !useful then got else if u.newTable then [s] else got + [s]
  {
    hide Useful;
    var all := run + [s];
    assert all[..|all| - 1] == run && all[|all| - 1] == s;
  }

  /** Section `i` of a table. */
  function Numbered(v: version, last: byte, n: nat): (r: seq<Ext>)
    requires n <= last + 1
    ensures |r| == n && forall i :: 0 <= i < n ==> r[i] == Ext(v, i, last)
  {
    seq(n, i requires 0 <= i < n => Ext(v, i, last))
  }

  predicate OfOneTable(run: seq<Ext>, v: version, last: byte) {
    forall s <- run :: s.version == v && s.last == last
  }

  /** `run` contains the sections 0 to `n - 1` in this order, with anything in between. */
  function Progress(run: seq<Ext>, last: byte): (n: nat)
    ensures n <= last + 1
  {
    if run == [] then 0
    else
      var n := Progress(run[..|run| - 1], last);
      if n <= last && run[|run| - 1].number == n then n + 1 else n
  }

  /** Of one table all sections that come in their turn are taken, so that a carousel completes it. */
  lemma {:induction false} CarouselCompletes(t: State, run: seq<Ext>, v: version, last: byte)
    requires t.version == NO_VERSION && OfOneTable(run, v, last)
    ensures Collected(t, run) == Numbered(v, last, Progress(run, last))
    ensures Progress(run, last) > 0 ==> (After(t, run).complete <==> Progress(run, last) == last + 1)
  {
    if run != [] {
      TablesInOrder(t, run[..|run| - 1]);
      CarouselCompletes(t, run[..|run| - 1], v, last);
    }
  }
}
