/** Reassembly of man-machine interface objects (en50221_app_mmi.c). */
module Mmi {
  import opened Common

  const TAG_MENU_LAST := 0x9f8809
  const TAG_MENU_MORE := 0x9f880a
  const TAG_LIST_LAST := 0x9f880c
  const TAG_LIST_MORE := 0x9f880d
  const TAG_SUBTITLE_SEGMENT_LAST := 0x9f880e
  const TAG_SUBTITLE_SEGMENT_MORE := 0x9f880f
  const TAG_SUBTITLE_DOWNLOAD_LAST := 0x9f8814
  const TAG_SUBTITLE_DOWNLOAD_MORE := 0x9f8815

  /** The four objects that come in fragments. */
  datatype Kind = Menu | List | SubtitleSegment | SubtitleDownload

  function KindOf(tag: nat): Option<Kind> {
    if tag == TAG_MENU_LAST || tag == TAG_MENU_MORE then Some(Menu)
    else if tag == TAG_LIST_LAST || tag == TAG_LIST_MORE then Some(List)
    else if tag == TAG_SUBTITLE_SEGMENT_LAST || tag == TAG_SUBTITLE_SEGMENT_MORE then Some(SubtitleSegment)
    else if tag == TAG_SUBTITLE_DOWNLOAD_LAST || tag == TAG_SUBTITLE_DOWNLOAD_MORE then Some(SubtitleDownload)
    else None
  }

  /** `en50221_app_mmi_session`; an empty block stands for a null pointer. */
  datatype Session = Session(number: nat, menu: seq<byte>, list: seq<byte>, segment: seq<byte>, download: seq<byte>) {
    function Block(k: Kind): seq<byte> {
      match k
      case Menu => menu
      case List => list
      case SubtitleSegment => segment
      case SubtitleDownload => download
    }

    function Store(k: Kind, b: seq<byte>): (r: Session)
      ensures r.number == number
      ensures forall j :: r.Block(j) == if j == k then b else Block(j)
    {
      match k
      case Menu => this.(menu := b)
      case List => this.(list := b)
      case SubtitleSegment => this.(segment := b)
      case SubtitleDownload => this.(download := b)
    }
  }

  function Fresh(number: nat): Session { Session(number, [], [], [], []) }

  /** No two entries of the session list have the same number. */
  predicate Unique(ss: seq<Session>) {
    forall i, j :: 0 <= i < j < |ss| ==> ss[i].number != ss[j].number
  }

  predicate Has(ss: seq<Session>, number: nat) {
    exists i :: 0 <= i < |ss| && ss[i].number == number
  }

  /** The first session of that number, or the length of the list. */
  function Find(ss: seq<Session>, number: nat): (i: nat)
    ensures i <= |ss| && (i < |ss| <==> Has(ss, number))
    ensures i < |ss| ==> ss[i].number == number
    ensures forall j :: 0 <= j < i ==> ss[j].number != number
  {
    if ss == [] then 0
    else if ss[0].number == number then 0
    else
      var i := Find(ss[1..], number);
      assert forall j :: 0 < j < |ss| ==> ss[j] == ss[1..][j - 1];
      i + 1
  }

  /** What is kept for a session and kind. */
  function Kept(ss: seq<Session>, number: nat, k: Kind): seq<byte> {
    var i := Find(ss, number);
    if i < |ss| then ss[i].Block(k) else []
  }

  /** The result code and the data handed out. */
  datatype Outcome = Outcome(code: int, data: seq<byte>)

  /** `en50221_app_mmi_defragment` */
  function Defragment(ss: seq<Session>, number: nat, tag: nat, last: bool, data: seq<byte>): (Outcome, seq<Session>) {
    var i := Find(ss, number);
    if !last then
      var ts := if i < |ss| then ss else [Fresh(number)] + ss;
      var j := if i < |ss| then i else 0;
      match KindOf(tag)
      case None => (Outcome(-1, []), ts)
      case Some(k) => (Outcome(0, []), ts[j := ts[j].Store(k, ts[j].Block(k) + data)])
    else if i < |ss| then
      match KindOf(tag)
      case None => (Outcome(-1, []), ss)
      case Some(k) => (Outcome(2, ss[i].Block(k) + data), ss[i := ss[i].Store(k, [])])
    else (Outcome(1, data), ss)
  }

  /** `en50221_app_mmi_clear_session` */
  function Clear(ss: seq<Session>, number: nat): seq<Session> {
    var i := Find(ss, number);
    if i < |ss| then ss[..i] + ss[i + 1..] else ss
  }

  class AppMmi {
    var sessions: seq<Session>

    constructor ()
      ensures sessions == []
    {
      sessions := [];
    }

    method ClearSession(number: nat)
      modifies this
      ensures sessions == Clear(old(sessions), number)
    {
      var i := 0;
      while i < |sessions|
        invariant i <= Find(sessions, number) && sessions == old(sessions)
      {
        if sessions[i].number == number {
          sessions := sessions[..i] + sessions[i + 1..];
          return;
        }
        i := i + 1;
      }
    }

    method DefragmentInto(number: nat, tag: nat, last: bool, data: seq<byte>) returns (code: int, out: seq<byte>)
      modifies this
      ensures Outcome(code, out) == Defragment(old(sessions), number, tag, last, data).0
      ensures sessions == Defragment(old(sessions), number, tag, last, data).1
    {
      out := [];
      var i := 0;
      while i < |sessions| && sessions[i].number != number
        invariant i <= Find(sessions, number)
      {
        i := i + 1;
      }
      if !last {
        if i == |sessions| {
          sessions := [Fresh(number)] + sessions;
          i := 0;
        }
        var kind := KindOf(tag);
        if kind == None {
          return -1, [];
        }
        sessions := sessions[i := sessions[i].Store(kind.value, sessions[i].Block(kind.value) + data)];
        return 0, [];
      }
      if i < |sessions| {
        var kind := KindOf(tag);
        if kind == None {
          return -1, [];
        }
        out := sessions[i].Block(kind.value) + data;
        sessions := sessions[i := sessions[i].Store(kind.value, [])];
        return 2, out;
      }
      return 1, data;
    }
  }

  /* ---- Runs ---- */

  datatype Event = Fragment(number: nat, tag: nat, last: bool, data: seq<byte>) | Cleared(number: nat)

  function Step(ss: seq<Session>, e: Event): seq<Session> {
    match e
    case Fragment(n, t, last, d) => Defragment(ss, n, t, last, d).1
    case Cleared(n) => Clear(ss, n)
  }

  function After(run: seq<Event>): seq<Session> {
    if run == [] then [] else Step(After(run[..|run| - 1]), run[|run| - 1])
  }

  predicate Of(e: Event, number: nat, k: Kind) {
    e.Fragment? && e.number == number && KindOf(e.tag) == Some(k)
  }

  /** A fragment with more to come adds to what waits, a last one or a clearing leaves nothing. */
  function KeptAfter(kept: seq<byte>, e: Event, n: nat, k: Kind): seq<byte> {
    if e == Cleared(n) then []
    else if !Of(e, n, k) then kept
    else if e.last then [] else kept + e.data
  }

  predicate OpenAfter(open: bool, e: Event, n: nat) {
    e != Cleared(n) && (open || (e.Fragment? && e.number == n && !e.last))
  }

  /** The fragments of a session and kind since the last complete object or the last clearing, put together. */
  function Pending(run: seq<Event>, number: nat, k: Kind): seq<byte> {
    if run == [] then []
    else
      var before, e := Pending(run[..|run| - 1], number, k), run[|run| - 1];
      KeptAfter(before, e, number, k)
  }

  /** Some fragment with more to come was received for the session since it was last cleared. */
  predicate Opened(run: seq<Event>, number: nat) {
    if run == [] then false
    else OpenAfter(Opened(run[..|run| - 1], number), run[|run| - 1], number)
  }

  lemma FindUnique(ss: seq<Session>, i: nat)
    requires Unique(ss) && i < |ss|
    ensures Find(ss, ss[i].number) == i
  {
  }

  /** A list with one entry replaced, of the same number. */
  lemma Replaced(ss: seq<Session>, i: nat, s: Session, n: nat)
    requires Unique(ss) && i < |ss| && s.number == ss[i].number
    ensures Unique(ss[i := s]) && Find(ss[i := s], n) == Find(ss, n)
  {
    var ts, f := ss[i := s], Find(ss, n);
    assert forall j :: 0 <= j < |ss| ==> ts[j].number == ss[j].number;
    assert f < |ss| ==> Has(ts, n);
    if f < |ss| {
      FindUnique(ts, f);
    }
  }

  lemma Prepended(ss: seq<Session>, s: Session, n: nat)
    requires Unique(ss) && !Has(ss, s.number)
    ensures Unique([s] + ss) && Find([s] + ss, n) == if n == s.number then 0 else Find(ss, n) + 1
  {
    var ts := [s] + ss;
    assert ts[1..] == ss;
    assert forall j :: 0 < j < |ts| ==> ts[j] == ss[j - 1];
  }

  lemma Removed(ss: seq<Session>, i: nat, n: nat, k: Kind)
    requires Unique(ss) && i < |ss|
    ensures var ts := ss[..i] + ss[i + 1..];
            && Unique(ts) && (Has(ts, n) <==> Has(ss, n) && n != ss[i].number)
            && (n != ss[i].number ==> Kept(ts, n, k) == Kept(ss, n, k))
  {
    var ts, f := ss[..i] + ss[i + 1..], Find(ss, n);
    assert forall j :: 0 <= j < |ts| ==> ts[j] == ss[if j < i then j else j + 1];
    if f < |ss| && f != i {
      var g := if f < i then f else f - 1;
      assert ts[g] == ss[f];
      FindUnique(ts, g);
    }
  }

  /** One block changed. */
  lemma StoredKept(ss: seq<Session>, i: nat, j: Kind, b: seq<byte>, n: nat, k: Kind)
    requires Unique(ss) && i < |ss|
    ensures var ts := ss[i := ss[i].Store(j, b)];
            && Unique(ts) && (Has(ts, n) <==> Has(ss, n))
            && Kept(ts, n, k) == if n == ss[i].number && k == j then b else Kept(ss, n, k)
  {
    Replaced(ss, i, ss[i].Store(j, b), n);
    FindUnique(ss, i);
  }

  lemma OpenedKept(ss: seq<Session>, m: nat, n: nat, k: Kind)
    requires Unique(ss) && !Has(ss, m)
    ensures var ts := [Fresh(m)] + ss;
            && Unique(ts) && ts[0] == Fresh(m) && (Has(ts, n) <==> Has(ss, n) || n == m) && Kept(ts, n, k) == Kept(ss, n, k)
  {
    Prepended(ss, Fresh(m), n);
  }

  lemma FragmentKept(ss: seq<Session>, m: nat, tag: nat, last: bool, data: seq<byte>, n: nat, k: Kind)
    requires Unique(ss)
    ensures var ts := Defragment(ss, m, tag, last, data).1;
            && Unique(ts) && (Has(ts, n) <==> OpenAfter(Has(ss, n), Fragment(m, tag, last, data), n))
            && Kept(ts, n, k) == KeptAfter(Kept(ss, n, k), Fragment(m, tag, last, data), n, k)
  {
    hide Unique, Has, Kept;
    var i := Find(ss, m);
    var open := i < |ss|;
    if !open {
      NothingKept(ss, m, k);
    }
    if !last && !open {
      OpenedKept(ss, m, n, k);
    }
    var us := if !last && !open then [Fresh(m)] + ss else ss;
    var at := if open then i else 0;
    if KindOf(tag).Some? && (open || !last) {
      var j := KindOf(tag).value;
      KeptHere(us, at, n, j);
      StoredKept(us, at, j, if last then [] else us[at].Block(j) + data, n, k);
    }
  }

  lemma NothingKept(ss: seq<Session>, n: nat, k: Kind)
    requires !Has(ss, n)
    ensures Kept(ss, n, k) == []
  {
  }

  lemma KeptHere(ss: seq<Session>, i: nat, n: nat, k: Kind)
    requires Unique(ss) && i < |ss|
    ensures ss[i].number == n ==> Kept(ss, n, k) == ss[i].Block(k) && Has(ss, n)
  {
    FindUnique(ss, i);
  }

  /** What one event does to what is kept for any session and kind. */
  lemma StepKept(ss: seq<Session>, e: Event, n: nat, k: Kind)
    requires Unique(ss)
    ensures Unique(Step(ss, e)) && (Has(Step(ss, e), n) <==> OpenAfter(Has(ss, n), e, n))
    ensures Kept(Step(ss, e), n, k) == KeptAfter(Kept(ss, n, k), e, n, k)
  {
    match e
    case Cleared(m) =>
      var i := Find(ss, m);
      if i < |ss| {
        Removed(ss, i, n, k);
      }
    case Fragment(m, tag, last, data) =>
      FragmentKept(ss, m, tag, last, data, n, k);
  }

  /** Over every run: session numbers stay unique, and of every session and kind exactly its own fragments are kept. */
  lemma {:induction false} KeptIsPending(run: seq<Event>, n: nat, k: Kind)
    ensures Unique(After(run)) && (Has(After(run), n) <==> Opened(run, n))
    ensures Kept(After(run), n, k) == Pending(run, n, k)
  {
    if run != [] {
      KeptIsPending(run[..|run| - 1], n, k);
      StepKept(After(run[..|run| - 1]), run[|run| - 1], n, k);
    }
  }

  /** Under any interleaving a last fragment yields the concatenation of its own session's and kind's fragments. */
  lemma LastYieldsOwnFragments(run: seq<Event>, n: nat, tag: nat, data: seq<byte>)
    requires KindOf(tag).Some?
    ensures Defragment(After(run), n, tag, true, data).0 ==
            Outcome(if Opened(run, n) then 2 else 1, Pending(run, n, KindOf(tag).value) + data)
  {
    KeptIsPending(run, n, KindOf(tag).value);
  }

  predicate Concerns(e: Event, n: nat, k: Kind) { e == Cleared(n) || Of(e, n, k) }

  function Restricted(run: seq<Event>, n: nat, k: Kind): seq<Event> {
    if run == [] then []
    else Restricted(run[..|run| - 1], n, k) + if Concerns(run[|run| - 1], n, k) then [run[|run| - 1]] else []
  }

  /** Leaving out everything about other sessions and kinds changes nothing. */
  lemma {:induction false} OthersDoNotMatter(run: seq<Event>, n: nat, k: Kind)
    ensures Kept(After(run), n, k) == Kept(After(Restricted(run, n, k)), n, k)
  {
    hide Kept, Step, Unique;
    if run != [] {
      var before, e := run[..|run| - 1], run[|run| - 1];
      var r := Restricted(before, n, k);
      OthersDoNotMatter(before, n, k);
      KeptIsPending(before, n, k);
      KeptIsPending(r, n, k);
      StepKept(After(before), e, n, k);
      if Concerns(e, n, k) {
        StepKept(After(r), e, n, k);
        AfterOne(r, e);
      } else {
        assert Restricted(run, n, k) == r;
      }
    }
  }

  lemma AfterOne(r: seq<Event>, e: Event)
    ensures After(r + [e]) == Step(After(r), e)
  {
    assert (r + [e])[..|r|] == r;
  }

  /** Nothing waits behind this event. */
  predicate Ends(e: Event, n: nat, k: Kind) { e == Cleared(n) || (Of(e, n, k) && e.last) }

  /** All fragments of a session and kind, put together. */
  function Pieces(run: seq<Event>, n: nat, k: Kind): seq<byte> {
    if run == [] then []
    else Pieces(run[..|run| - 1], n, k) + if Of(run[|run| - 1], n, k) then run[|run| - 1].data else []
  }

  /** What waits is all that came since the last complete object. */
  lemma {:induction false} PendingSinceLast(run: seq<Event>, rest: seq<Event>, n: nat, k: Kind)
    requires run == [] || Ends(run[|run| - 1], n, k)
    requires forall e <- rest :: !Ends(e, n, k)
    ensures Pending(run + rest, n, k) == Pieces(rest, n, k)
    decreases |rest|
  {
    if rest == [] {
      assert run + rest == run;
    } else {
      var init := rest[..|rest| - 1];
      PendingSinceLast(run, init, n, k);
      assert rest[|rest| - 1] in rest;
      assert (run + rest)[..|run + rest| - 1] == run + init;
    }
  }

  /** What the caller is told, over every run: a fragment with more to come is kept silently, a last one is handed out,
   *  and a tag of no kind fails, but for a last fragment of a session that has kept nothing, which is handed out as it
   *  is. */
  lemma ReportsExactly(run: seq<Event>, n: nat, tag: nat, last: bool, data: seq<byte>)
    ensures Defragment(After(run), n, tag, last, data).0 ==
            if last && !Opened(run, n) then Outcome(1, data)
            else if KindOf(tag) == None then Outcome(-1, [])
            else if last then Outcome(2, Pending(run, n, KindOf(tag).value) + data)
            else Outcome(0, [])
  {
    KeptIsPending(run, n, Menu);
    if KindOf(tag).Some? { KeptIsPending(run, n, KindOf(tag).value); }
  }

  /** Two tags for each kind. */
  lemma KindsByTag(tag: nat)
    ensures KindOf(tag) == Some(Menu) <==> tag == 0x9f8809 || tag == 0x9f880a
    ensures KindOf(tag) == Some(List) <==> tag == 0x9f880c || tag == 0x9f880d
    ensures KindOf(tag) == Some(SubtitleSegment) <==> tag == 0x9f880e || tag == 0x9f880f
    ensures KindOf(tag) == Some(SubtitleDownload) <==> tag == 0x9f8814 || tag == 0x9f8815
  {
  }

  /** After a session is cleared nothing is kept for it, and for the others what was. */
  lemma ClearExactly(run: seq<Event>, n: nat, m: nat, k: Kind)
    ensures Kept(After(run + [Cleared(n)]), m, k) == if m == n then [] else Kept(After(run), m, k)
    ensures Has(After(run + [Cleared(n)]), m) <==> m != n && Has(After(run), m)
  {
    assert (run + [Cleared(n)])[..|run|] == run;
    KeptIsPending(run, m, k);
    KeptIsPending(run + [Cleared(n)], m, k);
  }
}
